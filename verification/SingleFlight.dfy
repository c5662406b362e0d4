/**
 The single-flight resize protocol, as a transition system over any number of concurrent callers.

 A caller checks the cache, then either joins the leader registered for its key or registers itself and
 leads. A leader downloads, processes and uploads; its guard records the result and, when dropped, first
 removes the map entry and then broadcasts. Those are two steps, so a new leader for the same key may
 start in between. Any caller may be cancelled wherever it awaits.
 */
module SingleFlight {
  import opened Common

  type Key = string
  type CallerId = nat
  type ChannelId = nat

  /** The failure a follower sees when its leader never finished, or one that the work itself reported. */
  datatype Failure = Abandoned(key: Key) | WorkError(text: string)

  /** What is broadcast and returned: the URL of a key, or a failure. */
  type Message = Result<Key, Failure>

  /** How far `do_resize_work` has got. In `Stored` the upload took effect but has not returned yet. */
  datatype Stage = Downloading | Processing | Uploading | Stored

  datatype Phase =
    | Checking
    | Checked
    | Following(channel: ChannelId, seen: nat)
    | Working(channel: ChannelId, stage: Stage)
    | Worked(channel: ChannelId, outcome: Message)
    | Guarded(channel: ChannelId, recorded: Option<Message>)
    | Sending(channel: ChannelId, message: Message, own: Option<Message>)
    | Returned(message: Message, followed: Option<ChannelId>)
    | Cancelled

  /** `checkedAt` and `checkFailed` tell when the cache check ran and whether it returned an error. */
  datatype Caller = Caller(key: Key, phase: Phase, checkedAt: nat, checkFailed: bool)

  /** A broadcast channel of capacity one, with the caller that created it. */
  datatype Channel = Channel(key: Key, leader: CallerId, sent: seq<Message>, open: bool)

  datatype Upload = Upload(key: Key, at: nat)

  datatype State = State(
    callers: seq<Caller>,
    inFlight: map<Key, ChannelId>,
    channels: seq<Channel>,
    uploads: seq<Upload>,
    clock: nat)

  const INITIAL: State := State([], map[], [], [], 0)

  predicate IsStored(s: State, key: Key) {
    exists u <- s.uploads :: u.key == key
  }

  datatype Event =
    | Arrive(key: Key)
    | CheckHit(caller: CallerId)
    | CheckMiss(caller: CallerId)
    | CheckError(caller: CallerId)
    | Enter(caller: CallerId)
    | Downloaded(caller: CallerId)
    | Processed(caller: CallerId)
    | StoreEffect(caller: CallerId)
    | UploadReturned(caller: CallerId)
    | WorkFailed(caller: CallerId, text: string)
    | Finish(caller: CallerId)
    | DropRemove(caller: CallerId)
    | DropSend(caller: CallerId)
    | Receive(caller: CallerId)
    | Cancel(caller: CallerId)

  /** A receiver can go on when something was sent since it subscribed, or the sender is gone. */
  predicate CanReceive(s: State, p: Phase) {
    && p.Following? && p.channel < |s.channels|
    && (|s.channels[p.channel].sent| > p.seen || !s.channels[p.channel].open)
  }

  predicate Enabled(s: State, e: Event) {
    if e.Arrive? then true
    else
      e.caller < |s.callers| &&
      var caller := s.callers[e.caller];
      var p := caller.phase;
      match e
      case CheckHit(_) => p.Checking? && IsStored(s, caller.key)
      case CheckMiss(_) => p.Checking? && !IsStored(s, caller.key)
      case CheckError(_) => p.Checking?
      case Enter(_) => p.Checked?
      case Downloaded(_) => p.Working? && p.stage.Downloading?
      case Processed(_) => p.Working? && p.stage.Processing?
      case StoreEffect(_) => p.Working? && p.stage.Uploading?
      case UploadReturned(_) => p.Working? && p.stage.Stored?
      case WorkFailed(_, _) => p.Working?
      case Finish(_) => p.Worked?
      case DropRemove(_) => p.Guarded?
      case DropSend(_) => p.Sending? && p.channel < |s.channels|
      case Receive(_) => CanReceive(s, p)
      case Cancel(_) => p.Checking? || p.Following? || p.Working?
  }

  function Move(s: State, c: CallerId, phase: Phase): State
    requires c < |s.callers|
  {
    s.(callers := s.callers[c := s.callers[c].(phase := phase)])
  }

  /** The cache check of a caller: notes when it ran and whether it failed. */
  function NoteCheck(s: State, c: CallerId, failed: bool, phase: Phase): State
    requires c < |s.callers|
  {
    s.(callers := s.callers[c := s.callers[c].(phase := phase, checkedAt := s.clock, checkFailed := failed)])
  }

  /** What a receiver gets: the one retained message, or an error when it lags or the sender is gone. */
  function Received(s: State, p: Phase, key: Key): Message
    requires CanReceive(s, p)
  {
    var sent := s.channels[p.channel].sent;
    if |sent| == p.seen + 1 then sent[p.seen] else Err(Abandoned(key))
  }

  function Apply(s: State, e: Event): State
    requires Enabled(s, e)
  {
    Effect(s, e).(clock := s.clock + 1)
  }

  function Effect(s: State, e: Event): State
    requires Enabled(s, e)
  {
    match e
    case Arrive(key) => s.(callers := s.callers + [Caller(key, Checking, 0, false)])
    case CheckHit(c) => NoteCheck(s, c, false, Returned(Ok(s.callers[c].key), None))
    case CheckMiss(c) => NoteCheck(s, c, false, Checked)
    case CheckError(c) => NoteCheck(s, c, true, Checked)
    case Enter(c) =>
      var key := s.callers[c].key;
      if key in s.inFlight then
        var ch := s.inFlight[key];
        Move(s, c, Following(ch, if ch < |s.channels| then |s.channels[ch].sent| else 0))
      else
        var ch := |s.channels|;
        Move(s, c, Working(ch, Downloading)).(
          inFlight := s.inFlight[key := ch], channels := s.channels + [Channel(key, c, [], true)])
    case Downloaded(c) => Move(s, c, Working(s.callers[c].phase.channel, Processing))
    case Processed(c) => Move(s, c, Working(s.callers[c].phase.channel, Uploading))
    case StoreEffect(c) =>
      Move(s, c, Working(s.callers[c].phase.channel, Stored)).(
        uploads := s.uploads + [Upload(s.callers[c].key, s.clock)])
    case UploadReturned(c) => Move(s, c, Worked(s.callers[c].phase.channel, Ok(s.callers[c].key)))
    case WorkFailed(c, text) => Move(s, c, Worked(s.callers[c].phase.channel, Err(WorkError(text))))
    case Finish(c) => Move(s, c, Guarded(s.callers[c].phase.channel, Some(s.callers[c].phase.outcome)))
    case DropRemove(c) =>
      var key, recorded := s.callers[c].key, s.callers[c].phase.recorded;
      if key in s.inFlight then
        var message := UnwrapOr(recorded, Err(Abandoned(key)));
        Move(s, c, Sending(s.inFlight[key], message, recorded)).(inFlight := s.inFlight - {key})
      else Move(s, c, LeaderDone(recorded))
    case DropSend(c) =>
      var p := s.callers[c].phase;
      var channel := s.channels[p.channel];
      Move(s, c, LeaderDone(p.own)).(
        channels := s.channels[p.channel := channel.(sent := channel.sent + [p.message], open := false)])
    case Receive(c) =>
      var p := s.callers[c].phase;
      Move(s, c, Returned(Received(s, p, s.callers[c].key), Some(p.channel)))
    case Cancel(c) =>
      var p := s.callers[c].phase;
      Move(s, c, if p.Working? then Guarded(p.channel, None) else Cancelled)
  }

  function LeaderDone(own: Option<Message>): Phase {
    if own.Some? then Returned(own.value, None) else Cancelled
  }

  // ---------------------------------------------------------------------------------------------
  // Runs and the invariant
  // ---------------------------------------------------------------------------------------------

  /** The state after a list of events, if each was enabled when it happened. */
  function Run(s: State, events: seq<Event>): Option<State> {
    if events == [] then Some(s)
    else
      var before :- Run(s, events[..|events| - 1]);
      if Enabled(before, events[|events| - 1]) then Some(Apply(before, events[|events| - 1])) else None
  }

  /** A leader that has not removed its map entry yet. */
  predicate Registered(p: Phase) {
    p.Working? || p.Worked? || p.Guarded?
  }

  /** A leader that has yet to send on its channel. */
  predicate Leads(p: Phase, ch: ChannelId) {
    (Registered(p) || p.Sending?) && p.channel == ch
  }

  /** A message that claims success does so for its own key, which is stored. */
  predicate Truthful(s: State, m: Message, key: Key) {
    m.Ok? ==> m.value == key && IsStored(s, key)
  }

  predicate CallerOk(s: State, c: CallerId)
    requires c < |s.callers|
  {
    var caller := s.callers[c];
    var p := caller.phase;
    && (!p.Checking? ==> caller.checkedAt < s.clock || p.Cancelled?)
    && (Registered(p) || p.Sending? || p.Following? ==>
          p.channel < |s.channels| && s.channels[p.channel].key == caller.key)
    && (Registered(p) || p.Sending? ==> s.channels[p.channel].leader == c)
    && (Registered(p) ==> caller.key in s.inFlight && s.inFlight[caller.key] == p.channel)
    && (p.Following? ==> p.seen == 0)
    && (p.Working? && p.stage.Stored? ==> IsStored(s, caller.key))
    && (p.Worked? ==> Truthful(s, p.outcome, caller.key))
    && (p.Guarded? && p.recorded.Some? ==> Truthful(s, p.recorded.value, caller.key))
    && (p.Sending? ==> Truthful(s, p.message, caller.key)
                       && p.message == UnwrapOr(p.own, Err(Abandoned(caller.key))))
    && (p.Returned? ==> Truthful(s, p.message, caller.key))
    && (p.Returned? && p.followed.Some? ==>
          && p.followed.value < |s.channels|
          && s.channels[p.followed.value].key == caller.key
          && s.channels[p.followed.value].sent == [p.message])
  }

  /** After a miss, every upload of the key is later than the check. */
  predicate CheckOk(s: State, c: CallerId)
    requires c < |s.callers|
  {
    var caller := s.callers[c];
    caller.phase.Checking? || caller.phase.Cancelled? || caller.checkFailed
    || (caller.phase.Returned? && caller.phase.followed.None?)
    || forall u <- s.uploads :: u.key == caller.key ==> caller.checkedAt < u.at
  }

  /** A channel has a leader yet to send and no message, or it is closed and holds exactly one. */
  predicate ChannelOk(s: State, ch: ChannelId)
    requires ch < |s.channels|
  {
    var channel := s.channels[ch];
    && channel.leader < |s.callers|
    && s.callers[channel.leader].key == channel.key
    && var p := s.callers[channel.leader].phase;
       if Leads(p, ch) then channel.open && channel.sent == []
       else
         && !channel.open && |channel.sent| == 1 && Truthful(s, channel.sent[0], channel.key)
         && (p.Returned? || p.Cancelled?)
         && (p.Returned? ==> channel.sent[0] == p.message && p.followed.None?)
         && (p.Cancelled? ==> channel.sent[0] == Err(Abandoned(channel.key)))
  }

  predicate EntryOk(s: State, key: Key)
    requires key in s.inFlight
  {
    var ch := s.inFlight[key];
    && ch < |s.channels| && s.channels[ch].key == key && s.channels[ch].leader < |s.callers|
    && Registered(s.callers[s.channels[ch].leader].phase)
    && s.callers[s.channels[ch].leader].phase.channel == ch
  }

  predicate Invariant(s: State) {
    && (forall c | 0 <= c < |s.callers| :: CallerOk(s, c))
    && (forall c | 0 <= c < |s.callers| :: CheckOk(s, c))
    && (forall ch | 0 <= ch < |s.channels| :: ChannelOk(s, ch))
    && (forall key <- s.inFlight :: EntryOk(s, key))
    && (forall u <- s.uploads :: u.at < s.clock)
  }

  lemma StoredGrows(s: State, t: State)
    requires s.uploads <= t.uploads
    ensures forall key :: IsStored(s, key) ==> IsStored(t, key)
  {
    assert forall u <- s.uploads :: u in t.uploads;
  }

  /** What a step leaves alone. */
  lemma Footprint(s: State, e: Event)
    requires Enabled(s, e)
    ensures var t := Apply(s, e);
            && t.clock == s.clock + 1 && s.uploads <= t.uploads
            && |t.callers| >= |s.callers| && |t.channels| >= |s.channels|
            && (forall d | 0 <= d < |s.callers| && (e.Arrive? || d != e.caller) :: t.callers[d] == s.callers[d])
            && (forall ch | 0 <= ch < |s.channels| ::
                  t.channels[ch] == s.channels[ch] || (e.DropSend? && ch == s.callers[e.caller].phase.channel
                    && t.channels[ch].key == s.channels[ch].key && t.channels[ch].leader == s.channels[ch].leader))
            && (forall key <- s.inFlight ::
                  (key in t.inFlight && t.inFlight[key] == s.inFlight[key])
                  || (e.DropRemove? && key == s.callers[e.caller].key))
  {
  }

  /** A step of one caller leaves what is known of every other caller true. */
  lemma BystanderKept(s: State, e: Event, c: CallerId)
    requires Invariant(s) && Enabled(s, e)
    requires c < |s.callers| && (e.Arrive? || c != e.caller)
    ensures CallerOk(Apply(s, e), c)
  {
    StoredGrows(s, Apply(s, e));
    Footprint(s, e);
    assert CallerOk(s, c);
    if !e.Arrive? {
      assert CallerOk(s, e.caller);
      if e.DropSend? && s.callers[c].phase.Returned? && s.callers[c].phase.followed.Some? {
        assert ChannelOk(s, s.callers[e.caller].phase.channel);
      }
    }
    hide Effect, Apply, IsStored;
  }

  /** What a step makes of the caller that takes it. */
  lemma MoverKept(s: State, e: Event)
    requires Invariant(s) && Enabled(s, e) && !e.Arrive?
    ensures CallerOk(Apply(s, e), e.caller)
  {
    var c := e.caller;
    var caller := s.callers[c];
    var t := Apply(s, e);
    assert CallerOk(s, c);
    if e.StoreEffect? {
      assert t.uploads[|s.uploads|].key == caller.key;
      assert IsStored(t, caller.key);
    } else {
      assert t.uploads == s.uploads;
      if e.Enter? && caller.key in s.inFlight {
        assert EntryOk(s, caller.key);
        assert ChannelOk(s, s.inFlight[caller.key]);
      } else if e.Receive? {
        assert ChannelOk(s, caller.phase.channel);
      }
    }
  }

  lemma CallersKept(s: State, e: Event)
    requires Invariant(s) && Enabled(s, e)
    ensures forall c | 0 <= c < |Apply(s, e).callers| :: CallerOk(Apply(s, e), c)
  {
    var t := Apply(s, e);
    forall c | 0 <= c < |t.callers|
      ensures CallerOk(t, c)
    {
      if c < |s.callers| {
        if e.Arrive? || c != e.caller {
          BystanderKept(s, e, c);
        } else {
          MoverKept(s, e);
        }
      }
    }
  }

  lemma ChecksKept(s: State, e: Event)
    requires Invariant(s) && Enabled(s, e)
    ensures forall c | 0 <= c < |Apply(s, e).callers| :: CheckOk(Apply(s, e), c)
  {
    var t := Apply(s, e);
    forall c | 0 <= c < |t.callers|
      ensures CheckOk(t, c)
    {
      if c < |s.callers| {
        assert CallerOk(s, c) && CheckOk(s, c);
      }
    }
  }

  lemma ChannelKept(s: State, e: Event, ch: ChannelId)
    requires Invariant(s) && Enabled(s, e) && ch < |s.channels|
    ensures ChannelOk(Apply(s, e), ch)
  {
    hide IsStored;
    assert ChannelOk(s, ch);
    if e.Arrive? || s.channels[ch].leader != e.caller {
      var t := Apply(s, e);
      StoredGrows(s, t);
      Footprint(s, e);
      if !e.Arrive? {
        assert CallerOk(s, e.caller);
      }
      hide Effect, Apply;
    } else {
      OwnChannelKept(s, e, ch);
    }
  }

  lemma OwnChannelKept(s: State, e: Event, ch: ChannelId)
    requires Invariant(s) && Enabled(s, e) && ch < |s.channels|
    requires !e.Arrive? && s.channels[ch].leader == e.caller
    ensures ChannelOk(Apply(s, e), ch)
  {
    hide IsStored;
    var t := Apply(s, e);
    StoredGrows(s, t);
    assert s.uploads <= t.uploads;
    assert ChannelOk(s, ch) && CallerOk(s, e.caller);
    hide Invariant;
  }

  lemma ChannelsKept(s: State, e: Event)
    requires Invariant(s) && Enabled(s, e)
    ensures forall ch | 0 <= ch < |Apply(s, e).channels| :: ChannelOk(Apply(s, e), ch)
  {
    var t := Apply(s, e);
    forall ch | 0 <= ch < |t.channels|
      ensures ChannelOk(t, ch)
    {
      if ch < |s.channels| {
        ChannelKept(s, e, ch);
      }
    }
  }

  lemma EntriesKept(s: State, e: Event)
    requires Invariant(s) && Enabled(s, e)
    ensures forall key <- Apply(s, e).inFlight :: EntryOk(Apply(s, e), key)
  {
    var t := Apply(s, e);
    forall key | key in t.inFlight
      ensures EntryOk(t, key)
    {
      if key in s.inFlight {
        assert EntryOk(s, key);
      }
      if !e.Arrive? {
        assert CallerOk(s, e.caller);
      }
    }
  }

  /** Every step keeps the invariant. */
  lemma StepKeepsInvariant(s: State, e: Event)
    requires Invariant(s) && Enabled(s, e)
    ensures Invariant(Apply(s, e))
  {
    hide CallerOk, CheckOk, ChannelOk, EntryOk;
    CallersKept(s, e);
    ChecksKept(s, e);
    ChannelsKept(s, e);
    EntriesKept(s, e);
  }

  /** Every state that a run from the start can reach satisfies the invariant. */
  lemma {:induction false} RunsKeepInvariant(events: seq<Event>)
    ensures Run(INITIAL, events).Some? ==> Invariant(Run(INITIAL, events).value)
  {
    hide Invariant, Enabled, Apply;
    if events == [] {
      InitialInvariant();
    } else {
      var before := Run(INITIAL, events[..|events| - 1]);
      RunsKeepInvariant(events[..|events| - 1]);
      if before.Some? && Enabled(before.value, events[|events| - 1]) {
        StepKeepsInvariant(before.value, events[|events| - 1]);
      }
    }
  }

  lemma InitialInvariant()
    ensures Invariant(INITIAL)
  {
  }

  ghost predicate Reachable(s: State) {
    exists events :: Run(INITIAL, events) == Some(s)
  }

  lemma ReachableInvariant(s: State)
    requires Reachable(s)
    ensures Invariant(s)
  {
    var events :| Run(INITIAL, events) == Some(s);
    RunsKeepInvariant(events);
  }

  // ---------------------------------------------------------------------------------------------
  // Liveness: no follower is stranded
  // ---------------------------------------------------------------------------------------------

  /**
   A waiting follower's channel either has a live leader that has yet to send, or it holds exactly one
   message, which is what the follower receives: the closed and lagged outcomes of `recv` never happen.
   */
  lemma FollowerHasLeaderOrMessage(s: State, c: CallerId)
    requires Reachable(s) && c < |s.callers| && s.callers[c].phase.Following?
    ensures var p := s.callers[c].phase;
            && p.channel < |s.channels|
            && var channel := s.channels[p.channel];
               if CanReceive(s, p)
               then |channel.sent| == 1 && Received(s, p, s.callers[c].key) == channel.sent[0]
               else channel.leader < |s.callers| && Leads(s.callers[channel.leader].phase, p.channel)
                    && channel.sent == []
  {
    ReachableInvariant(s);
    assert CallerOk(s, c);
    assert ChannelOk(s, s.callers[c].phase.channel);
  }

  /** A key is in the map exactly when one leader, and only one, has not removed it yet. */
  lemma MapEntryIsOneLeader(s: State, key: Key)
    requires Reachable(s)
    ensures key in s.inFlight <==>
              exists c :: 0 <= c < |s.callers| && s.callers[c].key == key && Registered(s.callers[c].phase)
    ensures forall c, d | 0 <= c < |s.callers| && 0 <= d < |s.callers|
                          && s.callers[c].key == key == s.callers[d].key
                          && Registered(s.callers[c].phase) && Registered(s.callers[d].phase) :: c == d
  {
    ReachableInvariant(s);
    if key in s.inFlight {
      assert EntryOk(s, key);
      var leader := s.channels[s.inFlight[key]].leader;
      assert ChannelOk(s, s.inFlight[key]);
      assert s.callers[leader].key == key && Registered(s.callers[leader].phase);
    }
    forall c | 0 <= c < |s.callers| && s.callers[c].key == key && Registered(s.callers[c].phase)
      ensures key in s.inFlight && s.channels[s.inFlight[key]].leader == c
    {
      assert CallerOk(s, c);
    }
  }

  function Rank(p: Phase): nat {
    match p
    case Checking => 10
    case Checked => 9
    case Working(_, Downloading) => 8
    case Working(_, Processing) => 7
    case Working(_, Uploading) => 6
    case Working(_, Stored) => 5
    case Worked(_, _) => 4
    case Guarded(_, _) => 3
    case Sending(_, _, _) => 2
    case Following(_, _) => 1
    case Returned(_, _) => 0
    case Cancelled => 0
  }

  function Measure(callers: seq<Caller>): nat {
    if callers == [] then 0 else Measure(callers[..|callers| - 1]) + Rank(callers[|callers| - 1].phase)
  }

  lemma {:induction false} MeasureUpdate(callers: seq<Caller>, c: CallerId, caller: Caller)
    requires c < |callers|
    ensures Measure(callers[c := caller]) == Measure(callers) - Rank(callers[c].phase) + Rank(caller.phase)
  {
    hide Rank;
    var updated, front := callers[c := caller], callers[..|callers| - 1];
    if c == |callers| - 1 {
      assert updated[..|callers| - 1] == front;
    } else {
      assert updated[..|callers| - 1] == front[c := caller];
      MeasureUpdate(front, c, caller);
    }
  }

  /** Every step of the callers there are brings the measure down. */
  lemma StepLowersMeasure(s: State, e: Event)
    requires Enabled(s, e) && !e.Arrive?
    ensures Measure(Apply(s, e).callers) < Measure(s.callers)
  {
    hide Measure;
    var t := Apply(s, e);
    MeasureUpdate(s.callers, e.caller, t.callers[e.caller]);
    assert t.callers == s.callers[e.caller := t.callers[e.caller]];
  }

  /** So once no new caller arrives, a run is no longer than the measure of where it starts. */
  lemma {:induction false} RunsAreFinite(s: State, events: seq<Event>)
    requires Run(s, events).Some? && forall e <- events :: !e.Arrive?
    ensures |events| + Measure(Run(s, events).value.callers) <= Measure(s.callers)
  {
    hide Enabled, Apply, Measure;
    if events != [] {
      var front := events[..|events| - 1];
      RunsAreFinite(s, front);
      assert events[|events| - 1] in events;
      StepLowersMeasure(Run(s, front).value, events[|events| - 1]);
    }
  }

  predicate Settled(p: Phase) {
    p.Returned? || p.Cancelled?
  }

  /** The step, other than arriving or being cancelled, that is open to a caller or to its leader. */
  function NextStep(s: State, c: CallerId): Event
    requires c < |s.callers|
  {
    match s.callers[c].phase
    case Checking => CheckError(c)
    case Checked => Enter(c)
    case Working(_, Downloading) => Downloaded(c)
    case Working(_, Processing) => Processed(c)
    case Working(_, Uploading) => StoreEffect(c)
    case Working(_, Stored) => UploadReturned(c)
    case Worked(_, _) => Finish(c)
    case Guarded(_, _) => DropRemove(c)
    case Sending(_, _, _) => DropSend(c)
    case _ => Receive(c)
  }

  /**
   While some caller has not settled, a step other than arriving or being cancelled is enabled: its own,
   or its leader's.
   */
  lemma NobodyIsStranded(s: State, c: CallerId)
    requires Reachable(s) && c < |s.callers| && !Settled(s.callers[c].phase)
    ensures exists e :: Enabled(s, e) && !e.Arrive? && !e.Cancel?
  {
    hide Enabled;
    var p := s.callers[c].phase;
    if p.Following? && !CanReceive(s, p) {
      FollowerHasLeaderOrMessage(s, c);
      OwnStepEnabled(s, s.channels[p.channel].leader);
    } else {
      OwnStepEnabled(s, c);
    }
  }

  lemma OwnStepEnabled(s: State, c: CallerId)
    requires Reachable(s) && c < |s.callers| && !Settled(s.callers[c].phase)
    requires s.callers[c].phase.Following? ==> CanReceive(s, s.callers[c].phase)
    ensures Enabled(s, NextStep(s, c)) && !NextStep(s, c).Arrive? && !NextStep(s, c).Cancel?
  {
    ReachableInvariant(s);
    assert CallerOk(s, c);
  }

  lemma {:induction false} ContinuationReachable(s: State, events: seq<Event>)
    requires Reachable(s) && Run(s, events).Some?
    ensures Reachable(Run(s, events).value)
    decreases |events|
  {
    hide Enabled, Apply, Reachable;
    if events != [] {
      var front := events[..|events| - 1];
      ContinuationReachable(s, front);
      Reaches(Run(s, front).value, events[|events| - 1]);
    }
  }

  /**
   From any reachable state, a run without arrivals is no longer than the measure; and where such a run can
   only go on by an arrival, every caller, follower or leader, has returned or was cancelled.
   */
  lemma EveryoneSettles(s: State, events: seq<Event>)
    requires Reachable(s) && Run(s, events).Some? && forall e <- events :: !e.Arrive?
    ensures |events| <= Measure(s.callers)
    ensures var t := Run(s, events).value;
            (forall e | Enabled(t, e) :: e.Arrive?) ==> forall c | 0 <= c < |t.callers| :: Settled(t.callers[c].phase)
  {
    hide Reachable, Run, Enabled, Settled;
    RunsAreFinite(s, events);
    ContinuationReachable(s, events);
    var t := Run(s, events).value;
    if forall e | Enabled(t, e) :: e.Arrive? {
      forall c | 0 <= c < |t.callers|
        ensures Settled(t.callers[c].phase)
      {
        if !Settled(t.callers[c].phase) {
          NobodyIsStranded(t, c);
        }
      }
    }
  }

  // ---------------------------------------------------------------------------------------------
  // Agreement
  // ---------------------------------------------------------------------------------------------

  /**
   A follower that received got what its leader settled with: the leader's own result if it finished, the
   synthetic failure if it was cut off. So all followers of one channel agree.
   */
  lemma FollowersAgreeWithLeader(s: State, c: CallerId)
    requires Reachable(s) && c < |s.callers|
    requires s.callers[c].phase.Returned? && s.callers[c].phase.followed.Some?
    ensures var ch := s.callers[c].phase.followed.value;
            && ch < |s.channels| && s.channels[ch].leader < |s.callers|
            && var leader := s.callers[s.channels[ch].leader];
               leader.key == s.callers[c].key
               && (leader.phase.Returned? ==> s.callers[c].phase.message == leader.phase.message)
               && (leader.phase.Cancelled? ==> s.callers[c].phase.message == Err(Abandoned(leader.key)))
               && Settled(leader.phase)
    ensures forall d | 0 <= d < |s.callers| && s.callers[d].phase.Returned?
                       && s.callers[d].phase.followed == s.callers[c].phase.followed ::
              s.callers[d].phase.message == s.callers[c].phase.message
  {
    ReachableInvariant(s);
    assert CallerOk(s, c);
    assert ChannelOk(s, s.callers[c].phase.followed.value);
    forall d | 0 <= d < |s.callers| && s.callers[d].phase.Returned?
               && s.callers[d].phase.followed == s.callers[c].phase.followed
      ensures s.callers[d].phase.message == s.callers[c].phase.message
    {
      assert CallerOk(s, d);
    }
  }

  /** Nobody returns a URL for anything but its own key, and only once that key has been uploaded. */
  lemma OkMeansUploaded(s: State, c: CallerId)
    requires Reachable(s) && c < |s.callers|
    requires s.callers[c].phase.Returned? && s.callers[c].phase.message.Ok?
    ensures s.callers[c].phase.message == Ok(s.callers[c].key) && IsStored(s, s.callers[c].key)
  {
    ReachableInvariant(s);
    assert CallerOk(s, c);
  }

  // ---------------------------------------------------------------------------------------------
  // How often the work runs
  // ---------------------------------------------------------------------------------------------

  lemma OneWorkPerKey(s: State, c: CallerId, d: CallerId)
    requires Reachable(s) && c < |s.callers| && d < |s.callers|
    requires s.callers[c].phase.Working? && s.callers[d].phase.Working?
    requires s.callers[c].key == s.callers[d].key
    ensures c == d
  {
    MapEntryIsOneLeader(s, s.callers[c].key);
  }

  /**
   Work that starts after an upload of its key: that caller's cache check came before the upload, or it
   returned an error.
   */
  lemma LateWorkCheckedEarly(s: State, c: CallerId, u: Upload)
    requires Reachable(s) && Enabled(s, Enter(c)) && Apply(s, Enter(c)).callers[c].phase.Working?
    requires u in s.uploads && u.key == s.callers[c].key
    ensures s.callers[c].checkFailed || s.callers[c].checkedAt < u.at
  {
    ReachableInvariant(s);
    assert CheckOk(s, c);
  }

  lemma Reaches(s: State, e: Event)
    requires Reachable(s) && Enabled(s, e)
    ensures Reachable(Apply(s, e))
  {
    var events :| Run(INITIAL, events) == Some(s);
    var longer := events + [e];
    assert longer[..|longer| - 1] == events;
    assert Run(INITIAL, longer) == Some(Apply(s, e));
  }

  /** The steps of a successful lead, and the phase before each of them. */
  function LeadEvent(c: CallerId, i: nat): Event {
    match i
    case 0 => Enter(c)
    case 1 => Downloaded(c)
    case 2 => Processed(c)
    case 3 => StoreEffect(c)
    case 4 => UploadReturned(c)
    case 5 => Finish(c)
    case 6 => DropRemove(c)
    case _ => DropSend(c)
  }

  function LeadPhase(key: Key, ch: ChannelId, i: nat): Phase {
    match i
    case 0 => Checked
    case 1 => Working(ch, Downloading)
    case 2 => Working(ch, Processing)
    case 3 => Working(ch, Uploading)
    case 4 => Working(ch, Stored)
    case 5 => Worked(ch, Ok(key))
    case 6 => Guarded(ch, Some(Ok(key)))
    case 7 => Sending(ch, Ok(key), Some(Ok(key)))
    case _ => Returned(Ok(key), None)
  }

  /** The state after the first `i` steps of a successful lead that starts in `s`. */
  function LeadState(s: State, c: CallerId, i: nat): State
    requires c < |s.callers|
  {
    var caller, ch := s.callers[c], |s.channels|;
    State(
      s.callers[c := caller.(phase := LeadPhase(caller.key, ch, i))],
      if 0 < i < 7 then s.inFlight[caller.key := ch] else s.inFlight,
      if i == 0 then s.channels
      else s.channels + [Channel(caller.key, c, if i < 8 then [] else [Ok(caller.key)], i < 8)],
      if i < 4 then s.uploads else s.uploads + [Upload(caller.key, s.clock + 3)],
      s.clock + i)
  }

  lemma LeadWork(s: State, c: CallerId, i: nat)
    requires c < |s.callers| && s.callers[c].phase.Checked? && s.callers[c].key !in s.inFlight
    requires 1 <= i <= 5
    ensures Enabled(LeadState(s, c, i), LeadEvent(c, i))
    ensures Apply(LeadState(s, c, i), LeadEvent(c, i)) == LeadState(s, c, i + 1)
  {
    var now, next := LeadState(s, c, i), LeadState(s, c, i + 1);
    assert now.callers[c := next.callers[c]] == next.callers;
  }

  lemma LeadEnds(s: State, c: CallerId, i: nat)
    requires c < |s.callers| && s.callers[c].phase.Checked? && s.callers[c].key !in s.inFlight
    requires i == 0 || i == 6 || i == 7
    ensures Enabled(LeadState(s, c, i), LeadEvent(c, i))
    ensures Apply(LeadState(s, c, i), LeadEvent(c, i)) == LeadState(s, c, i + 1)
  {
    var now, next := LeadState(s, c, i), LeadState(s, c, i + 1);
    assert now.callers[c := next.callers[c]] == next.callers;
    if i == 6 {
      assert now.inFlight - {s.callers[c].key} == s.inFlight;
    } else if i == 7 {
      var ok: Message := Ok(s.callers[c].key);
      assert [] + [ok] == [ok];
      assert now.channels[|s.channels| := next.channels[|s.channels|]] == next.channels;
    }
  }

  lemma LeadStep(s: State, c: CallerId, i: nat)
    requires c < |s.callers| && s.callers[c].phase.Checked? && s.callers[c].key !in s.inFlight
    requires i < 8
    ensures Enabled(LeadState(s, c, i), LeadEvent(c, i))
    ensures Apply(LeadState(s, c, i), LeadEvent(c, i)) == LeadState(s, c, i + 1)
  {
    hide Apply, Enabled, LeadState, LeadEvent;
    if 1 <= i <= 5 {
      LeadWork(s, c, i);
    } else {
      LeadEnds(s, c, i);
    }
  }

  /** A caller past its check, with no leader about, goes through the whole of a successful lead. */
  lemma LeadsAlone(s: State, c: CallerId)
    requires Reachable(s) && c < |s.callers| && s.callers[c].phase.Checked? && s.callers[c].key !in s.inFlight
    ensures Reachable(LeadState(s, c, 8))
  {
    hide Apply, Enabled, LeadEvent, Reachable;
    assert LeadState(s, c, 0) == s by {
      assert s.callers[c := s.callers[c]] == s.callers;
    }
    for i := 0 to 8
      invariant Reachable(LeadState(s, c, i))
    {
      LeadStep(s, c, i);
      Reaches(LeadState(s, c, i), LeadEvent(c, i));
    }
  }

  /** Two callers of a key, both past a cache miss. */
  lemma BothMiss(key: Key)
    ensures Reachable(State([Caller(key, Checked, 2, false), Caller(key, Checked, 3, false)], map[], [], [], 4))
  {
    hide Reachable, IsStored;
    var fresh0 := Caller(key, Checking, 0, false);
    var s1, s2 := State([fresh0], map[], [], [], 1), State([fresh0, fresh0], map[], [], [], 2);
    var s3 := State([Caller(key, Checked, 2, false), fresh0], map[], [], [], 3);
    StartReachable();
    Reaches(INITIAL, Arrive(key));
    assert Apply(INITIAL, Arrive(key)) == s1;
    Reaches(s1, Arrive(key));
    assert Apply(s1, Arrive(key)) == s2;
    NothingStored(s2, key);
    Reaches(s2, CheckMiss(0));
    assert Apply(s2, CheckMiss(0)) == s3;
    NothingStored(s3, key);
    Reaches(s3, CheckMiss(1));
    assert Apply(s3, CheckMiss(1)).callers == [Caller(key, Checked, 2, false), Caller(key, Checked, 3, false)];
  }

  lemma StartReachable()
    ensures Reachable(INITIAL)
  {
    assert Run(INITIAL, []) == Some(INITIAL);
  }

  lemma NothingStored(s: State, key: Key)
    requires s.uploads == []
    ensures !IsStored(s, key)
  {
  }

  /** A key may still be uploaded twice: a caller that missed leads again once the first leader is done. */
  lemma WorkMayRunTwice(key: Key)
    ensures exists s :: Reachable(s) && |s.uploads| == 2 && s.uploads[0].key == s.uploads[1].key == key
                        && forall c <- s.callers :: c.phase == Returned(Ok(key), None) && !c.checkFailed
  {
    hide Reachable;
    BothMiss(key);
    var s := State([Caller(key, Checked, 2, false), Caller(key, Checked, 3, false)], map[], [], [], 4);
    LeadsAlone(s, 0);
    var first := LeadState(s, 0, 8);
    LeadsAlone(first, 1);
    var second := LeadState(first, 1, 8);
    assert |second.callers| == 2;
  }

  // ---------------------------------------------------------------------------------------------
  // The shared state as the service keeps it
  // ---------------------------------------------------------------------------------------------

  /**
   The service with its in-flight map, its broadcast channels and its store. Each method is one atomic step
   of a caller, written as updates of the shared fields and proved to be that step of the protocol.
   */
  class ResizeService {
    var callers: seq<Caller>
    var inFlight: map<Key, ChannelId>
    var channels: seq<Channel>
    var uploads: seq<Upload>
    var clock: nat

    ghost function View(): State
      reads this
    {
      State(callers, inFlight, channels, uploads, clock)
    }

    constructor ()
      ensures View() == INITIAL
    {
      callers, inFlight, channels, uploads, clock := [], map[], [], [], 0;
    }

    method Request(key: Key) returns (c: CallerId)
      modifies this
      ensures c == |old(callers)| && View() == Apply(old(View()), Arrive(key))
    {
      c := |callers|;
      callers := callers + [Caller(key, Checking, 0, false)];
      clock := clock + 1;
    }

    method SetPhase(c: CallerId, phase: Phase)
      requires c < |callers|
      modifies this`callers
      ensures callers == old(callers)[c := old(callers)[c].(phase := phase)]
    {
      callers := callers[c := callers[c].(phase := phase)];
    }

    /** `check_cache` followed by the match on its outcome; `failed` says whether the backend errored. */
    method CheckCache(c: CallerId, failed: bool)
      requires c < |callers| && callers[c].phase.Checking?
      modifies this
      ensures var before := old(View());
              View() == Apply(before, if failed then CheckError(c)
                                      else if IsStored(before, before.callers[c].key) then CheckHit(c)
                                      else CheckMiss(c))
    {
      var caller := callers[c];
      var hit := exists u <- uploads :: u.key == caller.key;
      callers := callers[c := caller.(checkedAt := clock, checkFailed := failed)];
      if !failed && hit {
        SetPhase(c, Returned(Ok(caller.key), None));
      } else {
        SetPhase(c, Checked);
      }
      clock := clock + 1;
    }

    /** The map entry, taken under its lock: subscribe to the leader there is, or insert a channel and lead. */
    method Join(c: CallerId)
      requires Enabled(View(), Enter(c))
      modifies this
      ensures View() == Apply(old(View()), Enter(c))
    {
      var key := callers[c].key;
      if key in inFlight {
        var ch := inFlight[key];
        SetPhase(c, Following(ch, if ch < |channels| then |channels[ch].sent| else 0));
      } else {
        var ch := |channels|;
        channels := channels + [Channel(key, c, [], true)];
        inFlight := inFlight[key := ch];
        SetPhase(c, Working(ch, Downloading));
      }
      clock := clock + 1;
    }

    /** The next step of `do_resize_work`, when it goes well. */
    method Advance(c: CallerId)
      requires c < |callers| && callers[c].phase.Working?
      modifies this
      ensures View() == Apply(old(View()),
                match old(callers)[c].phase.stage
                case Downloading => Downloaded(c)
                case Processing => Processed(c)
                case Uploading => StoreEffect(c)
                case Stored => UploadReturned(c))
    {
      var caller := callers[c];
      var ch := caller.phase.channel;
      match caller.phase.stage {
        case Downloading => SetPhase(c, Working(ch, Processing));
        case Processing => SetPhase(c, Working(ch, Uploading));
        case Uploading =>
          uploads := uploads + [Upload(caller.key, clock)];
          SetPhase(c, Working(ch, Stored));
        case Stored => SetPhase(c, Worked(ch, Ok(caller.key)));
      }
      clock := clock + 1;
    }

    /** `do_resize_work` returns an error. */
    method Fail(c: CallerId, text: string)
      requires c < |callers| && callers[c].phase.Working?
      modifies this
      ensures View() == Apply(old(View()), WorkFailed(c, text))
    {
      SetPhase(c, Worked(callers[c].phase.channel, Err(WorkError(text))));
      clock := clock + 1;
    }

    /** `InFlightGuard::finish`: records the outcome in the guard. */
    method FinishGuard(c: CallerId)
      requires c < |callers| && callers[c].phase.Worked?
      modifies this
      ensures View() == Apply(old(View()), Finish(c))
    {
      SetPhase(c, Guarded(callers[c].phase.channel, Some(callers[c].phase.outcome)));
      clock := clock + 1;
    }

    /** First half of the guard's `drop`: removes the entry and takes the recorded result, if any. */
    method RemoveEntry(c: CallerId)
      requires c < |callers| && callers[c].phase.Guarded?
      modifies this
      ensures View() == Apply(old(View()), DropRemove(c))
    {
      var key, recorded := callers[c].key, callers[c].phase.recorded;
      if key in inFlight {
        var ch := inFlight[key];
        inFlight := inFlight - {key};
        var message := if recorded.Some? then recorded.value else Err(Abandoned(key));
        SetPhase(c, Sending(ch, message, recorded));
      } else {
        SetPhase(c, LeaderDone(recorded));
      }
      clock := clock + 1;
    }

    /** Second half of the guard's `drop`: broadcasts, and the sender goes away. */
    method Broadcast(c: CallerId)
      requires Enabled(View(), DropSend(c))
      modifies this
      ensures View() == Apply(old(View()), DropSend(c))
    {
      var p := callers[c].phase;
      var channel := channels[p.channel];
      channels := channels[p.channel := channel.(sent := channel.sent + [p.message], open := false)];
      SetPhase(c, LeaderDone(p.own));
      clock := clock + 1;
    }

    /** A follower's `recv` resolves. */
    method Resolve(c: CallerId)
      requires Enabled(View(), Receive(c))
      modifies this
      ensures View() == Apply(old(View()), Receive(c))
    {
      var p := callers[c].phase;
      var sent := channels[p.channel].sent;
      var message := if |sent| == p.seen + 1 then sent[p.seen] else Err(Abandoned(callers[c].key));
      SetPhase(c, Returned(message, Some(p.channel)));
      clock := clock + 1;
    }

    /** The caller's future is dropped at an await; a leader's guard is then dropped without a result. */
    method Abort(c: CallerId)
      requires Enabled(View(), Cancel(c))
      modifies this
      ensures View() == Apply(old(View()), Cancel(c))
    {
      var p := callers[c].phase;
      if p.Working? {
        SetPhase(c, Guarded(p.channel, None));
      } else {
        SetPhase(c, Cancelled);
      }
      clock := clock + 1;
    }
  }
}
