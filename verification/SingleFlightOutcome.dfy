/**
 What comes of every call. A leader returns what its work gave and its followers get the same, error or not;
 a cancelled leader leaves them the synthetic failure; and nothing is returned, failed or dropped without the
 event that caused it.
 */
module SingleFlightOutcome {
  import opened Common
  import opened SingleFlight

  // ---------------------------------------------------------------------------------------------
  // From the outcome of the work to the callers
  // ---------------------------------------------------------------------------------------------

  /**
   A leader on its way from the outcome of its work to the end: `own` is what it is to return, nothing if it
   was cancelled, and `message` what its followers are to get.
   */
  predicate Carries(s: State, c: CallerId, ch: ChannelId, own: Option<Message>, message: Message) {
    && c < |s.callers| && ch < |s.channels| && s.channels[ch].leader == c
    && match s.callers[c].phase
       case Worked(channel, outcome) => channel == ch && own == Some(outcome) && s.channels[ch].sent == []
       case Guarded(channel, recorded) => channel == ch && recorded == own && s.channels[ch].sent == []
       case Sending(channel, m, mine) => channel == ch && m == message && mine == own && s.channels[ch].sent == []
       case Returned(m, followed) => own == Some(m) && followed.None? && s.channels[ch].sent == [message]
       case Cancelled => own.None? && s.channels[ch].sent == [message]
       case _ => false
  }

  lemma StepCarries(s: State, e: Event, c: CallerId, ch: ChannelId, own: Option<Message>, message: Message)
    requires Invariant(s) && Enabled(s, e) && Carries(s, c, ch, own, message)
    requires message == UnwrapOr(own, Err(Abandoned(s.callers[c].key)))
    ensures Carries(Apply(s, e), c, ch, own, message) && Apply(s, e).callers[c].key == s.callers[c].key
  {
    hide IsStored;
    assert CallerOk(s, c);
    if !e.Arrive? {
      assert CallerOk(s, e.caller);
    }
    hide Invariant;
  }

  lemma {:induction false} RunCarries(
    s: State, events: seq<Event>, c: CallerId, ch: ChannelId, own: Option<Message>, message: Message)
    requires Reachable(s) && Run(s, events).Some? && Carries(s, c, ch, own, message)
    requires message == UnwrapOr(own, Err(Abandoned(s.callers[c].key)))
    ensures Carries(Run(s, events).value, c, ch, own, message)
    ensures Run(s, events).value.callers[c].key == s.callers[c].key
    decreases |events|
  {
    hide Enabled, Apply, Reachable, Invariant;
    if events != [] {
      var front := events[..|events| - 1];
      RunCarries(s, front, c, ch, own, message);
      ContinuationReachable(s, front);
      ReachableInvariant(Run(s, front).value);
      StepCarries(Run(s, front).value, events[|events| - 1], c, ch, own, message);
    }
  }

  /** What a caller that has settled, and its channel, show of the outcome; and every follower that received it. */
  ghost predicate Delivered(t: State, c: CallerId, ch: ChannelId, own: Option<Message>, message: Message) {
    && c < |t.callers| && ch < |t.channels|
    && (Settled(t.callers[c].phase) ==>
          && t.callers[c].phase == (if own.Some? then Returned(own.value, None) else Cancelled)
          && t.channels[ch].sent == [message])
    && forall d | 0 <= d < |t.callers| && t.callers[d].phase.Returned? && t.callers[d].phase.followed == Some(ch) ::
         t.callers[d].phase.message == message
  }

  lemma CarriedIsDelivered(t: State, c: CallerId, ch: ChannelId, own: Option<Message>, message: Message)
    requires Reachable(t) && Carries(t, c, ch, own, message)
    ensures Delivered(t, c, ch, own, message)
  {
    hide Reachable;
    ReachableInvariant(t);
    forall d | 0 <= d < |t.callers| && t.callers[d].phase.Returned? && t.callers[d].phase.followed == Some(ch)
      ensures t.callers[d].phase.message == message
    {
      assert CallerOk(t, d);
    }
  }

  /** How the work of a leader can end: it returns, fails, or is cancelled. */
  function OutcomeOf(s: State, e: Event): Option<Message>
    requires e.UploadReturned? || e.WorkFailed? || e.Cancel?
    requires e.caller < |s.callers|
  {
    match e
    case UploadReturned(c) => Some(Ok(s.callers[c].key))
    case WorkFailed(_, text) => Some(Err(WorkError(text)))
    case Cancel(_) => None
  }

  /**
   In every continuation after the work of a leader has ended: once it settles, it has returned its own key's
   URL or its own error, or it is cancelled; its channel's one message, and what every follower got, is that
   outcome, or the synthetic failure after a cancellation.
   */
  lemma OutcomeReachesAll(s: State, e: Event, events: seq<Event>)
    requires Reachable(s) && Enabled(s, e) && (e.UploadReturned? || e.WorkFailed? || e.Cancel?)
    requires s.callers[e.caller].phase.Working?
    requires Run(Apply(s, e), events).Some?
    ensures var own := OutcomeOf(s, e);
            var message := if own.Some? then own.value else Err(Abandoned(s.callers[e.caller].key));
            Delivered(Run(Apply(s, e), events).value, e.caller, s.callers[e.caller].phase.channel, own, message)
  {
    var c, ch := e.caller, s.callers[e.caller].phase.channel;
    var own := OutcomeOf(s, e);
    var message := if own.Some? then own.value else Err(Abandoned(s.callers[c].key));
    ReachableInvariant(s);
    assert CallerOk(s, c);
    assert ChannelOk(s, ch);
    assert Carries(Apply(s, e), c, ch, own, message);
    hide Apply, Enabled, Carries, Delivered, Reachable, Invariant;
    Reaches(s, e);
    RunCarries(Apply(s, e), events, c, ch, own, message);
    ContinuationReachable(Apply(s, e), events);
    CarriedIsDelivered(Run(Apply(s, e), events).value, c, ch, own, message);
  }

  /** In particular, whatever outcome a leader had when its guard recorded it. */
  lemma FinishedReturnsOutcome(s: State, c: CallerId, events: seq<Event>)
    requires Reachable(s) && c < |s.callers| && s.callers[c].phase.Worked?
    requires Run(s, events).Some?
    ensures var p := s.callers[c].phase;
            Delivered(Run(s, events).value, c, p.channel, Some(p.outcome), p.outcome)
  {
    var p := s.callers[c].phase;
    ReachableInvariant(s);
    assert CallerOk(s, c);
    assert ChannelOk(s, p.channel);
    hide Enabled, Delivered, Reachable, Invariant, Run;
    RunCarries(s, events, c, p.channel, Some(p.outcome), p.outcome);
    ContinuationReachable(s, events);
    CarriedIsDelivered(Run(s, events).value, c, p.channel, Some(p.outcome), p.outcome);
  }

  // ---------------------------------------------------------------------------------------------
  // From the callers back to the cause
  // ---------------------------------------------------------------------------------------------

  /** The work of a caller gave this outcome in the run. */
  ghost predicate WorkGave(events: seq<Event>, c: CallerId, key: Key, m: Message) {
    || (m == Ok(key) && StoreEffect(c) in events && UploadReturned(c) in events)
    || (m.Err? && m.error.WorkError? && WorkFailed(c, m.error.text) in events)
  }

  /** The events that a caller's phase goes back to. */
  ghost predicate Caused(events: seq<Event>, c: CallerId, caller: Caller) {
    match caller.phase
    case Checking => true
    case Checked => if caller.checkFailed then CheckError(c) in events else CheckMiss(c) in events
    case Following(_, _) => Enter(c) in events
    case Working(_, stage) =>
      && Enter(c) in events && (!stage.Downloading? ==> Downloaded(c) in events)
      && (stage.Uploading? || stage.Stored? ==> Processed(c) in events) && (stage.Stored? ==> StoreEffect(c) in events)
    case Worked(_, outcome) => WorkGave(events, c, caller.key, outcome)
    case Guarded(_, recorded) => OwnCaused(events, c, caller.key, recorded)
    case Sending(_, _, own) => OwnCaused(events, c, caller.key, own)
    case Returned(m, None) =>
      (m == Ok(caller.key) && CheckHit(c) in events) || OwnCaused(events, c, caller.key, Some(m))
    case Returned(_, Some(_)) => Enter(c) in events && Receive(c) in events
    case Cancelled => Cancel(c) in events
  }

  ghost predicate OwnCaused(events: seq<Event>, c: CallerId, key: Key, own: Option<Message>) {
    if own.None? then Cancel(c) in events else WorkGave(events, c, key, own.value) && Finish(c) in events
  }

  lemma CausesStay(events: seq<Event>, e: Event, c: CallerId, caller: Caller)
    requires Caused(events, c, caller)
    ensures Caused(events + [e], c, caller)
  {
    var all := events + [e];
    assert forall x <- events :: x in all;
  }

  lemma StepHasCause(s: State, events: seq<Event>, e: Event, c: CallerId)
    requires Enabled(s, e) && c < |Apply(s, e).callers| && (c < |s.callers| ==> Caused(events, c, s.callers[c]))
    ensures Caused(events + [e], c, Apply(s, e).callers[c])
  {
    var all := events + [e];
    assert e in all && forall x <- events :: x in all;
    if c < |s.callers| && (e.Arrive? || c != e.caller) {
      assert Apply(s, e).callers[c] == s.callers[c];
      CausesStay(events, e, c, s.callers[c]);
      hide Caused, Effect, Apply;
    }
  }

  /**
   Nothing comes of nothing. In every run, a caller that is cancelled had a cancellation; one that returned its
   own result had a cache hit or a work that gave it; one that followed had received; and so on for every phase.
   */
  lemma {:induction false} EveryOutcomeHasItsCause(events: seq<Event>, c: CallerId)
    requires Run(INITIAL, events).Some? && c < |Run(INITIAL, events).value.callers|
    ensures Caused(events, c, Run(INITIAL, events).value.callers[c])
    decreases |events|
  {
    hide Enabled, Apply, Caused;
    if events != [] {
      var front, last := events[..|events| - 1], events[|events| - 1];
      var before := Run(INITIAL, front).value;
      if c < |before.callers| {
        EveryOutcomeHasItsCause(front, c);
      }
      StepHasCause(before, front, last, c);
      assert events == front + [last];
    }
  }

  /** A future can be dropped at every await point, and only there: in the check, while following, in the work. */
  lemma AwaitPoints(s: State, c: CallerId)
    requires c < |s.callers|
    ensures var p := s.callers[c].phase;
            && (Enabled(s, Cancel(c)) <==> p.Checking? || p.Following? || p.Working?)
            && (p.Checking? ==> Enabled(s, CheckError(c)) && (Enabled(s, CheckHit(c)) <==> !Enabled(s, CheckMiss(c))))
            && (p.Working? ==> forall text :: Enabled(s, WorkFailed(c, text)))
  {
  }

  /** A caller that is dropped while it is not leading is gone at once, and leaves everything else alone. */
  lemma DroppedFollower(s: State, c: CallerId)
    requires Enabled(s, Cancel(c)) && !s.callers[c].phase.Working?
    ensures var t := Apply(s, Cancel(c));
            && t.callers[c].phase.Cancelled? && t.inFlight == s.inFlight && t.channels == s.channels
            && t.uploads == s.uploads && forall d | 0 <= d < |s.callers| && d != c :: t.callers[d] == s.callers[d]
  {
  }
}
