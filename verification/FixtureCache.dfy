/**
 The on-disk fixture cache, as a transition system: any number of concurrent calls read the final path,
 generate on a miss, write a temporary file in pieces and rename it into place.

 Files are modelled as inodes that directory entries point to, and both reading and writing take several
 steps, so a torn read is possible in the model unless the protocol rules it out.
 */
module FixtureCache {
  import opened Common

  type CallId = nat
  type Inode = nat

  /** A path in the cache directory: the fixture, the temporary file of one call, or anything else. */
  datatype Path = Final | Temp(owner: CallId) | Other(name: string)

  datatype Phase =
    | Start
    | Reading(inode: Inode, got: Bytes)
    | Generated
    | Writing(inode: Inode)
    | Written
    | CleaningUp
    | Finished(result: Bytes)

  datatype State = State(entries: map<Path, Inode>, files: seq<Bytes>, calls: seq<Phase>)

  /** Before any call: the fixture is absent, or was left complete by an earlier run. */
  predicate Initial(s: State, payload: Bytes) {
    && s.calls == []
    && (forall p <- s.entries :: !p.Temp? && s.entries[p] < |s.files|)
    && (forall p <- s.entries, q <- s.entries :: p != q ==> s.entries[p] != s.entries[q])
    && (Final in s.entries ==> s.files[s.entries[Final]] == payload)
  }

  datatype Event =
    | Call
    | OpenFinal(call: CallId)
    | ReadSome(call: CallId, n: nat)
    | ReadFails(call: CallId)
    | NoDirectory(call: CallId)
    | CreateTemp(call: CallId)
    | WriteSome(call: CallId, n: nat)
    | WriteFails(call: CallId)
    | Rename(call: CallId)
    | RenameFails(call: CallId)
    | RemoveTemp(call: CallId)

  predicate Enabled(s: State, payload: Bytes, e: Event) {
    e.Call? || (
      e.call < |s.calls| &&
      var p := s.calls[e.call];
      match e
      case OpenFinal(_) => p.Start?
      case ReadSome(_, n) => p.Reading? && p.inode < |s.files|
      case ReadFails(_) => p.Start? || p.Reading?
      case NoDirectory(_) => p.Generated?
      case CreateTemp(_) => p.Generated?
      case WriteSome(_, n) => p.Writing? && p.inode < |s.files| && |s.files[p.inode]| <= |payload|
      case WriteFails(_) => p.Generated? || p.Writing?
      case Rename(_) => p.Written? && Temp(e.call) in s.entries
      case RenameFails(_) => p.Written?
      case RemoveTemp(_) => p.CleaningUp?)
  }

  function Min(a: nat, b: nat): nat {
    if a < b then a else b
  }

  function To(s: State, c: CallId, p: Phase): State
    requires c < |s.calls|
  {
    s.(calls := s.calls[c := p])
  }

  /** One step. `payload` is what `generate` produces; generation is deterministic. */
  function Apply(s: State, payload: Bytes, e: Event): State
    requires Enabled(s, payload, e)
  {
    match e
    case Call => s.(calls := s.calls + [Start])
    case OpenFinal(c) =>
      if Final in s.entries then To(s, c, Reading(s.entries[Final], [])) else To(s, c, Generated)
    case ReadSome(c, n) =>
      // A read at the end of the file ends the whole read; otherwise it yields at least one byte.
      var p := s.calls[c];
      var file := s.files[p.inode];
      if |p.got| >= |file| then To(s, c, Finished(p.got))
      else To(s, c, Reading(p.inode, p.got + file[|p.got|..Min(|p.got| + n + 1, |file|)]))
    case ReadFails(c) => To(s, c, Generated)
    case NoDirectory(c) => To(s, c, Finished(payload))
    case CreateTemp(c) =>
      // Creating truncates what the name pointed to, or makes a new empty file.
      if Temp(c) in s.entries && s.entries[Temp(c)] < |s.files| then
        To(s, c, Writing(s.entries[Temp(c)])).(files := s.files[s.entries[Temp(c)] := []])
      else
        To(s, c, Writing(|s.files|)).(entries := s.entries[Temp(c) := |s.files|], files := s.files + [[]])
    case WriteSome(c, n) =>
      var i := s.calls[c].inode;
      var done := s.files[i];
      if |done| == |payload| then To(s, c, Written)
      else s.(files := s.files[i := done + payload[|done|..Min(|done| + n + 1, |payload|)]])
    case WriteFails(c) => To(s, c, Finished(payload))
    case Rename(c) =>
      To(s, c, CleaningUp).(entries := (s.entries - {Temp(c)})[Final := s.entries[Temp(c)]])
    case RenameFails(c) => To(s, c, CleaningUp)
    case RemoveTemp(c) => To(s, c, Finished(payload)).(entries := s.entries - {Temp(c)})
  }

  /** Reads and writes may go in pieces of any size, down to one byte. */
  lemma PiecesOfAnySize(s: State, payload: Bytes, c: CallId, k: nat)
    requires k > 0
    ensures Enabled(s, payload, ReadSome(c, k - 1)) && |s.calls[c].got| + k <= |s.files[s.calls[c].inode]| ==>
              var (inode, got) := (s.calls[c].inode, s.calls[c].got);
              Apply(s, payload, ReadSome(c, k - 1)).calls[c]
              == Reading(inode, got + s.files[inode][|got|..|got| + k])
    ensures Enabled(s, payload, WriteSome(c, k - 1)) && |s.files[s.calls[c].inode]| + k <= |payload| ==>
              var (inode, done) := (s.calls[c].inode, s.files[s.calls[c].inode]);
              Apply(s, payload, WriteSome(c, k - 1)).files[inode] == done + payload[|done|..|done| + k]
  {
  }

  function Run(s: State, payload: Bytes, events: seq<Event>): Option<State> {
    if events == [] then Some(s)
    else
      var before :- Run(s, payload, events[..|events| - 1]);
      var e := events[|events| - 1];
      if Enabled(before, payload, e) then Some(Apply(before, payload, e)) else None
  }

  // ---------------------------------------------------------------------------------------------
  // The invariant
  // ---------------------------------------------------------------------------------------------

  /** No call is writing to the inode. */
  predicate Settled(s: State, i: Inode) {
    forall c | 0 <= c < |s.calls| :: s.calls[c].Writing? ==> s.calls[c].inode != i
  }

  predicate CallOk(s: State, payload: Bytes, c: CallId)
    requires c < |s.calls|
  {
    match s.calls[c]
    case Start => Temp(c) !in s.entries
    case Generated => Temp(c) !in s.entries
    case Reading(i, got) =>
      i < |s.files| && s.files[i] == payload && Settled(s, i) && Temp(c) !in s.entries
      && (forall p <- s.entries :: p != Final ==> s.entries[p] != i)
      && |got| <= |payload| && got == payload[..|got|]
    case Writing(i) =>
      Temp(c) in s.entries && s.entries[Temp(c)] == i && i < |s.files|
      && |s.files[i]| <= |payload| && s.files[i] == payload[..|s.files[i]|]
    case Written =>
      Temp(c) in s.entries && s.entries[Temp(c)] < |s.files| && s.files[s.entries[Temp(c)]] == payload
    case CleaningUp => true
    case Finished(result) => result == payload
  }

  /** Every temporary file has its own inode, apart from the fixture's; later calls have no file yet. */
  predicate EntriesOk(s: State) {
    && (forall p <- s.entries :: s.entries[p] < |s.files|)
    && (forall p <- s.entries, q <- s.entries :: p != q ==> s.entries[p] != s.entries[q])
    && (forall p <- s.entries :: p.Temp? ==> p.owner < |s.calls|)
  }

  /** The fixture is absent, or complete with nobody writing to it. */
  predicate FinalOk(s: State, payload: Bytes) {
    Final in s.entries ==>
      s.entries[Final] < |s.files| && s.files[s.entries[Final]] == payload && Settled(s, s.entries[Final])
  }

  predicate Invariant(s: State, payload: Bytes) {
    EntriesOk(s) && FinalOk(s, payload) && forall c | 0 <= c < |s.calls| :: CallOk(s, payload, c)
  }

  lemma InitialInvariant(s: State, payload: Bytes)
    requires Initial(s, payload)
    ensures Invariant(s, payload)
  {
  }

  lemma EntriesKept(s: State, payload: Bytes, e: Event)
    requires Invariant(s, payload) && Enabled(s, payload, e)
    ensures EntriesOk(Apply(s, payload, e))
  {
    if !e.Call? {
      assert CallOk(s, payload, e.call);
    }
  }

  lemma FinalKept(s: State, payload: Bytes, e: Event)
    requires Invariant(s, payload) && Enabled(s, payload, e)
    ensures FinalOk(Apply(s, payload, e), payload)
  {
    if !e.Call? {
      assert CallOk(s, payload, e.call);
    }
    if e.Rename? {
      forall c | 0 <= c < |s.calls| && s.calls[c].Writing?
        ensures s.calls[c].inode != s.entries[Temp(e.call)]
      {
        assert CallOk(s, payload, c);
      }
    }
  }

  /** A step keeps what holds of the call that takes it. */
  lemma MoverKept(s: State, payload: Bytes, e: Event)
    requires Invariant(s, payload) && Enabled(s, payload, e) && !e.Call?
    ensures CallOk(Apply(s, payload, e), payload, e.call)
  {
    assert CallOk(s, payload, e.call);
  }

  /** A step keeps what holds of every other call. */
  lemma BystanderKept(s: State, payload: Bytes, e: Event, c: CallId)
    requires Invariant(s, payload) && Enabled(s, payload, e)
    requires c < |s.calls| && (e.Call? || c != e.call)
    ensures CallOk(Apply(s, payload, e), payload, c)
  {
    assert CallOk(s, payload, c);
    if !e.Call? {
      assert CallOk(s, payload, e.call);
    }
  }

  lemma StepKeepsInvariant(s: State, payload: Bytes, e: Event)
    requires Invariant(s, payload) && Enabled(s, payload, e)
    ensures Invariant(Apply(s, payload, e), payload)
  {
    EntriesKept(s, payload, e);
    FinalKept(s, payload, e);
    var t := Apply(s, payload, e);
    forall c | 0 <= c < |t.calls|
      ensures CallOk(t, payload, c)
    {
      if c == |s.calls| {
        assert t.calls[c] == Start && Temp(c) !in s.entries;
      } else if e.Call? || c != e.call {
        BystanderKept(s, payload, e, c);
      } else {
        MoverKept(s, payload, e);
      }
    }
  }

  lemma {:induction false} RunKeepsInvariant(s: State, payload: Bytes, events: seq<Event>)
    requires Initial(s, payload)
    ensures Run(s, payload, events).Some? ==> Invariant(Run(s, payload, events).value, payload)
  {
    hide Invariant, Initial, Enabled, Apply;
    if events == [] {
      InitialInvariant(s, payload);
    } else {
      var before := Run(s, payload, events[..|events| - 1]);
      RunKeepsInvariant(s, payload, events[..|events| - 1]);
      if before.Some? && Enabled(before.value, payload, events[|events| - 1]) {
        StepKeepsInvariant(before.value, payload, events[|events| - 1]);
      }
    }
  }

  /**
   Under every interleaving of readers and writers, with writes in pieces and failures anywhere, the final
   path is absent or holds the complete payload.
   */
  lemma FinalIsAbsentOrComplete(s: State, payload: Bytes, events: seq<Event>)
    requires Initial(s, payload) && Run(s, payload, events).Some?
    ensures var t := Run(s, payload, events).value;
            Final in t.entries ==> t.entries[Final] < |t.files| && t.files[t.entries[Final]] == payload
  {
    RunKeepsInvariant(s, payload, events);
  }

  /** So every call returns exactly the generated bytes. */
  lemma EveryCallReturnsPayload(s: State, payload: Bytes, events: seq<Event>, c: CallId)
    requires Initial(s, payload) && Run(s, payload, events).Some?
    requires c < |Run(s, payload, events).value.calls|
    requires Run(s, payload, events).value.calls[c].Finished?
    ensures Run(s, payload, events).value.calls[c].result == payload
  {
    RunKeepsInvariant(s, payload, events);
    assert CallOk(Run(s, payload, events).value, payload, c);
  }

  /** A step of a call leaves its temporary file behind only if its write fails. */
  lemma StepCleansUp(s: State, payload: Bytes, e: Event, c: CallId)
    requires Invariant(s, payload) && Enabled(s, payload, e) && c < |s.calls|
    requires s.calls[c].Finished? ==> Temp(c) !in s.entries
    ensures var t := Apply(s, payload, e);
            t.calls[c].Finished? && Temp(c) in t.entries ==> e == WriteFails(c)
  {
    assert CallOk(s, payload, c);
  }

  /** A call that has ended has left no temporary file, whatever failed except its write. */
  lemma {:induction false} TemporaryIsRemoved(s: State, payload: Bytes, events: seq<Event>, c: CallId)
    requires Initial(s, payload) && Run(s, payload, events).Some?
    requires var t := Run(s, payload, events).value; c < |t.calls| && t.calls[c].Finished?
    requires WriteFails(c) !in events
    ensures Temp(c) !in Run(s, payload, events).value.entries
  {
    hide Invariant, Initial;
    if events != [] {
      var front, e := events[..|events| - 1], events[|events| - 1];
      var before := Run(s, payload, front).value;
      RunKeepsInvariant(s, payload, front);
      assert forall x <- front :: x in events;
      assert e in events;
      if c < |before.calls| {
        if before.calls[c].Finished? {
          TemporaryIsRemoved(s, payload, front, c);
        }
        StepCleansUp(before, payload, e, c);
      }
    } else {
      assert s.calls == [] by { NoCallsYet(s, payload); }
    }
  }

  lemma NoCallsYet(s: State, payload: Bytes)
    requires Initial(s, payload)
    ensures s.calls == []
  {
  }

  /** What a run does to the rest of the directory: nothing, and a fixture once there stays there. */
  predicate Keeps(s: State, t: State) {
    && (Final in s.entries ==> Final in t.entries)
    && |s.files| <= |t.files|
    && forall p <- s.entries :: p.Other? && s.entries[p] < |s.files| ==>
         p in t.entries && t.entries[p] == s.entries[p] && t.files[s.entries[p]] == s.files[s.entries[p]]
  }

  lemma StepKeepsOthers(s: State, payload: Bytes, e: Event)
    requires Invariant(s, payload) && Enabled(s, payload, e)
    ensures Keeps(s, Apply(s, payload, e))
  {
    if !e.Call? {
      assert CallOk(s, payload, e.call);
    }
  }

  lemma {:induction false} RunKeepsOthers(s: State, payload: Bytes, events: seq<Event>)
    requires Initial(s, payload) && Run(s, payload, events).Some?
    ensures Keeps(s, Run(s, payload, events).value)
  {
    if events != [] {
      hide Invariant, Initial, Enabled, Apply;
      var front, e := events[..|events| - 1], events[|events| - 1];
      var before := Run(s, payload, front).value;
      RunKeepsInvariant(s, payload, front);
      RunKeepsOthers(s, payload, front);
      StepKeepsOthers(before, payload, e);
      var t := Apply(before, payload, e);
      forall p | p in s.entries && p.Other? && s.entries[p] < |s.files|
        ensures p in t.entries && t.entries[p] == s.entries[p] && t.files[s.entries[p]] == s.files[s.entries[p]]
      {
        assert p in before.entries && before.entries[p] < |before.files|;
      }
    }
  }

  predicate Steps(s: State, payload: Bytes, e: Event, t: State) {
    Enabled(s, payload, e) && Apply(s, payload, e) == t
  }

  lemma RunStep(s: State, payload: Bytes, events: seq<Event>, t: State, e: Event, u: State)
    requires Run(s, payload, events) == Some(t) && Steps(t, payload, e, u)
    ensures Run(s, payload, events + [e]) == Some(u)
  {
    assert (events + [e])[..|events|] == events;
  }

  const EMPTY: State := State(map[], [], [])

  /** Two calls start, and the first has written one byte when the second finds no fixture. */
  const FIRST_STEPS: seq<Event> :=
    [] + [Call] + [Call] + [OpenFinal(0)] + [CreateTemp(0)] + [WriteSome(0, 0)] + [OpenFinal(1)]

  /** The rest of the first call, with everything left of the payload in one piece. */
  function LastSteps(payload: Bytes): seq<Event> {
    [] + [WriteSome(0, |payload|)] + [WriteSome(0, 0)] + [Rename(0)] + [RemoveTemp(0)]
  }

  /**
   The race the protocol is about does happen: of two calls in an empty directory one is part of the way through
   its file when the other finds no fixture, and it goes on to publish its own.
   */
  lemma CallsRace(payload: Bytes)
    requires |payload| >= 2
    ensures Run(EMPTY, payload, FIRST_STEPS) == Some(State(map[Temp(0) := 0], [payload[..1]], [Writing(0), Generated]))
    ensures Run(EMPTY, payload, FIRST_STEPS + LastSteps(payload))
         == Some(State(map[Final := 0], [payload], [Finished(payload), Generated]))
  {
    FirstCallWrites(payload);
    FirstCallPublishes(payload, FIRST_STEPS);
  }

  lemma FirstCallWrites(payload: Bytes)
    requires |payload| >= 2
    ensures Run(EMPTY, payload, FIRST_STEPS) == Some(State(map[Temp(0) := 0], [payload[..1]], [Writing(0), Generated]))
  {
    assert Run(EMPTY, payload, []) == Some(EMPTY);
    FirstSteps(payload);
    hide Run, Apply, Enabled;
    var s1, s2, s3 := EMPTY.(calls := [Start]), EMPTY.(calls := [Start, Start]), EMPTY.(calls := [Generated, Start]);
    var s4 := State(map[Temp(0) := 0], [[]], [Writing(0), Start]);
    var s5 := s4.(files := [payload[..1]]);
    var e1 := [] + [Call];
    var e2 := e1 + [Call];
    var e3 := e2 + [OpenFinal(0)];
    var e4 := e3 + [CreateTemp(0)];
    RunStep(EMPTY, payload, [], EMPTY, Call, s1);
    RunStep(EMPTY, payload, e1, s1, Call, s2);
    RunStep(EMPTY, payload, e2, s2, OpenFinal(0), s3);
    RunStep(EMPTY, payload, e3, s3, CreateTemp(0), s4);
    RunStep(EMPTY, payload, e4, s4, WriteSome(0, 0), s5);
    RunStep(EMPTY, payload, e4 + [WriteSome(0, 0)], s5, OpenFinal(1), s5.(calls := [Writing(0), Generated]));
  }

  lemma FirstSteps(payload: Bytes)
    requires |payload| >= 2
    ensures Steps(EMPTY, payload, Call, EMPTY.(calls := [Start]))
    ensures Steps(EMPTY.(calls := [Start]), payload, Call, EMPTY.(calls := [Start, Start]))
    ensures Steps(EMPTY.(calls := [Start, Start]), payload, OpenFinal(0), EMPTY.(calls := [Generated, Start]))
    ensures Steps(EMPTY.(calls := [Generated, Start]), payload, CreateTemp(0),
                  State(map[Temp(0) := 0], [[]], [Writing(0), Start]))
    ensures Steps(State(map[Temp(0) := 0], [[]], [Writing(0), Start]), payload, WriteSome(0, 0),
                  State(map[Temp(0) := 0], [payload[..1]], [Writing(0), Start]))
    ensures Steps(State(map[Temp(0) := 0], [payload[..1]], [Writing(0), Start]), payload, OpenFinal(1),
                  State(map[Temp(0) := 0], [payload[..1]], [Writing(0), Generated]))
  {
    assert [] + payload[0..1] == payload[..1];
    assert [[]][0 := payload[..1]] == [payload[..1]];
  }

  lemma FirstCallPublishes(payload: Bytes, events: seq<Event>)
    requires |payload| >= 2
    requires Run(EMPTY, payload, events) == Some(State(map[Temp(0) := 0], [payload[..1]], [Writing(0), Generated]))
    ensures Run(EMPTY, payload, events + LastSteps(payload))
         == Some(State(map[Final := 0], [payload], [Finished(payload), Generated]))
  {
    hide Run;
    var s0 := State(map[Temp(0) := 0], [payload[..1]], [Writing(0), Generated]);
    var s1 := State(map[Temp(0) := 0], [payload], [Writing(0), Generated]);
    var s2 := State(map[Temp(0) := 0], [payload], [Written, Generated]);
    var s3 := State(map[Final := 0], [payload], [CleaningUp, Generated]);
    var s4 := State(map[Final := 0], [payload], [Finished(payload), Generated]);
    assert payload[..1] + payload[1..] == payload && payload[1..] == payload[1..|payload|];
    assert s0.files[0 := payload] == s1.files;
    RunStep(EMPTY, payload, events, s0, WriteSome(0, |payload|), s1);
    var e1 := events + [WriteSome(0, |payload|)];
    RunStep(EMPTY, payload, e1, s1, WriteSome(0, 0), s2);
    var e2 := e1 + [WriteSome(0, 0)];
    RunStep(EMPTY, payload, e2, s2, Rename(0), s3);
    RunStep(EMPTY, payload, e2 + [Rename(0)], s3, RemoveTemp(0), s4);
    assert e2 + [Rename(0)] + [RemoveTemp(0)] == events + LastSteps(payload);
  }

  // ---------------------------------------------------------------------------------------------
  // The directory as an object
  // ---------------------------------------------------------------------------------------------

  /**
   What fails in a call: the read or the write once so many bytes are through, making the directory, the
   rename.
   */
  datatype Faults = Faults(read: Option<nat>, directory: bool, write: Option<nat>, rename: bool)

  const NO_FAULTS: Faults := Faults(None, false, None, false)

  /**
   The cache directory with its entries and files. Each method is one system call of `cached`, written as
   updates of the shared fields and proved to be that step of the protocol.
   */
  class CacheDirectory {
    var entries: map<Path, Inode>
    var files: seq<Bytes>
    var calls: seq<Phase>
    const payload: Bytes

    ghost function View(): State
      reads this
    {
      State(entries, files, calls)
    }

    constructor (payload: Bytes)
      ensures this.payload == payload && View() == State(map[], [], []) && Initial(View(), payload)
    {
      this.payload := payload;
      entries, files, calls := map[], [], [];
    }

    method Begin() returns (c: CallId)
      modifies this
      ensures c == |old(calls)| && View() == Apply(old(View()), payload, Call)
    {
      c := |calls|;
      calls := calls + [Start];
    }

    method Open(c: CallId)
      requires c < |calls| && calls[c].Start?
      modifies this
      ensures View() == Apply(old(View()), payload, OpenFinal(c))
    {
      if Final in entries {
        calls := calls[c := Reading(entries[Final], [])];
      } else {
        calls := calls[c := Generated];
      }
    }

    /** Reads up to `n` more bytes past the first, or finds the end of the file. */
    method Read(c: CallId, n: nat)
      requires c < |calls| && calls[c].Reading? && calls[c].inode < |files|
      modifies this`calls
      ensures View() == Apply(old(View()), payload, ReadSome(c, n))
    {
      var file, got := files[calls[c].inode], calls[c].got;
      if |got| >= |file| {
        calls := calls[c := Finished(got)];
      } else {
        calls := calls[c := Reading(calls[c].inode, got + file[|got|..Min(|got| + n + 1, |file|)])];
      }
    }

    method Create(c: CallId)
      requires c < |calls| && calls[c].Generated?
      modifies this
      ensures View() == Apply(old(View()), payload, CreateTemp(c))
    {
      if Temp(c) in entries && entries[Temp(c)] < |files| {
        files := files[entries[Temp(c)] := []];
        calls := calls[c := Writing(entries[Temp(c)])];
      } else {
        calls := calls[c := Writing(|files|)];
        entries := entries[Temp(c) := |files|];
        files := files + [[]];
      }
    }

    method Write(c: CallId, n: nat)
      requires Enabled(View(), payload, WriteSome(c, n))
      modifies this
      ensures View() == Apply(old(View()), payload, WriteSome(c, n))
    {
      var i := calls[c].inode;
      var done := files[i];
      if |done| == |payload| {
        calls := calls[c := Written];
      } else {
        files := files[i := done + payload[|done|..Min(|done| + n + 1, |payload|)]];
      }
    }

    method RenameTemp(c: CallId)
      requires Enabled(View(), payload, Rename(c))
      modifies this
      ensures View() == Apply(old(View()), payload, Rename(c))
    {
      var inode := entries[Temp(c)];
      entries := entries - {Temp(c)};
      entries := entries[Final := inode];
      calls := calls[c := CleaningUp];
    }

    method Remove(c: CallId)
      requires c < |calls| && calls[c].CleaningUp?
      modifies this
      ensures View() == Apply(old(View()), payload, RemoveTemp(c))
    {
      entries := entries - {Temp(c)};
      calls := calls[c := Finished(payload)];
    }

    method GiveUpReading(c: CallId)
      requires c < |calls| && (calls[c].Start? || calls[c].Reading?)
      modifies this`calls
      ensures View() == Apply(old(View()), payload, ReadFails(c))
    {
      calls := calls[c := Generated];
    }

    method GiveUpWriting(c: CallId)
      requires c < |calls| && (calls[c].Generated? || calls[c].Writing?)
      modifies this`calls
      ensures View() == Apply(old(View()), payload, WriteFails(c))
    {
      calls := calls[c := Finished(payload)];
    }

    method GiveUpRenaming(c: CallId)
      requires c < |calls| && calls[c].Written?
      modifies this`calls
      ensures View() == Apply(old(View()), payload, RenameFails(c))
    {
      calls := calls[c := CleaningUp];
    }

    /**
     A whole call, in steps of `n` bytes and with any system call failing, while the other calls stand still
     at any point of theirs: it returns the payload, and leaves the fixture complete if nothing failed.
     */
    method Cached(n: nat, faults: Faults) returns (bytes: Bytes)
      requires Invariant(View(), payload)
      modifies this
      ensures bytes == payload && Invariant(View(), payload)
      ensures Final in entries ==> entries[Final] < |files| && files[entries[Final]] == payload
      ensures faults == NO_FAULTS || Final in old(entries) ==> Final in entries
    {
      hide Invariant, Apply;
      StepKeepsInvariant(View(), payload, Call);
      var c := Begin();
      CallStarts(old(View()), payload);
      StepKeepsInvariant(View(), payload, OpenFinal(c));
      ghost var before := View();
      Open(c);
      OpenLeadsOn(before, payload, c);
      if calls[c].Reading? {
        Finish(c, n, faults);
      }
      if calls[c].Generated? {
        Fill(c, n, faults);
      }
      bytes := calls[c].result;
      FinishedIsPayload(View(), payload, c);
    }

    /** The reading loop; a failure part way leaves the bytes to be generated. */
    method Finish(c: CallId, n: nat, faults: Faults)
      requires Invariant(View(), payload) && c < |calls| && calls[c].Reading? && Final in entries
      modifies this
      ensures Invariant(View(), payload) && c < |calls| && Final in entries
      ensures calls[c].Finished? || (calls[c].Generated? && faults.read.Some?)
    {
      while calls[c].Reading?
        invariant Invariant(View(), payload) && c < |calls| && Final in entries
        invariant calls[c].Reading? || calls[c].Finished? || (calls[c].Generated? && faults.read.Some?)
        decreases if calls[c].Reading? then |payload| - |calls[c].got| + 1 else 0
      {
        assert CallOk(View(), payload, c);
        if faults.read.Some? && |calls[c].got| >= faults.read.value {
          StepKeepsInvariant(View(), payload, ReadFails(c));
          GiveUpReading(c);
        } else {
          StepKeepsInvariant(View(), payload, ReadSome(c, n));
          Read(c, n);
        }
        assert CallOk(View(), payload, c);
      }
    }

    /** Making the directory, creation and writing, the rename and the removal. */
    method Fill(c: CallId, n: nat, faults: Faults)
      requires Invariant(View(), payload) && c < |calls| && calls[c].Generated?
      modifies this
      ensures Invariant(View(), payload) && c < |calls| && calls[c].Finished?
      ensures (faults.write.None? && !faults.rename && !faults.directory) || Final in old(entries) ==> Final in entries
    {
      if faults.directory {
        StepKeepsInvariant(View(), payload, WriteFails(c));
        GiveUpWriting(c);
      } else {
        WriteTemp(c, n, faults);
        if calls[c].Written? {
          Publish(c, faults);
        }
      }
    }

    method WriteTemp(c: CallId, n: nat, faults: Faults)
      requires Invariant(View(), payload) && c < |calls| && calls[c].Generated?
      modifies this
      ensures Invariant(View(), payload) && c < |calls| && (Final in old(entries) ==> Final in entries)
      ensures (calls[c].Written? && Temp(c) in entries) || (calls[c].Finished? && faults.write.Some?)
    {
      StepKeepsInvariant(View(), payload, CreateTemp(c));
      Create(c);
      while calls[c].Writing?
        invariant Invariant(View(), payload) && c < |calls| && (Final in old(entries) ==> Final in entries)
        invariant ((calls[c].Writing? || calls[c].Written?) && Temp(c) in entries)
                  || (calls[c].Finished? && faults.write.Some?)
        invariant calls[c].Writing? ==> calls[c].inode < |files|
        decreases if calls[c].Writing? then |payload| - |files[calls[c].inode]| + 1 else 0
      {
        assert CallOk(View(), payload, c);
        if faults.write.Some? && |files[calls[c].inode]| >= faults.write.value {
          StepKeepsInvariant(View(), payload, WriteFails(c));
          GiveUpWriting(c);
        } else {
          StepKeepsInvariant(View(), payload, WriteSome(c, n));
          Write(c, n);
        }
        hide Apply;
        assert CallOk(View(), payload, c);
      }
    }

    method Publish(c: CallId, faults: Faults)
      requires Invariant(View(), payload) && c < |calls| && calls[c].Written? && Temp(c) in entries
      modifies this
      ensures Invariant(View(), payload) && c < |calls| && calls[c].Finished?
      ensures !faults.rename || Final in old(entries) ==> Final in entries
    {
      if faults.rename {
        StepKeepsInvariant(View(), payload, RenameFails(c));
        GiveUpRenaming(c);
      } else {
        StepKeepsInvariant(View(), payload, Rename(c));
        RenameTemp(c);
      }
      StepKeepsInvariant(View(), payload, RemoveTemp(c));
      Remove(c);
    }
  }

  lemma CallStarts(s: State, payload: Bytes)
    ensures var t := Apply(s, payload, Call);
            |t.calls| == |s.calls| + 1 && t.calls[|s.calls|].Start? && t.entries == s.entries
  {
  }

  lemma OpenLeadsOn(s: State, payload: Bytes, c: CallId)
    requires Enabled(s, payload, OpenFinal(c))
    ensures var t := Apply(s, payload, OpenFinal(c));
            && |t.calls| == |s.calls| && t.entries == s.entries
            && (if Final in t.entries then t.calls[c].Reading? else t.calls[c].Generated?)
  {
  }

  lemma FinishedIsPayload(s: State, payload: Bytes, c: CallId)
    requires Invariant(s, payload) && c < |s.calls| && s.calls[c].Finished?
    ensures s.calls[c].result == payload
    ensures Final in s.entries ==> s.entries[Final] < |s.files| && s.files[s.entries[Final]] == payload
  {
    assert CallOk(s, payload, c);
  }
}
