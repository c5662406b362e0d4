/**
 When a key that is already stored gets uploaded again. While cache checks of the key do not fail, that can
 happen exactly when some caller is past its check and short of its upload; a failed check always allows it.
 */
module SingleFlightRefetch {
  import opened Common
  import opened SingleFlight

  /** A caller of the key that is past its cache check and whose upload has not taken effect. */
  predicate Pending(s: State, key: Key, c: CallerId) {
    && c < |s.callers| && s.callers[c].key == key
    && (s.callers[c].phase.Checked? || (s.callers[c].phase.Working? && !s.callers[c].phase.stage.Stored?))
  }

  predicate Quiet(s: State, key: Key) {
    forall c | 0 <= c < |s.callers| :: !Pending(s, key, c)
  }

  function UploadsOf(uploads: seq<Upload>, key: Key): nat {
    if uploads == [] then 0
    else UploadsOf(uploads[..|uploads| - 1], key) + if uploads[|uploads| - 1].key == key then 1 else 0
  }

  /** The step is a failed cache check of the key. */
  predicate FailedCheck(s: State, e: Event, key: Key) {
    e.CheckError? && e.caller < |s.callers| && s.callers[e.caller].key == key
  }

  /** No cache check of the key fails in the run. */
  predicate ChecksSucceed(s: State, events: seq<Event>, key: Key)
    requires Run(s, events).Some?
  {
    events == [] ||
    var front := events[..|events| - 1];
    ChecksSucceed(s, front, key) && !FailedCheck(Run(s, front).value, events[|events| - 1], key)
  }

  /** Some continuation without a failed check of the key uploads it. */
  ghost predicate CanUpload(s: State, key: Key) {
    exists events :: Uploading(s, events, key)
  }

  predicate Uploading(s: State, events: seq<Event>, key: Key) {
    && Run(s, events).Some? && ChecksSucceed(s, events, key)
    && UploadsOf(Run(s, events).value.uploads, key) > UploadsOf(s.uploads, key)
  }

  // ---------------------------------------------------------------------------------------------
  // A quiet key stays quiet
  // ---------------------------------------------------------------------------------------------

  lemma StepKeepsQuiet(s: State, e: Event, key: Key)
    requires IsStored(s, key) && Quiet(s, key) && Enabled(s, e) && !FailedCheck(s, e, key)
    ensures IsStored(Apply(s, e), key) && Quiet(Apply(s, e), key)
    ensures UploadsOf(Apply(s, e).uploads, key) == UploadsOf(s.uploads, key)
  {
    var t := Apply(s, e);
    Footprint(s, e);
    StoredGrows(s, t);
    if !e.Arrive? {
      assert !Pending(s, key, e.caller);
    }
    forall c | 0 <= c < |t.callers|
      ensures !Pending(t, key, c)
    {
      if c < |s.callers| {
        assert !Pending(s, key, c);
      }
    }
    if e.StoreEffect? {
      assert t.uploads[..|t.uploads| - 1] == s.uploads;
    }
  }

  lemma {:induction false} RunKeepsQuiet(s: State, events: seq<Event>, key: Key)
    requires IsStored(s, key) && Quiet(s, key) && Run(s, events).Some? && ChecksSucceed(s, events, key)
    ensures var t := Run(s, events).value;
            IsStored(t, key) && Quiet(t, key) && UploadsOf(t.uploads, key) == UploadsOf(s.uploads, key)
    decreases |events|
  {
    hide Enabled, Apply, Quiet, IsStored, UploadsOf, FailedCheck;
    if events != [] {
      var front := events[..|events| - 1];
      RunKeepsQuiet(s, front, key);
      StepKeepsQuiet(Run(s, front).value, events[|events| - 1], key);
    }
  }

  // ---------------------------------------------------------------------------------------------
  // A pending caller can upload
  // ---------------------------------------------------------------------------------------------

  /** A run with one more step in front. */
  lemma {:induction false} RunCons(s: State, e: Event, events: seq<Event>, key: Key)
    requires Enabled(s, e) && !FailedCheck(s, e, key)
    ensures Run(s, [e] + events) == Run(Apply(s, e), events)
    ensures Run(Apply(s, e), events).Some? && ChecksSucceed(Apply(s, e), events, key) ==>
              ChecksSucceed(s, [e] + events, key)
    decreases |events|
  {
    hide Enabled, Apply, FailedCheck;
    var all := [e] + events;
    if events == [] {
      assert all[..0] == [] && all[0] == e && |all| == 1;
      assert Run(s, []) == Some(s) && ChecksSucceed(s, [], key);
    } else {
      var front := events[..|events| - 1];
      assert all[..|all| - 1] == [e] + front && all[|all| - 1] == events[|events| - 1];
      RunCons(s, e, front, key);
    }
  }

  /** A step after which the key can be uploaded, and which does not upload it itself. */
  lemma StepThenUpload(s: State, e: Event, key: Key)
    requires Enabled(s, e) && !FailedCheck(s, e, key) && Apply(s, e).uploads == s.uploads
    requires CanUpload(Apply(s, e), key)
    ensures CanUpload(s, key)
  {
    hide Enabled, Apply, FailedCheck, Run, ChecksSucceed, UploadsOf;
    var events :| Uploading(Apply(s, e), events, key);
    RunCons(s, e, events, key);
    assert Uploading(s, [e] + events, key);
  }

  lemma StoreUploads(s: State, c: CallerId)
    requires Enabled(s, StoreEffect(c))
    ensures CanUpload(s, s.callers[c].key)
  {
    var e, key := StoreEffect(c), s.callers[c].key;
    var t := Apply(s, e);
    RunCons(s, e, [], key);
    assert t.uploads[..|t.uploads| - 1] == s.uploads;
    assert Run(t, []) == Some(t) && [e] + [] == [e];
    assert Uploading(s, [e], key);
  }

  /** A leader short of its upload goes on to it. */
  lemma WorkerUploads(s: State, c: CallerId)
    requires c < |s.callers| && s.callers[c].phase.Working? && !s.callers[c].phase.stage.Stored?
    ensures CanUpload(s, s.callers[c].key)
    decreases if s.callers[c].phase.stage.Downloading? then 2 else if s.callers[c].phase.stage.Processing? then 1 else 0
  {
    hide CanUpload;
    var key := s.callers[c].key;
    match s.callers[c].phase.stage
    case Downloading =>
      WorkerUploads(Apply(s, Downloaded(c)), c);
      StepThenUpload(s, Downloaded(c), key);
    case Processing =>
      WorkerUploads(Apply(s, Processed(c)), c);
      StepThenUpload(s, Processed(c), key);
    case Uploading => StoreUploads(s, c);
  }

  /** A caller past its check, with nobody leading, leads and uploads. */
  lemma CheckedUploads(s: State, c: CallerId)
    requires c < |s.callers| && s.callers[c].phase.Checked? && s.callers[c].key !in s.inFlight
    ensures CanUpload(s, s.callers[c].key)
  {
    hide CanUpload;
    WorkerUploads(Apply(s, Enter(c)), c);
    StepThenUpload(s, Enter(c), s.callers[c].key);
  }

  /** A caller past its check waits for the leader there is to be gone, and then leads itself. */
  lemma CheckedUploadsAfter(s: State, c: CallerId, d: CallerId)
    requires Reachable(s) && c < |s.callers| && s.callers[c].phase.Checked?
    requires d < |s.callers| && s.callers[d].key == s.callers[c].key && Registered(s.callers[d].phase)
    ensures CanUpload(s, s.callers[c].key)
    decreases if s.callers[d].phase.Guarded? then 0 else 1
  {
    hide CanUpload, Reachable;
    var key := s.callers[c].key;
    var e := if s.callers[d].phase.Working? then Cancel(d)
             else if s.callers[d].phase.Worked? then Finish(d) else DropRemove(d);
    var t := Apply(s, e);
    Reaches(s, e);
    if e.DropRemove? {
      CheckedUploads(t, c);
    } else {
      CheckedUploadsAfter(t, c, d);
    }
    StepThenUpload(s, e, key);
  }

  lemma PendingUploads(s: State, key: Key, c: CallerId)
    requires Reachable(s) && Pending(s, key, c)
    ensures CanUpload(s, key)
  {
    hide CanUpload, Reachable;
    if s.callers[c].phase.Working? {
      WorkerUploads(s, c);
    } else if key !in s.inFlight {
      CheckedUploads(s, c);
    } else {
      MapEntryIsOneLeader(s, key);
      var d :| 0 <= d < |s.callers| && s.callers[d].key == key && Registered(s.callers[d].phase);
      CheckedUploadsAfter(s, c, d);
    }
  }

  /**
   "Exactly one fetch", made exact. In any reachable state, a stored key can be uploaded again without a
   failed check of it if and only if some caller of it is past its check and short of its upload.
   */
  lemma UploadedAgainIff(s: State, key: Key)
    requires Reachable(s) && IsStored(s, key)
    ensures CanUpload(s, key) <==> !Quiet(s, key)
  {
    hide Reachable, Run, ChecksSucceed, UploadsOf, IsStored;
    if CanUpload(s, key) && Quiet(s, key) {
      var events :| Uploading(s, events, key);
      RunKeepsQuiet(s, events, key);
      assert false;
    }
    if !Quiet(s, key) {
      var c :| 0 <= c < |s.callers| && Pending(s, key, c);
      PendingUploads(s, key, c);
    }
  }

  /** One caller whose check fails is enough, whatever is stored and whoever else is there. */
  lemma FailedCheckAllowsUpload(s: State, key: Key)
    requires Reachable(s)
    ensures var arrived := Apply(s, Arrive(key));
            && Enabled(arrived, CheckError(|s.callers|))
            && Reachable(Apply(arrived, CheckError(|s.callers|)))
            && CanUpload(Apply(arrived, CheckError(|s.callers|)), key)
  {
    hide CanUpload, Reachable;
    var arrived := Apply(s, Arrive(key));
    Reaches(s, Arrive(key));
    Reaches(arrived, CheckError(|s.callers|));
    PendingUploads(Apply(arrived, CheckError(|s.callers|)), key, |s.callers|);
  }

  /** A run in which a key is uploaded, and then again by a caller that checked later and whose check failed. */
  lemma FailedCheckUploadsTwice(key: Key)
    ensures exists s :: Reachable(s) && |s.uploads| == 2 && s.uploads[0].key == s.uploads[1].key == key
                        && |s.callers| == 2 && s.callers[1].checkFailed && s.callers[1].checkedAt > s.uploads[0].at
                        && forall c <- s.callers :: c.phase == Returned(Ok(key), None)
  {
    hide Reachable;
    StartReachable();
    Reaches(INITIAL, Arrive(key));
    var s1 := State([Caller(key, Checking, 0, false)], map[], [], [], 1);
    assert Apply(INITIAL, Arrive(key)) == s1;
    NothingStored(s1, key);
    Reaches(s1, CheckMiss(0));
    var s2 := State([Caller(key, Checked, 1, false)], map[], [], [], 2);
    assert Apply(s1, CheckMiss(0)).callers == s2.callers;
    LeadsAlone(s2, 0);
    var first := LeadState(s2, 0, 8);
    Reaches(first, Arrive(key));
    var s3 := Apply(first, Arrive(key));
    Reaches(s3, CheckError(1));
    var s4 := Apply(s3, CheckError(1));
    LeadsAlone(s4, 1);
    var second := LeadState(s4, 1, 8);
    assert |second.callers| == 2;
  }
}
