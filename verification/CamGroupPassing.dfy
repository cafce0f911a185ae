/**
 * A session that starts with a ready record is not only allowed to break the order: if the next frame can
 * still be delivered, its cameras can always do so, and it is queued without its predecessor.
 */
module CamGroupPassing {
  import opened Words
  import opened Options
  import opened Cameras
  import opened RecordStore
  import opened CamGroupResults
  import opened CamGroupContents
  import opened CamGroupQueue
  import opened CamGroupRefs
  import opened CamGroupRuns
  import opened CamGroupOrder
  import opened CamGroupApart
  import opened CamGroupCertain
  import Refs = ResultRefs

  /** What one camera has to deliver. */
  function Sources(g: Group): set<Source> {
    (set m | m in g.msgs :: Core(m)) + (set k | k in g.algos :: Algo(k))
  }

  predicate Holds(s: CamStatus, source: Source) {
    match source
    case Core(m) => m in s.msgs
    case Algo(k) => k in s.algos
  }

  lemma AllSourcesMeansAll(g: Group, s: CamStatus)
    requires forall source <- Sources(g) :: Holds(s, source)
    ensures HasAll(g, s)
  {
    forall m | m in g.msgs ensures m in s.msgs {
      assert Core(m) in Sources(g);
    }
    forall k | k in g.algos ensures k in s.algos {
      assert Algo(k) in Sources(g);
    }
  }

  function ReportFor(g: Group, cam: Cam, source: Source, m: uint32): Report {
    Report(cam, source, FrameOf(g, source, m))
  }

  /** What the record of frame m holds; a record that is still to be made is blank. */
  function FrameData(st: State, m: uint32): Result {
    if HasRecord(st, m) && IsLive(st, st.refs.store.byId[m]) then st.refs.store.recs[st.refs.store.byId[m]].data
    else Blank
  }

  /** A lookup makes a record for this frame, and clears nothing that matters to the frame before. */
  predicate CanBeMade(st: State, m: uint32) {
    !HasRecord(st, m) && st.refs.store.cleared <= m && (|st.refs.store.byId| <= 12 || m >= 4)
  }

  /** The record of frame m waits for bound cameras, or can still be made. */
  predicate CanBeDelivered(g: Group, st: State, m: uint32) {
    && (HasRecord(st, m) || CanBeMade(st, m))
    && !FrameData(st, m).ready && FrameData(st, m).cams < g.cams
  }

  /** p is the ready record of the frame before m, m can be delivered, and nothing else happens. */
  predicate Awaits(g: Group, st: State, p: Ptr, m: uint32) {
    && st.phase.Started? && st.log == [] && st.calls == map[]
    && ToU32(m - 1) in st.refs.store.byId && st.refs.store.byId[ToU32(m - 1)] == p
    && IsLive(st, p) && st.refs.store.recs[p].data.ready
    && p < st.refs.store.next && st.refs.store.recs[p].id == ToU32(m - 1)
    && (HasRecord(st, m) ==> st.refs.store.byId[m] != p && IsLive(st, st.refs.store.byId[m])
                             && st.refs.store.recs[st.refs.store.byId[m]].id == m)
    && CanBeDelivered(g, st, m)
  }

  /** The record of frame m exists, and a thread has it. */
  predicate IsHeld(st: State, m: uint32) {
    HasRecord(st, m) && st.refs.store.byId[m] in st.refs.held
  }

  // ----- One message: looked up, marked, counted, put back -----

  lemma NothingNeeded(st: State, p: Ptr)
    requires st.calls == map[]
    ensures Needed(st, p) == 0
  {
    NeededIs(st, p);
    assert Holders(st.calls, p) == {};
  }

  lemma LookUpFindsFrame(g: Group, st: State, p: Ptr, m: uint32)
    requires Awaits(g, st, p, m) && HasRecord(st, m)
    ensures Enabled(g, st, LookUp(m)) && !Reckless(g, st, LookUp(m))
    ensures
      var t := Next(g, st, LookUp(m));
      Awaits(g, t, p, m) && IsHeld(t, m) && FrameData(t, m) == FrameData(st, m)
  {
  }

  lemma LookUpMakesFrame(g: Group, st: State, p: Ptr, m: uint32)
    requires Awaits(g, st, p, m) && !HasRecord(st, m)
    ensures Enabled(g, st, LookUp(m)) && !Reckless(g, st, LookUp(m))
    ensures
      var t := Next(g, st, LookUp(m));
      Awaits(g, t, p, m) && IsHeld(t, m) && FrameData(t, m) == FrameData(st, m)
  {
    TrimKeepsBefore(st, p, m);
    hide Trim;
  }

  lemma TrimKeepsBefore(st: State, p: Ptr, m: uint32)
    requires CanBeMade(st, m)
    requires ToU32(m - 1) in st.refs.store.byId && st.refs.store.byId[ToU32(m - 1)] == p
    requires IsLive(st, p) && st.refs.store.recs[p].id == ToU32(m - 1)
    ensures
      var t := Trim(ResultRules, st.refs.store, m);
      && ToU32(m - 1) in t.byId && t.byId[ToU32(m - 1)] == p && p in t.recs && t.recs[p] == st.refs.store.recs[p]
      && t.next == st.refs.store.next && t.cleared <= m && m !in t.byId
    ensures |st.refs.store.byId| > 12 ==> ToU32(m - 4) == m - 4 < m - 1
  {
    if |st.refs.store.byId| > 12 {
      var ids := ExpiredIds(st.refs.store, ToU32(m - 4));
      assert forall id <- ids :: id <= m - 4;
    }
  }

  lemma LookUpHolds(g: Group, st: State, p: Ptr, m: uint32)
    requires Awaits(g, st, p, m)
    ensures Enabled(g, st, LookUp(m)) && !Reckless(g, st, LookUp(m))
    ensures
      var t := Next(g, st, LookUp(m));
      Awaits(g, t, p, m) && IsHeld(t, m) && FrameData(t, m) == FrameData(st, m)
  {
    hide Next, Enabled, Reckless, Awaits;
    if HasRecord(st, m) {
      LookUpFindsFrame(g, st, p, m);
    } else {
      LookUpMakesFrame(g, st, p, m);
    }
  }

  /** Marking adds one delivery and takes none away. */
  lemma MarkAdds(g: Group, st: State, p: Ptr, m: uint32, cam: Cam, source: Source)
    requires Awaits(g, st, p, m) && IsHeld(st, m) && source in Sources(g)
    ensures
      var step := Mark(st.refs.store.byId[m], ReportFor(g, cam, source, m));
      && Enabled(g, st, step) && !Reckless(g, st, step)
      && var t := Next(g, st, step);
         && Awaits(g, t, p, m) && IsHeld(t, m) && t.refs.store.byId == st.refs.store.byId
         && FrameData(t, m) == Marked(FrameData(st, m), ReportFor(g, cam, source, m))
  {
    var q := st.refs.store.byId[m];
    NothingNeeded(st, q);
    hide Needed, Marked;
    MarkIsEnabled(g, st, q, m, cam, source);
    MarkWrites(g, st, q, ReportFor(g, cam, source, m));
    MarkedHolds(g, FrameData(st, m), cam, source, m);
    hide Next, Enabled, Reckless, Sources, ReportFor;
  }

  lemma MarkIsEnabled(g: Group, st: State, q: Ptr, m: uint32, cam: Cam, source: Source)
    requires IsFree(st, q) && st.refs.store.recs[q].id == m && source in Sources(g)
    ensures
      var step := Mark(q, ReportFor(g, cam, source, m));
      Enabled(g, st, step) && !Reckless(g, st, step)
  {
    hide Needed, Marked;
  }

  lemma MarkWrites(g: Group, st: State, q: Ptr, report: Report)
    requires Enabled(g, st, Mark(q, report))
    ensures
      var t := Next(g, st, Mark(q, report));
      && t.refs.store == Write(st.refs.store, q, Marked(st.refs.store.recs[q].data, report))
      && t.phase == st.phase && t.log == st.log && t.calls == st.calls && t.refs.held == st.refs.held
  {
    hide Needed, Marked;
  }

  lemma MarkedHolds(g: Group, r: Result, cam: Cam, source: Source, m: uint32)
    ensures
      var now := Marked(r, ReportFor(g, cam, source, m));
      && Holds(StatusOf(now, cam), source) && now.cams == r.cams && now.ready == r.ready
      && forall c: Cam, x: Source :: Holds(StatusOf(r, c), x) ==> Holds(StatusOf(now, c), x)
  {
  }

  /** The completion of frame m has begun, and the record of the frame before is ready and was not queued. */
  predicate Passing(st: State, p: Ptr, m: uint32) {
    && st.phase.Started? && st.log == [] && IsHeld(st, m) && IsLive(st, st.refs.store.byId[m])
    && st.calls == map[st.refs.store.byId[m] := Completed]
    && st.refs.store.recs[st.refs.store.byId[m]].id == m
    && ToU32(m - 1) in st.refs.store.byId && st.refs.store.byId[ToU32(m - 1)] == p
    && IsLive(st, p) && st.refs.store.recs[p].data.ready
  }

  /** A camera that has delivered everything is counted; unless it is the last, the record goes on waiting. */
  lemma CountingWaits(g: Group, st: State, p: Ptr, m: uint32, cam: Cam)
    requires Awaits(g, st, p, m) && IsHeld(st, m) && cam in g.cams
    ensures
      var step := SetReady(st.refs.store.byId[m], cam);
      && Enabled(g, st, step) && !Reckless(g, st, step)
      && var t := Next(g, st, step);
         && t.refs.store.byId == st.refs.store.byId
         && (|| Passing(t, p, m)
             || (Awaits(g, t, p, m) && IsHeld(t, m) && FrameData(t, m) == CamDone(g, FrameData(st, m), cam)))
  {
    NothingNeeded(st, st.refs.store.byId[m]);
    hide Needed, HasAll;
  }

  lemma CountedHolds(g: Group, r: Result, cam: Cam)
    ensures
      var now := CamDone(g, r, cam);
      && r.cams <= now.cams && (HasAll(g, StatusOf(r, cam)) ==> cam in now.cams)
      && forall c: Cam, x: Source :: Holds(StatusOf(r, c), x) ==> Holds(StatusOf(now, c), x)
  {
  }

  lemma PutBackWaits(g: Group, st: State, p: Ptr, m: uint32)
    requires Awaits(g, st, p, m) && IsHeld(st, m)
    ensures
      var step := PutBack(st.refs.store.byId[m]);
      && Enabled(g, st, step) && !Reckless(g, st, step)
      && Awaits(g, Next(g, st, step), p, m) && FrameData(Next(g, st, step), m) == FrameData(st, m)
  {
    NothingNeeded(st, st.refs.store.byId[m]);
    hide Needed;
  }

  // ----- Runs of messages -----

  /** The run goes on, and completes records only when no other completion is in progress. */
  ghost predicate Delivers(g: Group, trace: seq<State>, steps: seq<Step>, t: seq<State>, s: seq<Step>) {
    && GoesOn(g, trace, steps, t, s)
    && (forall k :: |steps| <= k < |s| && s[k].SetReady? ==> t[k].calls == map[])
  }

  lemma DeliversAndOn(g: Group, a: seq<State>, x: seq<Step>, b: seq<State>, y: seq<Step>, c: seq<State>, z: seq<Step>)
    requires Delivers(g, a, x, b, y) && Delivers(g, b, y, c, z)
    ensures Delivers(g, a, x, c, z)
  {
    GoesOnAndOn(g, a, x, b, y, c, z);
    RunLength(g, b, y);
    hide Run, Reckless, Next, Enabled;
    forall k | |x| <= k < |z| && z[k].SetReady? ensures c[k].calls == map[] {
      if k < |y| {
        assert z[k] == y[k] && c[k] == b[k];
      }
    }
  }

  lemma ThenStep(g: Group, trace: seq<State>, steps: seq<Step>, a: seq<State>, x: seq<Step>, step: Step)
    returns (t: seq<State>, s: seq<Step>)
    requires Delivers(g, trace, steps, a, x) && Enabled(g, a[|x|], step) && !step.Halt?
    requires !Reckless(g, a[|x|], step) && (step.SetReady? ==> a[|x|].calls == map[])
    ensures Delivers(g, trace, steps, t, s) && |t| == |s| + 1
    ensures t[|s|] == Next(g, a[|x|], step)
    ensures s == x + [step]
  {
    hide Next, Enabled, Reckless;
    t, s := OneMoreStep(g, a, x, step);
    RunLength(g, a, x);
    RunLength(g, t, s);
    assert Delivers(g, a, x, t, s);
    DeliversAndOn(g, trace, steps, a, x, t, s);
  }

  /** A camera delivers one message; with it the frame is completed, or its record goes on waiting. */
  lemma MessageIsDelivered(
      g: Group, trace: seq<State>, steps: seq<Step>, p: Ptr, m: uint32, cam: Cam, source: Source)
    returns (t: seq<State>, s: seq<Step>)
    requires Run(g, trace, steps) && Awaits(g, trace[|steps|], p, m) && cam in g.cams && source in Sources(g)
    ensures Delivers(g, trace, steps, t, s) && |t| == |s| + 1
    ensures Passing(t[|s|], p, m) || Awaits(g, t[|s|], p, m)
    ensures
      Awaits(g, t[|s|], p, m) ==>
        var r := FrameData(trace[|steps|], m);
        var now := FrameData(t[|s|], m);
        && Holds(StatusOf(now, cam), source)
        && (forall x: Source :: Holds(StatusOf(r, cam), x) ==> Holds(StatusOf(now, cam), x))
        && r.cams <= now.cams && (HasAll(g, StatusOf(now, cam)) ==> cam in now.cams)
  {
    hide Next, Enabled, Reckless, Run, Awaits, Passing, FrameData, Sources, Holds, GoesOn;
    RunLength(g, trace, steps);
    assert Delivers(g, trace, steps, trace, steps) by {
      StaysPut(g, trace, steps);
    }
    hide Delivers;
    LookUpHolds(g, trace[|steps|], p, m);
    t, s := ThenStep(g, trace, steps, trace, steps, LookUp(m));
    var r := FrameData(t[|s|], m);
    var report := ReportFor(g, cam, source, m);
    MarkAdds(g, t[|s|], p, m, cam, source);
    MarkedHolds(g, r, cam, source, m);
    t, s := ThenStep(g, trace, steps, t, s, Mark(t[|s|].refs.store.byId[m], report));
    CountingWaits(g, t[|s|], p, m, cam);
    CountedHolds(g, Marked(r, report), cam);
    AwaitsHasNoCalls(g, t[|s|], p, m);
    t, s := ThenStep(g, trace, steps, t, s, SetReady(t[|s|].refs.store.byId[m], cam));
    if !Passing(t[|s|], p, m) {
      PutBackWaits(g, t[|s|], p, m);
      t, s := ThenStep(g, trace, steps, t, s, PutBack(t[|s|].refs.store.byId[m]));
      SameBits(g, Marked(r, report), cam);
    } else {
      PassingHasCall(g, t[|s|], p, m);
    }
  }

  lemma AwaitsHasNoCalls(g: Group, st: State, p: Ptr, m: uint32)
    requires Awaits(g, st, p, m)
    ensures st.calls == map[]
  {
  }

  lemma PassingHasCall(g: Group, st: State, p: Ptr, m: uint32)
    requires Passing(st, p, m)
    ensures !Awaits(g, st, p, m)
  {
    assert st.refs.store.byId[m] in st.calls;
  }

  lemma SameBits(g: Group, r: Result, cam: Cam)
    ensures HasAll(g, StatusOf(CamDone(g, r, cam), cam)) <==> HasAll(g, StatusOf(r, cam))
  {
  }

  /** A camera delivers all that is left to deliver. */
  lemma {:induction false} CameraDelivers(
      g: Group, trace: seq<State>, steps: seq<Step>, p: Ptr, m: uint32, cam: Cam, todo: set<Source>)
    returns (t: seq<State>, s: seq<Step>)
    requires Run(g, trace, steps) && Awaits(g, trace[|steps|], p, m) && cam in g.cams
    requires todo <= Sources(g) && todo != {}
    requires forall x <- Sources(g) - todo :: Holds(StatusOf(FrameData(trace[|steps|], m), cam), x)
    ensures Delivers(g, trace, steps, t, s) && |t| == |s| + 1
    ensures Passing(t[|s|], p, m) || Awaits(g, t[|s|], p, m)
    ensures Awaits(g, t[|s|], p, m) ==> FrameData(trace[|steps|], m).cams + {cam} <= FrameData(t[|s|], m).cams
    decreases |todo|
  {
    hide Next, Enabled, Reckless, Run, Awaits, Passing, FrameData, Sources, Holds, GoesOn, HasAll;
    var source := Any(todo);
    t, s := MessageIsDelivered(g, trace, steps, p, m, cam, source);
    if Awaits(g, t[|s|], p, m) {
      if todo == {source} {
        AllSourcesMeansAll(g, StatusOf(FrameData(t[|s|], m), cam));
      } else {
        DeliversIsRun(g, trace, steps, t, s);
        var a, x := t, s;
        t, s := CameraDelivers(g, a, x, p, m, cam, todo - {source});
        DeliversAndOn(g, trace, steps, a, x, t, s);
      }
    }
  }

  lemma DeliversIsRun(g: Group, trace: seq<State>, steps: seq<Step>, t: seq<State>, s: seq<Step>)
    requires Delivers(g, trace, steps, t, s)
    ensures Run(g, t, s) && GoesOn(g, trace, steps, t, s)
  {
  }

  /** The remaining cameras deliver one after the other; with the last one the frame is complete. */
  lemma {:induction false} FrameIsDelivered(g: Group, trace: seq<State>, steps: seq<Step>, p: Ptr, m: uint32)
    returns (t: seq<State>, s: seq<Step>)
    requires Run(g, trace, steps) && Awaits(g, trace[|steps|], p, m) && Sources(g) != {}
    ensures Delivers(g, trace, steps, t, s) && |t| == |s| + 1 && Passing(t[|s|], p, m)
    decreases |g.cams - FrameData(trace[|steps|], m).cams|
  {
    hide Next, Enabled, Reckless, Passing, FrameData, Sources, Holds, GoesOn, Delivers;
    AwaitsCameras(g, trace[|steps|], p, m);
    RunLength(g, trace, steps);
    hide Awaits, Run;
    var done := FrameData(trace[|steps|], m).cams;
    var cam := Any(g.cams - done);
    t, s := CameraDelivers(g, trace, steps, p, m, cam, Sources(g));
    if !Passing(t[|s|], p, m) {
      var now := FrameData(t[|s|], m).cams;
      assert cam in now && cam in g.cams - done;
      Fewer(g.cams - now, g.cams - done);
      DeliversIsRun(g, trace, steps, t, s);
      var a, x := t, s;
      t, s := FrameIsDelivered(g, a, x, p, m);
      DeliversAndOn(g, trace, steps, a, x, t, s);
    }
  }

  lemma AwaitsCameras(g: Group, st: State, p: Ptr, m: uint32)
    requires Awaits(g, st, p, m)
    ensures FrameData(st, m).cams < g.cams && g.cams - FrameData(st, m).cams != {}
  {
    var c :| c in g.cams && c !in FrameData(st, m).cams;
    assert c in g.cams - FrameData(st, m).cams;
  }

  lemma Fewer(a: set<Cam>, b: set<Cam>)
    requires a < b
    ensures |a| < |b|
  {
    assert b == a + (b - a);
  }

  // ----- The next frame passes the one that was ready -----

  /** The lookup of the frame before finds it ready, and the completion can go on to its push. */
  lemma PassesReady(g: Group, st: State, p: Ptr, m: uint32)
    requires Passing(st, p, m)
    ensures
      var q := st.refs.store.byId[m];
      && Enabled(g, st, Advance(q)) && !Reckless(g, st, Advance(q))
      && var t := Next(g, st, Advance(q));
         CanPush(t, q, p) && t.log == []
  {
  }

  /** The frame is pushed while the one before it is not in the queue history. */
  lemma FramePasses(g: Group, trace: seq<State>, steps: seq<Step>, p: Ptr, m: uint32)
    returns (t: seq<State>, s: seq<Step>, q: Ptr)
    requires Run(g, trace, steps) && Awaits(g, trace[|steps|], p, m) && Sources(g) != {}
    ensures Delivers(g, trace, steps, t, s) && |t| == |s| + 1 && |s| > |steps|
    ensures PushesAt(t, s, |s| - 1, q) && !IsInOrder(t[|s| - 1], q)
  {
    hide Next, Enabled, Reckless, Run, Awaits, FrameData, Sources, GoesOn, Delivers, CanPush, EndsWithPush;
    t, s := FrameIsDelivered(g, trace, steps, p, m);
    q := t[|s|].refs.store.byId[m];
    PassesReady(g, t[|s|], p, m);
    hide Passing;
    t, s := ThenStep(g, trace, steps, t, s, Advance(q));
    DeliversIsRun(g, trace, steps, t, s);
    var a, x := t, s;
    t, s := PushesNow(g, a, x, q, p);
    EndIs(g, a, x, t, s, q, p);
    OnlyAdvances(g, a, x, t, s);
    DeliversAndOn(g, trace, steps, a, x, t, s);
    LongerThan(g, trace, steps, a, x);
    DeliversIsRun(g, a, x, t, s);
    RunLength(g, t, s);
  }

  lemma EndIs(g: Group, a: seq<State>, x: seq<Step>, t: seq<State>, s: seq<Step>, q: Ptr, p: Ptr)
    requires EndsWithPush(g, a, x, t, s, q, p, [])
    ensures GoesOn(g, a, x, t, s) && |t| == |s| + 1 && |s| > |x|
    ensures PushesAt(t, s, |s| - 1, q) && !IsInOrder(t[|s| - 1], q)
    ensures forall k :: |x| <= k < |s| ==> s[k].Advance?
  {
    hide GoesOn;
  }

  lemma OnlyAdvances(g: Group, a: seq<State>, x: seq<Step>, t: seq<State>, s: seq<Step>)
    requires GoesOn(g, a, x, t, s) && forall k :: |x| <= k < |s| ==> s[k].Advance?
    ensures Delivers(g, a, x, t, s)
  {
    RunLength(g, t, s);
  }

  lemma LongerThan(g: Group, trace: seq<State>, steps: seq<Step>, t: seq<State>, s: seq<Step>)
    requires Delivers(g, trace, steps, t, s)
    ensures |s| >= |steps|
  {
  }

  /** A session that goes on like this is one whose completions are apart. */
  lemma DeliveriesAreApart(g: Group, trace: seq<State>, steps: seq<Step>, t: seq<State>, s: seq<Step>)
    requires Run(g, trace, steps) && steps != [] && Delivers(g, trace, steps, t, s) && |t| == |s| + 1
    ensures AllApart(g, t, s, |steps| - 1, |s|)
  {
    hide Run, Completes;
  }

  lemma AwaitsAtBegin(g: Group, trace: seq<State>, steps: seq<Step>, p: Ptr)
    requires Run(g, trace, steps) && steps != [] && steps[|steps| - 1].Begin? && trace[|steps| - 1].calls == map[]
    requires p in ReadyIn(trace[|steps| - 1].refs.store)
    requires CanBeDelivered(g, trace[|steps|], ToU32(trace[|steps| - 1].refs.store.recs[p].id + 1))
    ensures Awaits(g, trace[|steps|], p, ToU32(trace[|steps| - 1].refs.store.recs[p].id + 1))
  {
    var b := |steps| - 1;
    hide Next, Enabled, Invariant, Held, CanBeDelivered, Awaits, ReadyIn;
    RunLength(g, trace, steps);
    EveryRunKeeps(g, trace, steps, b);
    assert Advances(g, trace, steps, b);
    hide Run;
    AwaitsAfterBegin(g, trace[b], p);
  }

  lemma AwaitsAfterBegin(g: Group, st: State, p: Ptr)
    requires Invariant(g, st) && Enabled(g, st, Begin) && st.calls == map[] && p in ReadyIn(st.refs.store)
    requires CanBeDelivered(g, Next(g, st, Begin), ToU32(st.refs.store.recs[p].id + 1))
    ensures Awaits(g, Next(g, st, Begin), p, ToU32(st.refs.store.recs[p].id + 1))
  {
    BeginsEmpty(g, st, Begin);
    AddressIsOk(g, st, p);
    hide Invariant, CanBeDelivered;
    var id: int := st.refs.store.recs[p].id;
    assert ToU32(ToU32(id + 1) - 1) == id && ToU32(id + 1) != id;
  }

  /** A continuation of a session in which completions of neighbouring frames do not overlap. */
  ghost predicate GoesOnApart(g: Group, trace: seq<State>, steps: seq<Step>, t: seq<State>, s: seq<Step>) {
    && steps != [] && GoesOn(g, trace, steps, t, s)
    && |t| == |s| + 1 && AllApart(g, t, s, |steps| - 1, |s|)
  }

  /** p is ready when the group starts, and the next frame can be delivered then. */
  predicate CanBePassed(g: Group, begin: State, st: State, p: Ptr) {
    p in ReadyIn(begin.refs.store) && CanBeDelivered(g, st, ToU32(begin.refs.store.recs[p].id + 1))
  }

  ghost predicate SomeCanBePassed(g: Group, begin: State, st: State) {
    exists p <- ReadyIn(begin.refs.store) :: CanBePassed(g, begin, st, p)
  }

  /** However the session goes on like that, every push keeps the order. */
  ghost predicate OrderIsCertain(g: Group, trace: seq<State>, steps: seq<Step>) {
    forall t, s :: GoesOnApart(g, trace, steps, t, s) ==> AllInOrder(t, s, |steps| - 1, |s|)
  }

  /**
   * If a record is ready when the group starts, and the next frame can be delivered, the session can go on,
   * one message after the other, to queue the next frame without it.
   */
  lemma EarlyRecordCanBePassed(g: Group, trace: seq<State>, steps: seq<Step>, p: Ptr)
    requires Run(g, trace, steps) && steps != [] && steps[|steps| - 1].Begin? && trace[|steps| - 1].calls == map[]
    requires g.msgs != {} || g.algos != {}
    requires CanBePassed(g, trace[|steps| - 1], trace[|steps|], p)
    ensures !OrderIsCertain(g, trace, steps)
  {
    assert Sources(g) != {} by {
      SomeSource(g);
    }
    AwaitsAtBegin(g, trace, steps, p);
    hide Awaits, Run, Reckless, Sources, Queued, CanBeDelivered, IsInOrder, PushesAt;
    var t, s, q := FramePasses(g, trace, steps, p, ToU32(trace[|steps| - 1].refs.store.recs[p].id + 1));
    DeliveriesAreApart(g, trace, steps, t, s);
    DeliversIsRun(g, trace, steps, t, s);
    assert GoesOnApart(g, trace, steps, t, s) && !AllInOrder(t, s, |steps| - 1, |s|);
  }

  lemma SomeSource(g: Group)
    requires g.msgs != {} || g.algos != {}
    ensures Sources(g) != {}
  {
    if m :| m in g.msgs {
      assert Core(m) in Sources(g);
    } else {
      var k :| k in g.algos;
      assert Algo(k) in Sources(g);
    }
  }

  /**
   * Where the next frame of some ready record, if there is any, can be delivered, a session whose completions
   * are apart is certain to keep the order, however it goes on, exactly if no record is ready when it starts.
   */
  lemma OrderIsCertainIff(g: Group, trace: seq<State>, steps: seq<Step>)
    requires Run(g, trace, steps) && steps != [] && steps[|steps| - 1].Begin? && trace[|steps| - 1].calls == map[]
    requires Gentle(g, trace, steps, |steps|)
    requires g.msgs != {} || g.algos != {}
    requires ReadyIn(trace[|steps| - 1].refs.store) != {} ==>
               SomeCanBePassed(g, trace[|steps| - 1], trace[|steps|])
    ensures OrderIsCertain(g, trace, steps) <==> ReadyIn(trace[|steps| - 1].refs.store) == {}
  {
    RunLength(g, trace, steps);
    hide Run, CanBePassed, OrderIsCertain, Gentle, ReadyIn;
    if ReadyIn(trace[|steps| - 1].refs.store) == {} {
      NothingEarlyIsCertain(g, trace, steps);
    } else {
      var p :| p in ReadyIn(trace[|steps| - 1].refs.store) && CanBePassed(g, trace[|steps| - 1], trace[|steps|], p);
      EarlyRecordCanBePassed(g, trace, steps, p);
    }
  }

  lemma NothingEarlyIsCertain(g: Group, trace: seq<State>, steps: seq<Step>)
    requires Run(g, trace, steps) && steps != [] && steps[|steps| - 1].Begin? && trace[|steps| - 1].calls == map[]
    requires Gentle(g, trace, steps, |steps|)
    requires ReadyIn(trace[|steps| - 1].refs.store) == {}
    ensures OrderIsCertain(g, trace, steps)
  {
    hide Run, AllInOrder, ReadyIn, Gentle, GoesOn, AllApart;
    forall t, s | GoesOnApart(g, trace, steps, t, s) ensures AllInOrder(t, s, |steps| - 1, |s|) {
      NothingEarlyIsInOrder(g, trace, steps, t, s);
    }
  }

  lemma NothingEarlyIsInOrder(g: Group, trace: seq<State>, steps: seq<Step>, t: seq<State>, s: seq<Step>)
    requires Run(g, trace, steps) && steps != [] && steps[|steps| - 1].Begin? && trace[|steps| - 1].calls == map[]
    requires Gentle(g, trace, steps, |steps|) && GoesOnApart(g, trace, steps, t, s)
    requires ReadyIn(trace[|steps| - 1].refs.store) == {}
    ensures AllInOrder(t, s, |steps| - 1, |s|)
  {
    hide Reckless, ReadyIn;
    var b := |steps| - 1;
    assert s[b] == steps[b] && t[b] == trace[b];
    assert Session(s, b, |s|);
    assert Gentle(g, t, s, |s|) by {
      forall k | 0 <= k < |s| ensures AdvancesGently(g, t, s, k) {
        if k < |steps| {
          assert t[k] == trace[k] && s[k] == steps[k] && t[k + 1] == trace[k + 1];
          assert AdvancesGently(g, trace, steps, k);
        }
      }
    }
    SessionIsInOrderIff(g, t, s, b, |s|);
  }
}
