/** Short runs of a group of one camera with one required message, each showing a state that can be reached. */
module CamGroupExamples {
  import opened Words
  import opened Options
  import opened Cameras
  import opened RecordStore
  import opened CamGroupResults
  import opened CamGroupQueue
  import opened CamGroupRefs
  import opened CamGroupRuns
  import opened CamGroupOrder
  import opened CamGroupApart
  import opened CamGroupCertain
  import opened CamGroupPassing
  import opened CamGroupCalls
  import Refs = ResultRefs

  const One := Group({0}, {0}, {}, {})

  /** The contents of a record before and after its only camera is counted. */
  const Delivered := Result({}, map[0 := CamStatus({0}, {}, false)], false)
  const Complete := Result({0}, map[0 := CamStatus({0}, {}, true)], true)

  function Delivery(id: uint32): Report {
    Report(0, Core(0), id)
  }

  ghost predicate EndsIn(trace: seq<State>, steps: seq<Step>, st: State) {
    Run(One, trace, steps) && trace[|steps|] == st
  }

  ghost predicate Reachable(st: State) {
    exists trace, steps :: EndsIn(trace, steps, st)
  }

  /** The group starts with an empty table and gets there before it halts. */
  ghost predicate InFirstSession(st: State) {
    exists trace, steps :: EndsIn(trace, steps, st) && Session(steps, 0, |steps|)
  }

  lemma Extend(trace: seq<State>, steps: seq<Step>, step: Step)
    requires Run(One, trace, steps)
    requires Enabled(One, trace[|steps|], step)
    ensures EndsIn(trace + [Next(One, trace[|steps|], step)], steps + [step], Next(One, trace[|steps|], step))
  {
    hide Next, Enabled;
    var t, s := trace + [Next(One, trace[|steps|], step)], steps + [step];
    forall i | 0 <= i < |s| ensures Advances(One, t, s, i) {
      if i < |steps| {
        assert Advances(One, trace, steps, i);
      }
    }
  }

  lemma ReachesNext(st: State, step: Step)
    requires Reachable(st) && Enabled(One, st, step)
    ensures Reachable(Next(One, st, step))
  {
    hide Next, Enabled;
    var trace, steps :| EndsIn(trace, steps, st);
    Extend(trace, steps, step);
  }

  lemma SessionNext(st: State, step: Step)
    requires InFirstSession(st) && Enabled(One, st, step) && !step.Halt?
    ensures InFirstSession(Next(One, st, step))
  {
    hide Next, Enabled, Run;
    var trace, steps :| EndsIn(trace, steps, st) && Session(steps, 0, |steps|);
    Extend(trace, steps, step);
    assert Session(steps + [step], 0, |steps| + 1);
  }

  lemma {:induction false} ReachesAfter(st: State, p: Ptr, k: nat, t: State)
    requires Follows(One, st, Sections(p, k), t)
    ensures Reachable(st) ==> Reachable(t)
    ensures InFirstSession(st) ==> InFirstSession(t)
    decreases k
  {
    hide Next, Enabled, InFirstSession, Reachable;
    if k > 0 {
      assert Sections(p, k)[1..] == Sections(p, k - 1);
      if Reachable(st) {
        ReachesNext(st, Advance(p));
      }
      if InFirstSession(st) {
        SessionNext(st, Advance(p));
      }
      ReachesAfter(Next(One, st, Advance(p)), p, k - 1, t);
    }
  }

  // ----- What single steps do -----

  /** The state with one more record at a new address, held by the thread that looked it up. */
  function WithRecord(st: State, id: uint32, data: Result): State {
    var s := st.refs.store;
    var store := Store(s.byId[id := s.next], s.recs[s.next := Slot(id, 1, data)], s.next + 1, s.cleared);
    st.(refs := st.refs.(store := store, held := st.refs.held + multiset{s.next}),
        again := if id in QueuedIds(st.log) then st.again + {s.next} else st.again)
  }

  /** A lookup of a new frame, while the table has room. */
  lemma NewRecord(st: State, id: uint32)
    requires id !in st.refs.store.byId && |st.refs.store.byId| <= 12 && st.refs.store.cleared <= id
    ensures Enabled(One, st, LookUp(id)) && Next(One, st, LookUp(id)) == WithRecord(st, id, Blank)
  {
    hide QueuedIds;
    assert Refs.Dropped(ResultRules, st.refs, Refs.GetStep(id, true)) == {};
    assert st.refs.dropped + {} == st.refs.dropped;
  }

  lemma MarksBlank(st: State, p: Ptr)
    requires IsFree(st, p) && st.refs.store.recs[p].data == Blank
    ensures
      var report := Delivery(st.refs.store.recs[p].id);
      && Enabled(One, st, Mark(p, report))
      && Next(One, st, Mark(p, report))
         == st.(refs := st.refs.(store := Write(st.refs.store, p, Delivered)), reports := st.reports + {report})
  {
    var id := st.refs.store.recs[p].id;
    var bits: set<Bit> := {};
    assert bits + {0} == {0};
    assert Marked(Blank, Delivery(id)).status == Delivered.status;
    assert st.refs.dropped + {} == st.refs.dropped;
  }

  lemma CompletesDelivered(st: State, p: Ptr)
    requires IsFree(st, p) && st.refs.store.recs[p].data == Delivered
    ensures Enabled(One, st, SetReady(p, 0))
    ensures Next(One, st, SetReady(p, 0))
         == st.(refs := st.refs.(store := Write(st.refs.store, p, Complete)), calls := st.calls[p := Completed],
                clashed := if IsTakenEarly(st, p) then st.clashed + {p} else st.clashed)
  {
    assert CamDone(One, Delivered, 0) == Complete;
    assert st.refs.dropped + {} == st.refs.dropped;
  }

  lemma PutsBack(st: State, p: Ptr)
    requires IsFree(st, p)
    ensures Enabled(One, st, PutBack(p))
    ensures Next(One, st, PutBack(p))
         == st.(refs := st.refs.(store := Put(st.refs.store, p), held := st.refs.held - multiset{p}))
  {
    assert st.refs.dropped + {} == st.refs.dropped;
  }

  lemma FreeIf(st: State, p: Ptr)
    requires IsLive(st, p) && p !in st.calls && st.refs.held[p] > |Holders(st.calls, p)|
    ensures IsFree(st, p)
  {
    NeededIs(st, p);
  }

  // ----- One frame after the other -----

  /** The camera delivers a frame that has no record yet: the record is made, marked and completed. */
  function AfterFrame(st: State, id: uint32): State {
    WithRecord(st, id, Complete).(reports := st.reports + {Delivery(id)}, calls := map[st.refs.store.next := Completed])
  }

  lemma FrameCompletes(st: State, id: uint32) returns (a: State, b: State)
    requires id !in st.refs.store.byId && |st.refs.store.byId| <= 12 && st.refs.store.cleared <= id
    requires st.calls == map[]
    ensures Enabled(One, st, LookUp(id)) && a == Next(One, st, LookUp(id))
    ensures
      var p := st.refs.store.next;
      && Enabled(One, a, Mark(p, Delivery(id))) && b == Next(One, a, Mark(p, Delivery(id)))
      && b == WithRecord(st, id, Delivered).(reports := st.reports + {Delivery(id)})
      && Enabled(One, b, SetReady(p, 0)) && Next(One, b, SetReady(p, 0)) == AfterFrame(st, id)
  {
    hide Next, Enabled, QueuedIds, IsFree;
    var p := st.refs.store.next;
    NewRecord(st, id);
    a := Next(One, st, LookUp(id));
    assert Holders(a.calls, p) == {};
    FreeIf(a, p);
    MarksBlank(a, p);
    b := Next(One, a, Mark(p, Delivery(id)));
    var s := st.refs.store;
    assert s.recs[p := Slot(id, 1, Blank)][p := Slot(id, 1, Delivered)] == s.recs[p := Slot(id, 1, Delivered)];
    FreeIf(b, p);
    CompletesDelivered(b, p);
    assert s.recs[p := Slot(id, 1, Delivered)][p := Slot(id, 1, Complete)] == s.recs[p := Slot(id, 1, Complete)];
    assert !IsTakenEarly(b, p);
  }

  lemma ReachesDelivered(st: State, id: uint32)
    requires id !in st.refs.store.byId && |st.refs.store.byId| <= 12 && st.refs.store.cleared <= id
    requires st.calls == map[] && InFirstSession(st)
    ensures InFirstSession(WithRecord(st, id, Delivered).(reports := st.reports + {Delivery(id)}))
    ensures InFirstSession(AfterFrame(st, id))
  {
    hide Next, Enabled, InFirstSession, QueuedIds;
    var a, b := FrameCompletes(st, id);
    SessionNext(st, LookUp(id));
    SessionNext(a, Mark(st.refs.store.next, Delivery(id)));
    SessionNext(b, SetReady(st.refs.store.next, 0));
  }

  /** The group has just started. */
  const Begun := Start().(phase := Started)

  lemma ReachesBegun()
    ensures InFirstSession(Begun)
  {
    var trace: seq<State>, steps: seq<Step> := [Start()], [];
    assert Run(One, trace, steps);
    assert Next(One, Start(), Begin) == Begun;
    Extend(trace, steps, Begin);
    assert Session(steps + [Begin], 0, 1);
  }

  /** A completion that finds no record before it, or one that is ready, pushes its own. */
  lemma GoesAlone(st: State, p: Ptr)
    requires st.phase.Started? && IsLive(st, p) && p in st.calls && st.calls[p].Completed? && p in st.refs.held
    requires AfterLookUp(st, p).calls[p].Alone?
    ensures InFirstSession(st) ==> InFirstSession(AfterPush(AfterLookUp(st, p), p))
  {
    hide Next, Enabled, InFirstSession;
    var a := AfterLookUp(st, p);
    LooksUp(One, st, p);
    FollowsNone(One, st);
    FollowsStep(One, st, [], st, Advance(p));
    assert [] + [Advance(p)] == Sections(p, 1);
    ReachesAfter(st, p, 1, a);
    PushesOwn(One, a, p);
    ReachesAfter(a, p, 3, AfterPush(a, p));
  }

  /** A completion that finds a late record pushes that one and its own. */
  lemma GoesSecond(st: State, p: Ptr, q: Ptr)
    requires st.phase.Started? && IsLive(st, p) && IsLive(st, q) && p in st.calls && st.calls[p] == Looked(q)
    requires q in st.refs.held && p in st.refs.held && q != p
    ensures InFirstSession(st) ==> InFirstSession(AfterPush(AfterForcing(One, st, p, q), p))
  {
    hide Next, Enabled, InFirstSession;
    ForcesLate(One, st, p, q);
    ReachesAfter(st, p, 5, AfterForcing(One, st, p, q));
    PushesOwn(One, AfterForcing(One, st, p, q), p);
    ReachesAfter(AfterForcing(One, st, p, q), p, 3, AfterPush(AfterForcing(One, st, p, q), p));
  }

  // ----- Two completions that overlap -----

  /** Frames 5 and 6 have been delivered, and neither is counted. */
  const TwoDelivered := Begun.(
    refs := Begun.refs.(
      store := Store(map[5 := 0, 6 := 1], map[0 := Slot(5, 1, Delivered), 1 := Slot(6, 1, Delivered)], 2, 0),
      held := multiset{0, 1}),
    reports := {Delivery(5), Delivery(6)})

  lemma ReachesTwoDelivered()
    ensures InFirstSession(TwoDelivered)
  {
    hide InFirstSession;
    hide AfterFrame;
    ReachesBegun();
    ReachesDelivered(Begun, 5);
    var a := WithRecord(Begun, 5, Delivered).(reports := {Delivery(5)});
    hide QueuedIds;
    assert a.refs.store == Store(map[5 := 0], map[0 := Slot(5, 1, Delivered)], 1, 0);
    assert |a.refs.store.byId.Keys| == 1;
    assert Begun.reports + {Delivery(5)} == {Delivery(5)};
    ReachesDelivered(a, 6);
    assert WithRecord(a, 6, Delivered).(reports := a.reports + {Delivery(6)}) == TwoDelivered;
  }

  /** Both frames are complete, and neither thread has looked for the frame before. */
  const TwoComplete := TwoDelivered.(
    refs := TwoDelivered.refs.(
      store := Store(map[5 := 0, 6 := 1], map[0 := Slot(5, 1, Complete), 1 := Slot(6, 1, Complete)], 2, 0)),
    calls := map[0 := Completed, 1 := Completed])

  lemma ReachesTwoComplete()
    ensures InFirstSession(TwoComplete)
  {
    hide InFirstSession, Next, Enabled;
    ReachesTwoDelivered();
    assert Holders(TwoDelivered.calls, 0) == {};
    FreeIf(TwoDelivered, 0);
    CompletesDelivered(TwoDelivered, 0);
    SessionNext(TwoDelivered, SetReady(0, 0));
    var a := Next(One, TwoDelivered, SetReady(0, 0));
    assert Holders(a.calls, 1) == {};
    FreeIf(a, 1);
    CompletesDelivered(a, 1);
    SessionNext(a, SetReady(1, 0));
    assert Next(One, a, SetReady(1, 0)) == TwoComplete;
  }

  /**
   * A state of a session that started with an empty table, so that no record was ready then: both frames were
   * completed by their own threads, nothing was forced, and frame 6 was queued before frame 5.
   */
  lemma OverlapSwapsFrames()
    ensures exists st: State ::
              && InFirstSession(st) && st.clashed == {} && st.missed == {} && st.calls == map[]
              && |st.log| == 2 && !st.log[0].forced && !st.log[1].forced && st.log[0].id == 6 && st.log[1].id == 5
  {
    hide InFirstSession;
    ReachesTwoComplete();
    var a := At(TwoComplete, 1, Alone(WasReady(0)));
    assert AfterLookUp(TwoComplete, 1) == a;
    GoesAlone(TwoComplete, 1);
    var b := AfterPush(a, 1);
    assert AfterLookUp(b, 0) == At(b, 0, Alone(NoRecord));
    GoesAlone(b, 0);
    var st := AfterPush(AfterLookUp(b, 0), 0);
    assert st.log == [Sent(1, 6, false, Complete), Sent(0, 5, false, Complete)];
    assert st.calls == map[];
  }

  /** Frame 6 is complete, and its thread has looked up frame 5, which is not ready. */
  const LateFound := TwoDelivered.(
    refs := TwoDelivered.refs.(
      store := Store(map[5 := 0, 6 := 1], map[0 := Slot(5, 2, Delivered), 1 := Slot(6, 1, Complete)], 2, 0),
      held := multiset{0, 0, 1}),
    calls := map[1 := Looked(0)])

  lemma ReachesLateFound()
    ensures InFirstSession(LateFound)
  {
    hide InFirstSession, Next, Enabled;
    ReachesTwoDelivered();
    assert Holders(TwoDelivered.calls, 1) == {};
    FreeIf(TwoDelivered, 1);
    CompletesDelivered(TwoDelivered, 1);
    SessionNext(TwoDelivered, SetReady(1, 0));
    var a := Next(One, TwoDelivered, SetReady(1, 0));
    LooksUp(One, a, 1);
    SessionNext(a, Advance(1));
    assert AfterLookUp(a, 1) == LateFound;
  }

  /** Now frame 5 is completed as well: the two threads clash on it. */
  const Clashing := LateFound.(
    refs := LateFound.refs.(
      store := Store(map[5 := 0, 6 := 1], map[0 := Slot(5, 2, Complete), 1 := Slot(6, 1, Complete)], 2, 0)),
    calls := map[0 := Completed, 1 := Looked(0)],
    clashed := {0})

  lemma ReachesClashing()
    ensures InFirstSession(Clashing)
  {
    hide InFirstSession, Next, Enabled;
    ReachesLateFound();
    assert Holders(LateFound.calls, 0) == {1};
    FreeIf(LateFound, 0);
    assert TakesEarly(LateFound.calls[1], 0);
    CompletesDelivered(LateFound, 0);
    SessionNext(LateFound, SetReady(0, 0));
    assert Next(One, LateFound, SetReady(0, 0)) == Clashing;
  }

  /** The thread of frame 6 has pushed both. */
  lemma ReachesClashed() returns (a: State)
    ensures InFirstSession(a) && a.phase.Started? && a.calls == map[0 := Completed] && 0 in a.refs.held
    ensures a.refs.store.byId == map[5 := 0, 6 := 1] && IsLive(a, 0)
    ensures a.refs.store.recs[0].id == 5 && a.refs.store.recs[0].data == Forced(One, Complete)
    ensures a.log == [Sent(0, 5, true, Forced(One, Complete)), Sent(1, 6, false, Complete)]
  {
    hide InFirstSession, Forced;
    ReachesClashing();
    GoesSecond(Clashing, 1, 0);
    var b := AfterForcing(One, Clashing, 1, 0);
    assert b.calls == map[0 := Completed, 1 := Alone(SentFirst(0))];
    a := AfterPush(b, 1);
  }

  /**
   * A state of a session that started with an empty table: the record of frame 5 is in the queue history
   * twice, and what its own thread pushed no longer holds what the camera delivered.
   */
  lemma ClashQueuesTwice()
    ensures exists st: State ::
              && InFirstSession(st) && st.calls == map[]
              && |st.log| == 3 && st.log[0].ptr == st.log[2].ptr == 0 && st.log[1].ptr == 1
              && !st.log[2].forced && !HasAll(One, StatusOf(st.log[2].data, 0))
  {
    hide InFirstSession;
    var a := ReachesClashed();
    assert AfterLookUp(a, 0) == At(a, 0, Alone(NoRecord));
    GoesAlone(a, 0);
    var st := AfterPush(AfterLookUp(a, 0), 0);
    var data := Forced(One, Complete);
    assert st.log == [Sent(0, 5, true, data), Sent(1, 6, false, Complete), Sent(0, 5, false, data)];
    assert StatusOf(data, 0).msgs == {};
    assert 0 in One.msgs;
    assert st.calls == map[];
  }

  // ----- A forced record that overtakes -----

  /** Frames 5 and 6 have been looked up and wait. */
  const TwoWait := Begun.(refs := Begun.refs.(
    store := Store(map[5 := 0, 6 := 1], map[0 := Slot(5, 1, Blank), 1 := Slot(6, 1, Blank)], 2, 0),
    held := multiset{0, 1}))

  lemma ReachesTwoWait()
    ensures InFirstSession(TwoWait)
  {
    hide InFirstSession, Next, Enabled;
    ReachesBegun();
    NewRecord(Begun, 5);
    SessionNext(Begun, LookUp(5));
    var a := WithRecord(Begun, 5, Blank);
    assert a.refs.store == Store(map[5 := 0], map[0 := Slot(5, 1, Blank)], 1, 0);
    assert |a.refs.store.byId.Keys| == 1;
    NewRecord(a, 6);
    SessionNext(a, LookUp(6));
    assert WithRecord(a, 6, Blank) == TwoWait;
  }

  /** A frame is completed while that before it waits: both are pushed. */
  lemma FrameForces(st: State, id: uint32, q: Ptr) returns (t: State)
    requires id !in st.refs.store.byId && |st.refs.store.byId| <= 12 && st.refs.store.cleared <= id
    requires st.calls == map[] && st.phase.Started? && InFirstSession(st)
    requires ToU32(id - 1) in st.refs.store.byId && st.refs.store.byId[ToU32(id - 1)] == q
    requires q < st.refs.store.next
    requires IsLive(st, q) && st.refs.store.recs[q] == Slot(ToU32(id - 1), st.refs.store.recs[q].refCnt, Blank)
    ensures InFirstSession(t) && t.clashed == st.clashed
    ensures t.log == st.log + [Sent(q, ToU32(id - 1), true, Forced(One, Blank)),
                               Sent(st.refs.store.next, id, false, Complete)]
    ensures t.refs.store.byId == st.refs.store.byId[id := st.refs.store.next]
    ensures t.again == if id in QueuedIds(st.log) then st.again + {st.refs.store.next} else st.again
  {
    hide InFirstSession, Next, Enabled, QueuedIds;
    var p := st.refs.store.next;
    ReachesDelivered(st, id);
    var a := AfterFrame(st, id);
    var i: int := id;
    assert ToU32(i - 1) != i;
    LooksUp(One, a, p);
    SessionNext(a, Advance(p));
    var b := AfterLookUp(a, p);
    assert b.calls == map[p := Looked(q)];
    GoesSecond(b, p, q);
    t := AfterPush(AfterForcing(One, b, p, q), p);
  }

  /** A state of a first session: frame 6 was forced and queued, frame 5 still waits in the table. */
  lemma ForcedFrameOvertakes()
    ensures exists st: State ::
              && InFirstSession(st)
              && |st.log| == 2 && st.log[0].forced && st.log[0].id == 6 && st.log[1].id == 7
              && HasRecord(st, 5) && st.refs.store.byId[5] !in Queued(st.log)
  {
    hide InFirstSession, Queued, QueuedIds, Forced;
    ReachesTwoWait();
    var st := ForcesSix();
    NotAmongTwo(st.log, 0);
  }

  lemma ForcesSix() returns (st: State)
    requires InFirstSession(TwoWait)
    ensures InFirstSession(st)
    ensures st.log == [Sent(1, 6, true, Forced(One, Blank)), Sent(2, 7, false, Complete)]
    ensures HasRecord(st, 5) && st.refs.store.byId[5] == 0
  {
    hide InFirstSession, QueuedIds, Forced;
    TwoIds(TwoWait.refs.store.byId);
    assert TwoWait.log == [] && TwoWait.calls == map[] && TwoWait.refs.store.recs[1] == Slot(6, 1, Blank);
    hide TwoWait;
    st := FrameForces(TwoWait, 7, 1);
  }

  lemma TwoIds(byId: map<uint32, Ptr>)
    requires byId == map[5 := 0, 6 := 1]
    ensures |byId| == 2
  {
    assert byId.Keys == {5, 6} && |byId.Keys| == |byId|;
  }

  lemma NotAmongTwo(log: seq<Sent>, p: Ptr)
    requires |log| == 2 && log[0].ptr != p && log[1].ptr != p
    ensures p !in Queued(log)
  {
  }

  // ----- A frame that is queued twice -----

  /** The reprocessing thread takes the only record, puts it back and clears it. */
  lemma ReachesRound(st: State, p: Ptr, id: uint32) returns (t: State)
    requires InFirstSession(st)
    requires
      && st.refs.queue == [p] && st.refs.worker.Idle? && id != ALL && st.refs.store.cleared <= id
      && st.refs.store.byId == map[id := p] && st.refs.store.recs.Keys == {p}
      && st.refs.store.recs[p].id == id && st.refs.store.recs[p].refCnt == 1
    ensures InFirstSession(t)
    ensures t == st.(refs := st.refs.(store := Store(map[], map[], st.refs.store.next, id), queue := [],
            dropped := t.refs.dropped))
  {
    hide InFirstSession;
    var a := Next(One, st, Pop);
    SessionNext(st, Pop);
    assert a.refs == st.refs.(queue := [], worker := Refs.Busy(p, id), dropped := a.refs.dropped);
    var b := Next(One, a, WorkerPut);
    SessionNext(a, WorkerPut);
    assert b.refs.store.recs[p].refCnt == 0;
    t := Next(One, b, WorkerClear);
    SessionNext(b, WorkerClear);
    LastIsCleared(b.refs.store, p, id);
  }

  lemma LastIsCleared(s: Store<Result>, p: Ptr, id: uint32)
    requires id != ALL && s.cleared <= id
    requires s.byId == map[id := p] && s.recs.Keys == {p} && s.recs[p].id == id && s.recs[p].refCnt == 0
    ensures Clear(ResultRules, s, id) == Store(map[], map[], s.next, id)
  {
    assert Expired(s, id, id);
    assert ExpiredIds(s, id) == {id};
  }

  /** Frame 5 was queued and put back by its thread. */
  const FiveQueued := Begun.(
    refs := Begun.refs.(store := Store(map[5 := 0], map[0 := Slot(5, 1, Complete)], 1, 0), queue := [0]),
    log := [Sent(0, 5, false, Complete)],
    reports := {Delivery(5)})

  const FivePushed := FiveQueued.(
    refs := FiveQueued.refs.(store := Store(map[5 := 0], map[0 := Slot(5, 2, Complete)], 1, 0), held := multiset{0}))

  lemma FirstFrameIs()
    ensures AfterFrame(Begun, 5) == FivePushed.(
              refs := FivePushed.refs.(store := Store(map[5 := 0], map[0 := Slot(5, 1, Complete)], 1, 0), queue := []),
              calls := map[0 := Completed], log := [])
  {
    assert Begun.reports + {Delivery(5)} == {Delivery(5)};
    assert 5 !in QueuedIds(Begun.log);
  }

  lemma ReachesFivePushed()
    ensures InFirstSession(FivePushed)
  {
    hide InFirstSession, Next, Enabled, QueuedIds, Refs.Enabled;
    ReachesBegun();
    ReachesDelivered(Begun, 5);
    var a := AfterFrame(Begun, 5);
    FirstFrameIs();
    hide AfterFrame;
    GoesAlone(a, 0);
    assert AfterLookUp(a, 0) == At(a, 0, Alone(NoRecord));
    FirstPushIs(a);
  }

  lemma FirstPushIs(a: State)
    requires a == AfterFrame(Begun, 5)
    ensures AfterPush(At(a, 0, Alone(NoRecord)), 0) == FivePushed
  {
    FirstFrameIs();
    assert a.calls[0 := Alone(NoRecord)] - {0} == map[];
  }

  lemma ReachesFiveQueued()
    ensures InFirstSession(FiveQueued)
  {
    hide InFirstSession, Next, Enabled;
    ReachesFivePushed();
    var b := FivePushed;
    assert Holders(b.calls, 0) == {};
    FreeIf(b, 0);
    PutsBack(b, 0);
    SessionNext(b, PutBack(0));
    assert b.refs.held - multiset{0} == multiset{};
    assert Next(One, b, PutBack(0)) == FiveQueued;
  }

  /** A straggler for frame 5 has come after its record was reprocessed and cleared. */
  lemma ReachesRemade() returns (st: State)
    ensures InFirstSession(st) && st.phase.Started? && st.log == FiveQueued.log && st.calls == map[]
    ensures st.refs.store == Store(map[5 := 1], map[1 := Slot(5, 1, Blank)], 2, 5)
    ensures st.again == {1} && st.clashed == {}
  {
    hide InFirstSession, Next, Enabled;
    ReachesFiveQueued();
    var a := ReachesRound(FiveQueued, 0, 5);
    assert a.log[0].id == 5;
    NewRecord(a, 5);
    SessionNext(a, LookUp(5));
    st := WithRecord(a, 5, Blank);
  }

  /** A state of a first session: the record of frame 5 was made again, forced, and the frame queued again. */
  lemma FrameIsQueuedTwice()
    ensures exists st: State ::
              && InFirstSession(st) && st.clashed == {}
              && |st.log| == 3 && st.log[0].id == st.log[1].id == 5 && st.log[1].ptr in st.again
  {
    hide InFirstSession, QueuedIds;
    var a := ReachesRemade();
    assert a.refs.store.byId.Keys == {5} && |a.refs.store.byId.Keys| == |a.refs.store.byId|;
    var st := FrameForces(a, 6, 1);
    assert st.log == [Sent(0, 5, false, Complete), Sent(1, 5, true, Forced(One, Blank)), Sent(2, 6, false, Complete)];
  }

  // ----- A record that was ready before the start -----

  /** Frame 5 was completed while the group was stopped. */
  const ReadyEarly := Start().(
    refs := Start().refs.(store := Store(map[5 := 0], map[0 := Slot(5, 1, Complete)], 1, 0), held := multiset{0}),
    reports := {Delivery(5)}, missed := {0})

  lemma ReachesReadyEarly()
    ensures Reachable(ReadyEarly)
  {
    hide Reachable, Next, Enabled;
    var st := Start();
    StartIsReachable();
    var a, b := FrameCompletes(st, 5);
    ReachesNext(st, LookUp(5));
    ReachesNext(a, Mark(0, Delivery(5)));
    ReachesNext(b, SetReady(0, 0));
    var c := AfterFrame(st, 5);
    LooksUp(One, c, 0);
    ReachesNext(c, Advance(0));
    var d := AfterLookUp(c, 0);
    MissesOwn(One, d, 0);
    ReachesAfter(d, 0, 1, AfterMissing(d, 0));
    assert AfterMissing(d, 0) == ReadyEarly;
  }

  lemma StartIsReachable()
    ensures Reachable(Start())
  {
    var trace: seq<State>, steps: seq<Step> := [Start()], [];
    assert EndsIn(trace, steps, Start());
  }

  /**
   * A run that can be had: frame 5 completes while the group is stopped, the group starts with no completion
   * in progress, none overlap, and frame 6 is queued without frame 5.
   */
  lemma EarlyFrameIsSkipped()
    ensures exists trace: seq<State>, steps: seq<Step> ::
              Run(One, trace, steps) && steps != [] && steps[|steps| - 1].Begin? && trace[|steps| - 1].calls == map[]
              && !OrderIsCertain(One, trace, steps)
  {
    ReachesReadyEarly();
    var before, begin :| EndsIn(before, begin, ReadyEarly);
    hide Run, OrderIsCertain;
    assert Next(One, ReadyEarly, Begin) == ReadyEarly.(phase := Started);
    RunLength(One, before, begin);
    Extend(before, begin, Begin);
    var trace, steps := before + [ReadyEarly.(phase := Started)], begin + [Begin];
    assert CanBePassed(One, ReadyEarly, trace[|steps|], 0);
    EarlyRecordCanBePassed(One, trace, steps, 0);
  }
}
