/** The camera group's methods over its result table, proved to be runs of the steps when nothing interrupts them. */
module CamGroupManager {
  import opened Words
  import opened Options
  import opened Cameras
  import opened RecordStore
  import opened CamGroupResults
  import opened CamGroupInvariant
  import opened CamGroupQueue
  import opened CamGroupRefs
  import opened CamGroupRuns
  import opened CamGroupCalls
  import Refs = ResultRefs

  // ----- The states that a call goes through -----

  /** The lookup that does not create: one more reference, or no effect at all. */
  lemma LookUpOfLate(st: State, p: Ptr)
    requires WellFormed(st.refs.store) && IsLive(st, p)
    ensures
      var got := Get(ResultRules, st.refs.store, IdBefore(st, p), false);
      var a := AfterLookUp(st, p);
      && got.store == a.refs.store && a.refs.queue == st.refs.queue && a.phase == st.phase
      && IsLive(a, p) && a.calls == st.calls[p := a.calls[p]]
      && (got.ptr.Some? ==>
            && a.calls[p] == Looked(got.ptr.value) && got.ptr.value in a.refs.held && IsLive(a, got.ptr.value)
            && a.refs.held - multiset{got.ptr.value} == st.refs.held)
      && (got.ptr.None? ==> a.calls[p].Alone? && a.refs.held == st.refs.held)
  {
  }

  lemma LooksUpFirst(g: Group, st: State, p: Ptr)
    requires IsLive(st, p) && p in st.calls && st.calls[p].Completed?
    ensures Follows(g, st, Sections(p, 1), AfterLookUp(st, p))
  {
    LooksUp(g, st, p);
    hide Next, Enabled, AfterLookUp;
    FollowsNone(g, st);
    FollowsStep(g, st, [], st, Advance(p));
    assert [] + [Advance(p)] == Sections(p, 1);
  }

  lemma ForcesAfterLookUp(g: Group, st: State, a: State, p: Ptr, q: Ptr)
    requires Follows(g, st, Sections(p, 1), a)
    requires a.phase.Started? && IsLive(a, p) && IsLive(a, q) && p in a.calls && a.calls[p] == Looked(q)
    requires q in a.refs.held && a.calls == st.calls[p := Looked(q)]
    ensures
      var t := AfterForcing(g, a, p, q);
      && Follows(g, st, Sections(p, 6), t)
      && t.refs.store == Put(Retain(WithForced(g, a, q), q), q) && t.refs.queue == a.refs.queue + [q]
      && t.refs.held == a.refs.held - multiset{q} && t.phase == a.phase && IsLive(t, p)
      && p in t.calls && t.calls[p].Alone? && t.calls == st.calls[p := t.calls[p]]
  {
    hide Next, Enabled, Follows, Forced;
    ForcesLate(g, a, p, q);
    FollowsThen(g, st, Sections(p, 1), a, Sections(p, 5), AfterForcing(g, a, p, q));
    SectionsAddUp(p, 1, 5);
  }

  lemma SparesAfterLookUp(g: Group, st: State, a: State, p: Ptr, q: Ptr)
    requires Follows(g, st, Sections(p, 1), a)
    requires !a.phase.Started? && IsLive(a, p) && IsLive(a, q) && p in a.calls && a.calls[p] == Looked(q)
    requires q in a.refs.held && a.calls == st.calls[p := Looked(q)]
    ensures
      var t := AfterSparing(a, p, q);
      && Follows(g, st, Sections(p, 3), t)
      && t.refs.store == Put(a.refs.store, q) && t.refs.queue == a.refs.queue
      && t.refs.held == a.refs.held - multiset{q} && t.phase == a.phase && IsLive(t, p)
      && p in t.calls && t.calls[p].Alone? && t.calls == st.calls[p := t.calls[p]]
  {
    hide Next, Enabled, Follows;
    SparesLate(g, a, p, q);
    FollowsThen(g, st, Sections(p, 1), a, Sections(p, 2), AfterSparing(a, p, q));
    SectionsAddUp(p, 1, 2);
  }

  /** The state with p just completed. */
  ghost function ReadyState(g: Group, st: State, p: Ptr, cam: Cam): (a: State)
    requires Invariant(g, st) && Enabled(g, st, SetReady(p, cam))
    ensures a == Next(g, st, SetReady(p, cam)) && Invariant(g, a)
    ensures a.refs == st.refs.(store := Write(st.refs.store, p, CamDone(g, st.refs.store.recs[p].data, cam)))
    ensures a.phase == st.phase && IsLive(a, p) && p in a.refs.held
    ensures
      if Completes(g, st.refs.store.recs[p].data, cam) then p !in st.calls && a.calls == st.calls[p := Completed]
      else a.calls == st.calls
  {
    StepKeeps(g, st, SetReady(p, cam));
    CallsAreReady(g, st);
    hide Invariant;
    SetReadyDoes(g, st, p, cam);
    hide CamDone, Next, Enabled;
    Next(g, st, SetReady(p, cam))
  }

  lemma SetReadyDoes(g: Group, st: State, p: Ptr, cam: Cam)
    requires Enabled(g, st, SetReady(p, cam))
    requires p in st.calls ==> st.refs.store.recs[p].data.ready
    ensures
      var a := Next(g, st, SetReady(p, cam));
      && a.refs == st.refs.(store := Write(st.refs.store, p, CamDone(g, st.refs.store.recs[p].data, cam)))
      && a.phase == st.phase && IsLive(a, p) && p in a.refs.held
      && if Completes(g, st.refs.store.recs[p].data, cam) then p !in st.calls && a.calls == st.calls[p := Completed]
         else a.calls == st.calls
  {
    hide CamDone, Needed;
    assert st.refs.dropped + {} == st.refs.dropped;
  }

  ghost function LookedUp(g: Group, st: State, report: Report): (a: State)
    requires Invariant(g, st) && Held(st)
    ensures
      var got := Get(ResultRules, st.refs.store, FiledUnder(g, report), true);
      && Enabled(g, st, LookUp(FiledUnder(g, report))) && a == Next(g, st, LookUp(FiledUnder(g, report)))
      && Invariant(g, a)
      && a.refs.store == got.store && a.refs.queue == st.refs.queue && a.phase == st.phase
      && (got.ptr.Some? ==> IsFree(a, got.ptr.value)
                            && a.refs.store.recs[got.ptr.value].id == FiledUnder(g, report))
  {
    AddressIsOk(g, st, 0);
    StepKeeps(g, st, LookUp(FiledUnder(g, report)));
    GetAddsOneReference(ResultRules, st.refs.store, FiledUnder(g, report), true);
    hide Invariant, Get, WellFormed;
    var got := Get(ResultRules, st.refs.store, FiledUnder(g, report), true);
    assert got.ptr.Some? ==> HeldAt(st, got.ptr.value);
    Next(g, st, LookUp(FiledUnder(g, report)))
  }

  ghost function MarkedState(g: Group, a: State, p: Ptr, report: Report): (b: State)
    requires Invariant(g, a) && IsFree(a, p)
    requires a.refs.store.recs[p].id == FiledUnder(g, report) && report.source.Core? && report.source.msg in g.msgs
    ensures Enabled(g, a, Mark(p, report)) && b == Next(g, a, Mark(p, report)) && Invariant(g, b)
    ensures b.refs.store == Write(a.refs.store, p, Marked(a.refs.store.recs[p].data, report))
    ensures b.refs.queue == a.refs.queue && b.phase == a.phase && IsFree(b, p)
  {
    MarkFrees(g, a, p, report);
    StepKeeps(g, a, Mark(p, report));
    hide Invariant, Marked, Enabled, Next, IsFree;
    Next(g, a, Mark(p, report))
  }

  lemma MarkFrees(g: Group, a: State, p: Ptr, report: Report)
    requires IsFree(a, p)
    requires a.refs.store.recs[p].id == FiledUnder(g, report) && report.source.Core? && report.source.msg in g.msgs
    ensures Enabled(g, a, Mark(p, report))
    ensures
      var b := Next(g, a, Mark(p, report));
      && b.refs.store == Write(a.refs.store, p, Marked(a.refs.store.recs[p].data, report))
      && b.refs.queue == a.refs.queue && b.phase == a.phase && IsFree(b, p)
  {
    hide Marked, Needed;
    assert Needed(Next(g, a, Mark(p, report)), p) == Needed(a, p) by {
      NeededIs(a, p);
      NeededIs(Next(g, a, Mark(p, report)), p);
    }
  }

  ghost function PutState(g: Group, c: State, p: Ptr): (t: State)
    requires IsFree(c, p)
    ensures Enabled(g, c, PutBack(p)) && t == Next(g, c, PutBack(p))
    ensures t.refs.store == Put(c.refs.store, p) && t.refs.queue == c.refs.queue && t.phase == c.phase
  {
    Next(g, c, PutBack(p))
  }

  /** What the first section does to the contents. */
  lemma CountingIs(g: Group, r: Result, cam: Cam)
    ensures CamDone(g, r, cam)
         == if HasAll(g, StatusOf(r, cam)) then
              Result(r.cams + {cam}, r.status[cam := StatusOf(r, cam).(ready := true)],
                     r.ready || r.cams + {cam} == g.cams)
            else r
    ensures Completes(g, r, cam) <==> HasAll(g, StatusOf(r, cam)) && !r.ready && r.cams + {cam} == g.cams
  {
  }

  /** A delivery sets one bit of one camera, and takes nothing away. */
  lemma DeliveryIsMarked(r: Result, report: Report)
    ensures
      var now := Marked(r, report);
      && now.cams == r.cams && now.ready == r.ready && now.status.Keys == r.status.Keys + {report.cam}
      && (forall c <- r.status :: c != report.cam ==> now.status[c] == r.status[c])
      && (report.cam in r.status ==> now.status[report.cam].ready == r.status[report.cam].ready)
      && (report.cam !in r.status ==> !now.status[report.cam].ready)
      && (forall b: Bit :: b in now.status[report.cam].msgs
                           <==> report.source == Core(b)
                                || (report.cam in r.status && b in r.status[report.cam].msgs))
      && (forall b: Bit :: b in now.status[report.cam].algos
                           <==> report.source == Algo(b)
                                || (report.cam in r.status && b in r.status[report.cam].algos))
  {
  }

  lemma WritesAsIs(s: Store<Result>, p: Ptr)
    requires p in s.recs
    ensures Write(s, p, s.recs[p].data) == s
  {
  }

  lemma StaysFree(st: State, t: State, p: Ptr)
    requires IsFree(st, p) && t.calls == st.calls && t.refs.held == st.refs.held && IsLive(t, p)
    ensures IsFree(t, p)
  {
  }

  /** The state after one round of the reprocessing thread. */
  ghost function RoundState(g: Group, st: State): (t: State)
    requires st.refs.worker.Idle? && st.refs.queue != [] && st.refs.queue[0] in st.refs.store.recs
    ensures Follows(g, st, [Pop, WorkerPut, WorkerClear], t)
    ensures
      var p := st.refs.queue[0];
      t.refs.store == Clear(ResultRules, Put(st.refs.store, p), st.refs.store.recs[p].id)
    ensures t.refs.queue == st.refs.queue[1..] && t.phase == st.phase
  {
    hide Clear, ExpiredIds;
    var a := Next(g, st, Pop);
    var b := Next(g, a, WorkerPut);
    var t := Next(g, b, WorkerClear);
    FollowsRound(g, st, a, b, t);
    t
  }

  lemma FollowsRound(g: Group, st: State, a: State, b: State, t: State)
    requires Enabled(g, st, Pop) && a == Next(g, st, Pop)
    requires Enabled(g, a, WorkerPut) && b == Next(g, a, WorkerPut)
    requires Enabled(g, b, WorkerClear) && t == Next(g, b, WorkerClear)
    ensures Follows(g, st, [Pop, WorkerPut, WorkerClear], t)
  {
    hide Next, Enabled, Follows;
    FollowsNone(g, t);
    FollowsOne(g, b, WorkerClear, [], t);
    FollowsOne(g, a, WorkerPut, [WorkerClear] + [], t);
    FollowsOne(g, st, Pop, [WorkerPut] + ([WorkerClear] + []), t);
    assert [Pop] + ([WorkerPut] + ([WorkerClear] + [])) == [Pop, WorkerPut, WorkerClear];
  }

  lemma FreeIsEnabled(g: Group, st: State, p: Ptr, cam: Cam)
    requires IsFree(st, p)
    ensures Enabled(g, st, SetReady(p, cam))
  {
  }

  /**
   * What a round with record p leaves: one reference less to p, and of the records up to its id only those that
   * are then in use; the last id there is clears everything.
   */
  predicate IsProcessed(before: map<Ptr, Slot<Result>>, p: Ptr, after: map<Ptr, Slot<Result>>)
    requires p in before
  {
    && (forall q <- after :: q in before && after[q].id == before[q].id && after[q].data == before[q].data)
    && (forall q <- after ::
          after[q].refCnt == if q == p && before[p].refCnt > 0 then before[p].refCnt - 1 else before[q].refCnt)
    && forall q <- before ::
         q in after
         <==> before[p].id != 0xffff_ffff
              && (before[q].id > before[p].id || before[q].refCnt > if q == p then 1 else 0)
  }

  lemma RoundLeaves(s: Store<Result>, p: Ptr)
    requires WellFormed(s) && p in s.recs
    ensures IsProcessed(s.recs, p, Clear(ResultRules, Put(s, p), s.recs[p].id).recs)
  {
    var put := Put(s, p);
    PutLeaves(s, p);
    if s.recs[p].id != ALL {
      ClearKeepsExactlyTheRest(ResultRules, put, s.recs[p].id);
      hide Clear, WellFormed, Put;
    }
  }

  lemma PutLeaves(s: Store<Result>, p: Ptr)
    requires WellFormed(s) && p in s.recs
    ensures WellFormed(Put(s, p)) && Put(s, p).recs.Keys == s.recs.Keys
    ensures forall q <- s.recs ::
              var now := Put(s, p).recs[q];
              && now.id == s.recs[q].id && now.data == s.recs[q].data
              && now.refCnt == if q == p && s.recs[p].refCnt > 0 then s.recs[p].refCnt - 1 else s.recs[q].refCnt
  {
    WriteAndPutKeepShape(s, p, Blank);
    hide WellFormed;
  }

  // ----- The methods as they are built: in place -----

  class CamGroupManager {
    const group: Group
    const table: RecordTable<Result>
    var started: bool
    var queue: seq<Ptr>

    constructor (group: Group)
      ensures this.group == group && fresh(table) && table.rules == ResultRules
      ensures Shows(Start())
    {
      this.group := group;
      table := new RecordTable(ResultRules);
      started, queue := false, [];
    }

    /** The table, the queue and the flag are those of a state of the protocol. */
    ghost predicate Shows(st: State)
      reads this, table
    {
      && table.rules == ResultRules
      && table.Contents() == st.refs.store && queue == st.refs.queue && started == st.phase.Started?
    }

    /** Starting empties the queue, and nothing else: records that are ready by now stay where they are. */
    method StartThread(ghost st: State) returns (ghost t: State)
      requires Shows(st) && st.phase.Stopped?
      modifies this`started, this`queue
      ensures t == Next(group, st, Begin) && Shows(t)
    {
      queue := [];
      started := true;
      t := Next(group, st, Begin);
    }

    /** Stopping halts a started group, and deletes every record, once no thread refers to one. */
    method StopThread(ghost st: State) returns (ghost t: State)
      requires Shows(st) && WellFormed(st.refs.store)
      requires st.refs.worker.Idle? && st.refs.held == multiset{} && st.refs.sending == multiset{} && st.calls == map[]
      modifies this`started, this`queue, table
      ensures Follows(group, st, if st.phase.Started? then [Halt, ClearAll] else [ClearAll], t)
      ensures Shows(t) && t == Start().(refs := t.refs) && table.byId == map[] && table.recs == map[]
              && table.cleared == 0
    {
      ghost var halted := st;
      if started {
        halted := Next(group, st, Halt);
        started := false;
      }
      table.ClearLocked(ALL);
      table.cleared := 0;
      queue := [];
      t := Next(group, halted, ClearAll);
      FollowsNone(group, t);
      FollowsOne(group, halted, ClearAll, [], t);
      assert [ClearAll] + [] == [ClearAll];
      if st.phase.Started? {
        FollowsOne(group, st, Halt, [ClearAll], t);
        assert [Halt] + [ClearAll] == [Halt, ClearAll];
      }
    }

    method SendFrame(p: Ptr)
      requires p in table.recs
      modifies this`queue, table`recs
      ensures table.Contents() == Retain(old(table.Contents()), p)
      ensures queue == old(queue) + [p]
    {
      table.RetainRecord(p);
      queue := queue + [p];
    }

    method ForcedResult(was: Result) returns (now: Result)
      ensures now == Forced(group, was)
      ensures now.ready && now.cams == group.cams && now.status.Keys == was.status.Keys + group.cams
      ensures forall c <- group.cams :: now.status[c].msgs == group.algos && now.status[c].algos == group.msgs
      ensures forall c <- group.cams :: now.status[c].ready <==> c in was.status && was.status[c].ready
      ensures forall c <- was.status :: c !in group.cams ==> now.status[c] == was.status[c]
    {
      now := was.(ready := true, cams := group.cams);
      for i := 0 to 8
        invariant now.ready && now.cams == group.cams
        invariant now.status.Keys == was.status.Keys + set c | c in group.cams && c < i
        invariant forall c <- now.status ::
            now.status[c]
            == if c in group.cams && c < i then StatusOf(was, c).(algos := group.msgs, msgs := group.algos)
               else was.status[c]
      {
        if i in now.cams {
          now := now.(status := now.status[i := StatusOf(now, i).(algos := group.msgs, msgs := group.algos)]);
        }
      }
    }

    /** The late record: looked up, forced and sent if the group runs, put back. */
    method SendLate(p: Ptr, ghost st: State) returns (ghost k: nat, ghost t: State)
      requires Shows(st) && WellFormed(st.refs.store)
      requires IsLive(st, p) && p in st.calls && st.calls[p].Completed?
      modifies this`queue, table
      ensures Follows(group, st, Sections(p, k), t) && Shows(t)
      ensures p in t.calls && t.calls[p].Alone? && t.calls == st.calls[p := t.calls[p]]
      ensures IsLive(t, p) && t.refs.held == st.refs.held && t.phase == st.phase
    {
      hide WellFormed, Follows, Next, Enabled, Get, Put, AfterLookUp, AfterForcing, AfterSparing;
      var last := ToU32(table.recs[p].id - 1);
      var late := table.GetRecord(last, false);
      LookUpOfLate(st, p);
      LooksUpFirst(group, st, p);
      ghost var a := AfterLookUp(st, p);
      k, t := 1, a;
      if late.Some? {
        var q := late.value;
        if started {
          k, t := 6, AfterForcing(group, a, p, q);
          ForcesAfterLookUp(group, st, a, p, q);
          var data := ForcedResult(table.recs[q].data);
          table.WriteRecord(q, data);
          SendFrame(q);
        } else {
          k, t := 3, AfterSparing(a, p, q);
          SparesAfterLookUp(group, st, a, p, q);
        }
      }
      table.PutRecord(late);
    }

    method SetSingleCamStatusReady(p: Ptr, cam: Cam, ghost st: State) returns (ghost k: nat, ghost t: State)
      requires Shows(st) && Invariant(group, st) && Enabled(group, st, SetReady(p, cam))
      modifies this`queue, table
      ensures Follows(group, st, [SetReady(p, cam)] + Sections(p, k), t) && Shows(t)
      ensures t.calls == st.calls && t.refs.held == st.refs.held && t.phase == st.phase && IsLive(t, p)
      ensures k > 0 <==> Completes(group, st.refs.store.recs[p].data, cam)
    {
      hide Invariant, Follows, Next, CamDone, Completes, HasAll, Needed;
      var r := table.recs[p].data;
      var nowReady := false;
      CountingIs(group, r, cam);
      WritesAsIs(st.refs.store, p);
      if HasAll(group, StatusOf(r, cam)) {
        r := r.(status := r.status[cam := StatusOf(r, cam).(ready := true)], cams := r.cams + {cam});
        if !r.ready && r.cams == group.cams {
          r := r.(ready := true);
          nowReady := true;
        }
        table.WriteRecord(p, r);
      }
      ghost var a := ReadyState(group, st, p, cam);
      hide Enabled;
      FollowsNone(group, a);
      k, t := 0, a;
      if nowReady {
        AddressIsOk(group, a, p);
        k, t := SendLate(p, a);
        t := SendOwn(p, a, k, t);
        k := k + if started then 3 else 1;
      } else {
        SectionsAddUp(p, 0, 0);
      }
      FollowsOne(group, st, SetReady(p, cam), Sections(p, k), t);
    }

    /** Its own record is sent if the group runs. */
    method SendOwn(p: Ptr, ghost a: State, ghost k: nat, ghost st: State) returns (ghost t: State)
      requires Shows(st) && Follows(group, a, Sections(p, k), st)
      requires IsLive(st, p) && p in st.calls && st.calls[p].Alone? && p in st.refs.held
      modifies this`queue, table`recs
      ensures Follows(group, a, Sections(p, k + if started then 3 else 1), t) && Shows(t) && started == old(started)
      ensures t.calls == st.calls - {p} && t.refs.held == st.refs.held && t.phase == st.phase && IsLive(t, p)
    {
      hide Follows, Next, Enabled;
      if started {
        PushesOwn(group, st, p);
        t := AfterPush(st, p);
        FollowsThen(group, a, Sections(p, k), st, Sections(p, 3), t);
        SectionsAddUp(p, k, 3);
        SendFrame(p);
      } else {
        MissesOwn(group, st, p);
        t := AfterMissing(st, p);
        FollowsThen(group, a, Sections(p, k), st, Sections(p, 1), t);
        SectionsAddUp(p, k, 1);
      }
    }

    /** A core message: filed if it is required, and the record is queued if that completes it. */
    method ProcessCoreMsg(report: Report, ghost st: State)
      returns (ghost steps: seq<Step>, ghost k: nat, ghost t: State)
      requires report.source.Core?
      requires Shows(st) && Invariant(group, st) && Held(st)
      modifies this`queue, table
      ensures Follows(group, st, steps, t) && Shows(t)
      ensures steps == [] <==> report.source.msg !in group.msgs
      ensures steps != [] ==>
                var id := FiledUnder(group, report);
                var got := Get(ResultRules, st.refs.store, id, true).ptr;
                steps == [LookUp(id)] + if got.None? then [] else
                           [Mark(got.value, report)]
                           + ([SetReady(got.value, report.cam)] + Sections(got.value, k) + [PutBack(got.value)])
    {
      hide Next, Enabled, Follows, Invariant, Held, Get, Needed;
      k := 0;
      if report.source.msg !in group.msgs {
        steps, t := [], st;
        FollowsNone(group, st);
        return;
      }
      AddressIsOk(group, st, 0);
      var id := FiledUnder(group, report);
      var got := table.GetRecord(id, true);
      ghost var a := LookedUp(group, st, report);
      if got.None? {
        steps, t := [LookUp(id)] + [], a;
        FollowsNone(group, a);
        FollowsOne(group, st, LookUp(id), [], a);
        return;
      }
      var p := got.value;
      table.WriteRecord(p, Marked(table.recs[p].data, report));
      ghost var b := MarkedState(group, a, p, report);
      FreeIsEnabled(group, b, p, report.cam);
      ghost var c: State;
      k, c := SetSingleCamStatusReady(p, report.cam, b);
      StaysFree(b, c, p);
      table.PutRecord(got);
      t := PutState(group, c, p);
      ghost var rest := [SetReady(p, report.cam)] + Sections(p, k);
      FollowsStep(group, b, rest, c, PutBack(p));
      rest := rest + [PutBack(p)];
      FollowsOne(group, a, Mark(p, report), rest, t);
      rest := [Mark(p, report)] + rest;
      FollowsOne(group, st, LookUp(id), rest, t);
      steps := [LookUp(id)] + rest;
    }

    /**
     * One round of the reprocessing thread: it takes a record, relays it if it is ready and reprocessing
     * succeeds, puts it back, and clears up to its id.
     */
    method ReprocLoop(ghost st: State, reprocessed: bool) returns (relayed: Option<Result>, ghost t: State)
      requires Shows(st) && WellFormed(st.refs.store)
      requires st.refs.worker.Idle? && queue != [] && queue[0] in table.recs
      modifies this`queue, table
      ensures Follows(group, st, [Pop, WorkerPut, WorkerClear], t) && Shows(t)
      ensures
        var data := old(table.recs[queue[0]].data);
        relayed == if data.ready && reprocessed then Some(data) else None
      ensures queue == old(queue)[1..]
      ensures IsProcessed(old(table.recs), old(queue[0]), table.recs)
    {
      RoundLeaves(st.refs.store, queue[0]);
      hide Follows, Clear, IsProcessed;
      t := RoundState(group, st);
      relayed := None;
      var p := queue[0];
      queue := queue[1..];
      if table.recs[p].data.ready && reprocessed {
        relayed := Some(table.recs[p].data);
      }
      var id := table.recs[p].id;
      table.PutRecord(Some(p));
      WriteAndPutKeepShape(st.refs.store, p, Blank);
      table.ClearLocked(id);
    }
  }
}
