/** What every section of every completion keeps: who may still push a record, and who has. */
module CamGroupInvariant {
  import opened Words
  import opened Options
  import opened Cameras
  import opened RecordStore
  import opened CamGroupResults
  import Refs = ResultRefs

  // ----- Completed by its own thread, and forced by another -----

  /** The thread that completed p has its push before it, behind it, or has given it up. */
  predicate Own(st: State, p: Ptr) {
    p in st.calls || p in OwnSent(st.log) || p in st.missed
  }

  predicate IsTaken(st: State, p: Ptr) {
    exists r <- st.calls :: Takes(st.calls[r], p)
  }

  predicate IsUnready(st: State, p: Ptr) {
    IsLive(st, p) && !st.refs.store.recs[p].data.ready
  }

  /** Nothing is known about an address that was never used. */
  predicate IsNew(st: State, p: Ptr) {
    && !Own(st, p) && p !in ForcedSent(st.log) && p !in st.written && p !in st.clashed && p !in st.spared
    && p !in st.again && p !in Queued(st.log)
  }

  /**
   * A record that is not ready was neither completed nor forced. Each way of pushing is used once. A record
   * that was completed and also forced is one that clashed, and a clash ends with a forced push, or without
   * one because the group did not run.
   */
  predicate PtrOk(st: State, p: Ptr) {
    && (p >= st.refs.store.next ==> IsNew(st, p))
    && (IsUnready(st, p) ==> !Own(st, p) && p !in st.written && p !in Queued(st.log))
    && (p in st.calls ==> p !in OwnSent(st.log) && p !in st.missed)
    && (p in OwnSent(st.log) ==> p !in st.missed)
    && (p in ForcedSent(st.log) ==> p in st.written && p !in st.spared)
    && (Own(st, p) && p in st.written ==> p in st.clashed)
    && (p in st.clashed ==> Own(st, p))
    && (p in st.spared ==> p in st.clashed)
    && (p in st.clashed ==> p in ForcedSent(st.log) || p in st.spared || IsTaken(st, p))
    && (p in Queued(st.log) <==> p in OwnSent(st.log) || p in ForcedSent(st.log))
  }

  /** A late record is that of the frame before, and no other thread can still force it. */
  predicate StageOk(st: State, r: Ptr, q: Ptr)
    requires r in st.calls
  {
    Takes(st.calls[r], q) ==>
      && q < st.refs.store.next
      && (!TakesEarly(st.calls[r], q) ==> q in st.written)
      && (IsLive(st, r) && IsLive(st, q) ==>
            && st.refs.store.recs[q].id == IdBefore(st, r)
            && q !in ForcedSent(st.log) && q !in st.spared
            && (Own(st, q) && TakesEarly(st.calls[r], q) ==> q in st.clashed))
  }

  /** At most one push of each kind. */
  predicate PushedOnceEach(log: seq<Sent>) {
    forall i, j :: 0 <= i < j < |log| && log[i].ptr == log[j].ptr ==> log[i].forced != log[j].forced
  }

  ghost predicate Base(st: State) {
    && WellFormed(st.refs.store)
    && (forall p: Ptr :: PtrOk(st, p))
    && (forall r, q: Ptr :: r in st.calls ==> StageOk(st, r, q))
    && PushedOnceEach(st.log)
  }

  /** Records disappear, or appear blank at a new address; whether one is ready stays. */
  ghost predicate SameReadiness(s: Store<Result>, t: Store<Result>) {
    && s.next <= t.next
    && forall p <- t.recs ::
         if p in s.recs then t.recs[p].id == s.recs[p].id && t.recs[p].data.ready == s.recs[p].data.ready
         else s.next <= p < t.next && !t.recs[p].data.ready
  }

  predicate SameStage(a: Stage, b: Stage, q: Ptr) {
    (Takes(a, q) <==> Takes(b, q)) && (TakesEarly(a, q) <==> TakesEarly(b, q))
  }

  /** A step that neither completes, takes, forces nor pushes. */
  ghost predicate IsQuiet(st: State, t: State) {
    && SameReadiness(st.refs.store, t.refs.store)
    && t.log == st.log && t.written == st.written && t.clashed == st.clashed
    && t.missed == st.missed && t.spared == st.spared
    && st.again <= t.again && (forall p <- t.again :: p in st.again || p < t.refs.store.next)
    && t.calls.Keys == st.calls.Keys
    && forall r, q: Ptr :: r in st.calls ==> SameStage(st.calls[r], t.calls[r], q)
  }

  lemma QuietKeepsPtr(st: State, t: State, p: Ptr)
    requires Base(st) && IsQuiet(st, t)
    ensures PtrOk(t, p)
  {
    hide OwnSent, ForcedSent, Queued, Takes, TakesEarly, WellFormed, StageOk, PushedOnceEach;
    assert PtrOk(st, p);
    if IsTaken(st, p) {
      var r :| r in st.calls && Takes(st.calls[r], p);
      assert SameStage(st.calls[r], t.calls[r], p);
      assert Takes(t.calls[r], p);
    }
  }

  lemma QuietKeepsStage(st: State, t: State, r: Ptr, q: Ptr)
    requires Base(st) && IsQuiet(st, t) && r in t.calls
    ensures StageOk(t, r, q)
  {
    hide OwnSent, ForcedSent, Queued, Takes, TakesEarly, WellFormed, PushedOnceEach;
    assert StageOk(st, r, q);
    assert SameStage(st.calls[r], t.calls[r], q);
    assert PtrOk(st, r) && PtrOk(st, q);
  }

  lemma QuietKeeps(st: State, t: State)
    requires Base(st) && IsQuiet(st, t) && WellFormed(t.refs.store)
    ensures Base(t)
  {
    hide PtrOk, StageOk, WellFormed, IsQuiet;
    forall p: Ptr ensures PtrOk(t, p) {
      QuietKeepsPtr(st, t, p);
    }
    QuietKeys(st, t);
    forall r, q: Ptr | r in t.calls ensures StageOk(t, r, q) {
      QuietKeepsStage(st, t, r, q);
    }
  }

  lemma QuietKeys(st: State, t: State)
    requires IsQuiet(st, t)
    ensures t.log == st.log && t.calls.Keys == st.calls.Keys
  {
  }

  /** Only references, readable contents and quiet stages change. */
  ghost predicate SameMarks(st: State, t: State) {
    && t.log == st.log && t.written == st.written && t.clashed == st.clashed
    && t.missed == st.missed && t.spared == st.spared && t.again == st.again
  }

  ghost predicate SameStages(st: State, t: State) {
    t.calls.Keys == st.calls.Keys && forall r, q: Ptr :: r in st.calls ==> SameStage(st.calls[r], t.calls[r], q)
  }

  lemma MarksStay(st: State, t: State)
    requires Base(st) && WellFormed(t.refs.store) && SameReadiness(st.refs.store, t.refs.store)
    requires SameMarks(st, t) && SameStages(st, t)
    ensures Base(t)
  {
    assert IsQuiet(st, t) by {
      forall p | p in t.again ensures p < t.refs.store.next {
        AgainIsOld(st, p);
      }
      hide Base, SameStage, WellFormed;
    }
    hide Base, IsQuiet, WellFormed, SameReadiness;
    QuietKeeps(st, t);
  }

  lemma AgainIsOld(st: State, p: Ptr)
    requires Base(st) && p in st.again
    ensures p < st.refs.store.next
  {
    assert PtrOk(st, p);
  }

  // ----- The sections that complete, take, force and push -----

  lemma TakenStays(st: State, t: State, p: Ptr)
    requires IsTaken(st, p)
    requires forall r <- st.calls :: Takes(st.calls[r], p) ==> r in t.calls && Takes(t.calls[r], p)
    ensures IsTaken(t, p)
  {
    var r :| r in st.calls && Takes(st.calls[r], p);
    assert Takes(t.calls[r], p);
  }

  /** The record becomes ready, and its thread goes on to the record of the frame before. */
  lemma CompletingKeeps(st: State, t: State, p: Ptr)
    requires Base(st) && IsUnready(st, p) && WellFormed(t.refs.store)
    requires t.refs.store.recs.Keys == st.refs.store.recs.Keys && t.refs.store.next == st.refs.store.next
    requires forall q <- t.refs.store.recs :: t.refs.store.recs[q].id == st.refs.store.recs[q].id
    requires forall q <- t.refs.store.recs :: q != p ==> t.refs.store.recs[q] == st.refs.store.recs[q]
    requires t.refs.store.recs[p].data.ready
    requires t.calls == st.calls[p := Completed]
    requires t.clashed == if IsTakenEarly(st, p) then st.clashed + {p} else st.clashed
    requires t.log == st.log && t.written == st.written && t.missed == st.missed
    requires t.spared == st.spared && t.again == st.again
    ensures Base(t)
  {
    hide OwnSent, ForcedSent, Queued, PushedOnceEach;
    assert p < st.refs.store.next;
    hide WellFormed;
    forall q: Ptr ensures PtrOk(t, q) {
      assert PtrOk(st, q) && PtrOk(st, p);
      if q in st.clashed && IsTaken(st, q) {
        TakenStays(st, t, q);
      }
      if q == p && IsTakenEarly(st, p) {
        var r :| r in st.calls && TakesEarly(st.calls[r], p);
        assert Takes(t.calls[r], p);
      }
    }
    forall r, q: Ptr | r in t.calls ensures StageOk(t, r, q) {
      assert PtrOk(st, p) && PtrOk(st, q);
      if r != p {
        assert StageOk(st, r, q);
        if TakesEarly(st.calls[r], p) {
          assert IsTakenEarly(st, p);
        }
      }
    }
  }

  /** Two live records that have the same record before them are the same. */
  lemma OneTaker(s: Store<Result>, a: Ptr, b: Ptr)
    requires WellFormed(s) && a in s.recs && b in s.recs
    requires ToU32(s.recs[a].id - 1) == ToU32(s.recs[b].id - 1)
    ensures a == b
  {
    assert s.recs[a].id == s.recs[b].id;
  }

  /** A completion looks up the late record: one that is not ready. */
  lemma TakingKeeps(st: State, t: State, r: Ptr, q: Ptr)
    requires Base(st) && r in st.calls && st.calls[r].Completed? && IsLive(st, r) && IsUnready(st, q)
    requires st.refs.store.recs[q].id == IdBefore(st, r)
    requires SameReadiness(st.refs.store, t.refs.store) && WellFormed(t.refs.store)
    requires t.calls == st.calls[r := Looked(q)]
    requires t.log == st.log && t.written == st.written && t.clashed == st.clashed
    requires t.missed == st.missed && t.spared == st.spared && t.again == st.again
    ensures Base(t)
  {
    hide OwnSent, ForcedSent, Queued, PushedOnceEach;
    assert q < st.refs.store.next;
    hide WellFormed;
    assert PtrOk(st, q) && PtrOk(st, r);
    forall p: Ptr ensures PtrOk(t, p) {
      assert PtrOk(st, p);
      if p in st.clashed && IsTaken(st, p) {
        TakenStays(st, t, p);
      }
    }
    forall x, p: Ptr | x in t.calls ensures StageOk(t, x, p) {
      assert PtrOk(st, p) && StageOk(st, x, p);
      assert IsLive(t, x) && !IsLive(st, x) ==> x >= st.refs.store.next;
      assert PtrOk(st, x);
    }
  }

  /** A group that does not run leaves the late record alone. */
  lemma SparingKeeps(st: State, t: State, r: Ptr, q: Ptr)
    requires Base(st) && r in st.calls && st.calls[r] == Looked(q) && IsLive(st, r) && IsLive(st, q)
    requires t.refs.store == st.refs.store
    requires t.calls == st.calls[r := Returning(q, false)]
    requires t.spared == if q in st.clashed then st.spared + {q} else st.spared
    requires t.log == st.log && t.written == st.written && t.clashed == st.clashed
    requires t.missed == st.missed && t.again == st.again
    ensures Base(t)
  {
    hide OwnSent, ForcedSent, Queued, PushedOnceEach;
    assert StageOk(st, r, q);
    forall p: Ptr ensures PtrOk(t, p) {
      assert PtrOk(st, p);
      if p in st.clashed && IsTaken(st, p) && p != q {
        TakenStays(st, t, p);
      }
    }
    forall x, p: Ptr | x in t.calls ensures StageOk(t, x, p) {
      assert StageOk(st, x, p);
      if x != r && p == q && Takes(st.calls[x], q) && IsLive(st, x) {
        OneTaker(st.refs.store, x, r);
      }
    }
  }

  /** The late record is declared ready. */
  lemma ForcingKeeps(st: State, t: State, r: Ptr, q: Ptr)
    requires Base(st) && r in st.calls && st.calls[r] == Chosen(q) && IsLive(st, r) && IsLive(st, q)
    requires WellFormed(t.refs.store)
    requires t.refs.store.recs.Keys == st.refs.store.recs.Keys && t.refs.store.next == st.refs.store.next
    requires forall p <- t.refs.store.recs :: t.refs.store.recs[p].id == st.refs.store.recs[p].id
    requires forall p <- t.refs.store.recs :: p != q ==> t.refs.store.recs[p] == st.refs.store.recs[p]
    requires t.refs.store.recs[q].data.ready
    requires t.calls == st.calls[r := Declared(q)] && t.written == st.written + {q}
    requires t.log == st.log && t.clashed == st.clashed && t.spared == st.spared
    requires t.missed == st.missed && t.again == st.again
    ensures Base(t)
  {
    hide OwnSent, ForcedSent, Queued, PushedOnceEach;
    assert StageOk(st, r, q) && PtrOk(st, q);
    hide WellFormed;
    forall p: Ptr ensures PtrOk(t, p) {
      assert PtrOk(st, p);
      if p in st.clashed && IsTaken(st, p) {
        TakenStays(st, t, p);
      }
    }
    forall x, p: Ptr | x in t.calls ensures StageOk(t, x, p) {
      assert StageOk(st, x, p);
    }
  }

  lemma LogGrows(log: seq<Sent>, e: Sent)
    ensures OwnSent(log + [e]) == OwnSent(log) + if e.forced then {} else {e.ptr}
    ensures ForcedSent(log + [e]) == ForcedSent(log) + if e.forced then {e.ptr} else {}
    ensures Queued(log + [e]) == Queued(log) + {e.ptr}
    ensures QueuedIds(log + [e]) == QueuedIds(log) + {e.id}
  {
    var both := log + [e];
    assert both[|log|] == e && forall i :: 0 <= i < |log| ==> both[i] == log[i];
    forall p | p in OwnSent(log) ensures p in OwnSent(both) {
      var i :| 0 <= i < |log| && !log[i].forced && log[i].ptr == p;
      assert !both[i].forced && both[i].ptr == p;
    }
    forall p | p in ForcedSent(log) ensures p in ForcedSent(both) {
      var i :| 0 <= i < |log| && log[i].forced && log[i].ptr == p;
      assert both[i].forced && both[i].ptr == p;
    }
    forall p | p in Queued(log) ensures p in Queued(both) {
      var i :| 0 <= i < |log| && log[i].ptr == p;
      assert both[i].ptr == p;
    }
    forall id | id in QueuedIds(log) ensures id in QueuedIds(both) {
      var i :| 0 <= i < |log| && log[i].id == id;
      assert both[i].id == id;
    }
    assert both[|log|].forced == e.forced && both[|log|].ptr == e.ptr;
    assert !e.forced ==> e.ptr in OwnSent(both);
    assert e.forced ==> e.ptr in ForcedSent(both);
    assert e.ptr in Queued(both) by { assert both[|log|].ptr == e.ptr; }
    assert e.id in QueuedIds(both) by { assert both[|log|].id == e.id; }
  }

  /** A push of a kind that the record has not had. */
  lemma StillOnceEach(log: seq<Sent>, e: Sent)
    requires PushedOnceEach(log)
    requires if e.forced then e.ptr !in ForcedSent(log) else e.ptr !in OwnSent(log)
    ensures PushedOnceEach(log + [e])
  {
    forall i | 0 <= i < |log| && log[i].ptr == e.ptr ensures log[i].forced != e.forced {
      assert log[i].forced ==> log[i].ptr in ForcedSent(log);
      assert !log[i].forced ==> log[i].ptr in OwnSent(log);
    }
  }

  /** The late record is pushed. */
  lemma LatePushKeeps(st: State, t: State, r: Ptr, q: Ptr)
    requires Base(st) && r in st.calls && st.calls[r] == LateCounted(q) && IsLive(st, r) && IsLive(st, q)
    requires t.refs.store == st.refs.store
    requires t.calls == st.calls[r := Returning(q, true)]
    requires t.log == st.log + [EntryFor(st, q, true)]
    requires t.written == st.written && t.clashed == st.clashed && t.spared == st.spared
    requires t.missed == st.missed && t.again == st.again
    ensures Base(t)
  {
    var e := EntryFor(st, q, true);
    LogGrows(st.log, e);
    assert StageOk(st, r, q) && PtrOk(st, q);
    StillOnceEach(st.log, e);
    hide OwnSent, ForcedSent, Queued, PushedOnceEach;
    forall p: Ptr ensures PtrOk(t, p) {
      assert PtrOk(st, p);
      if p in st.clashed && IsTaken(st, p) && p != q {
        TakenStays(st, t, p);
      }
    }
    forall x, p: Ptr | x in t.calls ensures StageOk(t, x, p) {
      assert StageOk(st, x, p);
      if x != r && p == q && Takes(st.calls[x], q) && IsLive(st, x) {
        OneTaker(st.refs.store, x, r);
      }
    }
  }

  /** The completion ends: with the push of its record, or without because the group does not run. */
  lemma EndingKeeps(st: State, t: State, p: Ptr)
    requires Base(st) && p in st.calls && IsLive(st, p) && (forall q: Ptr :: !Takes(st.calls[p], q))
    requires t.refs.store == st.refs.store
    requires t.calls == st.calls - {p}
    requires (t.log == st.log + [EntryFor(st, p, false)] && t.missed == st.missed)
             || (t.log == st.log && t.missed == st.missed + {p})
    requires t.written == st.written && t.clashed == st.clashed && t.spared == st.spared && t.again == st.again
    ensures Base(t)
  {
    var e := EntryFor(st, p, false);
    LogGrows(st.log, e);
    assert PtrOk(st, p);
    StillOnceEach(st.log, e);
    hide OwnSent, ForcedSent, Queued, PushedOnceEach, Takes;
    forall q: Ptr ensures PtrOk(t, q) {
      assert PtrOk(st, q);
      if q in st.clashed && IsTaken(st, q) {
        TakenStays(st, t, q);
      }
    }
    forall x, q: Ptr | x in t.calls ensures StageOk(t, x, q) {
      assert StageOk(st, x, q);
    }
  }

  // ----- Every step keeps it -----

  lemma SameReadinessOfPut(s: Store<Result>, p: Ptr)
    requires WellFormed(s) && p in s.recs
    ensures WellFormed(Put(s, p)) && SameReadiness(s, Put(s, p))
    ensures WellFormed(Retain(s, p)) && SameReadiness(s, Retain(s, p))
  {
  }

  lemma SameReadinessOfGet(s: Store<Result>, id: uint32, queryReady: bool)
    requires WellFormed(s)
    ensures
      var t := Get(ResultRules, s, id, queryReady).store;
      WellFormed(t) && SameReadiness(s, t)
  {
    GetAddsOneReference(ResultRules, s, id, queryReady);
    GetCreatesBlank(ResultRules, s, id, queryReady);
    hide Get, WellFormed;
  }

  lemma SameReadinessOfClear(s: Store<Result>, bound: uint32)
    requires WellFormed(s)
    ensures WellFormed(Clear(ResultRules, s, bound)) && SameReadiness(s, Clear(ResultRules, s, bound))
  {
    if bound != ALL {
      ClearKeepsExactlyTheRest(ResultRules, s, bound);
    }
  }

  /** A write that leaves readiness as it is. */
  lemma SameReadinessOfWrite(s: Store<Result>, p: Ptr, data: Result)
    requires WellFormed(s) && p in s.recs && data.ready == s.recs[p].data.ready
    ensures WellFormed(Write(s, p, data)) && SameReadiness(s, Write(s, p, data))
  {
  }

  lemma LookUpKeepsBase(g: Group, st: State, id: uint32)
    requires Base(st)
    ensures Base(Next(g, st, LookUp(id)))
  {
    var t := Next(g, st, LookUp(id));
    SameReadinessOfGet(st.refs.store, id, true);
    GetAddsOneReference(ResultRules, st.refs.store, id, true);
    assert t.refs.store == Get(ResultRules, st.refs.store, id, true).store;
    assert IsQuiet(st, t) by {
      hide Get, WellFormed, SameReadiness, PtrOk, StageOk;
      AllSameStage(st, t);
    }
    hide Base, IsQuiet, WellFormed, Next;
    QuietKeeps(st, t);
  }

  lemma AllSameStage(st: State, t: State)
    requires t.calls == st.calls
    ensures forall r, q: Ptr :: r in st.calls ==> SameStage(st.calls[r], t.calls[r], q)
    ensures SameStages(st, t)
  {
  }

  /** The steps that are none of a completion's, except the one that begins it. */
  predicate IsOutside(step: Step) {
    step.PutBack? || step.Pop? || step.WorkerPut? || step.WorkerClear? || step.Begin? || step.Halt? || step.Mark?
  }

  lemma OutsideShape(g: Group, st: State, step: Step)
    requires IsOutside(step) && Enabled(g, st, step)
    ensures SameMarks(st, Next(g, st, step)) && Next(g, st, step).calls == st.calls
  {
    hide Clear, ExpiredIds, Marked;
  }

  /** What these steps do to the table. */
  function OutsideStore(st: State, step: Step): Store<Result>
    requires step.Mark? ==> IsLive(st, step.ptr)
    requires step.PutBack? ==> IsLive(st, step.ptr)
    requires step.WorkerPut? ==> st.refs.worker.Busy? && IsLive(st, st.refs.worker.ptr)
    requires step.WorkerClear? ==> st.refs.worker.Clearing?
  {
    match step
    case Mark(p, report) => Write(st.refs.store, p, Marked(st.refs.store.recs[p].data, report))
    case PutBack(p) => Put(st.refs.store, p)
    case WorkerPut => Put(st.refs.store, st.refs.worker.ptr)
    case WorkerClear => Clear(ResultRules, st.refs.store, st.refs.worker.id)
    case _ => st.refs.store
  }

  lemma OutsideTable(g: Group, st: State, step: Step)
    requires IsOutside(step) && Enabled(g, st, step)
    ensures step.WorkerPut? ==> st.refs.worker.Busy? && IsLive(st, st.refs.worker.ptr)
    ensures step.WorkerClear? ==> st.refs.worker.Clearing?
    ensures Next(g, st, step).refs.store == OutsideStore(st, step)
  {
    hide Clear, ExpiredIds, Marked, Put, Write;
  }

  lemma OutsideReadiness(g: Group, st: State, step: Step)
    requires IsOutside(step) && Enabled(g, st, step) && WellFormed(st.refs.store)
    ensures
      var t := Next(g, st, step).refs.store;
      WellFormed(t) && SameReadiness(st.refs.store, t)
  {
    OutsideTable(g, st, step);
    hide WellFormed, SameReadiness, Clear, Put, Write, ExpiredIds, Marked, Next;
    match step {
      case Mark(p, report) =>
        MarkedReadiness(st.refs.store.recs[p].data, report);
        SameReadinessOfWrite(st.refs.store, p, Marked(st.refs.store.recs[p].data, report));
      case PutBack(p) => SameReadinessOfPut(st.refs.store, p);
      case WorkerPut => SameReadinessOfPut(st.refs.store, st.refs.worker.ptr);
      case WorkerClear => SameReadinessOfClear(st.refs.store, st.refs.worker.id);
      case _ => SameReadinessOfNothing(st.refs.store);
    }
  }

  lemma OutsideKeepsBase(g: Group, st: State, step: Step)
    requires IsOutside(step) && Enabled(g, st, step) && Base(st)
    ensures Base(Next(g, st, step))
  {
    assert WellFormed(st.refs.store);
    hide Base, Next, Enabled, WellFormed, SameMarks, SameStages, SameReadiness;
    OutsideReadiness(g, st, step);
    OutsideShape(g, st, step);
    AllSameStage(st, Next(g, st, step));
    MarksStay(st, Next(g, st, step));
  }

  lemma SameReadinessOfNothing(s: Store<Result>)
    ensures SameReadiness(s, s)
  {
  }

  lemma MarkedReadiness(r: Result, report: Report)
    ensures Marked(r, report).ready == r.ready
  {
  }

  lemma SetReadyKeepsBase(g: Group, st: State, p: Ptr, cam: Cam)
    requires Enabled(g, st, SetReady(p, cam)) && Base(st)
    ensures Base(Next(g, st, SetReady(p, cam)))
  {
    var t := Next(g, st, SetReady(p, cam));
    var data := CamDone(g, st.refs.store.recs[p].data, cam);
    SetReadyShape(g, st, p, cam);
    assert WellFormed(st.refs.store);
    WriteAndPutKeepShape(st.refs.store, p, data);
    hide WellFormed, Base, Next, CamDone, SameReadiness, SameStages;
    if Completes(g, st.refs.store.recs[p].data, cam) {
      CompletingKeeps(st, t, p);
    } else {
      SameReadinessOfWrite(st.refs.store, p, data);
      AllSameStage(st, t);
      MarksStay(st, t);
    }
  }

  lemma SetReadyShape(g: Group, st: State, p: Ptr, cam: Cam)
    requires Enabled(g, st, SetReady(p, cam))
    ensures
      var t := Next(g, st, SetReady(p, cam));
      var was := st.refs.store.recs[p].data;
      && t.refs.store == Write(st.refs.store, p, CamDone(g, was, cam))
      && (was.ready ==> CamDone(g, was, cam).ready)
      && t.log == st.log && t.written == st.written && t.missed == st.missed && t.spared == st.spared
      && t.again == st.again
      && if Completes(g, was, cam) then
           && !was.ready && CamDone(g, was, cam).ready
           && t.calls == st.calls[p := Completed]
           && t.clashed == if IsTakenEarly(st, p) then st.clashed + {p} else st.clashed
         else CamDone(g, was, cam).ready == was.ready && t.calls == st.calls && t.clashed == st.clashed
  {
  }

  /** What one section of a completion leaves alone. */
  lemma AdvanceShape(g: Group, st: State, p: Ptr)
    requires CanAdvance(st, p)
    ensures
      var t := Next(g, st, Advance(p));
      && t.clashed == st.clashed && t.again == st.again && t.phase == st.phase && t.reports == st.reports
      && t.calls == if StageAfter(st, p).Some? then st.calls[p := StageAfter(st, p).value] else st.calls - {p}
  {
    hide StageAfter, Get, Forced;
  }

  /** The sections that only move a reference, or do nothing but look at the state of the group. */
  predicate OnlyCounts(st: State, p: Ptr)
    requires p in st.calls
  {
    || st.calls[p].Declared? || st.calls[p].Returning? || st.calls[p].Willing?
    || (st.phase.Started? && (st.calls[p].Looked? || st.calls[p].Alone?))
  }

  lemma CountingShape(g: Group, st: State, p: Ptr)
    requires CanAdvance(st, p) && OnlyCounts(st, p)
    ensures
      var t := Next(g, st, Advance(p));
      && SameMarks(st, t) && SameStages(st, t)
      && t.refs.store == match st.calls[p]
                         case Declared(q) => Retain(st.refs.store, q)
                         case Returning(q, _) => Put(st.refs.store, q)
                         case Willing(_) => Retain(st.refs.store, p)
                         case _ => st.refs.store
  {
    hide Put, Retain, Get, Forced;
  }

  lemma CountingKeepsBase(g: Group, st: State, p: Ptr)
    requires CanAdvance(st, p) && Base(st) && OnlyCounts(st, p)
    ensures Base(Next(g, st, Advance(p)))
  {
    var t := Next(g, st, Advance(p));
    assert WellFormed(st.refs.store);
    hide Base, Next, WellFormed, SameReadiness, Put, Retain, SameMarks, SameStages;
    CountingShape(g, st, p);
    match st.calls[p] {
      case Declared(q) => SameReadinessOfPut(st.refs.store, q);
      case Returning(q, _) => SameReadinessOfPut(st.refs.store, q);
      case Willing(_) => SameReadinessOfPut(st.refs.store, p);
      case _ => SameReadinessOfNothing(st.refs.store);
    }
    MarksStay(st, t);
  }

  lemma LateShape(g: Group, st: State, p: Ptr)
    requires CanAdvance(st, p) && st.calls[p].Completed? && WellFormed(st.refs.store)
    ensures
      var t := Next(g, st, Advance(p));
      && WellFormed(t.refs.store) && SameReadiness(st.refs.store, t.refs.store)
      && t.log == st.log && t.written == st.written && t.missed == st.missed && t.spared == st.spared
      && if Late(st, p).Some? then
           var q := Late(st, p).value;
           && IsUnready(st, q) && st.refs.store.recs[q].id == IdBefore(st, p)
           && t.calls == st.calls[p := Looked(q)]
         else t.calls[p].Alone? && t.calls == st.calls[p := t.calls[p]] && t.refs.store == st.refs.store
  {
    SameReadinessOfGet(st.refs.store, IdBefore(st, p), false);
    hide SameReadiness;
  }

  lemma LateKeepsBase(g: Group, st: State, p: Ptr)
    requires CanAdvance(st, p) && st.calls[p].Completed? && Base(st)
    ensures Base(Next(g, st, Advance(p)))
  {
    var t := Next(g, st, Advance(p));
    AdvanceShape(g, st, p);
    LateShape(g, st, p);
    if Late(st, p).Some? {
      hide Next, Late, Base, WellFormed, SameReadiness;
      TakingKeeps(st, t, p, Late(st, p).value);
    } else {
      hide Next, Late, WellFormed, SameReadiness, Base;
      assert SameStages(st, t);
      MarksStay(st, t);
    }
  }

  lemma ForceKeepsBase(g: Group, st: State, p: Ptr)
    requires CanAdvance(st, p) && st.calls[p].Chosen? && Base(st)
    ensures Base(Next(g, st, Advance(p)))
  {
    var t := Next(g, st, Advance(p));
    var q := st.calls[p].late;
    assert WellFormed(st.refs.store);
    WriteAndPutKeepShape(st.refs.store, q, Forced(g, st.refs.store.recs[q].data));
    hide Base, WellFormed;
    ForcingKeeps(st, t, p, q);
  }

  lemma AdvanceKeepsBase(g: Group, st: State, p: Ptr)
    requires CanAdvance(st, p) && Base(st)
    ensures Base(Next(g, st, Advance(p)))
  {
    var t := Next(g, st, Advance(p));
    hide Base;
    match st.calls[p]
    case Completed => LateKeepsBase(g, st, p);
    case Looked(q) =>
      if st.phase.Started? {
        CountingKeepsBase(g, st, p);
      } else {
        SparingKeeps(st, t, p, q);
      }
    case Chosen(_) => ForceKeepsBase(g, st, p);
    case Declared(_) => CountingKeepsBase(g, st, p);
    case LateCounted(q) => LatePushKeeps(st, t, p, q);
    case Returning(_, _) => CountingKeepsBase(g, st, p);
    case Alone(_) =>
      if st.phase.Started? {
        CountingKeepsBase(g, st, p);
      } else {
        EndingKeeps(st, t, p);
      }
    case Willing(_) => CountingKeepsBase(g, st, p);
    case OwnCounted(_) => EndingKeeps(st, t, p);
  }

  lemma ClearAllKeepsBase(g: Group, st: State)
    requires Enabled(g, st, ClearAll)
    ensures Base(Next(g, st, ClearAll))
  {
  }

  lemma StepKeepsBase(g: Group, st: State, step: Step)
    requires Base(st) && Enabled(g, st, step)
    ensures Base(Next(g, st, step))
  {
    hide Base, Next, Enabled;
    match step
    case LookUp(id) => LookUpKeepsBase(g, st, id);
    case SetReady(p, cam) => SetReadyKeepsBase(g, st, p, cam);
    case Advance(p) =>
      assert CanAdvance(st, p) by { AdvanceIsEnabled(g, st, p); }
      AdvanceKeepsBase(g, st, p);
    case ClearAll => ClearAllKeepsBase(g, st);
    case _ => OutsideKeepsBase(g, st, step);
  }

  lemma AdvanceIsEnabled(g: Group, st: State, p: Ptr)
    ensures Enabled(g, st, Advance(p)) <==> CanAdvance(st, p)
  {
  }
}
