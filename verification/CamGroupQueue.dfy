/** What every section of every completion keeps about the queue history: what is in it, or still on its way. */
module CamGroupQueue {
  import opened Words
  import opened Options
  import opened Cameras
  import opened RecordStore
  import opened CamGroupResults
  import opened CamGroupInvariant
  import opened CamGroupContents
  import Refs = ResultRefs

  // ----- A ready record is queued, on its way, or was given up -----

  predicate Forces(stage: Stage, q: Ptr) {
    (stage.Declared? || stage.LateCounted?) && stage.late == q
  }

  predicate IsForced(st: State, p: Ptr) {
    exists r <- st.calls :: Forces(st.calls[r], p)
  }

  /** A thread is about to push p: the one that completed it, or one that forced it. */
  predicate InFlight(st: State, p: Ptr) {
    p in st.calls || IsForced(st, p)
  }

  predicate IsAccounted(st: State, p: Ptr) {
    InFlight(st, p) || p in Queued(st.log) || p in st.missed
  }

  predicate Accounted(st: State, p: Ptr)
    requires IsLive(st, p)
  {
    st.refs.store.recs[p].data.ready ==> IsAccounted(st, p)
  }

  // ----- What a completion remembers of the record before -----

  predicate RemembersSent(stage: Stage, q: Ptr) {
    || stage == Returning(q, true)
    || ((stage.Alone? || stage.Willing? || stage.OwnCounted?) && stage.before == SentFirst(q))
  }

  predicate RemembersReady(stage: Stage, q: Ptr) {
    (stage.Alone? || stage.Willing? || stage.OwnCounted?) && stage.before == WasReady(q)
  }

  /** It is that of the frame before, and was pushed, or is accounted for like every ready record. */
  predicate MemoryOk(st: State, r: Ptr, q: Ptr)
    requires r in st.calls
  {
    && (RemembersSent(st.calls[r], q) ==> q in ForcedSent(st.log))
    && (RemembersReady(st.calls[r], q) ==> IsAccounted(st, q))
    && (RemembersSent(st.calls[r], q) || RemembersReady(st.calls[r], q) ==>
          IsLive(st, r) && IsLive(st, q) ==> st.refs.store.recs[q].id == IdBefore(st, r))
  }

  // ----- A stopped group queues nothing -----

  predicate IsSending(stage: Stage) {
    || stage.Chosen? || stage.Declared? || stage.LateCounted? || stage.Willing? || stage.OwnCounted?
    || (stage.Returning? && stage.sent)
  }

  predicate StoppedOk(st: State) {
    st.phase.Stopped? ==>
      && st.log == [] && st.refs.queue == [] && st.again == {} && st.written == {}
      && forall r <- st.calls :: !IsSending(st.calls[r])
  }

  // ----- Two records of the same frame -----

  predicate MadeAgain(st: State, p: Ptr)
    requires IsLive(st, p)
  {
    p !in Queued(st.log) ==> (p in st.again <==> st.refs.store.recs[p].id in QueuedIds(st.log))
  }

  /** An entry has an earlier one with its id if its record was made again, or was pushed before. */
  predicate SentAgain(st: State, j: nat)
    requires j < |st.log|
  {
    st.log[j].id in QueuedIds(st.log[..j]) <==> st.log[j].ptr in st.again || st.log[j].ptr in Queued(st.log[..j])
  }

  ghost predicate History(st: State) {
    && (forall p <- st.refs.store.recs :: Accounted(st, p) && MadeAgain(st, p))
    && (forall r, q: Ptr :: r in st.calls ==> MemoryOk(st, r, q))
    && (forall j :: 0 <= j < |st.log| ==> SentAgain(st, j))
    && StoppedOk(st)
  }

  ghost predicate Invariant(g: Group, st: State) {
    Base(st) && Contents(g, st) && History(st)
  }

  // ----- What a step does to the completions -----

  lemma CallsAfter(g: Group, st: State, step: Step)
    requires Enabled(g, st, step) && !step.ClearAll?
    ensures
      var t := Next(g, st, step);
      && (forall r <- st.calls ::
            || (r in t.calls && t.calls[r] == st.calls[r]) || step == Advance(r)
            || (step.SetReady? && step.ptr == r && Completes(g, st.refs.store.recs[r].data, step.cam)))
      && (forall r <- t.calls :: (r in st.calls && t.calls[r] == st.calls[r]) || step == Advance(r)
                                 || (step.SetReady? && step.ptr == r && t.calls[r] == Completed))
      && (step.Advance? ==>
            var r := step.ptr;
            t.calls == if StageAfter(st, r).Some? then st.calls[r := StageAfter(st, r).value] else st.calls - {r})
  {
    hide Marked, CamDone, Forced, Get, Clear, ExpiredIds, StageAfter;
  }

  lemma MissedAfter(g: Group, st: State, step: Step)
    requires Enabled(g, st, step) && !step.ClearAll?
    ensures st.missed <= Next(g, st, step).missed
    ensures step.Advance? && st.calls[step.ptr].Alone? && !st.phase.Started? ==> step.ptr in Next(g, st, step).missed
  {
    hide Marked, CamDone, Forced, Get, Clear, ExpiredIds;
  }

  lemma QueuedGrows(log: seq<Sent>, added: seq<Sent>)
    requires |added| <= 1
    ensures Queued(log) <= Queued(log + added) && ForcedSent(log) <= ForcedSent(log + added)
    ensures forall e <- added :: e.ptr in Queued(log + added) && (e.forced ==> e.ptr in ForcedSent(log + added))
  {
    if added == [] {
      assert log + added == log;
    } else {
      LogGrows(log, added[0]);
      assert added == [added[0]];
    }
  }

  lemma AccountedStays(g: Group, st: State, step: Step, p: Ptr)
    requires Base(st) && History(st) && Enabled(g, st, step) && !step.ClearAll?
    requires IsLive(Next(g, st, step), p)
    ensures Accounted(Next(g, st, step), p)
  {
    var t := Next(g, st, step);
    TableAfter(g, st, step);
    assert RecordAfter(g, st, step, t.refs.store, p);
    hide Next, Marked, Forced, CamDone, IsAccounted, MadeAgain, MemoryOk, SentAgain, StoppedOk, Base;
    if IsLive(st, p) && t.refs.store.recs[p].data.ready {
      assert Accounted(st, p);
      if !st.refs.store.recs[p].data.ready {
        BecomesReady(g, st, step, p);
      } else {
        IsAccountedStays(g, st, step, p);
      }
    }
  }

  lemma IsAccountedStays(g: Group, st: State, step: Step, p: Ptr)
    requires Base(st) && Enabled(g, st, step) && !step.ClearAll?
    requires IsAccounted(st, p)
    ensures IsAccounted(Next(g, st, step), p)
  {
    MissedAfter(g, st, step);
    LogAfter(g, st, step);
    QueuedGrows(st.log, Pushed(g, st, step));
    hide Next, Queued, ForcedSent, Base, IsForced, Pushed;
    if p in st.calls {
      OwnStaysOrEnds(g, st, step, p);
    } else if IsForced(st, p) {
      ForcedStaysOrEnds(g, st, step, p);
    }
  }

  /** A record becomes ready by a completion, or by being forced. */
  lemma BecomesReady(g: Group, st: State, step: Step, p: Ptr)
    requires Enabled(g, st, step) && !step.ClearAll? && IsLive(st, p) && !st.refs.store.recs[p].data.ready
    requires DataAfter(g, st, step, p).ready
    ensures IsAccounted(Next(g, st, step), p)
  {
    MarkKeepsReady(st.refs.store.recs[p].data, step);
    if step.Advance? {
      assert Forces(Next(g, st, step).calls[step.ptr], p);
    }
  }

  lemma MarkKeepsReady(r: Result, step: Step)
    ensures step.Mark? ==> Marked(r, step.report).ready == r.ready
  {
  }

  lemma OwnStaysOrEnds(g: Group, st: State, step: Step, p: Ptr)
    requires Enabled(g, st, step) && !step.ClearAll? && p in st.calls
    ensures
      var t := Next(g, st, step);
      p in t.calls || p in Queued(t.log) || p in t.missed
  {
    CallsAfter(g, st, step);
    LogAfter(g, st, step);
    QueuedGrows(st.log, Pushed(g, st, step));
    MissedAfter(g, st, step);
    hide Next, Queued, ForcedSent, Get;
  }

  lemma ForcedStaysOrEnds(g: Group, st: State, step: Step, p: Ptr)
    requires Base(st) && Enabled(g, st, step) && !step.ClearAll? && IsForced(st, p)
    ensures
      var t := Next(g, st, step);
      IsForced(t, p) || p in Queued(t.log)
  {
    var r :| r in st.calls && Forces(st.calls[r], p);
    CallsAfter(g, st, step);
    LogAfter(g, st, step);
    QueuedGrows(st.log, Pushed(g, st, step));
    assert PtrOk(st, r);
    var t := Next(g, st, step);
    hide Next, Queued, ForcedSent, OwnSent, Base, Get, CamDone;
    if step != Advance(r) {
      assert !(step.SetReady? && step.ptr == r && Completes(g, st.refs.store.recs[r].data, step.cam));
      assert Forces(t.calls[r], p);
    } else if st.calls[r].Declared? {
      assert Forces(t.calls[r], p);
    } else {
      assert EntryFor(st, p, true) in Pushed(g, st, step);
    }
  }

  lemma MemoryStays(g: Group, st: State, step: Step, r: Ptr, q: Ptr)
    requires Base(st) && History(st) && Enabled(g, st, step) && !step.ClearAll?
    requires r in Next(g, st, step).calls
    ensures MemoryOk(Next(g, st, step), r, q)
  {
    var t := Next(g, st, step);
    CallsAfter(g, st, step);
    hide Next, History, Enabled, IsAccounted;
    hide MemoryOk;
    if r in st.calls {
      HistoryRemembers(st, r, q);
      if t.calls[r] == st.calls[r] {
        OldMemoryStays(g, st, step, r, q);
      } else if step == Advance(r) {
        NewMemoryIsRight(g, st, r, q);
      }
    }
    if step.SetReady? && step.ptr == r && t.calls[r] == Completed {
      NothingRemembered(t, r, q);
    }
  }

  lemma NothingRemembered(st: State, r: Ptr, q: Ptr)
    requires r in st.calls && st.calls[r].Completed?
    ensures MemoryOk(st, r, q)
  {
  }

  lemma HistoryRemembers(st: State, r: Ptr, q: Ptr)
    requires History(st) && r in st.calls
    ensures MemoryOk(st, r, q)
  {
  }

  /** What is remembered was used before. */
  lemma IdsStay(g: Group, st: State, step: Step, p: Ptr)
    requires Base(st) && Enabled(g, st, step) && !step.ClearAll?
    requires Own(st, p) || IsAccounted(st, p)
    requires IsLive(Next(g, st, step), p)
    ensures IsLive(st, p) && Next(g, st, step).refs.store.recs[p].id == st.refs.store.recs[p].id
  {
    TableAfter(g, st, step);
    assert RecordAfter(g, st, step, Next(g, st, step).refs.store, p);
    hide Next, Enabled, Queued, ForcedSent, OwnSent, DataAfter;
    assert PtrOk(st, p);
    if IsForced(st, p) {
      var r :| r in st.calls && Forces(st.calls[r], p);
      assert StageOk(st, r, p);
    }
  }

  lemma OldMemoryStays(g: Group, st: State, step: Step, r: Ptr, q: Ptr)
    requires Base(st) && Enabled(g, st, step) && !step.ClearAll?
    requires r in st.calls && r in Next(g, st, step).calls && Next(g, st, step).calls[r] == st.calls[r]
    requires MemoryOk(st, r, q)
    ensures MemoryOk(Next(g, st, step), r, q)
  {
    var t := Next(g, st, step);
    var stage := st.calls[r];
    hide Next, Enabled, ForcedSent, Base, IsAccounted, RemembersSent, RemembersReady, IdBefore;
    ForcedStaySent(g, st, step);
    if RemembersSent(stage, q) || RemembersReady(stage, q) {
      if RemembersSent(stage, q) {
        SentIsAccounted(st, q);
      }
      IsAccountedStays(g, st, step, q);
      if IsLive(t, r) && IsLive(t, q) {
        IdsStay(g, st, step, q);
        IdsStay(g, st, step, r);
        SameIdBefore(st, t, r);
      }
    }
  }

  lemma SameIdBefore(st: State, t: State, r: Ptr)
    requires IsLive(st, r) && IsLive(t, r) && t.refs.store.recs[r].id == st.refs.store.recs[r].id
    ensures IdBefore(t, r) == IdBefore(st, r)
  {
  }

  lemma ForcedStaySent(g: Group, st: State, step: Step)
    requires Enabled(g, st, step) && !step.ClearAll?
    ensures ForcedSent(st.log) <= ForcedSent(Next(g, st, step).log)
  {
    LogAfter(g, st, step);
    QueuedGrows(st.log, Pushed(g, st, step));
    hide Next, ForcedSent, Queued, Pushed;
  }

  lemma SentIsAccounted(st: State, q: Ptr)
    requires q in ForcedSent(st.log)
    ensures IsAccounted(st, q)
  {
    SentIsQueued(st.log, q);
    hide Queued, ForcedSent;
  }

  lemma SentIsQueued(log: seq<Sent>, q: Ptr)
    requires q in ForcedSent(log)
    ensures q in Queued(log)
  {
  }

  lemma NewMemoryIsRight(g: Group, st: State, r: Ptr, q: Ptr)
    requires Base(st) && History(st) && CanAdvance(st, r)
    requires r in Next(g, st, Advance(r)).calls
    requires MemoryOk(st, r, q)
    ensures MemoryOk(Next(g, st, Advance(r)), r, q)
  {
    var t := Next(g, st, Advance(r));
    AdvanceShape(g, st, r);
    assert StageAfter(st, r).Some? && t.calls[r] == StageAfter(st, r).value;
    var later := t.calls[r];
    hide Next, StageAfter, CanAdvance, RemembersSent, RemembersReady, Base, History, IsAccounted, IdBefore;
    if RemembersSent(later, q) {
      RemembersSentAfter(g, st, r, q);
    }
    if RemembersReady(later, q) {
      RemembersReadyAfter(g, st, r, q);
    }
    if (RemembersSent(later, q) || RemembersReady(later, q)) && IsLive(t, r) && IsLive(t, q) {
      RemembersIdAfter(g, st, r, q);
    }
  }

  lemma RemembersSentAfter(g: Group, st: State, r: Ptr, q: Ptr)
    requires CanAdvance(st, r) && MemoryOk(st, r, q) && StageAfter(st, r).Some?
    requires RemembersSent(StageAfter(st, r).value, q)
    ensures q in ForcedSent(Next(g, st, Advance(r)).log)
  {
    LogAfter(g, st, Advance(r));
    QueuedGrows(st.log, Pushed(g, st, Advance(r)));
    hide Next, Queued, ForcedSent, InFlight, Late, Get;
    if st.calls[r].LateCounted? {
      assert EntryFor(st, q, true) in Pushed(g, st, Advance(r));
    }
  }

  lemma RemembersReadyAfter(g: Group, st: State, r: Ptr, q: Ptr)
    requires Base(st) && History(st) && CanAdvance(st, r) && MemoryOk(st, r, q) && StageAfter(st, r).Some?
    requires RemembersReady(StageAfter(st, r).value, q)
    ensures IsAccounted(Next(g, st, Advance(r)), q)
  {
    assert WellFormed(st.refs.store);
    hide Next, Queued, Base, IsAccounted, Late, Get, WellFormed;
    if st.calls[r].Completed? {
      LookUpFinds(st, r);
      assert Accounted(st, q);
    }
    IsAccountedStays(g, st, Advance(r), q);
  }

  lemma RemembersIdAfter(g: Group, st: State, r: Ptr, q: Ptr)
    requires Base(st) && History(st) && CanAdvance(st, r) && MemoryOk(st, r, q) && StageAfter(st, r).Some?
    requires RemembersSent(StageAfter(st, r).value, q) || RemembersReady(StageAfter(st, r).value, q)
    requires IsLive(Next(g, st, Advance(r)), r) && IsLive(Next(g, st, Advance(r)), q)
    ensures Next(g, st, Advance(r)).refs.store.recs[q].id == IdBefore(Next(g, st, Advance(r)), r)
  {
    assert IsAccounted(st, q) || (st.calls[r].LateCounted? && st.calls[r].late == q) by {
      WhatIsRemembered(st, r, q);
    }
    IdsStay(g, st, Advance(r), r);
    assert IsAccounted(st, q) by {
      if st.calls[r].LateCounted? && st.calls[r].late == q {
        assert Forces(st.calls[r], q);
      }
    }
    IdsStay(g, st, Advance(r), q);
    hide Next, Queued, Base, IsAccounted, Late, Get, History;
    RememberedId(st, r, q);
  }

  lemma WhatIsRemembered(st: State, r: Ptr, q: Ptr)
    requires Base(st) && History(st) && CanAdvance(st, r) && MemoryOk(st, r, q) && StageAfter(st, r).Some?
    requires RemembersSent(StageAfter(st, r).value, q) || RemembersReady(StageAfter(st, r).value, q)
    ensures IsAccounted(st, q) || (st.calls[r].LateCounted? && st.calls[r].late == q)
  {
    assert WellFormed(st.refs.store);
    if RemembersSent(st.calls[r], q) {
      SentIsQueued(st.log, q);
    }
    hide Base, Queued, ForcedSent, InFlight, Late, Get, WellFormed;
    if st.calls[r].Completed? {
      LookUpFinds(st, r);
      assert Accounted(st, q);
    }
  }

  lemma RememberedId(st: State, r: Ptr, q: Ptr)
    requires Base(st) && CanAdvance(st, r) && MemoryOk(st, r, q) && StageAfter(st, r).Some?
    requires RemembersSent(StageAfter(st, r).value, q) || RemembersReady(StageAfter(st, r).value, q)
    requires IsLive(st, q)
    ensures st.refs.store.recs[q].id == IdBefore(st, r)
  {
    assert WellFormed(st.refs.store) && StageOk(st, r, q);
    hide Base, Queued, ForcedSent, OwnSent, IsAccounted, Late, Get, WellFormed;
    if st.calls[r].Completed? {
      LookUpFinds(st, r);
    }
  }

  /** What the lookup of the frame before finds: nothing, a record that is ready, or a late one. */
  lemma LookUpFinds(st: State, r: Ptr)
    requires WellFormed(st.refs.store) && CanAdvance(st, r) && st.calls[r].Completed?
    ensures
      var byId := st.refs.store.byId;
      var id := IdBefore(st, r);
      if id !in byId then StageAfter(st, r) == Some(Alone(NoRecord))
      else
        && IsLive(st, byId[id]) && st.refs.store.recs[byId[id]].id == id
        && StageAfter(st, r) == Some(if IsUnready(st, byId[id]) then Looked(byId[id]) else Alone(WasReady(byId[id])))
  {
  }

  // ----- Again -----

  lemma AgainStep(g: Group, st: State, step: Step)
    requires Enabled(g, st, step)
    ensures Next(g, st, step).again
         == if step.ClearAll? then {} else if step.LookUp? then AgainAfter(st, step.id) else st.again
  {
    hide Marked, CamDone, Forced, Get, Clear, ExpiredIds, MakesAgain;
  }

  /** A lookup makes a record exactly when there is none for the frame and it is not refused. */
  lemma MadeOnlyIfAbsent(s: Store<Result>, id: uint32)
    requires WellFormed(s)
    ensures
      var r := Get(ResultRules, s, id, true);
      && (id in s.byId ==> r.ptr == Some(s.byId[id]) && r.store.recs.Keys == s.recs.Keys)
      && (id !in s.byId && r.ptr.Some? ==> r.ptr.value == s.next && s.next !in s.recs && r.store.recs[s.next].id == id)
      && forall p <- r.store.recs :: p in s.recs || (id !in s.byId && r.ptr == Some(p))
  {
    TrimOnlyDeletes(ResultRules, s, id);
    hide Trim;
  }

  /** A record that a step adds is the one its lookup makes. */
  lemma NewRecordIs(g: Group, st: State, step: Step, p: Ptr)
    requires WellFormed(st.refs.store) && Enabled(g, st, step) && !step.ClearAll?
    requires IsLive(Next(g, st, step), p) && !IsLive(st, p)
    ensures step.LookUp? && step.id !in st.refs.store.byId
    ensures Get(ResultRules, st.refs.store, step.id, true).ptr == Some(p) && p == st.refs.store.next
    ensures Next(g, st, step).refs.store.recs[p].id == step.id
  {
    var t := Next(g, st, step).refs;
    SectionIsEnabled(g, st, step);
    if step.LookUp? {
      MadeOnlyIfAbsent(st.refs.store, step.id);
      hide Get;
    } else {
      NoNewRecords(g, st, step);
    }
  }

  lemma NoNewRecords(g: Group, st: State, step: Step)
    requires WellFormed(st.refs.store) && Enabled(g, st, step) && !step.ClearAll? && !step.LookUp?
    ensures Next(g, st, step).refs.store.recs.Keys <= st.refs.store.recs.Keys
  {
    SectionIsEnabled(g, st, step);
    var section := RefsStep(g, st, step);
    if section.Some? {
      assert section.value.GetStep? ==> !section.value.queryReady by {
        hide Next, Refs.Next, Get, Marked, CamDone, Forced;
      }
      StoreAfterIsNext(st.refs, section.value);
      hide Next, Refs.Next, RefsStep;
      OnlyLookUpsAdd(st.refs, section.value);
    }
  }

  lemma OnlyLookUpsAdd(refs: Refs.State<Result>, section: Refs.Step<Result>)
    requires WellFormed(refs.store) && Refs.Enabled(refs, section)
    requires section.GetStep? ==> !section.queryReady
    ensures StoreAfter(refs, section).recs.Keys <= refs.store.recs.Keys
  {
    if section.WorkerClearStep? {
      ClearOnlyDeletes(refs.store, refs.worker.id);
    } else if section.ClearStep? {
      ClearOnlyDeletes(refs.store, section.bound);
    }
    hide Clear, WellFormed;
  }

  lemma ClearOnlyDeletes(s: Store<Result>, bound: uint32)
    requires WellFormed(s)
    ensures Clear(ResultRules, s, bound).recs.Keys <= s.recs.Keys
  {
    if bound != ALL {
      ClearKeepsExactlyTheRest(ResultRules, s, bound);
    }
  }

  lemma MadeAgainStays(g: Group, st: State, step: Step, p: Ptr)
    requires Base(st) && Contents(g, st) && History(st) && Enabled(g, st, step) && !step.ClearAll?
    requires IsLive(Next(g, st, step), p)
    ensures MadeAgain(Next(g, st, step), p)
  {
    var t := Next(g, st, step);
    TableAfter(g, st, step);
    assert RecordAfter(g, st, step, t.refs.store, p);
    hide Next, Base, Contents, History, DataAfter, MadeAgain;
    if IsLive(st, p) {
      OldRecordStays(g, st, step, p);
    } else {
      MadeRecordStays(g, st, step, p);
    }
  }

  lemma OldRecordStays(g: Group, st: State, step: Step, p: Ptr)
    requires Base(st) && History(st) && Enabled(g, st, step) && !step.ClearAll?
    requires IsLive(st, p) && IsLive(Next(g, st, step), p)
    requires Next(g, st, step).refs.store.recs[p].id == st.refs.store.recs[p].id
    ensures MadeAgain(Next(g, st, step), p)
  {
    var t := Next(g, st, step);
    LogAfter(g, st, step);
    AgainStep(g, st, step);
    assert MadeAgain(st, p) && WellFormed(st.refs.store);
    var added := Pushed(g, st, step);
    assert p in t.again <==> p in st.again by {
      if step.LookUp? && MakesAgain(st, step.id) {
        AgainIsFresh(g, st, step.id);
      }
    }
    if added != [] {
      LogGrows(st.log, added[0]);
      assert added == [added[0]];
      assert added[0].ptr != p ==> added[0].id != st.refs.store.recs[p].id;
    } else {
      assert st.log + added == st.log;
    }
    hide Next, Queued, QueuedIds, OwnSent, ForcedSent, Base, History, Pushed;
  }

  lemma MadeRecordStays(g: Group, st: State, step: Step, p: Ptr)
    requires Base(st) && Enabled(g, st, step) && !step.ClearAll?
    requires !IsLive(st, p) && IsLive(Next(g, st, step), p)
    ensures MadeAgain(Next(g, st, step), p)
  {
    LogAfter(g, st, step);
    AgainStep(g, st, step);
    NewRecordIs(g, st, step, p);
    assert PtrOk(st, p);
    hide Next, Queued, QueuedIds, OwnSent, ForcedSent, Base, Get;
    assert st.log + [] == st.log;
  }

  lemma AgainIsFresh(g: Group, st: State, id: uint32)
    requires Base(st) && MakesAgain(st, id)
    ensures AgainAfter(st, id) == st.again + {st.refs.store.next}
  {
    MadeOnlyIfAbsent(st.refs.store, id);
    hide Get;
  }

  lemma SentAgainStays(g: Group, st: State, step: Step, j: nat)
    requires Base(st) && Contents(g, st) && History(st) && Enabled(g, st, step) && !step.ClearAll?
    requires j < |Next(g, st, step).log|
    ensures SentAgain(Next(g, st, step), j)
  {
    LogAfter(g, st, step);
    AgainStep(g, st, step);
    var t := Next(g, st, step);
    hide Next, Base, Contents, History, SentAgain, Enabled;
    if j < |st.log| {
      OldEntryStays(g, st, step, t, j);
    } else {
      NewEntryIsRight(g, st, step, t, j);
    }
  }

  lemma OldEntryStays(g: Group, st: State, step: Step, t: State, j: nat)
    requires Base(st) && Contents(g, st) && History(st) && Enabled(g, st, step)
    requires j < |st.log| && st.log <= t.log
    requires t.again == if step.LookUp? then AgainAfter(st, step.id) else st.again
    ensures SentAgain(t, j)
  {
    assert t.log[..j] == st.log[..j] && t.log[j] == st.log[j];
    assert SentAgain(st, j) && EntryOk(g, st, st.log[j]);
    if step.LookUp? && MakesAgain(st, step.id) {
      AgainIsFresh(g, st, step.id);
    }
    hide Queued, QueuedIds, Base, History, Contents, MakesAgain, AllDelivered, Honest;
  }

  lemma NewEntryIsRight(g: Group, st: State, step: Step, t: State, j: nat)
    requires Base(st) && Contents(g, st) && History(st) && Enabled(g, st, step)
    requires Pushed(g, st, step) != [] && t.log == st.log + Pushed(g, st, step) && j == |st.log|
    requires t.again == st.again
    ensures SentAgain(t, j)
  {
    var e := Pushed(g, st, step)[0];
    assert IsLive(st, e.ptr) && e.id == st.refs.store.recs[e.ptr].id;
    assert t.log[..j] == st.log && t.log[j] == e;
    assert MadeAgain(st, e.ptr);
    hide Queued, QueuedIds, Base, History, Contents, Pushed, Enabled;
    if e.ptr in Queued(st.log) {
      QueuedHasId(g, st, e.ptr);
    }
  }

  lemma QueuedHasId(g: Group, st: State, p: Ptr)
    requires Contents(g, st) && IsLive(st, p) && p in Queued(st.log)
    ensures st.refs.store.recs[p].id in QueuedIds(st.log)
  {
    var i :| 0 <= i < |st.log| && st.log[i].ptr == p;
    assert EntryOk(g, st, st.log[i]);
  }

  // ----- Stopped -----

  lemma StoppedStays(g: Group, st: State, step: Step)
    requires Base(st) && StoppedOk(st) && Enabled(g, st, step) && !step.ClearAll?
    ensures StoppedOk(Next(g, st, step))
  {
    var t := Next(g, st, step);
    if t.phase.Stopped? {
      StaysStopped(g, st, step);
      CallsAfter(g, st, step);
      LogAfter(g, st, step);
      AgainStep(g, st, step);
      assert QueuedIds([]) == {};
      hide Next, Get, Base, QueuedIds;
    }
  }

  lemma StaysStopped(g: Group, st: State, step: Step)
    requires StoppedOk(st) && Enabled(g, st, step) && !step.ClearAll? && Next(g, st, step).phase.Stopped?
    ensures st.phase.Stopped? && Next(g, st, step).refs.queue == [] && Next(g, st, step).written == {}
  {
    hide Get, Clear, ExpiredIds, Marked, CamDone, Forced;
  }

  lemma StepKeepsHistory(g: Group, st: State, step: Step)
    requires Invariant(g, st) && Enabled(g, st, step)
    ensures History(Next(g, st, step))
  {
    hide Base, Contents, Accounted, MadeAgain, MemoryOk, SentAgain;
    if step.ClearAll? {
      NothingIsLeft(g, st);
    } else {
      hide Enabled, Next;
      forall p | p in Next(g, st, step).refs.store.recs
        ensures Accounted(Next(g, st, step), p) && MadeAgain(Next(g, st, step), p)
      {
        AccountedStays(g, st, step, p);
        MadeAgainStays(g, st, step, p);
      }
      forall r, q: Ptr | r in Next(g, st, step).calls ensures MemoryOk(Next(g, st, step), r, q) {
        MemoryStays(g, st, step, r, q);
      }
      forall j | 0 <= j < |Next(g, st, step).log| ensures SentAgain(Next(g, st, step), j) {
        SentAgainStays(g, st, step, j);
      }
      StoppedStays(g, st, step);
    }
  }

  lemma StepKeeps(g: Group, st: State, step: Step)
    requires Invariant(g, st) && Enabled(g, st, step)
    ensures Invariant(g, Next(g, st, step))
  {
    hide Base, Contents, History, Next, Enabled;
    StepKeepsBase(g, st, step);
    StepKeepsContents(g, st, step);
    StepKeepsHistory(g, st, step);
  }

  lemma StartKeeps(g: Group)
    ensures Invariant(g, Start())
  {
  }
}
