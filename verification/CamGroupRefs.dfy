/** The references of the sections of a completion: they keep the counts right, and a completion is never stuck. */
module CamGroupRefs {
  import opened Words
  import opened Options
  import opened Cameras
  import opened RecordStore
  import opened CamGroupResults
  import opened CamGroupContents
  import Refs = ResultRefs

  /** A section that clears with the clear-all bound while some thread still refers to a record. */
  predicate Reckless(g: Group, st: State, step: Step)
    requires Enabled(g, st, step)
  {
    var section := RefsStep(g, st, step);
    section.Some? && Refs.Reckless(ResultRules, st.refs, section.value)
  }

  /** Every step of every thread keeps the reference counts right, exactly when it is not such a clear. */
  lemma StepCountsIff(g: Group, st: State, step: Step)
    requires Enabled(g, st, step) && Refs.Counted(st.refs)
    requires step.Begin? ==> st.refs.queue == []
    ensures Refs.Counted(Next(g, st, step).refs) <==> !Reckless(g, st, step)
  {
    hide Refs.Counted, Refs.Reckless, Next, Refs.Next;
    SectionIsEnabled(g, st, step);
    var section := RefsStep(g, st, step);
    if section.Some? {
      Refs.StepCountsIff(ResultRules, st.refs, section.value);
    }
  }

  // ----- Every completion holds what it needs -----

  function Holders(calls: map<Ptr, Stage>, q: Ptr): set<Ptr> {
    set r | r in calls && HoldsLate(calls[r], q)
  }

  function Pushers(calls: map<Ptr, Stage>, q: Ptr): set<Ptr> {
    set r | r in calls && calls[r] == LateCounted(q)
  }

  predicate OwnIsCounted(calls: map<Ptr, Stage>, p: Ptr) {
    p in calls && calls[p].OwnCounted?
  }

  /** The references held are at least those needed, and those being sent are the counted ones. */
  predicate HeldAt(st: State, p: Ptr) {
    && st.refs.held[p] >= Needed(st, p)
    && st.refs.sending[p] == |Pushers(st.calls, p)| + if OwnIsCounted(st.calls, p) then 1 else 0
  }

  ghost predicate Held(st: State) {
    forall p: Ptr :: HeldAt(st, p)
  }

  function One(yes: bool): nat {
    if yes then 1 else 0
  }

  /** What changes when one completion moves to another stage, begins or ends. */
  lemma OneCallMoves(a: map<Ptr, Stage>, b: map<Ptr, Stage>, r: Ptr, q: Ptr)
    requires a - {r} == b - {r}
    ensures |Holders(b, q)| + One(r in a && HoldsLate(a[r], q)) == |Holders(a, q)| + One(r in b && HoldsLate(b[r], q))
    ensures |Pushers(b, q)| + One(r in a && a[r] == LateCounted(q))
         == |Pushers(a, q)| + One(r in b && b[r] == LateCounted(q))
    ensures OwnIsCounted(b, q) == if q == r then r in b && b[r].OwnCounted? else OwnIsCounted(a, q)
    ensures q != r ==> (q in b <==> q in a)
  {
    forall x: Ptr | x != r ensures (x in a <==> x in b) && (x in a ==> a[x] == b[x]) {
      assert x in a <==> x in a - {r};
      assert x in b <==> x in b - {r};
      if x in a {
        assert (a - {r})[x] == (b - {r})[x];
      }
    }
    hide HoldsLate;
    assert r in Holders(a, q) <==> r in a && HoldsLate(a[r], q);
    assert r in Holders(b, q) <==> r in b && HoldsLate(b[r], q);
    SizeWithout(Holders(a, q), Holders(b, q), r);
    assert r in Pushers(a, q) <==> r in a && a[r] == LateCounted(q);
    assert r in Pushers(b, q) <==> r in b && b[r] == LateCounted(q);
    SizeWithout(Pushers(a, q), Pushers(b, q), r);
  }

  lemma SizeWithout(x: set<Ptr>, y: set<Ptr>, r: Ptr)
    requires forall e: Ptr :: e != r ==> (e in x <==> e in y)
    ensures |y| + One(r in x) == |x| + One(r in y)
  {
    assert x - {r} == y - {r};
    assert |x| == |x - {r}| + One(r in x);
    assert |y| == |y - {r}| + One(r in y);
  }

  lemma NeededIs(st: State, p: Ptr)
    ensures Needed(st, p) == One(p in st.calls) + |Holders(st.calls, p)|
  {
    assert Holders(st.calls, p) == set r | r in st.calls && HoldsLate(st.calls[r], p);
  }

  /** The references that each step adds and takes. */
  lemma RefsShape(g: Group, st: State, step: Step)
    requires Enabled(g, st, step) && !step.ClearAll?
    ensures
      var t := Next(g, st, step).refs;
      && (step.LookUp? ==> st.refs.held <= t.held && t.sending == st.refs.sending)
      && (step.PutBack? ==> t.held == st.refs.held - multiset{step.ptr} && t.sending == st.refs.sending)
      && (!step.LookUp? && !step.PutBack? && !step.Advance? ==> t.held == st.refs.held && t.sending == st.refs.sending)
  {
    hide Get, Clear, ExpiredIds, Marked, CamDone, Forced;
  }

  lemma AdvanceRefs(g: Group, st: State, p: Ptr)
    requires CanAdvance(st, p)
    ensures
      var t := Next(g, st, Advance(p)).refs;
      match st.calls[p]
      case Completed =>
        t.sending == st.refs.sending
        && t.held == if Late(st, p).Some? then st.refs.held + multiset{Late(st, p).value} else st.refs.held
      case Declared(q) => t.held == st.refs.held && t.sending == st.refs.sending + multiset{q}
      case LateCounted(q) => t.held == st.refs.held && t.sending == st.refs.sending - multiset{q}
      case Returning(q, _) => t.held == st.refs.held - multiset{q} && t.sending == st.refs.sending
      case Willing(_) => t.held == st.refs.held && t.sending == st.refs.sending + multiset{p}
      case OwnCounted(_) => t.held == st.refs.held && t.sending == st.refs.sending - multiset{p}
      case _ => t.held == st.refs.held && t.sending == st.refs.sending
  {
    hide Get, Forced;
  }

  lemma AdvanceCalls(g: Group, st: State, p: Ptr)
    requires CanAdvance(st, p)
    ensures
      var t := Next(g, st, Advance(p));
      t.calls == if StageAfter(st, p).Some? then st.calls[p := StageAfter(st, p).value] else st.calls - {p}
  {
    hide StageAfter, Get, Forced;
  }

  /** What a completion needs of x: held references, and counted ones that it has not pushed. */
  function OwnHeld(calls: map<Ptr, Stage>, p: Ptr, x: Ptr): nat {
    One(p == x && p in calls) + One(p in calls && HoldsLate(calls[p], x))
  }

  function OwnSending(calls: map<Ptr, Stage>, p: Ptr, x: Ptr): nat {
    One(p in calls && calls[p] == LateCounted(x)) + One(p == x && OwnIsCounted(calls, p))
  }

  /** How the stage after differs in what it needs. */
  lemma StageNeeds(st: State, p: Ptr, x: Ptr)
    requires CanAdvance(st, p)
    ensures
      var now := st.calls[p];
      var later := StageAfter(st, p);
      && (now.Completed? ==> later.Some? && !HoldsLate(now, x)
                             && (HoldsLate(later.value, x) ==> Late(st, p) == Some(x)))
      && (now.Returning? ==> later.Some? && !HoldsLate(later.value, x))
      && (!now.Completed? && !now.Returning? && later.Some? ==> HoldsLate(later.value, x) == HoldsLate(now, x))
      && (later.Some? && later.value == LateCounted(x) <==> now == Declared(x))
      && (later.Some? && later.value.OwnCounted? <==> now.Willing?)
  {
    hide Late;
  }

  lemma HeldBalances(g: Group, st: State, p: Ptr, x: Ptr)
    requires CanAdvance(st, p)
    ensures
      var t := Next(g, st, Advance(p));
      t.refs.held[x] + OwnHeld(st.calls, p, x) >= st.refs.held[x] + OwnHeld(t.calls, p, x)
  {
    AdvanceRefs(g, st, p);
    AdvanceCalls(g, st, p);
    StageNeeds(st, p, x);
    hide Next, Late, StageAfter, OwnIsCounted;
  }

  lemma SendingBalances(g: Group, st: State, p: Ptr, x: Ptr)
    requires CanAdvance(st, p) && st.refs.sending[x] >= OwnSending(st.calls, p, x)
    ensures
      var t := Next(g, st, Advance(p));
      t.refs.sending[x] + OwnSending(st.calls, p, x) == st.refs.sending[x] + OwnSending(t.calls, p, x)
  {
    AdvanceRefs(g, st, p);
    AdvanceCalls(g, st, p);
    StageNeeds(st, p, x);
    hide Next, Late, StageAfter, HoldsLate;
  }

  /** One section changes the references by what the completion then needs more or less. */
  lemma AdvanceBalances(g: Group, st: State, p: Ptr, x: Ptr)
    requires CanAdvance(st, p)
    ensures
      var t := Next(g, st, Advance(p));
      && t.calls - {p} == st.calls - {p}
      && t.refs.held[x] + OwnHeld(st.calls, p, x) >= st.refs.held[x] + OwnHeld(t.calls, p, x)
      && (st.refs.sending[x] >= OwnSending(st.calls, p, x) ==>
            t.refs.sending[x] + OwnSending(st.calls, p, x) == st.refs.sending[x] + OwnSending(t.calls, p, x))
  {
    AdvanceCalls(g, st, p);
    HeldBalances(g, st, p, x);
    if st.refs.sending[x] >= OwnSending(st.calls, p, x) {
      SendingBalances(g, st, p, x);
    }
    hide Next, StageAfter, OwnHeld, OwnSending, CanAdvance;
    assert Next(g, st, Advance(p)).calls - {p} == st.calls - {p};
  }

  lemma AdvanceHolds(g: Group, st: State, p: Ptr, x: Ptr)
    requires CanAdvance(st, p) && HeldAt(st, x)
    ensures HeldAt(Next(g, st, Advance(p)), x)
  {
    var t := Next(g, st, Advance(p));
    AdvanceBalances(g, st, p, x);
    OneCallMoves(st.calls, t.calls, p, x);
    assert p in st.calls && st.calls[p] == LateCounted(x) ==> p in Pushers(st.calls, x);
    NeededIs(st, x);
    NeededIs(t, x);
    hide Next, Needed, Holders, Pushers, OwnIsCounted, HoldsLate, CanAdvance;
  }

  lemma OutsideCalls(g: Group, st: State, step: Step)
    requires Enabled(g, st, step) && !step.ClearAll? && !step.Advance?
    ensures
      var t := Next(g, st, step);
      t.calls == st.calls
      || (step.SetReady? && t.calls == st.calls[step.ptr := Completed]
          && Completes(g, st.refs.store.recs[step.ptr].data, step.cam))
  {
    hide Get, Clear, ExpiredIds, Marked, CamDone, Forced;
  }

  lemma OutsideHolds(g: Group, st: State, step: Step, x: Ptr)
    requires Enabled(g, st, step) && !step.ClearAll? && !step.Advance? && HeldAt(st, x)
    requires forall p <- st.calls :: IsLive(st, p) ==> st.refs.store.recs[p].data.ready
    ensures HeldAt(Next(g, st, step), x)
  {
    var t := Next(g, st, step);
    RefsShape(g, st, step);
    OutsideCalls(g, st, step);
    NeededIs(st, x);
    NeededIs(t, x);
    if t.calls != st.calls {
      var p := step.ptr;
      assert p !in st.calls;
      assert t.calls - {p} == st.calls - {p};
      OneCallMoves(st.calls, t.calls, p, x);
    }
    hide Next, Holders, Pushers, OwnIsCounted;
  }

  lemma StepHolds(g: Group, st: State, step: Step)
    requires Enabled(g, st, step) && Held(st)
    requires forall p <- st.calls :: IsLive(st, p) ==> st.refs.store.recs[p].data.ready
    ensures Held(Next(g, st, step))
  {
    if step.ClearAll? {
      NothingIsLeft(g, st);
      SendingIsEmpty(g, st);
      hide Next;
      forall x: Ptr ensures HeldAt(Next(g, st, step), x) {
        NeededIs(Next(g, st, step), x);
      }
    } else {
      forall x: Ptr ensures HeldAt(Next(g, st, step), x) {
        assert HeldAt(st, x);
        hide Next, HeldAt;
        if step.Advance? {
          AdvanceHolds(g, st, step.ptr, x);
        } else {
          OutsideHolds(g, st, step, x);
        }
      }
    }
  }

  lemma SendingIsEmpty(g: Group, st: State)
    requires Enabled(g, st, ClearAll)
    ensures Next(g, st, ClearAll).refs.sending == multiset{} && Next(g, st, ClearAll).calls == map[]
  {
  }

  /** With right counts, a completion can always take its next section. */
  lemma CompletionsAreNeverStuck(st: State, p: Ptr)
    requires Refs.Counted(st.refs) && Held(st) && p in st.calls
    ensures CanAdvance(st, p)
  {
    assert HeldAt(st, p);
    NeededIs(st, p);
    assert p in st.refs.held;
    Refs.ReferredToIsInPlace(st.refs, p);
    hide Refs.Counted;
    match st.calls[p]
    case Looked(q) => LateIsHeld(st, p, q);
    case Chosen(q) => LateIsHeld(st, p, q);
    case Declared(q) => LateIsHeld(st, p, q);
    case LateCounted(q) => LateIsHeld(st, p, q);
    case Returning(q, _) => LateIsHeld(st, p, q);
    case _ =>
  }

  lemma LateIsHeld(st: State, p: Ptr, q: Ptr)
    requires Refs.Counted(st.refs) && Held(st) && p in st.calls && HoldsLate(st.calls[p], q)
    ensures q in st.refs.held && IsLive(st, q)
    ensures st.calls[p] == LateCounted(q) ==> q in st.refs.sending
  {
    assert HeldAt(st, q);
    NeededIs(st, q);
    assert p in Holders(st.calls, q);
    assert st.calls[p] == LateCounted(q) ==> p in Pushers(st.calls, q);
    Refs.ReferredToIsInPlace(st.refs, q);
  }

  // ----- The result table in numbers -----

  /**
   * A lookup of a frame without record deletes nothing while there are at most twelve records. With more it
   * deletes exactly those that are not in use up to the frame less 4; for frame 3 it deletes all.
   */
  lemma ResultTableKeeps(s: Store<Result>, n: uint32)
    requires WellFormed(s) && n !in s.byId
    ensures
      var t := Get(ResultRules, s, n, true).store;
      && (forall p <- s.recs :: p in t.recs ==> t.recs[p] == s.recs[p])
      && (|s.byId| <= 12 ==> forall p <- s.recs :: p in t.recs)
      && (|s.byId| > 12 && n >= 4 ==>
            forall p <- s.recs :: p in t.recs <==> s.recs[p].refCnt > 0 || s.recs[p].id > n - 4)
      && (|s.byId| > 12 && n == 3 ==> forall p <- s.recs :: p !in t.recs)
      && (|s.byId| > 12 && n < 3 ==>
            forall p <- s.recs :: p in t.recs <==> s.recs[p].refCnt > 0 || s.recs[p].id > n + 0xffff_fffc)
  {
    NewFrameKeeps(ResultRules, s, n);
    hide Get, WellFormed;
  }

  /**
   * Its mark becomes the largest id deleted so far, and a frame without record is made, blank, exactly if it is
   * not below the mark. A frame with a record gets that one, unless only one that is not ready is wanted.
   */
  lemma ResultTableMakes(s: Store<Result>, n: uint32)
    requires WellFormed(s)
    ensures
      var got := Get(ResultRules, s, n, true);
      if n in s.byId then got.ptr == Some(s.byId[n]) && got.store == Retain(s, s.byId[n])
      else
        && (got.ptr.Some? <==> n >= got.store.cleared)
        && (got.ptr.Some? ==>
              got.ptr.value in got.store.recs
              && got.store.recs[got.ptr.value] == Slot(n, 1, Result({}, map[], false)))
        && (n != 3 ==>
              && got.store.cleared >= s.cleared
              && (forall p <- s.recs :: p !in got.store.recs ==> s.recs[p].id <= got.store.cleared)
              && (got.store.cleared == s.cleared
                  || exists p <- s.recs :: p !in got.store.recs && s.recs[p].id == got.store.cleared))
    ensures
      var got := Get(ResultRules, s, n, false).ptr;
      got == if n in s.byId && !s.recs[s.byId[n]].data.ready then Some(s.byId[n]) else None
  {
    if n !in s.byId {
      NewFrameIsMadeIff(ResultRules, s, n);
      if n != 3 {
        MarkAfterNewFrame(ResultRules, s, n);
      }
      hide WellFormed, Trim;
    }
  }

  /** Thirteen held results, then frame 3: the difference 3 - 4 is the clear-all bound. */
  lemma FrameThreeDeletesHeldRecords()
    ensures Refs.Counted(Refs.Backlog(ResultRules, 13))
    ensures !Refs.Counted(Refs.Next(ResultRules, Refs.Backlog(ResultRules, 13), Refs.GetStep(3, true)))
  {
    hide Refs.Counted, Refs.Next, Refs.Backlog;
    Refs.FrameBelowMarginDeletesHeldRecords(ResultRules);
  }
}
