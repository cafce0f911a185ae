/**
 * Sessions in which the completions of neighbouring frames do not overlap: no record is queued twice, and
 * what can still break the order is a record that was ready before the group started.
 */
module CamGroupApart {
  import opened Words
  import opened Options
  import opened Cameras
  import opened RecordStore
  import opened CamGroupResults
  import opened CamGroupInvariant
  import opened CamGroupContents
  import opened CamGroupQueue
  import opened CamGroupRefs
  import opened CamGroupRuns
  import opened CamGroupOrder
  import Refs = ResultRefs

  predicate AreNeighbours(st: State, p: Ptr, r: Ptr)
    requires IsLive(st, p) && IsLive(st, r)
  {
    st.refs.store.recs[p].id == IdBefore(st, r) || st.refs.store.recs[r].id == IdBefore(st, p)
  }

  /** No completion of a neighbouring frame is in progress. */
  ghost predicate IsApart(st: State, p: Ptr)
    requires IsLive(st, p)
  {
    forall r <- st.calls :: IsLive(st, r) ==> !AreNeighbours(st, p, r)
  }

  predicate CompletesAt(g: Group, trace: seq<State>, steps: seq<Step>, k: nat)
    requires k < |steps| && |trace| == |steps| + 1
  {
    && steps[k].SetReady? && IsLive(trace[k], steps[k].ptr)
    && Completes(g, trace[k].refs.store.recs[steps[k].ptr].data, steps[k].cam)
  }

  /** From step b to n no completion begins while one of a neighbouring frame is in progress. */
  ghost predicate AllApart(g: Group, trace: seq<State>, steps: seq<Step>, b: nat, n: nat)
    requires n <= |steps| && |trace| == |steps| + 1
  {
    forall k :: b < k < n && CompletesAt(g, trace, steps, k) ==> IsApart(trace[k], steps[k].ptr)
  }

  ghost predicate NoNeighbours(st: State) {
    forall p, r: Ptr | p in st.calls && r in st.calls && IsLive(st, p) && IsLive(st, r) :: !AreNeighbours(st, p, r)
  }

  lemma ApartStep(g: Group, st: State, step: Step)
    requires Invariant(g, st) && Enabled(g, st, step) && !step.ClearAll? && NoNeighbours(st)
    requires step.SetReady? && Completes(g, st.refs.store.recs[step.ptr].data, step.cam) ==> IsApart(st, step.ptr)
    ensures NoNeighbours(Next(g, st, step))
  {
    var t := Next(g, st, step);
    hide Next, Enabled, Invariant, Completes, IsApart;
    forall p, r: Ptr | p in t.calls && r in t.calls && IsLive(t, p) && IsLive(t, r) ensures !AreNeighbours(t, p, r) {
      ApartPair(g, st, step, p, r);
    }
  }

  lemma ApartPair(g: Group, st: State, step: Step, p: Ptr, r: Ptr)
    requires Invariant(g, st) && Enabled(g, st, step) && !step.ClearAll? && NoNeighbours(st)
    requires step.SetReady? && Completes(g, st.refs.store.recs[step.ptr].data, step.cam) ==> IsApart(st, step.ptr)
    requires
      var t := Next(g, st, step);
      p in t.calls && r in t.calls && IsLive(t, p) && IsLive(t, r)
    ensures !AreNeighbours(Next(g, st, step), p, r)
  {
    hide Next, Invariant, Completes, NoNeighbours, IsApart, AreNeighbours, Enabled;
    CallIdStays(g, st, step, p);
    CallIdStays(g, st, step, r);
    SameNeighbours(st, Next(g, st, step), p, r);
    if p == r {
      NoOwnNeighbour(Next(g, st, step), p);
    } else if p !in st.calls {
      NeighboursApart(st, p, r);
    } else if r !in st.calls {
      NeighboursApart(st, r, p);
    } else {
      NoNeighboursOf(st, p, r);
    }
  }

  lemma SameNeighbours(st: State, t: State, p: Ptr, r: Ptr)
    requires IsLive(st, p) && IsLive(st, r) && IsLive(t, p) && IsLive(t, r)
    requires t.refs.store.recs[p].id == st.refs.store.recs[p].id && t.refs.store.recs[r].id == st.refs.store.recs[r].id
    ensures AreNeighbours(st, p, r) <==> AreNeighbours(t, p, r)
    ensures AreNeighbours(st, p, r) <==> AreNeighbours(st, r, p)
  {
  }

  lemma NoOwnNeighbour(st: State, p: Ptr)
    requires IsLive(st, p)
    ensures !AreNeighbours(st, p, p)
  {
    var id: int := st.refs.store.recs[p].id;
    assert ToU32(id - 1) != id;
  }

  lemma NeighboursApart(st: State, p: Ptr, r: Ptr)
    requires IsLive(st, p) && IsLive(st, r) && IsApart(st, p) && r in st.calls
    ensures !AreNeighbours(st, p, r)
  {
  }

  lemma NoNeighboursOf(st: State, p: Ptr, r: Ptr)
    requires IsLive(st, p) && IsLive(st, r) && NoNeighbours(st) && r in st.calls && p in st.calls
    ensures !AreNeighbours(st, p, r)
  {
  }

  lemma CallIdStays(g: Group, st: State, step: Step, p: Ptr)
    requires Invariant(g, st) && Enabled(g, st, step) && !step.ClearAll?
    requires p in Next(g, st, step).calls && IsLive(Next(g, st, step), p)
    ensures IsLive(st, p) && Next(g, st, step).refs.store.recs[p].id == st.refs.store.recs[p].id
    ensures p !in st.calls ==>
              step.SetReady? && step.ptr == p && Completes(g, st.refs.store.recs[p].data, step.cam)
  {
    CallsAfter(g, st, step);
    hide Invariant, Next;
    assert Base(st) by {
      InvariantHasBase(g, st);
    }
    if p in st.calls {
      IdsStay(g, st, step, p);
    } else {
      TableAfter(g, st, step);
      assert RecordAfter(g, st, step, Next(g, st, step).refs.store, p);
    }
  }

  lemma InvariantHasBase(g: Group, st: State)
    requires Invariant(g, st)
    ensures Base(st) && WellFormed(st.refs.store) && History(st) && Contents(g, st)
  {
  }

  lemma {:induction false} ApartStays(g: Group, trace: seq<State>, steps: seq<Step>, b: nat, n: nat)
    requires Run(g, trace, steps) && Session(steps, b, n) && AllApart(g, trace, steps, b, n)
    requires trace[b].calls == map[]
    ensures NoNeighbours(trace[n])
    decreases n
  {
    hide Next, Enabled, Invariant, Held, Completes, NoNeighbours, IsApart;
    assert Advances(g, trace, steps, n - 1);
    EveryRunKeeps(g, trace, steps, n - 1);
    if n == b + 1 {
      BeginHasNoCalls(g, trace[b], steps[b]);
    } else {
      assert Session(steps, b, n - 1);
      ApartStays(g, trace, steps, b, n - 1);
      SessionGivesNothingUp(g, trace, steps, b, n);
      assert CompletesAt(g, trace, steps, n - 1) ==> IsApart(trace[n - 1], steps[n - 1].ptr);
      if steps[n - 1].SetReady? {
        SetReadyIsLive(g, trace[n - 1], steps[n - 1]);
      }
      ApartStep(g, trace[n - 1], steps[n - 1]);
    }
  }

  lemma BeginHasNoCalls(g: Group, st: State, step: Step)
    requires Enabled(g, st, step) && step.Begin? && st.calls == map[]
    ensures NoNeighbours(Next(g, st, step))
  {
  }

  lemma ClashHasNeighbour(g: Group, st: State, p: Ptr)
    requires Invariant(g, st) && Held(st) && Refs.Counted(st.refs)
    requires IsLive(st, p) && IsTakenEarly(st, p)
    ensures !IsApart(st, p)
  {
    var r :| r in st.calls && TakesEarly(st.calls[r], p);
    CallsAreLive(st, r);
    MemoryIsOk(g, st, r, p);
    hide Invariant, Held, Refs.Counted;
    assert AreNeighbours(st, p, r);
  }

  /** In such a session no two threads clash. */
  lemma ApartMeansNoClash(g: Group, trace: seq<State>, steps: seq<Step>, b: nat, n: nat, k: nat, p: Ptr)
    requires Run(g, trace, steps) && Session(steps, b, n) && Gentle(g, trace, steps, n)
    requires AllApart(g, trace, steps, b, n)
    requires b < k < n
    ensures !ClashAt(g, trace, steps, k, n, p)
  {
    if ClashAt(g, trace, steps, k, n, p) {
      EveryRunKeeps(g, trace, steps, k);
      EveryRunCounts(g, trace, steps, k);
      hide Invariant, Held, Refs.Counted, Completes, IsTakenEarly, IsApart;
      assert CompletesAt(g, trace, steps, k);
      ClashHasNeighbour(g, trace[k], p);
    }
  }

  /** In such a session no record is queued twice. */
  lemma ApartIsQueuedOnce(g: Group, trace: seq<State>, steps: seq<Step>, b: nat, n: nat, p: Ptr)
    requires Run(g, trace, steps) && Session(steps, b, n) && Gentle(g, trace, steps, n)
    requires AllApart(g, trace, steps, b, n) && trace[b].calls == map[]
    ensures !QueuedTwice(trace[n].log, p)
  {
    hide AllApart, QueuedTwice, ClashAt, Gentle;
    if QueuedTwice(trace[n].log, p) {
      QueuedTwiceMeansClash(g, trace, steps, n, p);
      var k :| 0 <= k < n && ClashAt(g, trace, steps, k, n, p);
      if k <= b {
        OldClashIsQueuedOnce(g, trace, steps, b, n, p, k);
      } else {
        ApartMeansNoClash(g, trace, steps, b, n, k, p);
      }
    }
  }

  lemma OldClashIsQueuedOnce(g: Group, trace: seq<State>, steps: seq<Step>, b: nat, n: nat, p: Ptr, k: nat)
    requires Run(g, trace, steps) && Session(steps, b, n) && trace[b].calls == map[]
    requires k <= b && ClashAt(g, trace, steps, k, n, p)
    ensures !QueuedTwice(trace[n].log, p)
  {
    assert ClashAt(g, trace, steps, k, b + 1, p);
    ClashIsOver(g, trace, steps, b, p, k);
    SessionGivesNothingUp(g, trace, steps, b, n);
    EveryRunKeeps(g, trace, steps, n);
    AddressIsOk(g, trace[n], p);
    TwiceIsBoth(trace[n], p);
  }

  /** Without completions in progress, what was ready at the start was given up before it. */
  lemma EarlyIsMissed(g: Group, trace: seq<State>, steps: seq<Step>, b: nat, q: Ptr)
    requires Run(g, trace, steps) && b < |steps| && steps[b].Begin? && trace[b].calls == map[]
    ensures q in ReadyIn(trace[b].refs.store) ==> q in trace[b].missed
    ensures q in trace[b].missed && IsLive(trace[b], q) ==> q in ReadyIn(trace[b].refs.store)
    ensures q in trace[b].missed ==> q < trace[b].refs.store.next
  {
    EveryRunKeeps(g, trace, steps, b);
    assert Advances(g, trace, steps, b);
    BeginsEmpty(g, trace[b], steps[b]);
    AddressIsOk(g, trace[b], q);
    hide Invariant, Held;
  }

  lemma NeighbourIsNotInFlight(g: Group, st: State, p: Ptr, q: Ptr)
    requires Invariant(g, st) && Held(st) && Refs.Counted(st.refs) && NoNeighbours(st)
    requires p in st.calls && RemembersReady(st.calls[p], q)
    ensures !InFlight(st, q)
  {
    NotTakenByOthers(g, st, p, q);
    ForcedIsTaken(st, q);
    if q in st.calls {
      MemoryIsOk(g, st, p, q);
      CallsAreLive(st, p);
      CallsAreLive(st, q);
      hide Invariant, Held, Refs.Counted, IsAccounted, NoNeighbours;
      assert AreNeighbours(st, q, p);
      NoNeighboursOf(st, q, p);
    }
  }

  /** What was given up before such a session stays out of the queue. */
  lemma MissedIsNotQueued(g: Group, trace: seq<State>, steps: seq<Step>, b: nat, n: nat, q: Ptr)
    requires Run(g, trace, steps) && Session(steps, b, n) && Gentle(g, trace, steps, n)
    requires AllApart(g, trace, steps, b, n) && trace[b].calls == map[]
    requires q in trace[b].missed
    ensures q !in Queued(trace[n].log)
  {
    EveryRunKeeps(g, trace, steps, n);
    AddressIsOk(g, trace[n], q);
    SessionGivesNothingUp(g, trace, steps, b, n);
    ClashedIsClash(g, trace, steps, n, q);
    hide Invariant, Held, Queued, OwnSent, ForcedSent, AllApart, Run, ClashAt, Session;
    if q in ForcedSent(trace[n].log) {
      var k :| 0 <= k < n && ClashAt(g, trace, steps, k, n, q);
      if k <= b {
        OldClashIsSpared(g, trace, steps, b, n, q, k);
      } else {
        ApartMeansNoClash(g, trace, steps, b, n, k, q);
      }
    }
  }

  lemma OldClashIsSpared(g: Group, trace: seq<State>, steps: seq<Step>, b: nat, n: nat, q: Ptr, k: nat)
    requires Run(g, trace, steps) && Session(steps, b, n) && trace[b].calls == map[]
    requires k <= b && ClashAt(g, trace, steps, k, n, q)
    ensures q in trace[b].spared
  {
    assert k != b && ClashAt(g, trace, steps, k, b, q);
    ClashedIsClash(g, trace, steps, b, q);
    EveryRunKeeps(g, trace, steps, b);
    assert Advances(g, trace, steps, b);
    BeginsEmpty(g, trace[b], steps[b]);
    AddressIsOk(g, trace[b], q);
  }

  /**
   * In a session that starts with no completion in progress, and in which those of neighbouring frames do not
   * overlap, the record that the lookup found is ahead exactly if it was not ready when the group started.
   */
  lemma ApartKeepsOrderIff(g: Group, trace: seq<State>, steps: seq<Step>, b: nat, m: nat, n: nat, p: Ptr, q: Ptr)
    requires Run(g, trace, steps) && Session(steps, b, n + 1) && Gentle(g, trace, steps, n) && b < m < n
    requires AllApart(g, trace, steps, b, n) && trace[b].calls == map[]
    requires LooksUpAt(trace, steps, m, p) && PushesAt(trace, steps, n, p)
    requires RecordBefore(trace[m], p) == Some(q)
    ensures q in Queued(trace[n].log) <==> q !in ReadyIn(trace[b].refs.store)
  {
    assert Session(steps, b, n) && Session(steps, b, m);
    EarlyIsMissed(g, trace, steps, b, q);
    if q in trace[b].missed {
      MissedIsNotQueued(g, trace, steps, b, n, q);
      EveryRunKeeps(g, trace, steps, m);
      FoundIsLive(g, trace[m], p, q);
      SessionGivesNothingUp(g, trace, steps, b, m);
      OldStaysOld(g, trace, steps, b, m, q);
    } else {
      ApartIsAhead(g, trace, steps, b, m, n, p, q);
    }
  }

  lemma FoundIsLive(g: Group, st: State, p: Ptr, q: Ptr)
    requires Invariant(g, st) && IsLive(st, p) && RecordBefore(st, p) == Some(q)
    ensures IsLive(st, q)
  {
    InvariantHasBase(g, st);
  }

  lemma ApartIsAhead(g: Group, trace: seq<State>, steps: seq<Step>, b: nat, m: nat, n: nat, p: Ptr, q: Ptr)
    requires Run(g, trace, steps) && Session(steps, b, n + 1) && Gentle(g, trace, steps, n) && b < m < n
    requires AllApart(g, trace, steps, b, n) && trace[b].calls == map[]
    requires LooksUpAt(trace, steps, m, p) && PushesAt(trace, steps, n, p)
    requires RecordBefore(trace[m], p) == Some(q) && q !in trace[b].missed
    ensures q in Queued(trace[n].log)
  {
    EveryRunKeeps(g, trace, steps, n);
    EveryRunCounts(g, trace, steps, n);
    assert Session(steps, b, n);
    SessionGivesNothingUp(g, trace, steps, b, n);
    FoundIsRemembered(g, trace, steps, b, m, n, p);
    ApartStays(g, trace, steps, b, n);
    hide Held, Refs.Counted, Run, Session, Gentle, AllApart, NoNeighbours;
    MemoryIsOk(g, trace[n], p, q);
    SentIsQueuedIf(trace[n].log, q);
    hide Invariant, InFlight, Queued, ForcedSent, OwnSent;
    if RemembersReady(trace[n].calls[p], q) {
      NeighbourIsNotInFlight(g, trace[n], p, q);
    }
  }

  // ----- Whole sessions -----

  /** Every completion that has looked up the frame before did so in the session. */
  lemma {:induction false} HasLookedUp(g: Group, trace: seq<State>, steps: seq<Step>, b: nat, n: nat, p: Ptr)
    requires Run(g, trace, steps) && Session(steps, b, n) && trace[b].calls == map[]
    requires p in trace[n].calls && !trace[n].calls[p].Completed?
    ensures exists m :: b < m < n && LooksUpAt(trace, steps, m, p)
    decreases n
  {
    hide Next, Invariant, Held;
    assert Advances(g, trace, steps, n - 1);
    SessionGivesNothingUp(g, trace, steps, b, n);
    CallsAfter(g, trace[n - 1], steps[n - 1]);
    if p in trace[n - 1].calls && trace[n - 1].calls[p].Completed? {
      LooksUpNow(g, trace[n - 1], steps[n - 1], p);
      assert LooksUpAt(trace, steps, n - 1, p);
    } else {
      hide Enabled;
      assert p in trace[n - 1].calls;
      assert Session(steps, b, n - 1);
      HasLookedUp(g, trace, steps, b, n - 1, p);
    }
  }

  lemma LooksUpNow(g: Group, st: State, step: Step, p: Ptr)
    requires Enabled(g, st, step) && !step.ClearAll?
    requires p in st.calls && st.calls[p].Completed?
    requires p in Next(g, st, step).calls && !Next(g, st, step).calls[p].Completed?
    ensures step == Advance(p) && IsLive(st, p)
  {
    CallsAfter(g, st, step);
    hide Next, Get;
  }

  /** The record that the lookup found, if it found one, is ahead of p. */
  predicate IsInOrder(st: State, p: Ptr)
    requires p in st.calls && st.calls[p].OwnCounted?
  {
    !st.calls[p].before.NoRecord? ==> st.calls[p].before.ptr in Queued(st.log)
  }

  /** The lookup found a record that was ready when the group started. */
  predicate FollowsEarly(begin: State, st: State, p: Ptr)
    requires p in st.calls && st.calls[p].OwnCounted?
  {
    !st.calls[p].before.NoRecord? && st.calls[p].before.ptr in ReadyIn(begin.refs.store)
  }

  ghost predicate AllInOrder(trace: seq<State>, steps: seq<Step>, b: nat, n: nat)
    requires n <= |steps| && |trace| == |steps| + 1
  {
    forall k, p :: b < k < n && PushesAt(trace, steps, k, p) ==> IsInOrder(trace[k], p)
  }

  ghost predicate NoneFollowsEarly(trace: seq<State>, steps: seq<Step>, b: nat, n: nat)
    requires b < n <= |steps| && |trace| == |steps| + 1
  {
    forall k, p :: b < k < n && PushesAt(trace, steps, k, p) ==> !FollowsEarly(trace[b], trace[k], p)
  }

  /**
   * Such a session keeps the order in every push exactly if it never queues the frame after one that was
   * ready before the start; one that starts with no ready record in its table always keeps it.
   */
  lemma SessionIsInOrderIff(g: Group, trace: seq<State>, steps: seq<Step>, b: nat, n: nat)
    requires Run(g, trace, steps) && Session(steps, b, n) && Gentle(g, trace, steps, n)
    requires AllApart(g, trace, steps, b, n) && trace[b].calls == map[]
    ensures AllInOrder(trace, steps, b, n) <==> NoneFollowsEarly(trace, steps, b, n)
    ensures ReadyIn(trace[b].refs.store) == {} ==> AllInOrder(trace, steps, b, n)
  {
    forall k, p | b < k < n && PushesAt(trace, steps, k, p)
      ensures IsInOrder(trace[k], p) <==> !FollowsEarly(trace[b], trace[k], p)
    {
      PushIsInOrderIff(g, trace, steps, b, k, p);
    }
    hide Run, Gentle, AllApart, Session, IsInOrder, PushesAt;
  }

  lemma PushIsInOrderIff(g: Group, trace: seq<State>, steps: seq<Step>, b: nat, k: nat, p: Ptr)
    requires Run(g, trace, steps) && Session(steps, b, k + 1) && b < k && Gentle(g, trace, steps, k)
    requires AllApart(g, trace, steps, b, k) && trace[b].calls == map[]
    requires PushesAt(trace, steps, k, p)
    ensures IsInOrder(trace[k], p) <==> !FollowsEarly(trace[b], trace[k], p)
  {
    assert Session(steps, b, k);
    HasLookedUp(g, trace, steps, b, k, p);
    var m :| b < m < k && LooksUpAt(trace, steps, m, p);
    FoundIsRemembered(g, trace, steps, b, m, k, p);
    var found := RecordBefore(trace[m], p);
    WhatWasFound(trace[k].calls[p], found, FoundLate(trace[m], p));
    hide Run, Gentle, AllApart, Queued, OnWay, Session, RecordBefore, LooksUpAt, ReadyIn, FoundLate, IsSettled;
    if found.Some? {
      ApartKeepsOrderIff(g, trace, steps, b, m, k, p, found.value);
    }
  }

  lemma WhatWasFound(stage: Stage, found: Option<Ptr>, late: bool)
    requires stage.OwnCounted?
    ensures OnWay(stage, found, late) ==>
              (stage.before.NoRecord? <==> found.None?) && (found.Some? ==> stage.before.ptr == found.value)
  {
  }
}
