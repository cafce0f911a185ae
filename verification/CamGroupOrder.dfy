/** Where a record is, and what is ahead of it in the queue when it is pushed. */
module CamGroupOrder {
  import opened Words
  import opened Options
  import opened Cameras
  import opened RecordStore
  import opened CamGroupResults
  import opened CamGroupInvariant
  import opened CamGroupContents
  import opened CamGroupQueue
  import opened CamGroupRefs
  import opened CamGroupRuns
  import Refs = ResultRefs

  predicate HasRecord(st: State, id: uint32) {
    id in st.refs.store.byId
  }

  // ----- Every record is in one place -----

  lemma CallsAreLive(st: State, p: Ptr)
    requires Refs.Counted(st.refs) && Held(st) && p in st.calls
    ensures IsLive(st, p)
    ensures forall q: Ptr :: HoldsLate(st.calls[p], q) ==> IsLive(st, q)
  {
    CompletionsAreNeverStuck(st, p);
    forall q: Ptr | HoldsLate(st.calls[p], q) ensures IsLive(st, q) {
      LateIsHeld(st, p, q);
    }
  }

  /** A record that no two threads clashed on is not queued and in flight, nor queued and given up. */
  lemma QueuedIsOver(g: Group, st: State, p: Ptr)
    requires Invariant(g, st) && Held(st) && Refs.Counted(st.refs)
    requires p !in st.clashed && p in Queued(st.log)
    ensures !InFlight(st, p) && p !in st.missed && !IsUnready(st, p)
  {
    AddressIsOk(g, st, p);
    hide Invariant, Held, Refs.Counted, Queued, OwnSent, ForcedSent, IsForced;
    if IsForced(st, p) {
      ForcedIsNotSent(g, st, p);
    }
  }

  lemma ForcedIsNotSent(g: Group, st: State, p: Ptr)
    requires Invariant(g, st) && Held(st) && Refs.Counted(st.refs) && IsForced(st, p)
    ensures p in st.written && p !in ForcedSent(st.log)
  {
    var r :| r in st.calls && Forces(st.calls[r], p);
    CallsAreLive(st, r);
    MemoryIsOk(g, st, r, p);
    hide Invariant, Held, Refs.Counted, ForcedSent;
  }

  /** A record that two threads clashed on is queued exactly if one of its two pushes is over. */
  lemma ClashedIsQueuedIff(g: Group, st: State, p: Ptr)
    requires Invariant(g, st) && Held(st) && Refs.Counted(st.refs) && p in st.clashed
    ensures p in Queued(st.log)
       <==> (p !in st.calls && p !in st.missed) || (!IsTaken(st, p) && p !in st.spared)
  {
    AddressIsOk(g, st, p);
    if p in ForcedSent(st.log) && IsTaken(st, p) {
      var r :| r in st.calls && Takes(st.calls[r], p);
      CallsAreLive(st, r);
      hide Held, Refs.Counted, ForcedSent;
      MemoryIsOk(g, st, r, p);
    }
    hide Invariant, Held, Refs.Counted, Queued, OwnSent, ForcedSent, IsTaken;
  }

  /**
   * Where a record is. If no two threads clashed on it, it waits, or a thread is about to push it, or it was
   * given up, or it was queued, and only one of these; otherwise it has two pushes.
   */
  lemma QueuedIff(g: Group, st: State, p: Ptr)
    requires Invariant(g, st) && Held(st) && Refs.Counted(st.refs) && IsLive(st, p)
    ensures p !in st.clashed ==>
              (p in Queued(st.log) <==> !IsUnready(st, p) && !InFlight(st, p) && p !in st.missed)
    ensures p in st.clashed ==>
              (p in Queued(st.log)
               <==> (p !in st.calls && p !in st.missed) || (!IsTaken(st, p) && p !in st.spared))
  {
    AddressIsOk(g, st, p);
    hide Invariant, Held, Refs.Counted, Queued, IsTaken;
    if p in st.clashed {
      ClashedIsQueuedIff(g, st, p);
    } else if p in Queued(st.log) {
      QueuedIsOver(g, st, p);
    }
  }

  /**
   * When a late record is pushed, the record before it, if it exists, is ahead of it exactly if it was ready
   * and its own push is over: a second record that is not ready is passed over. One that two threads clashed
   * on is ahead exactly if one of its two pushes is over.
   */
  lemma ForcedOvertakesIff(g: Group, trace: seq<State>, steps: seq<Step>, n: nat, r: Ptr, older: Ptr)
    requires Run(g, trace, steps) && n < |steps| && Gentle(g, trace, steps, n)
    requires steps[n] == Advance(r) && r in trace[n].calls && trace[n].calls[r].LateCounted?
    requires
      var st := trace[n];
      && IsLive(st, older) && IsLive(st, st.calls[r].late)
      && st.refs.store.recs[older].id == IdBefore(st, st.calls[r].late)
    ensures trace[n + 1].log == trace[n].log + [EntryFor(trace[n], trace[n].calls[r].late, true)]
    ensures older !in trace[n].clashed ==>
              (older in Queued(trace[n].log)
               <==> !IsUnready(trace[n], older) && !InFlight(trace[n], older) && older !in trace[n].missed)
    ensures older in trace[n].clashed ==>
              (older in Queued(trace[n].log)
               <==> || (older !in trace[n].calls && older !in trace[n].missed)
                    || (!IsTaken(trace[n], older) && older !in trace[n].spared))
  {
    EveryRunKeeps(g, trace, steps, n);
    EveryRunCounts(g, trace, steps, n);
    QueuedIff(g, trace[n], older);
    assert Advances(g, trace, steps, n);
    LogAfter(g, trace[n], steps[n]);
    hide Invariant, Held, Refs.Counted, Queued, IsTaken;
  }

  // ----- What the lookup found, and what is ahead at the push -----

  /** Step m is the lookup, by the thread that completed p, of the record of the frame before. */
  predicate LooksUpAt(trace: seq<State>, steps: seq<Step>, m: nat, p: Ptr)
    requires m < |steps| && |trace| == |steps| + 1
  {
    steps[m] == Advance(p) && p in trace[m].calls && trace[m].calls[p].Completed? && IsLive(trace[m], p)
  }

  /** Step n is the push of p by the thread that completed it. */
  predicate PushesAt(trace: seq<State>, steps: seq<Step>, n: nat, p: Ptr)
    requires n < |steps| && |trace| == |steps| + 1
  {
    steps[n] == Advance(p) && p in trace[n].calls && trace[n].calls[p].OwnCounted?
  }

  /** The record of the frame before, if there is one. */
  function RecordBefore(st: State, p: Ptr): Option<Ptr>
    requires IsLive(st, p)
  {
    if HasRecord(st, IdBefore(st, p)) then Some(st.refs.store.byId[IdBefore(st, p)]) else None
  }

  /** A completion in a session goes through these stages, from a lookup with this outcome. */
  predicate OnWay(stage: Stage, found: Option<Ptr>, late: bool) {
    if found.None? then (stage.Alone? || stage.Willing? || stage.OwnCounted?) && stage.before.NoRecord?
    else if !late then RemembersReady(stage, found.value)
    else (HoldsLate(stage, found.value) && (stage.Returning? ==> stage.sent)) || RemembersSent(stage, found.value)
  }

  /** The push of p is over, and p cannot be completed again. */
  predicate IsSettled(st: State, p: Ptr) {
    p !in st.calls && (p in OwnSent(st.log) || p in st.missed)
  }

  lemma StageStaysOnWay(g: Group, st: State, p: Ptr, found: Option<Ptr>, late: bool)
    requires CanAdvance(st, p) && st.phase.Started? && OnWay(st.calls[p], found, late)
    ensures StageAfter(st, p).Some? ==> OnWay(StageAfter(st, p).value, found, late)
    ensures StageAfter(st, p).None? ==> st.calls[p].OwnCounted?
  {
    hide Late, Get;
  }

  lemma OnWayStep(g: Group, st: State, step: Step, p: Ptr, found: Option<Ptr>, late: bool)
    requires Invariant(g, st) && Enabled(g, st, step) && !step.ClearAll? && st.phase.Started?
    requires IsSettled(st, p) || (p in st.calls && OnWay(st.calls[p], found, late))
    ensures
      var t := Next(g, st, step);
      IsSettled(t, p) || (p in t.calls && OnWay(t.calls[p], found, late))
  {
    AddressIsOk(g, st, p);
    CallsAfter(g, st, step);
    LogAfter(g, st, step);
    MissedAfter(g, st, step);
    var t := Next(g, st, step);
    var added := Pushed(g, st, step);
    OwnGrows(st.log, added);
    hide Next, Invariant, OnWay, StageAfter, Queued, ForcedSent, OwnSent;
    if step == Advance(p) && p in st.calls {
      AdvanceIsEnabled(g, st, p);
      hide Enabled;
      StageStaysOnWay(g, st, p, found, late);
      if StageAfter(st, p).None? {
        assert EntryFor(st, p, false) in added;
      }
    }
  }

  lemma OwnGrows(log: seq<Sent>, added: seq<Sent>)
    requires |added| <= 1
    ensures OwnSent(log) <= OwnSent(log + added)
    ensures forall e <- added :: !e.forced ==> e.ptr in OwnSent(log + added)
  {
    if added == [] {
      assert log + added == log;
    } else {
      LogGrows(log, added[0]);
      assert added == [added[0]];
    }
  }

  /** The lookup found a record that was not ready. */
  predicate FoundLate(st: State, p: Ptr)
    requires IsLive(st, p)
  {
    RecordBefore(st, p).Some? && IsUnready(st, RecordBefore(st, p).value)
  }

  lemma LookUpStarts(g: Group, st: State, p: Ptr)
    requires Invariant(g, st) && CanAdvance(st, p) && st.calls[p].Completed?
    ensures
      var t := Next(g, st, Advance(p));
      p in t.calls && OnWay(t.calls[p], RecordBefore(st, p), FoundLate(st, p))
  {
    AddressIsOk(g, st, p);
    LookUpFinds(st, p);
    AdvanceShape(g, st, p);
    hide Next, Invariant, StageAfter, IsUnready;
  }

  /** After the lookup, a completion in a session remembers what it found until its push. */
  lemma {:induction false} FoundIsRemembered(
      g: Group, trace: seq<State>, steps: seq<Step>, b: nat, m: nat, n: nat, p: Ptr)
    requires Run(g, trace, steps) && Session(steps, b, n) && b < m < n
    requires LooksUpAt(trace, steps, m, p)
    ensures IsSettled(trace[n], p)
            || (p in trace[n].calls && OnWay(trace[n].calls[p], RecordBefore(trace[m], p), FoundLate(trace[m], p)))
    decreases n
  {
    hide Next, Invariant, Held, OnWay, IsSettled, RecordBefore, FoundLate;
    SessionGivesNothingUp(g, trace, steps, b, n);
    assert Session(steps, b, n - 1);
    SessionGivesNothingUp(g, trace, steps, b, n - 1);
    assert Advances(g, trace, steps, n - 1);
    EveryRunKeeps(g, trace, steps, n - 1);
    if n == m + 1 {
      AdvanceIsEnabled(g, trace[m], p);
      hide Enabled;
      LookUpStarts(g, trace[m], p);
    } else {
      hide Enabled;
      FoundIsRemembered(g, trace, steps, b, m, n - 1, p);
      OnWayStep(g, trace[n - 1], steps[n - 1], p, RecordBefore(trace[m], p), FoundLate(trace[m], p));
    }
  }

  /** While p remembers q, no other completion has q as its late record. */
  lemma NotTakenByOthers(g: Group, st: State, p: Ptr, q: Ptr)
    requires Invariant(g, st) && Held(st) && Refs.Counted(st.refs)
    requires p in st.calls && RemembersReady(st.calls[p], q)
    ensures !IsTaken(st, q)
  {
    if IsTaken(st, q) {
      var r :| r in st.calls && Takes(st.calls[r], q);
      CallsAreLive(st, r);
      CallsAreLive(st, p);
      MemoryIsOk(g, st, r, q);
      MemoryIsOk(g, st, p, q);
      AddressIsOk(g, st, q);
      hide Invariant, Held, Refs.Counted, IsAccounted;
      OneTaker(st.refs.store, p, r);
    }
  }

  /** A record that the lookup found ready: whether it is ahead by now. */
  lemma FoundReadyIsAheadIff(g: Group, st: State, p: Ptr, q: Ptr)
    requires Invariant(g, st) && Held(st) && Refs.Counted(st.refs)
    requires p in st.calls && RemembersReady(st.calls[p], q)
    ensures q in Queued(st.log)
       <==> (!InFlight(st, q) && q !in st.missed) || (q in st.clashed && q !in st.spared)
  {
    NotTakenByOthers(g, st, p, q);
    ForcedIsTaken(st, q);
    AddressIsOk(g, st, q);
    MemoryIsOk(g, st, p, q);
    hide Invariant, Held, Refs.Counted, Queued, OwnSent, ForcedSent, IsForced, IsTaken, StageOk;
  }

  lemma ForcedIsTaken(st: State, q: Ptr)
    ensures IsForced(st, q) ==> IsTaken(st, q)
  {
    if IsForced(st, q) {
      var r :| r in st.calls && Forces(st.calls[r], q);
      assert Takes(st.calls[r], q);
    }
  }

  /**
   * A completion in a session looks up the record of the frame before in step m, and pushes its own in step
   * n. One that it found late is ahead. One that it found ready is ahead exactly if no thread still has to
   * push it and it was not given up before the start, or if two threads clashed on it.
   */
  lemma PredecessorIsAheadIff(
      g: Group, trace: seq<State>, steps: seq<Step>, b: nat, m: nat, n: nat, p: Ptr, q: Ptr)
    requires Run(g, trace, steps) && Session(steps, b, n + 1) && Gentle(g, trace, steps, n) && b < m < n
    requires LooksUpAt(trace, steps, m, p) && PushesAt(trace, steps, n, p)
    requires RecordBefore(trace[m], p) == Some(q)
    ensures IsUnready(trace[m], q) ==> q in Queued(trace[n].log)
    ensures !IsUnready(trace[m], q) ==>
              (q in Queued(trace[n].log)
               <==> || (!InFlight(trace[n], q) && q !in trace[b].missed)
                    || (q in trace[n].clashed && q !in trace[b].spared))
  {
    EveryRunKeeps(g, trace, steps, n);
    EveryRunCounts(g, trace, steps, n);
    assert Session(steps, b, n);
    SessionGivesNothingUp(g, trace, steps, b, n);
    FoundIsRemembered(g, trace, steps, b, m, n, p);
    hide Held, Refs.Counted, Run, Session;
    MemoryIsOk(g, trace[n], p, q);
    SentIsQueuedIf(trace[n].log, q);
    hide Invariant, IsUnready, Queued, ForcedSent, OwnSent, InFlight;
    if RemembersReady(trace[n].calls[p], q) {
      FoundReadyIsAheadIff(g, trace[n], p, q);
    }
  }

  lemma SentIsQueuedIf(log: seq<Sent>, q: Ptr)
    ensures q in ForcedSent(log) ==> q in Queued(log)
  {
    if q in ForcedSent(log) {
      SentIsQueued(log, q);
    }
  }

  lemma MemoryIsOk(g: Group, st: State, p: Ptr, q: Ptr)
    requires Invariant(g, st) && p in st.calls
    ensures MemoryOk(st, p, q) && StageOk(st, p, q)
  {
  }
}
