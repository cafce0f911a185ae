/**
 * Whole runs of the result records, over every interleaving of the sections of every thread: how often a
 * record is queued, what a queued record holds, and whether a ready record is always queued.
 */
module CamGroupRuns {
  import opened Words
  import opened Options
  import opened Cameras
  import opened RecordStore
  import opened CamGroupResults
  import opened CamGroupInvariant
  import opened CamGroupContents
  import opened CamGroupQueue
  import opened CamGroupRefs
  import Refs = ResultRefs

  ghost predicate Run(g: Group, trace: seq<State>, steps: seq<Step>) {
    && |trace| == |steps| + 1
    && trace[0] == Start()
    && forall i :: 0 <= i < |steps| ==> Advances(g, trace, steps, i)
  }

  ghost predicate Advances(g: Group, trace: seq<State>, steps: seq<Step>, i: nat)
    requires i < |steps| && |trace| == |steps| + 1
  {
    Enabled(g, trace[i], steps[i]) && trace[i + 1] == Next(g, trace[i], steps[i])
  }

  lemma {:induction false} EveryRunKeeps(g: Group, trace: seq<State>, steps: seq<Step>, n: nat)
    requires Run(g, trace, steps)
    requires n < |trace|
    ensures Invariant(g, trace[n]) && Held(trace[n])
  {
    hide Invariant, Held, Next, Enabled;
    if n == 0 {
      StartKeeps(g);
      StartHolds();
    } else {
      EveryRunKeeps(g, trace, steps, n - 1);
      assert Advances(g, trace, steps, n - 1);
      StepKeeps(g, trace[n - 1], steps[n - 1]);
      CallsAreReady(g, trace[n - 1]);
      StepHolds(g, trace[n - 1], steps[n - 1]);
    }
  }

  lemma StartHolds()
    ensures Held(Start())
  {
    forall p: Ptr ensures HeldAt(Start(), p) {
      NeededIs(Start(), p);
    }
  }

  lemma CallsAreReady(g: Group, st: State)
    requires Invariant(g, st)
    ensures forall p <- st.calls :: IsLive(st, p) ==> st.refs.store.recs[p].data.ready
  {
    forall p | p in st.calls && IsLive(st, p) ensures st.refs.store.recs[p].data.ready {
      assert PtrOk(st, p);
    }
  }

  /** The facts about one address. */
  lemma AddressIsOk(g: Group, st: State, p: Ptr)
    requires Invariant(g, st)
    ensures PtrOk(st, p) && (IsLive(st, p) ==> Accounted(st, p))
    ensures WellFormed(st.refs.store) && PushedOnceEach(st.log) && StoppedOk(st)
  {
  }

  /** A step that does not clear with the clear-all bound while some thread still refers to a record. */
  ghost predicate AdvancesGently(g: Group, trace: seq<State>, steps: seq<Step>, i: nat)
    requires i < |steps| && |trace| == |steps| + 1
  {
    Advances(g, trace, steps, i) && !Reckless(g, trace[i], steps[i])
  }

  /** The same for every step before n. */
  ghost predicate Gentle(g: Group, trace: seq<State>, steps: seq<Step>, n: nat)
    requires n <= |steps| && |trace| == |steps| + 1
  {
    forall i :: 0 <= i < n ==> AdvancesGently(g, trace, steps, i)
  }

  /** Over every interleaving without such a clear, the counts are right in every state. */
  lemma {:induction false} EveryRunCounts(g: Group, trace: seq<State>, steps: seq<Step>, n: nat)
    requires Run(g, trace, steps)
    requires n < |trace| && Gentle(g, trace, steps, n)
    ensures Refs.Counted(trace[n].refs)
  {
    hide Refs.Counted, Next, Enabled, Reckless, Invariant, Held;
    if n == 0 {
      Refs.StartIsCounted<Result>();
    } else {
      EveryRunCounts(g, trace, steps, n - 1);
      EveryRunKeeps(g, trace, steps, n - 1);
      assert AdvancesGently(g, trace, steps, n - 1);
      BeginsEmpty(g, trace[n - 1], steps[n - 1]);
      StepCountsIff(g, trace[n - 1], steps[n - 1]);
    }
  }

  lemma BeginsEmpty(g: Group, st: State, step: Step)
    requires Invariant(g, st) && Enabled(g, st, step)
    ensures step.Begin? ==> st.refs.queue == [] && st.log == [] && st.phase.Stopped?
  {
  }

  // ----- How often a record is queued -----

  ghost predicate QueuedTwice(log: seq<Sent>, p: Ptr) {
    exists i, j :: 0 <= i < j < |log| && log[i].ptr == log[j].ptr == p
  }

  /** A record is queued at most twice in a session: by the thread that completed it, and by one that forced it. */
  lemma QueuedAtMostTwice(g: Group, trace: seq<State>, steps: seq<Step>, n: nat, i: nat, j: nat)
    requires Run(g, trace, steps)
    requires n < |trace| && i < j < |trace[n].log| && trace[n].log[i].ptr == trace[n].log[j].ptr
    ensures trace[n].log[i].forced != trace[n].log[j].forced
    ensures forall k :: j < k < |trace[n].log| ==> trace[n].log[k].ptr != trace[n].log[i].ptr
  {
    EveryRunKeeps(g, trace, steps, n);
    AddressIsOk(g, trace[n], 0);
  }

  lemma TwiceIsBoth(st: State, p: Ptr)
    requires PushedOnceEach(st.log)
    ensures QueuedTwice(st.log, p) <==> p in OwnSent(st.log) && p in ForcedSent(st.log)
  {
    if p in OwnSent(st.log) && p in ForcedSent(st.log) {
      var i :| 0 <= i < |st.log| && !st.log[i].forced && st.log[i].ptr == p;
      var j :| 0 <= j < |st.log| && st.log[j].forced && st.log[j].ptr == p;
      var a, b := if i < j then i else j, if i < j then j else i;
      assert 0 <= a < b < |st.log| && st.log[a].ptr == st.log[b].ptr == p;
    }
  }

  /** Step k completes p while another thread has looked it up as late, and not yet forced it. */
  ghost predicate ClashAt(g: Group, trace: seq<State>, steps: seq<Step>, k: nat, n: nat, p: Ptr)
    requires k < n <= |steps| && |trace| == |steps| + 1
  {
    && steps[k].SetReady? && steps[k].ptr == p && IsLive(trace[k], p)
    && Completes(g, trace[k].refs.store.recs[p].data, steps[k].cam)
    && IsTakenEarly(trace[k], p)
    && forall i :: k < i < n ==> !steps[i].ClearAll?
  }

  lemma ClashStep(g: Group, st: State, step: Step, p: Ptr)
    requires Enabled(g, st, step)
    ensures
      p in Next(g, st, step).clashed
      <==> !step.ClearAll? && (p in st.clashed || (step.SetReady? && step.ptr == p && IsTakenEarly(st, p)
                                                  && Completes(g, st.refs.store.recs[p].data, step.cam)))
  {
    hide Get, Clear, ExpiredIds, Marked, Forced, CamDone, IsTakenEarly;
  }

  lemma {:induction false} ClashedIsClash(g: Group, trace: seq<State>, steps: seq<Step>, n: nat, p: Ptr)
    requires Run(g, trace, steps)
    requires n < |trace|
    ensures p in trace[n].clashed <==> exists k :: 0 <= k < n && ClashAt(g, trace, steps, k, n, p)
  {
    hide Next, Enabled, IsTakenEarly, Completes;
    if n > 0 {
      ClashedIsClash(g, trace, steps, n - 1, p);
      assert Advances(g, trace, steps, n - 1);
      ClashStep(g, trace[n - 1], steps[n - 1], p);
      if p in trace[n].clashed {
        if p in trace[n - 1].clashed {
          var k :| 0 <= k < n - 1 && ClashAt(g, trace, steps, k, n - 1, p);
          assert ClashAt(g, trace, steps, k, n, p);
        } else {
          SetReadyIsLive(g, trace[n - 1], steps[n - 1]);
          assert ClashAt(g, trace, steps, n - 1, n, p);
        }
      }
      forall k | 0 <= k < n && ClashAt(g, trace, steps, k, n, p) ensures p in trace[n].clashed {
        if k < n - 1 {
          assert ClashAt(g, trace, steps, k, n - 1, p);
        }
      }
    }
  }

  lemma SetReadyIsLive(g: Group, st: State, step: Step)
    requires Enabled(g, st, step) && step.SetReady?
    ensures IsLive(st, step.ptr)
  {
  }

  /** Over every interleaving, a record that is queued twice is one that two threads clashed on. */
  lemma QueuedTwiceMeansClash(g: Group, trace: seq<State>, steps: seq<Step>, n: nat, p: Ptr)
    requires Run(g, trace, steps)
    requires n < |trace| && QueuedTwice(trace[n].log, p)
    ensures exists k :: 0 <= k < n && ClashAt(g, trace, steps, k, n, p)
  {
    EveryRunKeeps(g, trace, steps, n);
    AddressIsOk(g, trace[n], p);
    hide Invariant, Held, OwnSent, ForcedSent, Queued, QueuedTwice;
    TwiceIsBoth(trace[n], p);
    ClashedIsClash(g, trace, steps, n, p);
  }

  // ----- Sessions -----

  /** The group starts in step b and has not been halted before step n. */
  ghost predicate Session(steps: seq<Step>, b: nat, n: nat) {
    && b < n <= |steps| && steps[b].Begin?
    && forall k :: b < k < n ==> !steps[k].Halt?
  }

  lemma SessionStep(g: Group, st: State, step: Step)
    requires Enabled(g, st, step)
    requires step.Begin? || (st.phase.Started? && !step.Halt?)
    ensures
      var t := Next(g, st, step);
      t.phase.Started? && !step.ClearAll? && t.missed == st.missed && t.spared == st.spared
  {
    hide Get, Clear, ExpiredIds, Marked, Forced, CamDone;
  }

  /** In a session no completion is given up, and no late record is spared. */
  lemma {:induction false} SessionGivesNothingUp(g: Group, trace: seq<State>, steps: seq<Step>, b: nat, n: nat)
    requires Run(g, trace, steps) && Session(steps, b, n)
    ensures trace[n].phase.Started? && trace[n].missed == trace[b].missed && trace[n].spared == trace[b].spared
    ensures forall k :: b <= k < n ==> !steps[k].ClearAll?
    decreases n
  {
    hide Next, Enabled;
    assert Advances(g, trace, steps, n - 1);
    if n > b + 1 {
      SessionGivesNothingUp(g, trace, steps, b, n - 1);
    }
    SessionStep(g, trace[n - 1], steps[n - 1]);
  }

  /**
   * In a session that starts and ends with no completion in progress, a record is queued twice exactly if it
   * was completed while another thread had it as the late record of the next frame and had not yet forced it.
   */
  lemma QueuedTwiceIff(g: Group, trace: seq<State>, steps: seq<Step>, b: nat, n: nat, p: Ptr)
    requires Run(g, trace, steps) && Session(steps, b, n)
    requires trace[b].calls == map[] && trace[n].calls == map[]
    ensures QueuedTwice(trace[n].log, p) <==> exists k :: b < k < n && ClashAt(g, trace, steps, k, n, p)
  {
    EveryRunKeeps(g, trace, steps, n);
    AddressIsOk(g, trace[n], p);
    SessionGivesNothingUp(g, trace, steps, b, n);
    ClashedIsClash(g, trace, steps, n, p);
    TwiceIsBoth(trace[n], p);
    hide Invariant, Held, OwnSent, ForcedSent, Queued, QueuedTwice, IsTakenEarly, Completes, Run;
    assert !IsTaken(trace[n], p);
    if QueuedTwice(trace[n].log, p) {
      var k :| 0 <= k < n && ClashAt(g, trace, steps, k, n, p);
      if k <= b {
        ClashIsOver(g, trace, steps, b, p, k);
      }
    }
    if k :| b < k < n && ClashAt(g, trace, steps, k, n, p) {
      ClashIsNew(g, trace, steps, b, k, p);
    }
  }

  /** The thread of a clash before the session gave its push up. */
  lemma ClashIsOver(g: Group, trace: seq<State>, steps: seq<Step>, b: nat, p: Ptr, k: nat)
    requires Run(g, trace, steps) && b < |steps| && steps[b].Begin? && trace[b].calls == map[]
    requires k <= b && ClashAt(g, trace, steps, k, b + 1, p)
    ensures p in trace[b].missed
  {
    assert k != b && ClashAt(g, trace, steps, k, b, p);
    ClashedIsClash(g, trace, steps, b, p);
    EveryRunKeeps(g, trace, steps, b);
    assert Advances(g, trace, steps, b);
    BeginsEmpty(g, trace[b], steps[b]);
    AddressIsOk(g, trace[b], p);
  }

  /** A record that clashes in a session was not given up before it. */
  lemma ClashIsNew(g: Group, trace: seq<State>, steps: seq<Step>, b: nat, k: nat, p: Ptr)
    requires Run(g, trace, steps) && Session(steps, b, k + 1) && b < k < |steps|
    requires ClashAt(g, trace, steps, k, k + 1, p) && trace[b].calls == map[]
    ensures p !in trace[b].missed && p !in trace[b].spared
  {
    assert Session(steps, b, k);
    SessionGivesNothingUp(g, trace, steps, b, k);
    EveryRunKeeps(g, trace, steps, k);
    AddressIsOk(g, trace[k], p);
  }

  // ----- What a queued record holds -----

  /**
   * A record that its own thread queued was completed: every bound camera did deliver every required message
   * and result for its frame. Unless two threads clashed on it, it also holds all of that when it is queued.
   */
  lemma QueuedIsComplete(g: Group, trace: seq<State>, steps: seq<Step>, n: nat, e: Sent, cam: Cam)
    requires Run(g, trace, steps)
    requires n < |trace| && e in trace[n].log && !e.forced
    requires cam in g.cams
    ensures forall m <- g.msgs :: Report(cam, Core(m), FrameOf(g, Core(m), e.id)) in trace[n].reports
    ensures forall k <- g.algos :: Report(cam, Algo(k), e.id) in trace[n].reports
    ensures e.ptr !in trace[n].clashed ==>
              && cam in e.data.cams
              && g.msgs <= StatusOf(e.data, cam).msgs && g.algos <= StatusOf(e.data, cam).algos
  {
    EveryRunKeeps(g, trace, steps, n);
    assert EntryOk(g, trace[n], e);
    hide Invariant, Held;
    if e.ptr !in trace[n].clashed {
      assert HasAll(g, StatusOf(e.data, cam));
    }
  }

  // ----- Whether a ready record is queued -----

  /** Every record that is ready was queued, or some thread is about to queue it. */
  ghost predicate ReadyMeansQueued(st: State) {
    forall p <- ReadyIn(st.refs.store) :: p in Queued(st.log) || InFlight(st, p)
  }

  /**
   * In a session a ready record is always queued or about to be, exactly if every record that was ready when
   * the group started was about to be. Stopping clears the table, but starting does not, and deliveries in
   * between are not refused.
   */
  lemma ReadyMeansQueuedIff(g: Group, trace: seq<State>, steps: seq<Step>, b: nat, n: nat)
    requires Run(g, trace, steps) && Session(steps, b, n)
    ensures (forall k :: b < k <= n ==> ReadyMeansQueued(trace[k]))
       <==> forall p <- ReadyIn(trace[b].refs.store) :: InFlight(trace[b], p)
  {
    if forall p <- ReadyIn(trace[b].refs.store) :: InFlight(trace[b], p) {
      forall k | b < k <= n ensures ReadyMeansQueued(trace[k]) {
        forall p | p in ReadyIn(trace[k].refs.store) ensures p in Queued(trace[k].log) || InFlight(trace[k], p) {
          ReadyIsOnItsWay(g, trace, steps, b, k, p);
        }
      }
    }
    if forall k :: b < k <= n ==> ReadyMeansQueued(trace[k]) {
      assert ReadyMeansQueued(trace[b + 1]);
      EveryRunKeeps(g, trace, steps, b);
      assert Advances(g, trace, steps, b);
      BeginsEmpty(g, trace[b], steps[b]);
      forall p | p in ReadyIn(trace[b].refs.store) ensures InFlight(trace[b], p) {
        assert trace[b + 1].calls == trace[b].calls && trace[b + 1].refs.store == trace[b].refs.store;
      }
    }
  }

  lemma ReadyIsOnItsWay(g: Group, trace: seq<State>, steps: seq<Step>, b: nat, k: nat, p: Ptr)
    requires Run(g, trace, steps) && Session(steps, b, k)
    requires forall p <- ReadyIn(trace[b].refs.store) :: InFlight(trace[b], p)
    requires p in ReadyIn(trace[k].refs.store)
    ensures p in Queued(trace[k].log) || InFlight(trace[k], p)
  {
    EveryRunKeeps(g, trace, steps, k);
    AddressIsOk(g, trace[k], p);
    SessionGivesNothingUp(g, trace, steps, b, k);
    if p in trace[b].missed {
      EveryRunKeeps(g, trace, steps, b);
      assert Advances(g, trace, steps, b);
      MissedIsNotInFlight(g, trace[b], p);
      OldStaysOld(g, trace, steps, b, k, p);
    }
    hide Invariant, Held, Run, Queued, OwnSent, ForcedSent;
    assert p !in trace[k].missed;
  }

  lemma MissedIsNotInFlight(g: Group, st: State, p: Ptr)
    requires Invariant(g, st) && st.phase.Stopped? && p in st.missed
    ensures !InFlight(st, p) && p < st.refs.store.next && !IsUnready(st, p)
  {
    AddressIsOk(g, st, p);
    hide Invariant, Queued, OwnSent, ForcedSent;
  }

  /** Without a clear of everything, addresses only grow, and a record keeps its address and id. */
  lemma AddressesGrow(g: Group, st: State, step: Step, p: Ptr)
    requires Invariant(g, st) && Enabled(g, st, step) && !step.ClearAll?
    ensures
      var t := Next(g, st, step);
      && st.refs.store.next <= t.refs.store.next
      && (IsLive(t, p) && p < st.refs.store.next ==>
            IsLive(st, p) && t.refs.store.recs[p].id == st.refs.store.recs[p].id)
  {
    AddressIsOk(g, st, p);
    TableAfter(g, st, step);
    hide Next, Enabled, Invariant, DataAfter;
    if IsLive(Next(g, st, step), p) {
      assert RecordAfter(g, st, step, Next(g, st, step).refs.store, p);
    }
  }

  /** A record that is there at the end of a stretch, and not new, was there at its start. */
  lemma {:induction false} OldStaysOld(g: Group, trace: seq<State>, steps: seq<Step>, b: nat, k: nat, p: Ptr)
    requires Run(g, trace, steps) && b <= k <= |steps|
    requires forall i :: b <= i < k ==> !steps[i].ClearAll?
    requires p < trace[b].refs.store.next
    ensures p < trace[k].refs.store.next
    ensures IsLive(trace[k], p) ==>
              IsLive(trace[b], p) && trace[k].refs.store.recs[p].id == trace[b].refs.store.recs[p].id
    decreases k
  {
    hide Next, Enabled, Invariant, Held;
    if k > b {
      assert Advances(g, trace, steps, k - 1);
      EveryRunKeeps(g, trace, steps, k - 1);
      AddressesGrow(g, trace[k - 1], steps[k - 1], p);
      OldStaysOld(g, trace, steps, b, k - 1, p);
    }
  }

  // ----- Two records of the same frame -----

  /** Step k is the lookup that made record p, for an id that had been queued before; nothing was stopped since. */
  ghost predicate RemadeAt(trace: seq<State>, steps: seq<Step>, k: nat, n: nat, p: Ptr)
    requires k < n <= |steps| && |trace| == |steps| + 1
  {
    && steps[k].LookUp? && MakesAgain(trace[k], steps[k].id)
    && Get(ResultRules, trace[k].refs.store, steps[k].id, true).ptr == Some(p)
    && forall i :: k < i < n ==> !steps[i].ClearAll?
  }

  lemma {:induction false} AgainIsRemade(g: Group, trace: seq<State>, steps: seq<Step>, n: nat, p: Ptr)
    requires Run(g, trace, steps)
    requires n < |trace|
    ensures p in trace[n].again <==> exists k :: 0 <= k < n && RemadeAt(trace, steps, k, n, p)
  {
    hide Next, Enabled, Get;
    if n > 0 {
      AgainIsRemade(g, trace, steps, n - 1, p);
      assert Advances(g, trace, steps, n - 1);
      AgainStep(g, trace[n - 1], steps[n - 1]);
      if p in trace[n].again {
        if p in trace[n - 1].again {
          var k :| 0 <= k < n - 1 && RemadeAt(trace, steps, k, n - 1, p);
          assert RemadeAt(trace, steps, k, n, p);
        } else {
          assert RemadeAt(trace, steps, n - 1, n, p);
        }
      }
      forall k | 0 <= k < n && RemadeAt(trace, steps, k, n, p) ensures p in trace[n].again {
        if k < n - 1 {
          assert RemadeAt(trace, steps, k, n - 1, p);
        }
      }
    }
  }

  /**
   * An entry has an earlier one with the same id exactly when its record was queued before, or was made by a
   * lookup for a frame that had been queued and deleted.
   */
  lemma SharedIdIff(g: Group, trace: seq<State>, steps: seq<Step>, n: nat, j: nat)
    requires Run(g, trace, steps)
    requires n < |trace| && j < |trace[n].log|
    ensures
      var log := trace[n].log;
      (exists i :: 0 <= i < j && log[i].id == log[j].id)
      <==> (exists i :: 0 <= i < j && log[i].ptr == log[j].ptr)
           || (exists k :: 0 <= k < n && RemadeAt(trace, steps, k, n, log[j].ptr))
  {
    var log := trace[n].log;
    EveryRunKeeps(g, trace, steps, n);
    assert SentAgain(trace[n], j);
    hide Invariant, Held;
    AgainIsRemade(g, trace, steps, n, log[j].ptr);
    EarlierEntries(log, j);
  }

  lemma EarlierEntries(log: seq<Sent>, j: nat)
    requires j < |log|
    ensures log[j].id in QueuedIds(log[..j]) <==> exists i :: 0 <= i < j && log[i].id == log[j].id
    ensures log[j].ptr in Queued(log[..j]) <==> exists i :: 0 <= i < j && log[i].ptr == log[j].ptr
  {
    forall i | 0 <= i < j ensures log[i].id in QueuedIds(log[..j]) && log[i].ptr in Queued(log[..j]) {
      assert log[..j][i] == log[i];
    }
  }

  /** Such a lookup is one for a queued frame without a record that the mark, after trimming, does not refuse. */
  lemma MakesAgainIff(st: State, id: uint32)
    requires WellFormed(st.refs.store)
    ensures MakesAgain(st, id)
       <==> && id !in st.refs.store.byId && id in QueuedIds(st.log)
            && Trim(ResultRules, st.refs.store, id).cleared <= id
  {
    hide Trim;
  }

  /**
   * Forcing stores each mask where the other belongs. The forced record reads as complete exactly when the
   * two masks are equal; its contents are otherwise not what the cameras delivered.
   */
  lemma ForcedReadsCompleteIff(g: Group, r: Result)
    requires g.cams != {}
    ensures (forall c <- g.cams :: HasAll(g, StatusOf(Forced(g, r), c))) <==> g.msgs == g.algos
    ensures Forced(g, r).ready && Forced(g, r).cams == g.cams
    ensures forall c <- r.status :: c !in g.cams ==> StatusOf(Forced(g, r), c) == StatusOf(r, c)
  {
    var c := Any(g.cams);
    assert StatusOf(Forced(g, r), c).msgs == g.algos && StatusOf(Forced(g, r), c).algos == g.msgs;
  }
}
