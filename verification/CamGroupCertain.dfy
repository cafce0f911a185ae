/**
 * When the order is certain, however a session goes on. After the lookup of the frame before it is certain or
 * not, and at the start it is not if some record is ready and the next frame can be delivered.
 */
module CamGroupCertain {
  import opened Words
  import opened Options
  import opened Cameras
  import opened RecordStore
  import opened CamGroupResults
  import opened CamGroupInvariant
  import opened CamGroupContents
  import opened CamGroupQueue
  import opened CamGroupRefs
  import opened CamGroupRuns
  import opened CamGroupOrder
  import opened CamGroupApart
  import Refs = ResultRefs

  /** A run that goes on from another one, in the same session, without a clear-all under a reference. */
  ghost predicate GoesOn(g: Group, trace: seq<State>, steps: seq<Step>, t: seq<State>, s: seq<Step>) {
    && Run(g, t, s) && trace <= t && steps <= s
    && (forall k :: |steps| <= k < |s| ==> !s[k].Halt?)
    && (forall k :: |steps| <= k < |s| ==> AdvancesGently(g, t, s, k))
  }

  lemma StaysPut(g: Group, trace: seq<State>, steps: seq<Step>)
    requires Run(g, trace, steps)
    ensures GoesOn(g, trace, steps, trace, steps)
  {
  }

  lemma OneMoreStep(g: Group, trace: seq<State>, steps: seq<Step>, step: Step) returns (t: seq<State>, s: seq<Step>)
    requires Run(g, trace, steps) && Enabled(g, trace[|steps|], step) && !step.Halt?
    requires !Reckless(g, trace[|steps|], step)
    ensures GoesOn(g, trace, steps, t, s)
    ensures s == steps + [step] && t == trace + [Next(g, trace[|steps|], step)]
  {
    hide Next, Enabled, Reckless;
    t, s := trace + [Next(g, trace[|steps|], step)], steps + [step];
    forall i | 0 <= i < |s| ensures Advances(g, t, s, i) {
      if i < |steps| {
        assert Advances(g, trace, steps, i);
      }
    }
  }

  lemma GoesOnAndOn(g: Group, a: seq<State>, x: seq<Step>, b: seq<State>, y: seq<Step>, c: seq<State>, z: seq<Step>)
    requires GoesOn(g, a, x, b, y) && GoesOn(g, b, y, c, z)
    ensures GoesOn(g, a, x, c, z)
  {
    hide Run, Reckless, Next, Enabled;
    assert |c| == |z| + 1 && |b| == |y| + 1 by {
      RunLength(g, c, z);
      RunLength(g, b, y);
    }
    forall k | |x| <= k < |z|
      ensures !z[k].Halt? && AdvancesGently(g, c, z, k)
    {
      if k < |y| {
        assert z[k] == y[k] && c[k] == b[k] && c[k + 1] == b[k + 1];
        assert AdvancesGently(g, b, y, k);
      }
    }
  }

  lemma RunLength(g: Group, trace: seq<State>, steps: seq<Step>)
    requires Run(g, trace, steps)
    ensures |trace| == |steps| + 1
  {
  }

  // ----- After the lookup -----

  /** The completion of q has found p ready, and can go on to its push. */
  predicate CanPush(st: State, q: Ptr, p: Ptr) {
    && st.phase.Started? && q in st.calls && RemembersReady(st.calls[q], p)
    && IsLive(st, q) && q in st.refs.held && (st.calls[q].OwnCounted? ==> q in st.refs.sending)
  }

  /** How far it is from the lookup to the push. */
  function SectionsLeft(stage: Stage): nat {
    if stage.Alone? then 2 else if stage.Willing? then 1 else 0
  }

  lemma PushGoesOn(g: Group, st: State, q: Ptr, p: Ptr)
    requires CanPush(st, q, p)
    ensures Enabled(g, st, Advance(q)) && !Reckless(g, st, Advance(q))
    ensures !st.calls[q].OwnCounted? ==>
              var t := Next(g, st, Advance(q));
              CanPush(t, q, p) && t.log == st.log && t.calls == st.calls[q := StageAfter(st, q).value]
              && SectionsLeft(t.calls[q]) < SectionsLeft(st.calls[q])
  {
  }

  /** The run goes on with the push of q, which found p ready and not queued since. */
  ghost predicate EndsWithPush(
      g: Group, trace: seq<State>, steps: seq<Step>, t: seq<State>, s: seq<Step>, q: Ptr, p: Ptr, log: seq<Sent>)
  {
    && GoesOn(g, trace, steps, t, s) && |t| == |s| + 1 && |s| > |steps|
    && PushesAt(t, s, |s| - 1, q)
    && t[|s| - 1].calls[q].before == WasReady(p) && t[|s| - 1].log == log
    && (forall k :: |steps| <= k < |s| ==> s[k].Advance?)
  }

  lemma PushesLast(g: Group, trace: seq<State>, steps: seq<Step>, q: Ptr, p: Ptr)
    returns (t: seq<State>, s: seq<Step>)
    requires Run(g, trace, steps) && CanPush(trace[|steps|], q, p) && trace[|steps|].calls[q].OwnCounted?
    ensures EndsWithPush(g, trace, steps, t, s, q, p, trace[|steps|].log)
  {
    RunLength(g, trace, steps);
    PushGoesOn(g, trace[|steps|], q, p);
    hide Next, Enabled, Reckless, Run, StageAfter, GoesOn, RemembersReady;
    t, s := OneMoreStep(g, trace, steps, Advance(q));
    IsLastPush(g, trace, steps, t, s, q, p);
  }

  lemma IsLastPush(
      g: Group, trace: seq<State>, steps: seq<Step>, t: seq<State>, s: seq<Step>, q: Ptr, p: Ptr)
    requires GoesOn(g, trace, steps, t, s) && |trace| == |steps| + 1 && |t| == |s| + 1 && s == steps + [Advance(q)]
    requires CanPush(trace[|steps|], q, p) && trace[|steps|].calls[q].OwnCounted? && t[|steps|] == trace[|steps|]
    ensures EndsWithPush(g, trace, steps, t, s, q, p, trace[|steps|].log)
  {
    hide GoesOn;
  }

  lemma EndsLater(
      g: Group, trace: seq<State>, steps: seq<Step>, a: seq<State>, x: seq<Step>, t: seq<State>, s: seq<Step>,
      q: Ptr, p: Ptr, log: seq<Sent>)
    requires GoesOn(g, trace, steps, a, x) && x == steps + [Advance(q)]
    requires EndsWithPush(g, a, x, t, s, q, p, log)
    ensures EndsWithPush(g, trace, steps, t, s, q, p, log)
  {
    GoesOnAndOn(g, trace, steps, a, x, t, s);
    GoesOnIsRun(g, a, x, t, s);
    hide GoesOn, PushesAt;
    assert x[|steps|] == s[|steps|];
  }

  /** The thread goes on alone, and pushes. */
  lemma {:induction false} PushesNow(g: Group, trace: seq<State>, steps: seq<Step>, q: Ptr, p: Ptr)
    returns (t: seq<State>, s: seq<Step>)
    requires Run(g, trace, steps) && CanPush(trace[|steps|], q, p)
    ensures EndsWithPush(g, trace, steps, t, s, q, p, trace[|steps|].log)
    decreases SectionsLeft(trace[|steps|].calls[q])
  {
    RunLength(g, trace, steps);
    if trace[|steps|].calls[q].OwnCounted? {
      t, s := PushesLast(g, trace, steps, q, p);
    } else {
      hide Next, Enabled, Reckless, Run, StageAfter, GoesOn, SectionsLeft, EndsWithPush;
      PushGoesOn(g, trace[|steps|], q, p);
      var a, x := OneMoreStep(g, trace, steps, Advance(q));
      GoesOnIsRun(g, trace, steps, a, x);
      hide CanPush;
      t, s := PushesNow(g, a, x, q, p);
      EndsLater(g, trace, steps, a, x, t, s, q, p, trace[|steps|].log);
    }
  }

  lemma GoesOnIsRun(g: Group, trace: seq<State>, steps: seq<Step>, t: seq<State>, s: seq<Step>)
    requires GoesOn(g, trace, steps, t, s)
    ensures Run(g, t, s) && steps <= s
  {
  }

  lemma {:induction false} QueuedStays(g: Group, trace: seq<State>, steps: seq<Step>, b: nat, m: nat, n: nat, q: Ptr)
    requires Run(g, trace, steps) && Session(steps, b, n) && b < m <= n && q in Queued(trace[m].log)
    ensures q in Queued(trace[n].log)
    decreases n
  {
    if m < n {
      hide Next, Enabled, Queued;
      assert Advances(g, trace, steps, n - 1);
      SessionGivesNothingUp(g, trace, steps, b, n);
      assert Session(steps, b, n - 1);
      QueuedStays(g, trace, steps, b, m, n - 1, q);
      LogAfter(g, trace[n - 1], steps[n - 1]);
      QueuedGrows(trace[n - 1].log, Pushed(g, trace[n - 1], steps[n - 1]));
    }
  }

  /**
   * A completion that found the record of the frame before ready is certain to queue its own after it, however
   * the session goes on, exactly if that record is queued by now. One that found it late is always certain.
   */
  lemma OrderIsSettledIff(g: Group, trace: seq<State>, steps: seq<Step>, b: nat, q: Ptr, p: Ptr)
    requires Run(g, trace, steps) && Session(steps, b, |steps|) && Gentle(g, trace, steps, |steps|)
    requires q in trace[|steps|].calls && RemembersReady(trace[|steps|].calls[q], p)
    ensures (forall t: seq<State>, s: seq<Step>, k ::
               GoesOn(g, trace, steps, t, s) && |steps| <= k < |s| && PushesAt(t, s, k, q) ==> p in Queued(t[k].log))
            <==> p in Queued(trace[|steps|].log)
  {
    RunLength(g, trace, steps);
    var st := trace[|steps|];
    hide Run, Queued, GoesOn, PushesAt;
    if p in Queued(st.log) {
      forall t: seq<State>, s: seq<Step>, k
        | GoesOn(g, trace, steps, t, s) && |steps| <= k < |s| && PushesAt(t, s, k, q)
        ensures p in Queued(t[k].log)
      {
        SettledStays(g, trace, steps, b, t, s, k, p);
      }
    } else {
      PushIsPossible(g, trace, steps, b, q, p);
      var t, s := PushesNow(g, trace, steps, q, p);
      assert GoesOn(g, trace, steps, t, s) && |steps| <= |s| - 1 < |s| && PushesAt(t, s, |s| - 1, q);
    }
  }

  lemma SettledStays(
      g: Group, trace: seq<State>, steps: seq<Step>, b: nat, t: seq<State>, s: seq<Step>, k: nat, p: Ptr)
    requires Run(g, trace, steps) && Session(steps, b, |steps|) && GoesOn(g, trace, steps, t, s)
    requires |steps| <= k < |s| && p in Queued(trace[|steps|].log)
    ensures p in Queued(t[k].log)
  {
    hide Queued;
    assert s[b] == steps[b] && forall i :: 0 <= i < |steps| ==> s[i] == steps[i];
    assert Session(s, b, k);
    QueuedStays(g, t, s, b, |steps|, k, p);
  }

  lemma PushIsPossible(g: Group, trace: seq<State>, steps: seq<Step>, b: nat, q: Ptr, p: Ptr)
    requires Run(g, trace, steps) && Session(steps, b, |steps|) && Gentle(g, trace, steps, |steps|)
    requires q in trace[|steps|].calls && RemembersReady(trace[|steps|].calls[q], p)
    ensures CanPush(trace[|steps|], q, p)
  {
    EveryRunKeeps(g, trace, steps, |steps|);
    EveryRunCounts(g, trace, steps, |steps|);
    SessionGivesNothingUp(g, trace, steps, b, |steps|);
    hide Run, Held, Invariant, Refs.Counted, Session, Gentle, RemembersReady, CanPush;
    CanPushIf(trace[|steps|], q, p);
  }

  lemma CanPushIf(st: State, q: Ptr, p: Ptr)
    requires Refs.Counted(st.refs) && Held(st) && st.phase.Started?
    requires q in st.calls && RemembersReady(st.calls[q], p)
    ensures CanPush(st, q, p)
  {
    CompletionsAreNeverStuck(st, q);
    HoldsItself(st, q);
    hide Held, Refs.Counted;
  }

  lemma HoldsItself(st: State, q: Ptr)
    requires Refs.Counted(st.refs) && Held(st) && q in st.calls
    ensures q in st.refs.held && IsLive(st, q)
  {
    assert HeldAt(st, q);
    NeededIs(st, q);
    assert q in st.refs.held;
    Refs.ReferredToIsInPlace(st.refs, q);
  }
}
