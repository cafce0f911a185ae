/** What a completion does when nothing comes between its sections, as runs of single steps. */
module CamGroupCalls {
  import opened Words
  import opened Options
  import opened Cameras
  import opened RecordStore
  import opened CamGroupResults
  import Refs = ResultRefs

  /** t is the state after these steps, taken one after the other. */
  ghost predicate Follows(g: Group, st: State, steps: seq<Step>, t: State)
    decreases |steps|
  {
    if steps == [] then t == st
    else Enabled(g, st, steps[0]) && Follows(g, Next(g, st, steps[0]), steps[1..], t)
  }

  lemma FollowsNone(g: Group, st: State)
    ensures Follows(g, st, [], st)
  {
  }

  lemma FollowsOne(g: Group, st: State, step: Step, rest: seq<Step>, t: State)
    requires Enabled(g, st, step) && Follows(g, Next(g, st, step), rest, t)
    ensures Follows(g, st, [step] + rest, t)
  {
    assert ([step] + rest)[1..] == rest;
  }

  lemma {:induction false} FollowsThen(g: Group, st: State, first: seq<Step>, a: State, second: seq<Step>, t: State)
    requires Follows(g, st, first, a) && Follows(g, a, second, t)
    ensures Follows(g, st, first + second, t)
    decreases |first|
  {
    hide Next, Enabled;
    if first == [] {
      assert first + second == second;
    } else {
      FollowsThen(g, Next(g, st, first[0]), first[1..], a, second, t);
      assert first + second == [first[0]] + (first[1..] + second);
      FollowsOne(g, st, first[0], first[1..] + second, t);
    }
  }

  lemma FollowsStep(g: Group, st: State, first: seq<Step>, a: State, step: Step)
    requires Follows(g, st, first, a) && Enabled(g, a, step)
    ensures Follows(g, st, first + [step], Next(g, a, step))
  {
    hide Next, Enabled;
    FollowsNone(g, Next(g, a, step));
    FollowsOne(g, a, step, [], Next(g, a, step));
    assert [step] + [] == [step];
    FollowsThen(g, st, first, a, [step], Next(g, a, step));
  }

  /** The next k sections of the completion of p. */
  function Sections(p: Ptr, k: nat): seq<Step> {
    seq(k, _ => Advance(p))
  }

  lemma SectionsAddUp(p: Ptr, j: nat, k: nat)
    ensures Sections(p, j) + Sections(p, k) == Sections(p, j + k)
    ensures Sections(p, 0) == []
    ensures Sections(p, j) + [Advance(p)] == Sections(p, j + 1)
  {
  }

  /** The state with this completion at another stage. */
  function At(st: State, p: Ptr, stage: Stage): State {
    st.(calls := st.calls[p := stage])
  }

  // ----- The lookup of the frame before -----

  function AfterLookUp(st: State, p: Ptr): State
    requires IsLive(st, p)
  {
    var id := IdBefore(st, p);
    if id !in st.refs.store.byId then At(st, p, Alone(NoRecord))
    else
      var q := st.refs.store.byId[id];
      if IsLive(st, q) && !st.refs.store.recs[q].data.ready then
        At(st, p, Looked(q)).(refs := st.refs.(store := Retain(st.refs.store, q), held := st.refs.held + multiset{q}))
      else At(st, p, Alone(WasReady(q)))
  }

  lemma LooksUp(g: Group, st: State, p: Ptr)
    requires IsLive(st, p) && p in st.calls && st.calls[p].Completed?
    ensures Enabled(g, st, Advance(p)) && Next(g, st, Advance(p)) == AfterLookUp(st, p)
  {
    assert st.refs.dropped + {} == st.refs.dropped;
  }

  // ----- The late record -----

  function WithForced(g: Group, st: State, q: Ptr): Store<Result>
    requires IsLive(st, q)
  {
    Write(st.refs.store, q, Forced(g, st.refs.store.recs[q].data))
  }

  /** The late record q was forced, counted, pushed and put back. */
  function AfterForcing(g: Group, st: State, p: Ptr, q: Ptr): State
    requires IsLive(st, q)
  {
    var store := Put(Retain(WithForced(g, st, q), q), q);
    At(st, p, Alone(SentFirst(q))).(
      refs := st.refs.(store := store, held := st.refs.held - multiset{q}, queue := st.refs.queue + [q]),
      written := st.written + {q},
      log := st.log + [Sent(q, st.refs.store.recs[q].id, true, Forced(g, st.refs.store.recs[q].data))])
  }

  lemma Chooses(g: Group, st: State, p: Ptr, q: Ptr)
    requires st.phase.Started? && IsLive(st, p) && IsLive(st, q) && p in st.calls && st.calls[p] == Looked(q)
    ensures Enabled(g, st, Advance(p)) && Next(g, st, Advance(p)) == At(st, p, Chosen(q))
  {
  }

  lemma Declares(g: Group, st: State, p: Ptr, q: Ptr)
    requires IsLive(st, p) && IsLive(st, q) && p in st.calls && st.calls[p] == Chosen(q) && q in st.refs.held
    ensures Enabled(g, st, Advance(p))
    ensures Next(g, st, Advance(p))
         == At(st, p, Declared(q)).(refs := st.refs.(store := WithForced(g, st, q)), written := st.written + {q})
  {
    assert st.refs.dropped + {} == st.refs.dropped;
    hide Forced;
  }

  lemma CountsLate(g: Group, st: State, p: Ptr, q: Ptr)
    requires IsLive(st, p) && IsLive(st, q) && p in st.calls && st.calls[p] == Declared(q) && q in st.refs.held
    ensures Enabled(g, st, Advance(p))
    ensures Next(g, st, Advance(p))
         == At(st, p, LateCounted(q)).(
              refs := st.refs.(store := Retain(st.refs.store, q), sending := st.refs.sending + multiset{q}))
  {
    assert st.refs.dropped + {} == st.refs.dropped;
  }

  lemma PushesLate(g: Group, st: State, p: Ptr, q: Ptr)
    requires IsLive(st, p) && IsLive(st, q) && p in st.calls && st.calls[p] == LateCounted(q) && q in st.refs.sending
    ensures Enabled(g, st, Advance(p))
    ensures Next(g, st, Advance(p))
         == At(st, p, Returning(q, true)).(
              refs := st.refs.(sending := st.refs.sending - multiset{q}, queue := st.refs.queue + [q]),
              log := st.log + [EntryFor(st, q, true)])
  {
    assert st.refs.dropped + {} == st.refs.dropped;
  }

  lemma PutsLateBack(g: Group, st: State, p: Ptr, q: Ptr, sent: bool)
    requires IsLive(st, p) && IsLive(st, q) && p in st.calls && st.calls[p] == Returning(q, sent) && q in st.refs.held
    ensures Enabled(g, st, Advance(p))
    ensures Next(g, st, Advance(p))
         == At(st, p, Alone(if sent then SentFirst(q) else Spared(q))).(
              refs := st.refs.(store := Put(st.refs.store, q), held := st.refs.held - multiset{q}))
  {
    assert st.refs.dropped + {} == st.refs.dropped;
  }

  lemma ForcesLate(g: Group, st: State, p: Ptr, q: Ptr)
    requires st.phase.Started? && IsLive(st, p) && IsLive(st, q) && p in st.calls && st.calls[p] == Looked(q)
    requires q in st.refs.held
    ensures Follows(g, st, Sections(p, 5), AfterForcing(g, st, p, q))
    ensures IsLive(AfterForcing(g, st, p, q), p)
  {
    hide Next, Enabled, Forced, Put;
    Chooses(g, st, p, q);
    var a := Next(g, st, Advance(p));
    Declares(g, a, p, q);
    var b := Next(g, a, Advance(p));
    CountsLate(g, b, p, q);
    var c := Next(g, b, Advance(p));
    PushesLate(g, c, p, q);
    var d := Next(g, c, Advance(p));
    PutsLateBack(g, d, p, q, true);
    var t := Next(g, d, Advance(p));
    assert t == AfterForcing(g, st, p, q) by {
      assert st.refs.sending + multiset{q} - multiset{q} == st.refs.sending;
      assert EntryFor(c, q, true)
          == Sent(q, st.refs.store.recs[q].id, true, Forced(g, st.refs.store.recs[q].data));
    }
    FollowsFive(g, st, p, a, b, c, d);
    ForcedIsLive(g, st, p, q);
  }

  lemma ForcedIsLive(g: Group, st: State, p: Ptr, q: Ptr)
    requires IsLive(st, p) && IsLive(st, q)
    ensures IsLive(AfterForcing(g, st, p, q), p)
  {
  }

  lemma FollowsFive(g: Group, st: State, p: Ptr, a: State, b: State, c: State, d: State)
    requires Enabled(g, st, Advance(p)) && a == Next(g, st, Advance(p))
    requires Enabled(g, a, Advance(p)) && b == Next(g, a, Advance(p))
    requires Enabled(g, b, Advance(p)) && c == Next(g, b, Advance(p))
    requires Enabled(g, c, Advance(p)) && d == Next(g, c, Advance(p))
    requires Enabled(g, d, Advance(p))
    ensures Follows(g, st, Sections(p, 5), Next(g, d, Advance(p)))
  {
    hide Next, Enabled;
    FollowsThree(g, st, p, a, b);
    SectionsAddUp(p, 3, 0);
    FollowsStep(g, st, Sections(p, 3), c, Advance(p));
    SectionsAddUp(p, 4, 0);
    FollowsStep(g, st, Sections(p, 4), d, Advance(p));
  }

  lemma FollowsThree(g: Group, st: State, p: Ptr, a: State, b: State)
    requires Enabled(g, st, Advance(p)) && a == Next(g, st, Advance(p))
    requires Enabled(g, a, Advance(p)) && b == Next(g, a, Advance(p))
    requires Enabled(g, b, Advance(p))
    ensures Follows(g, st, Sections(p, 3), Next(g, b, Advance(p)))
    ensures Follows(g, st, Sections(p, 2), b) && Follows(g, st, Sections(p, 1), a)
  {
    hide Next, Enabled;
    FollowsNone(g, st);
    SectionsAddUp(p, 0, 0);
    FollowsStep(g, st, [], st, Advance(p));
    assert [] + [Advance(p)] == Sections(p, 1);
    SectionsAddUp(p, 1, 0);
    FollowsStep(g, st, Sections(p, 1), a, Advance(p));
    SectionsAddUp(p, 2, 0);
    FollowsStep(g, st, Sections(p, 2), b, Advance(p));
  }

  /** A group that does not run puts the late record back. */
  function AfterSparing(st: State, p: Ptr, q: Ptr): State
    requires IsLive(st, q)
  {
    At(st, p, Alone(Spared(q))).(
      refs := st.refs.(store := Put(st.refs.store, q), held := st.refs.held - multiset{q}),
      spared := if q in st.clashed then st.spared + {q} else st.spared)
  }

  lemma SparesLate(g: Group, st: State, p: Ptr, q: Ptr)
    requires !st.phase.Started? && IsLive(st, p) && IsLive(st, q) && p in st.calls && st.calls[p] == Looked(q)
    requires q in st.refs.held
    ensures Follows(g, st, Sections(p, 2), AfterSparing(st, p, q))
    ensures IsLive(AfterSparing(st, p, q), p)
  {
    var a := Next(g, st, Advance(p));
    Spares(g, st, p, q);
    PutsLateBack(g, a, p, q, false);
    assert Next(g, a, Advance(p)) == AfterSparing(st, p, q);
    hide Next, Enabled;
    FollowsNone(g, st);
    FollowsStep(g, st, [], st, Advance(p));
    assert [] + [Advance(p)] == Sections(p, 1);
    FollowsStep(g, st, Sections(p, 1), a, Advance(p));
    SectionsAddUp(p, 1, 0);
  }

  lemma Spares(g: Group, st: State, p: Ptr, q: Ptr)
    requires !st.phase.Started? && IsLive(st, p) && IsLive(st, q) && p in st.calls && st.calls[p] == Looked(q)
    ensures Enabled(g, st, Advance(p))
    ensures Next(g, st, Advance(p))
         == At(st, p, Returning(q, false)).(spared := if q in st.clashed then st.spared + {q} else st.spared)
  {
  }

  // ----- Its own record -----

  /** The record was counted and pushed, and the completion is over. */
  function AfterPush(st: State, p: Ptr): State
    requires IsLive(st, p)
  {
    st.(calls := st.calls - {p},
        refs := st.refs.(store := Retain(st.refs.store, p), queue := st.refs.queue + [p]),
        log := st.log + [EntryFor(st, p, false)])
  }

  lemma PushesOwn(g: Group, st: State, p: Ptr)
    requires st.phase.Started? && IsLive(st, p) && p in st.calls && st.calls[p].Alone? && p in st.refs.held
    ensures Follows(g, st, Sections(p, 3), AfterPush(st, p))
  {
    hide Next, Enabled;
    var before := st.calls[p].before;
    StaysWilling(g, st, p);
    var a := Next(g, st, Advance(p));
    CountsOwn(g, a, p);
    var b := Next(g, a, Advance(p));
    EndsOwn(g, b, p);
    var t := Next(g, b, Advance(p));
    assert t == AfterPush(st, p) by {
      assert st.refs.sending + multiset{p} - multiset{p} == st.refs.sending;
      assert st.calls[p := Willing(before)][p := OwnCounted(before)] - {p} == st.calls - {p};
    }
    FollowsThree(g, st, p, a, b);
  }

  lemma StaysWilling(g: Group, st: State, p: Ptr)
    requires st.phase.Started? && IsLive(st, p) && p in st.calls && st.calls[p].Alone?
    ensures Enabled(g, st, Advance(p)) && Next(g, st, Advance(p)) == At(st, p, Willing(st.calls[p].before))
  {
    hide Get;
  }

  lemma CountsOwn(g: Group, st: State, p: Ptr)
    requires IsLive(st, p) && p in st.calls && st.calls[p].Willing? && p in st.refs.held
    ensures Enabled(g, st, Advance(p))
    ensures Next(g, st, Advance(p))
         == At(st, p, OwnCounted(st.calls[p].before)).(
              refs := st.refs.(store := Retain(st.refs.store, p), sending := st.refs.sending + multiset{p}))
  {
    assert st.refs.dropped + {} == st.refs.dropped;
  }

  lemma EndsOwn(g: Group, st: State, p: Ptr)
    requires IsLive(st, p) && p in st.calls && st.calls[p].OwnCounted? && p in st.refs.sending
    ensures Enabled(g, st, Advance(p))
    ensures Next(g, st, Advance(p))
         == st.(calls := st.calls - {p},
                refs := st.refs.(sending := st.refs.sending - multiset{p}, queue := st.refs.queue + [p]),
                log := st.log + [EntryFor(st, p, false)])
  {
    assert st.refs.dropped + {} == st.refs.dropped;
  }

  /** A group that does not run ends the completion without a push. */
  function AfterMissing(st: State, p: Ptr): State {
    st.(calls := st.calls - {p}, missed := st.missed + {p})
  }

  lemma MissesOwn(g: Group, st: State, p: Ptr)
    requires !st.phase.Started? && IsLive(st, p) && p in st.calls && st.calls[p].Alone?
    ensures Follows(g, st, Sections(p, 1), AfterMissing(st, p))
  {
    GivesUp(g, st, p);
    hide Next, Enabled, AfterMissing;
    FollowsNone(g, st);
    FollowsStep(g, st, [], st, Advance(p));
    assert [] + [Advance(p)] == Sections(p, 1);
  }

  lemma GivesUp(g: Group, st: State, p: Ptr)
    requires !st.phase.Started? && IsLive(st, p) && p in st.calls && st.calls[p].Alone?
    ensures Enabled(g, st, Advance(p)) && Next(g, st, Advance(p)) == AfterMissing(st, p)
  {
    hide Get;
  }
}
