/** The camera group's sofSync method over its table, as a sequence of the steps of SofSync. */
module SofGroup {
  import opened Words
  import opened Options
  import opened Cameras
  import opened RecordStore
  import opened SofSync
  import Refs = ResultRefs

  /** t is the state after these steps, taken one after the other. */
  ghost predicate Follows(cams: set<Cam>, st: State, steps: seq<Step>, t: State)
    decreases |steps|
  {
    if steps == [] then t == st
    else Enabled(cams, st, steps[0]) && Follows(cams, Next(cams, st, steps[0]), steps[1..], t)
  }

  lemma FollowsOne(cams: set<Cam>, st: State, step: Step, rest: seq<Step>, t: State)
    requires Enabled(cams, st, step) && Follows(cams, Next(cams, st, step), rest, t)
    ensures Follows(cams, st, [step] + rest, t)
  {
    assert ([step] + rest)[1..] == rest;
  }

  lemma FollowsNone(cams: set<Cam>, st: State)
    ensures Follows(cams, st, [], st)
  {
  }

  lemma OneStep(cams: set<Cam>, st: State, step: Step)
    requires Enabled(cams, st, step)
    ensures Follows(cams, st, [step], Next(cams, st, step))
  {
    hide Next, Enabled;
    assert Follows(cams, Next(cams, st, step), [step][1..], Next(cams, st, step));
  }

  /** Three steps, and then those that lead to t. */
  lemma ThreeMore(cams: set<Cam>, st: State, x: Step, y: Step, z: Step, rest: seq<Step>, t: State)
    requires Enabled(cams, st, x)
    requires Enabled(cams, Next(cams, st, x), y)
    requires Enabled(cams, Next(cams, Next(cams, st, x), y), z)
    requires Follows(cams, Next(cams, Next(cams, Next(cams, st, x), y), z), rest, t)
    ensures Follows(cams, st, [x, y, z] + rest, t)
  {
    hide Next, Enabled, Follows;
    var a := Next(cams, st, x);
    var b := Next(cams, a, y);
    FollowsOne(cams, b, z, rest, t);
    FollowsOne(cams, a, y, [z] + rest, t);
    FollowsOne(cams, st, x, [y] + ([z] + rest), t);
    assert [x] + ([y] + ([z] + rest)) == [x, y, z] + rest;
  }

  lemma ThreeSteps(cams: set<Cam>, st: State, x: Step, y: Step, z: Step)
    requires Enabled(cams, st, x)
    requires Enabled(cams, Next(cams, st, x), y)
    requires Enabled(cams, Next(cams, Next(cams, st, x), y), z)
    ensures Follows(cams, st, [x, y, z], Next(cams, Next(cams, Next(cams, st, x), y), z))
  {
    hide Next, Enabled, Follows;
    var t := Next(cams, Next(cams, Next(cams, st, x), y), z);
    FollowsNone(cams, t);
    ThreeMore(cams, st, x, y, z, [], t);
    assert [x, y, z] + [] == [x, y, z];
  }

  /** The call is in this phase, and refers to p. */
  ghost predicate At(st: State, key: Key, p: Ptr, evt: Event, phase: Phase) {
    && key in st.calls && st.calls[key] == Call(p, evt, phase)
    && p in st.refs.store.recs && p in st.refs.held
  }

  /** The states one call goes through. */
  ghost function Entered(cams: set<Cam>, st: State, key: Key, evt: Event): (a: State)
    requires WellFormed(st.refs.store) && Enabled(cams, st, Enter(key, evt)) && key !in st.calls
    ensures a == Next(cams, st, Enter(key, evt))
    ensures
      var got := Get(SofRules(cams), st.refs.store, key.frame, true);
      && a.refs.store == got.store && a.log == st.log && WellFormed(a.refs.store)
      && if got.ptr.Some? then At(a, key, got.ptr.value, evt, Looked) else key !in a.calls
  {
    GetAddsOneReference(SofRules(cams), st.refs.store, key.frame, true);
    hide Get, WellFormed;
    Next(cams, st, Enter(key, evt))
  }

  ghost function EventStored(cams: set<Cam>, a: State, key: Key, p: Ptr, evt: Event): (b: State)
    requires WellFormed(a.refs.store) && At(a, key, p, evt, Looked)
    ensures Enabled(cams, a, StoreEvent(key)) && b == Next(cams, a, StoreEvent(key))
    ensures
      var sof := a.refs.store.recs[p].data;
      b.refs.store == Write(a.refs.store, p, sof.(evts := sof.evts[key.cam := evt]))
    ensures b.log == a.log && WellFormed(b.refs.store) && At(b, key, p, evt, Stored)
  {
    var sof := a.refs.store.recs[p].data;
    WriteAndPutKeepShape(a.refs.store, p, sof.(evts := sof.evts[key.cam := evt]));
    hide WellFormed;
    Next(cams, a, StoreEvent(key))
  }

  ghost function BitSet(cams: set<Cam>, b: State, key: Key, p: Ptr, evt: Event): (c: State)
    requires WellFormed(b.refs.store) && At(b, key, p, evt, Stored)
    ensures Enabled(cams, b, Mark(key)) && c == Next(cams, b, Mark(key))
    ensures
      var sof := b.refs.store.recs[p].data;
      var bits := sof.bits + {key.cam};
      && c.refs.store == Write(b.refs.store, p, sof.(bits := bits))
      && At(c, key, p, evt, Marked(bits == cams))
    ensures c.log == b.log && WellFormed(c.refs.store)
  {
    var sof := b.refs.store.recs[p].data;
    WriteAndPutKeepShape(b.refs.store, p, sof.(bits := sof.bits + {key.cam}));
    hide WellFormed;
    Next(cams, b, Mark(key))
  }

  function EventsOf(key: Key, sof: Sof): Dispatch {
    Dispatch(key, map c | c in sof.bits && c in sof.evts :: sof.evts[c])
  }

  ghost function HandedTo(cams: set<Cam>, c: State, key: Key, p: Ptr, evt: Event): (d: State)
    requires At(c, key, p, evt, Marked(true))
    ensures Enabled(cams, c, HandOut(key)) && d == Next(cams, c, HandOut(key))
    ensures d.refs.store == c.refs.store && d.log == c.log + [EventsOf(key, c.refs.store.recs[p].data)]
    ensures At(d, key, p, evt, Handed)
  {
    Next(cams, c, HandOut(key))
  }

  ghost function Returned(cams: set<Cam>, d: State, key: Key, p: Ptr, evt: Event): (e: State)
    requires WellFormed(d.refs.store)
    requires At(d, key, p, evt, Handed) || At(d, key, p, evt, Marked(false))
    ensures Enabled(cams, d, PutBack(key)) && e == Next(cams, d, PutBack(key))
    ensures e.refs.store == Put(d.refs.store, p) && e.log == d.log && WellFormed(e.refs.store)
    ensures d.calls[key].phase.Handed? ==> InPhase(e, key, Clearing)
  {
    WriteAndPutKeepShape(d.refs.store, p, d.refs.store.recs[p].data);
    hide WellFormed;
    Next(cams, d, PutBack(key))
  }

  ghost function Cleared(cams: set<Cam>, e: State, key: Key): (t: State)
    requires InPhase(e, key, Clearing)
    ensures Enabled(cams, e, ClearUp(key)) && t == Next(cams, e, ClearUp(key))
    ensures t.refs.store == Clear(SofRules(cams), e.refs.store, key.frame) && t.log == e.log
  {
    hide Clear, ExpiredIds;
    Next(cams, e, ClearUp(key))
  }

  /** One dispatch more, by this call. */
  predicate HandsOutFor(key: Key, before: seq<Dispatch>, after: seq<Dispatch>) {
    |after| == |before| + 1 && after[..|before|] == before && after[|before|].key == key
  }

  /** Only records in use and newer ones are left; the last frame there is leaves none. */
  predicate IsClearedTo(recs: map<Ptr, Slot<Sof>>, frame: uint32) {
    forall p <- recs :: frame != 0xffff_ffff && (recs[p].refCnt > 0 || recs[p].id > frame)
  }

  lemma ClearedUpTo(rules: Rules<Sof>, s: Store<Sof>, frame: uint32)
    requires WellFormed(s)
    ensures IsClearedTo(Clear(rules, s, frame).recs, frame)
  {
    if frame != ALL {
      ClearKeepsExactlyTheRest(rules, s, frame);
      hide Clear;
    }
  }

  /** Whether the bit of this call is the last one missing. */
  predicate LastBit(store: Store<Sof>, p: Ptr, key: Key, cams: set<Cam>)
    requires p in store.recs
  {
    store.recs[p].data.bits + {key.cam} == cams
  }

  function CallSteps(key: Key, evt: Event, last: bool): seq<Step> {
    [Enter(key, evt), StoreEvent(key), Mark(key)]
    + if last then [HandOut(key), PutBack(key), ClearUp(key)] else [PutBack(key)]
  }

  class SofTable {
    const cams: set<Cam>
    const table: RecordTable<Sof>
    /** What was handed to the cameras. */
    var handed: seq<Dispatch>

    constructor (cams: set<Cam>)
      ensures this.cams == cams && fresh(table) && table.rules == SofRules(cams)
      ensures table.Contents() == Empty() && handed == []
    {
      this.cams := cams;
      table := new RecordTable(SofRules(cams));
      handed := [];
    }

    ghost predicate Shows(st: State)
      reads this, table
    {
      table.rules == SofRules(cams) && table.Contents() == st.refs.store && handed == st.log
    }

    /** One call that is not interrupted; started says whether the group runs. */
    method SofSync(key: Key, evt: Event, started: bool, ghost st: State) returns (ghost steps: seq<Step>,
        ghost t: State)
      requires Shows(st) && WellFormed(st.refs.store)
      requires key.cam in cams && key !in st.entered && key !in st.calls
      modifies this`handed, table
      ensures Follows(cams, st, steps, t) && Shows(t)
      ensures !started ==> steps == []
      ensures started ==>
                var got := Get(SofRules(cams), st.refs.store, key.frame, true);
                && (got.ptr.None? ==> steps == [Enter(key, evt)])
                && (got.ptr.Some? ==>
                      && got.ptr.value in got.store.recs
                      && steps == CallSteps(key, evt, LastBit(got.store, got.ptr.value, key, cams))
                      && (got.store.recs[got.ptr.value].data.bits + {key.cam} == cams ==>
                            HandsOutFor(key, old(handed), handed) && IsClearedTo(table.recs, key.frame)))
    {
      hide Next, Follows, WellFormed, IsClearedTo;
      if !started {
        FollowsNone(cams, st);
        return [], st;
      }
      ghost var a := Entered(cams, st, key, evt);
      var got := table.GetRecord(key.frame, true);
      if got.None? {
        OneStep(cams, st, Enter(key, evt));
        return [Enter(key, evt)], a;
      }
      var p := got.value;
      table.WriteRecord(p, table.recs[p].data.(evts := table.recs[p].data.evts[key.cam := evt]));
      ghost var b := EventStored(cams, a, key, p, evt);
      table.WriteRecord(p, table.recs[p].data.(bits := table.recs[p].data.bits + {key.cam}));
      ghost var c := BitSet(cams, b, key, p, evt);
      if table.recs[p].data.bits == cams {
        handed := handed + [EventsOf(key, table.recs[p].data)];
        ghost var d := HandedTo(cams, c, key, p, evt);
        table.PutRecord(got);
        ghost var e := Returned(cams, d, key, p, evt);
        table.ClearLocked(key.frame);
        t := Cleared(cams, e, key);
        ClearedUpTo(SofRules(cams), e.refs.store, key.frame);
        ThreeSteps(cams, c, HandOut(key), PutBack(key), ClearUp(key));
        ThreeMore(cams, st, Enter(key, evt), StoreEvent(key), Mark(key), [HandOut(key), PutBack(key), ClearUp(key)], t);
        steps := CallSteps(key, evt, true);
      } else {
        table.PutRecord(got);
        t := Returned(cams, c, key, p, evt);
        OneStep(cams, c, PutBack(key));
        ThreeMore(cams, st, Enter(key, evt), StoreEvent(key), Mark(key), [PutBack(key)], t);
        steps := CallSteps(key, evt, false);
      }
    }
  }
}
