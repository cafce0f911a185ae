/**
 * SOF rendezvous: every bound camera reports every frame, and the call that completes a frame hands all
 * events of the frame to their cameras. Calls run concurrently; a step is one section of one call.
 */
module SofSync {
  import opened Words
  import opened Options
  import opened Cameras
  import opened RecordStore
  import Refs = ResultRefs

  type Event = int

  /** The cameras that have reported, and their events. */
  datatype Sof = Sof(bits: set<Cam>, evts: map<Cam, Event>)

  /** A call is known by its camera and frame: each camera reports each frame at most once. */
  datatype Key = Key(cam: Cam, frame: uint32)

  datatype Phase = Looked | Stored | Marked(done: bool) | Handed | Clearing

  datatype Call = Call(ptr: Ptr, evt: Event, phase: Phase)

  datatype Dispatch = Dispatch(key: Key, evts: map<Cam, Event>)

  /**
   * calls are in progress. The rest is history: what was reported, which calls have set their bit, which
   * call found its frame complete, and what was handed out.
   */
  datatype State = State(refs: Refs.State<Sof>,
                         calls: map<Key, Call>,
                         entered: map<Key, Event>,
                         marked: set<Key>,
                         done: map<uint32, Key>,
                         log: seq<Dispatch>)

  datatype Step =
    | Enter(key: Key, evt: Event)
    | StoreEvent(key: Key)
    | Mark(key: Key)
    | HandOut(key: Key)
    | PutBack(key: Key)
    | ClearUp(key: Key)

  function SofRules(cams: set<Cam>): Rules<Sof> {
    Rules(16, 8, true, Sof({}, map[]), (s: Sof) => s.bits == cams)
  }

  function Start(): State {
    State(Refs.Start(), map[], map[], {}, map[], [])
  }

  predicate InPhase(st: State, key: Key, phase: Phase) {
    key in st.calls && st.calls[key].phase == phase
  }

  predicate HasRecord(st: State, key: Key)
    requires key in st.calls
  {
    st.calls[key].ptr in st.refs.store.recs
  }

  predicate Enabled(cams: set<Cam>, st: State, step: Step) {
    match step
    case Enter(key, _) => key.cam in cams && key !in st.entered
    case StoreEvent(key) => InPhase(st, key, Looked) && HasRecord(st, key)
    case Mark(key) => InPhase(st, key, Stored) && HasRecord(st, key)
    case HandOut(key) => InPhase(st, key, Marked(true)) && HasRecord(st, key)
    case PutBack(key) =>
      && (InPhase(st, key, Marked(false)) || InPhase(st, key, Handed))
      && HasRecord(st, key) && st.calls[key].ptr in st.refs.held
    case ClearUp(key) => InPhase(st, key, Clearing)
  }

  function Record(st: State, key: Key): Slot<Sof>
    requires key in st.calls && HasRecord(st, key)
  {
    st.refs.store.recs[st.calls[key].ptr]
  }

  function Written(st: State, key: Key, sof: Sof): Refs.State<Sof>
    requires key in st.calls && HasRecord(st, key)
  {
    st.refs.(store := Write(st.refs.store, st.calls[key].ptr, sof))
  }

  function AtPhase(st: State, key: Key, phase: Phase): map<Key, Call>
    requires key in st.calls
  {
    st.calls[key := st.calls[key].(phase := phase)]
  }

  function Next(cams: set<Cam>, st: State, step: Step): State
    requires Enabled(cams, st, step)
  {
    match step
    case Enter(key, evt) =>
      var got := Get(SofRules(cams), st.refs.store, key.frame, true).ptr;
      st.(refs := Refs.Next(SofRules(cams), st.refs, Refs.GetStep(key.frame, true)),
          entered := st.entered[key := evt],
          calls := if got.Some? then st.calls[key := Call(got.value, evt, Looked)] else st.calls)
    case StoreEvent(key) =>
      var sof := Record(st, key).data;
      st.(refs := Written(st, key, sof.(evts := sof.evts[key.cam := st.calls[key].evt])), calls := AtPhase(st,
              key, Stored))
    case Mark(key) =>
      var sof := Record(st, key).data;
      var bits := sof.bits + {key.cam};
      st.(refs := Written(st, key, sof.(bits := bits)),
          calls := AtPhase(st, key, Marked(bits == cams)),
          marked := st.marked + {key},
          done := if bits == cams then st.done[key.frame := key] else st.done)
    case HandOut(key) =>
      var sof := Record(st, key).data;
      st.(calls := AtPhase(st, key, Handed),
          log := st.log + [Dispatch(key, map c | c in sof.bits && c in sof.evts :: sof.evts[c])])
    case PutBack(key) =>
      st.(refs := Refs.Next(SofRules(cams), st.refs, Refs.PutStep(st.calls[key].ptr)),
          calls := if st.calls[key].phase.Handed? then AtPhase(st, key, Clearing) else st.calls - {key})
    case ClearUp(key) =>
      st.(refs := Refs.Next(SofRules(cams), st.refs, Refs.ClearStep(key.frame)), calls := st.calls - {key})
  }

  // ----- What holds in every state -----

  predicate RecordOk(cams: set<Cam>, st: State, p: Ptr)
    requires p in st.refs.store.recs
  {
    var r := st.refs.store.recs[p];
    && r.data.bits <= cams
    && (forall c <- r.data.bits :: c in r.data.evts && Key(c, r.id) in st.marked)
    && (forall c <- r.data.evts :: Key(c, r.id) in st.entered && r.data.evts[c] == st.entered[Key(c, r.id)])
  }

  predicate CallOk(cams: set<Cam>, st: State, key: Key)
    requires key in st.calls
  {
    var call := st.calls[key];
    && key in st.entered && st.entered[key] == call.evt && key.cam in cams
    && call.ptr < st.refs.store.next
    && (call.phase.Looked? || call.phase.Stored? ==> key !in st.marked)
    && (call.phase == Marked(true) || call.phase.Handed? || call.phase.Clearing? ==>
          key.frame in st.done && st.done[key.frame] == key)
    && (call.phase == Marked(true) ==> forall e <- st.log :: e.key != key)
    && (call.ptr in st.refs.store.recs ==>
          var r := st.refs.store.recs[call.ptr];
          && r.id == key.frame
          && (!call.phase.Looked? ==> key.cam in r.data.evts)
          && (call.phase == Marked(true) ==> r.data.bits == cams))
  }

  /** What was handed out for a frame is the event of every bound camera for that frame. */
  predicate DispatchOk(cams: set<Cam>, st: State, e: Dispatch) {
    && e.key.frame in st.done && st.done[e.key.frame] == e.key
    && e.evts.Keys == cams
    && forall c <- cams :: Key(c, e.key.frame) in st.entered && e.evts[c] == st.entered[Key(c, e.key.frame)]
  }

  predicate OncePerFrame(log: seq<Dispatch>) {
    forall i, j :: 0 <= i < j < |log| ==> log[i].key.frame != log[j].key.frame
  }

  predicate DoneOk(cams: set<Cam>, st: State, frame: uint32) {
    forall c <- cams :: Key(c, frame) in st.marked
  }

  ghost predicate Invariant(cams: set<Cam>, st: State) {
    && WellFormed(st.refs.store)
    && (forall key <- st.marked :: key in st.entered)
    && (forall p <- st.refs.store.recs :: RecordOk(cams, st, p))
    && (forall key <- st.calls :: CallOk(cams, st, key))
    && (forall frame <- st.done :: DoneOk(cams, st, frame))
    && (forall e <- st.log :: DispatchOk(cams, st, e))
    && OncePerFrame(st.log)
  }

  // ----- Every step keeps it -----

  /** History only grows. */
  ghost predicate Grows(st: State, t: State) {
    && st.marked <= t.marked
    && (forall k <- st.entered :: k in t.entered && t.entered[k] == st.entered[k])
    && (forall f <- st.done :: f in t.done && t.done[f] == st.done[f])
  }

  /** The record is as it was, but for its count. */
  predicate RecordSame(st: State, t: State, p: Ptr)
    requires p in t.refs.store.recs
  {
    && p in st.refs.store.recs
    && t.refs.store.recs[p].id == st.refs.store.recs[p].id
    && t.refs.store.recs[p].data == st.refs.store.recs[p].data
  }

  lemma RecordStays(cams: set<Cam>, st: State, t: State, p: Ptr)
    requires Grows(st, t)
    requires p in t.refs.store.recs && RecordSame(st, t, p) && RecordOk(cams, st, p)
    ensures RecordOk(cams, t, p)
  {
  }

  /** The record has lost no event, and a full set of bits is still full. */
  predicate RecordKeeps(cams: set<Cam>, st: State, t: State, p: Ptr)
    requires p in t.refs.store.recs
  {
    && p in st.refs.store.recs
    && t.refs.store.recs[p].id == st.refs.store.recs[p].id
    && st.refs.store.recs[p].data.evts.Keys <= t.refs.store.recs[p].data.evts.Keys
    && (st.refs.store.recs[p].data.bits == cams ==> t.refs.store.recs[p].data.bits == cams)
  }

  lemma CallStays(cams: set<Cam>, st: State, t: State, key: Key)
    requires Grows(st, t) && st.refs.store.next <= t.refs.store.next
    requires key in st.calls && key in t.calls && t.calls[key] == st.calls[key]
    requires CallOk(cams, st, key)
    requires key in t.marked ==> key in st.marked
    requires forall e <- t.log :: e in st.log || e.key != key
    requires t.calls[key].ptr in t.refs.store.recs ==> RecordKeeps(cams, st, t, t.calls[key].ptr)
    ensures CallOk(cams, t, key)
  {
  }

  lemma HistoryStays(cams: set<Cam>, st: State, t: State)
    requires Grows(st, t)
    requires forall frame <- st.done :: DoneOk(cams, st, frame)
    requires forall e <- st.log :: DispatchOk(cams, st, e)
    ensures forall frame <- st.done :: DoneOk(cams, t, frame)
    ensures forall e <- st.log :: DispatchOk(cams, t, e)
  {
  }

  /** The part of the invariant that a step has to establish, when the rest stays. */
  lemma Assemble(cams: set<Cam>, st: State, t: State)
    requires Invariant(cams, st) && WellFormed(t.refs.store)
    requires Grows(st, t) && st.refs.store.next <= t.refs.store.next
    requires forall key <- t.marked :: key in t.entered
    requires forall p <- t.refs.store.recs :: RecordSame(st, t, p) || RecordOk(cams, t, p)
    requires forall p <- t.refs.store.recs :: RecordKeeps(cams, st, t, p) || p >= st.refs.store.next
    requires forall key <- t.calls ::
               || CallOk(cams, t, key)
               || (&& key in st.calls && t.calls[key] == st.calls[key]
                   && (key in t.marked ==> key in st.marked)
                   && (forall e <- t.log :: e in st.log || e.key != key))
    requires forall frame <- t.done :: frame in st.done || DoneOk(cams, t, frame)
    requires forall e <- t.log :: e in st.log || DispatchOk(cams, t, e)
    requires OncePerFrame(t.log)
    ensures Invariant(cams, t)
  {
    hide WellFormed, OncePerFrame, DispatchOk, DoneOk;
    HistoryStays(cams, st, t);
    forall p | p in t.refs.store.recs ensures RecordOk(cams, t, p) {
      if RecordSame(st, t, p) {
        hide RecordSame, RecordOk, CallOk, Grows, RecordKeeps;
        RecordStays(cams, st, t, p);
      }
    }
    forall key | key in t.calls ensures CallOk(cams, t, key) {
      if !CallOk(cams, t, key) {
        assert CallOk(cams, st, key);
        assert t.calls[key].ptr < st.refs.store.next;
        hide RecordSame, RecordOk, CallOk, Grows, RecordKeeps;
        CallStays(cams, st, t, key);
      }
    }
  }

  lemma EnterKeeps(cams: set<Cam>, st: State, key: Key, evt: Event)
    requires Invariant(cams, st) && Enabled(cams, st, Enter(key, evt))
    ensures Invariant(cams, Next(cams, st, Enter(key, evt)))
  {
    hide Get, WellFormed, OncePerFrame, DispatchOk, DoneOk, RecordOk, CallOk;
    var rules := SofRules(cams);
    var t := Next(cams, st, Enter(key, evt));
    GetAddsOneReference(rules, st.refs.store, key.frame, true);
    GetCreatesBlank(rules, st.refs.store, key.frame, true);
    forall p | p in t.refs.store.recs && !RecordSame(st, t, p) ensures RecordOk(cams, t, p) {
      BlankIsOk(cams, t, p);
    }
    CallsWereEntered(cams, st);
    if key in t.calls {
      NewCallIsOk(cams, t, key);
    }
    Assemble(cams, st, t);
  }

  lemma CallsWereEntered(cams: set<Cam>, st: State)
    requires Invariant(cams, st)
    ensures forall key <- st.calls :: key in st.entered
  {
    hide WellFormed, OncePerFrame, DispatchOk, DoneOk, RecordOk;
    assert forall key <- st.calls :: CallOk(cams, st, key);
  }

  lemma BlankIsOk(cams: set<Cam>, st: State, p: Ptr)
    requires p in st.refs.store.recs && st.refs.store.recs[p].data == Sof({}, map[])
    ensures RecordOk(cams, st, p)
  {
  }

  lemma NewCallIsOk(cams: set<Cam>, st: State, key: Key)
    requires InPhase(st, key, Looked) && key.cam in cams
    requires key in st.entered && key !in st.marked && st.entered[key] == st.calls[key].evt
    requires HasRecord(st, key) && Record(st, key).id == key.frame && st.calls[key].ptr < st.refs.store.next
    ensures CallOk(cams, st, key)
  {
  }

  lemma StoreKeeps(cams: set<Cam>, st: State, key: Key)
    requires Invariant(cams, st) && Enabled(cams, st, StoreEvent(key))
    ensures Invariant(cams, Next(cams, st, StoreEvent(key)))
  {
    hide WellFormed, OncePerFrame, DispatchOk, DoneOk;
    var t := Next(cams, st, StoreEvent(key));
    WriteAndPutKeepShape(st.refs.store, st.calls[key].ptr, Record(t, key).data);
    var p := st.calls[key].ptr;
    assert CallOk(cams, st, key) && RecordOk(cams, st, p);
    assert CallOk(cams, t, key) && RecordOk(cams, t, p);
    hide CallOk, RecordOk;
    Assemble(cams, st, t);
  }

  /** The first call to find its frame complete is the only one: afterwards every camera has set its bit. */
  lemma MarkIsFirst(cams: set<Cam>, st: State, key: Key)
    requires Invariant(cams, st) && Enabled(cams, st, Mark(key))
    ensures key !in st.marked && key.frame !in st.done && Record(st, key).id == key.frame
    ensures RecordOk(cams, st, st.calls[key].ptr) && CallOk(cams, st, key)
    ensures forall e <- st.log :: e.key != key
  {
    hide WellFormed, OncePerFrame;
    assert forall e <- st.log :: DispatchOk(cams, st, e);
    assert CallOk(cams, st, key);
    assert key.frame in st.done ==> DoneOk(cams, st, key.frame);
  }

  lemma MarkKeeps(cams: set<Cam>, st: State, key: Key)
    requires Invariant(cams, st) && Enabled(cams, st, Mark(key))
    ensures Invariant(cams, Next(cams, st, Mark(key)))
  {
    hide WellFormed, OncePerFrame, DispatchOk, DoneOk, CallOk, RecordOk;
    var t := Next(cams, st, Mark(key));
    MarkIsFirst(cams, st, key);
    WriteAndPutKeepShape(st.refs.store, st.calls[key].ptr, Record(t, key).data);
    MarkAccounts(cams, st, key);
    assert key in t.entered;
    Assemble(cams, st, t);
  }

  lemma MarkAccounts(cams: set<Cam>, st: State, key: Key)
    requires Enabled(cams, st, Mark(key))
    requires key !in st.marked && key.frame !in st.done && Record(st, key).id == key.frame
    requires RecordOk(cams, st, st.calls[key].ptr) && CallOk(cams, st, key)
    requires forall e <- st.log :: e.key != key
    ensures
      var t := Next(cams, st, Mark(key));
      var p := st.calls[key].ptr;
      && RecordOk(cams, t, p) && RecordKeeps(cams, st, t, p)
      && CallOk(cams, t, key) && Grows(st, t)
      && (key.frame in t.done ==> DoneOk(cams, t, key.frame))
  {
  }

  lemma HandOutKeeps(cams: set<Cam>, st: State, key: Key)
    requires Invariant(cams, st) && Enabled(cams, st, HandOut(key))
    ensures Invariant(cams, Next(cams, st, HandOut(key)))
  {
    hide WellFormed, OncePerFrame, CallOk, RecordOk, DispatchOk, DoneOk;
    var t := Next(cams, st, HandOut(key));
    HandsOutOwnEvents(cams, st, key);
    OnceMore(st.log, t.log[|st.log|]);
    Assemble(cams, st, t);
  }

  /** The completing call still finds every bit set, and no call has handed out this frame before. */
  lemma HandsOutOwnEvents(cams: set<Cam>, st: State, key: Key)
    requires Invariant(cams, st) && Enabled(cams, st, HandOut(key))
    ensures
      var t := Next(cams, st, HandOut(key));
      DispatchOk(cams, t, t.log[|st.log|]) && CallOk(cams, t, key)
    ensures forall e <- st.log :: e.key.frame != key.frame
  {
    hide WellFormed, OncePerFrame, DoneOk;
    assert CallOk(cams, st, key) && RecordOk(cams, st, st.calls[key].ptr);
    assert forall e <- st.log :: DispatchOk(cams, st, e);
  }

  lemma OnceMore(log: seq<Dispatch>, e: Dispatch)
    requires OncePerFrame(log)
    requires forall d <- log :: d.key.frame != e.key.frame
    ensures OncePerFrame(log + [e])
  {
  }

  lemma PutBackKeeps(cams: set<Cam>, st: State, key: Key)
    requires Invariant(cams, st) && Enabled(cams, st, PutBack(key))
    ensures Invariant(cams, Next(cams, st, PutBack(key)))
  {
    hide WellFormed, OncePerFrame, DispatchOk, DoneOk, RecordOk;
    var t := Next(cams, st, PutBack(key));
    WriteAndPutKeepShape(st.refs.store, st.calls[key].ptr, Record(st, key).data);
    assert CallOk(cams, st, key);
    assert key in t.calls ==> CallOk(cams, t, key);
    hide CallOk;
    Assemble(cams, st, t);
  }

  lemma ClearUpKeeps(cams: set<Cam>, st: State, key: Key)
    requires Invariant(cams, st) && Enabled(cams, st, ClearUp(key))
    ensures Invariant(cams, Next(cams, st, ClearUp(key)))
  {
    var t := Next(cams, st, ClearUp(key));
    assert t.refs.store == Clear(SofRules(cams), st.refs.store, key.frame);
    if key.frame != ALL {
      ClearKeepsExactlyTheRest(SofRules(cams), st.refs.store, key.frame);
    }
    hide Clear, WellFormed, OncePerFrame, DispatchOk, DoneOk, RecordOk, CallOk;
    Assemble(cams, st, t);
  }

  lemma StepKeeps(cams: set<Cam>, st: State, step: Step)
    requires Invariant(cams, st) && Enabled(cams, st, step)
    ensures Invariant(cams, Next(cams, st, step))
  {
    hide Invariant, Next, Enabled;
    match step
    case Enter(key, evt) => EnterKeeps(cams, st, key, evt);
    case StoreEvent(key) => StoreKeeps(cams, st, key);
    case Mark(key) => MarkKeeps(cams, st, key);
    case HandOut(key) => HandOutKeeps(cams, st, key);
    case PutBack(key) => PutBackKeeps(cams, st, key);
    case ClearUp(key) => ClearUpKeeps(cams, st, key);
  }

  // ----- Over whole runs -----

  ghost predicate Run(cams: set<Cam>, trace: seq<State>, steps: seq<Step>) {
    && |trace| == |steps| + 1
    && trace[0] == Start()
    && forall i :: 0 <= i < |steps| ==> Advances(cams, trace, steps, i)
  }

  ghost predicate Advances(cams: set<Cam>, trace: seq<State>, steps: seq<Step>, i: nat)
    requires i < |steps| && |trace| == |steps| + 1
  {
    Enabled(cams, trace[i], steps[i]) && trace[i + 1] == Next(cams, trace[i], steps[i])
  }

  lemma {:induction false} EveryRunKeeps(cams: set<Cam>, trace: seq<State>, steps: seq<Step>, n: nat)
    requires Run(cams, trace, steps)
    requires n < |trace|
    ensures Invariant(cams, trace[n])
  {
    hide Next, Enabled;
    if n > 0 {
      hide Invariant;
      EveryRunKeeps(cams, trace, steps, n - 1);
      assert Advances(cams, trace, steps, n - 1);
      StepKeeps(cams, trace[n - 1], steps[n - 1]);
    }
  }

  /**
   * Over every interleaving, a frame is handed out at most once, also when its record was cleared and
   * made again; and what is handed out is the event that each bound camera reported for that frame.
   */
  lemma HandedOutOnce(cams: set<Cam>, trace: seq<State>, steps: seq<Step>, n: nat, i: nat, j: nat)
    requires Run(cams, trace, steps)
    requires n < |trace| && i < j < |trace[n].log|
    ensures trace[n].log[i].key.frame != trace[n].log[j].key.frame
  {
    EveryRunKeeps(cams, trace, steps, n);
    hide WellFormed, CallOk, RecordOk, DoneOk, DispatchOk;
  }

  lemma HandedOutIsOwn(cams: set<Cam>, trace: seq<State>, steps: seq<Step>, n: nat, e: Dispatch)
    requires Run(cams, trace, steps)
    requires n < |trace| && e in trace[n].log
    ensures e.evts.Keys == cams
    ensures forall c <- cams ::
              Key(c, e.key.frame) in trace[n].entered && e.evts[c] == trace[n].entered[Key(c, e.key.frame)]
  {
    EveryRunKeeps(cams, trace, steps, n);
    hide WellFormed, CallOk, RecordOk, DoneOk, OncePerFrame;
    assert DispatchOk(cams, trace[n], e);
  }

  // ----- The counts are the calls -----

  /** The calls that refer to a record. */
  function Holders(st: State, p: Ptr): set<Key> {
    set k | k in st.calls && st.calls[k].ptr == p && !st.calls[k].phase.Clearing?
  }

  ghost predicate HeldByCalls(st: State) {
    && st.refs.sending == multiset{} && st.refs.queue == [] && st.refs.worker.Idle?
    && forall p: Ptr :: st.refs.held[p] == |Holders(st, p)|
  }

  /** The clear-all bound is used while some call refers to a record. */
  predicate Reckless(cams: set<Cam>, st: State, step: Step) {
    && st.refs.held != multiset{}
    && (|| (step.Enter? && Overflows(SofRules(cams), st.refs.store, step.key.frame, true) && step.key.frame == 7)
        || (step.ClearUp? && step.key.frame == ALL))
  }

  lemma PhaseKeepsHolders(st: State, t: State, key: Key)
    requires key in st.calls && key in t.calls
    requires t.calls == AtPhase(st, key, t.calls[key].phase)
    requires !st.calls[key].phase.Clearing? && !t.calls[key].phase.Clearing?
    ensures forall p: Ptr :: Holders(t, p) == Holders(st, p)
  {
  }

  /** One call more or less refers to q. */
  lemma CallAdded(st: State, t: State, key: Key)
    requires key !in st.calls && key in t.calls && !t.calls[key].phase.Clearing?
    requires t.calls == st.calls[key := t.calls[key]]
    ensures forall p: Ptr :: |Holders(t, p)| == |Holders(st, p)| + if p == t.calls[key].ptr then 1 else 0
  {
    forall p: Ptr ensures |Holders(t, p)| == |Holders(st, p)| + if p == t.calls[key].ptr then 1 else 0 {
      assert Holders(t, p) == Holders(st, p) + if p == t.calls[key].ptr then {key} else {};
    }
  }

  lemma CallDropped(st: State, t: State, key: Key)
    requires key in st.calls && !st.calls[key].phase.Clearing?
    requires t.calls == st.calls - {key} || t.calls == AtPhase(st, key, Clearing)
    ensures forall p: Ptr :: |Holders(t, p)| == |Holders(st, p)| - if p == st.calls[key].ptr then 1 else 0
  {
    forall p: Ptr ensures |Holders(t, p)| == |Holders(st, p)| - if p == st.calls[key].ptr then 1 else 0 {
      assert Holders(t, p) == Holders(st, p) - if p == st.calls[key].ptr then {key} else {};
    }
  }

  lemma EnterHolds(cams: set<Cam>, st: State, key: Key, evt: Event)
    requires Enabled(cams, st, Enter(key, evt)) && key !in st.calls
    requires HeldByCalls(st)
    ensures HeldByCalls(Next(cams, st, Enter(key, evt)))
  {
    hide Get, Refs.Dropped, Holders;
    var t := Next(cams, st, Enter(key, evt));
    if key in t.calls {
      CallAdded(st, t, key);
    } else {
      SameHolders(st, t);
    }
  }

  lemma SameHolders(st: State, t: State)
    requires t.calls == st.calls
    ensures forall p: Ptr :: Holders(t, p) == Holders(st, p)
  {
  }

  lemma PutBackHolds(cams: set<Cam>, st: State, key: Key)
    requires Enabled(cams, st, PutBack(key))
    requires HeldByCalls(st)
    ensures HeldByCalls(Next(cams, st, PutBack(key)))
  {
    hide Holders;
    CallDropped(st, Next(cams, st, PutBack(key)), key);
  }

  lemma ClearUpHolds(cams: set<Cam>, st: State, key: Key)
    requires Enabled(cams, st, ClearUp(key))
    requires HeldByCalls(st)
    ensures HeldByCalls(Next(cams, st, ClearUp(key)))
  {
    hide Clear, ExpiredIds;
    var t := Next(cams, st, ClearUp(key));
    assert forall p: Ptr :: Holders(t, p) == Holders(st, p);
  }

  lemma StepHolds(cams: set<Cam>, st: State, step: Step)
    requires Invariant(cams, st) && Enabled(cams, st, step)
    requires HeldByCalls(st)
    ensures HeldByCalls(Next(cams, st, step))
  {
    hide WellFormed, OncePerFrame, RecordOk, DoneOk, DispatchOk;
    match step
    case Enter(key, evt) =>
      assert key in st.calls ==> CallOk(cams, st, key);
      hide Invariant, Next;
      EnterHolds(cams, st, key, evt);
    case PutBack(key) =>
      hide Invariant, Next;
      PutBackHolds(cams, st, key);
    case ClearUp(key) =>
      hide Invariant, Next;
      ClearUpHolds(cams, st, key);
    case _ =>
      hide Invariant;
      PhaseKeepsHolders(st, Next(cams, st, step), step.key);
  }

  /** A call that refers to a record finds it among the held ones. */
  lemma HolderIsHeld(st: State, key: Key)
    requires HeldByCalls(st)
    requires key in st.calls && !st.calls[key].phase.Clearing?
    ensures st.calls[key].ptr in st.refs.held
  {
    assert key in Holders(st, st.calls[key].ptr);
  }

  /** The counts stay right in every step that is not a reckless clear, and only in those. */
  lemma StepCountsIff(cams: set<Cam>, st: State, step: Step)
    requires Enabled(cams, st, step)
    requires HeldByCalls(st) && Refs.Counted(st.refs)
    ensures Refs.Counted(Next(cams, st, step).refs) <==> !Reckless(cams, st, step)
  {
    var rules := SofRules(cams);
    hide Refs.Counted, Holders, Refs.Next;
    match step
    case Enter(key, _) =>
      assert Refs.Reckless(rules, st.refs, Refs.GetStep(key.frame, true)) <==> Reckless(cams, st, step);
      Refs.StepCountsIff(rules, st.refs, Refs.GetStep(key.frame, true));
    case ClearUp(key) =>
      assert Refs.Reckless(rules, st.refs, Refs.ClearStep(key.frame)) <==> Reckless(cams, st, step);
      Refs.StepCountsIff(rules, st.refs, Refs.ClearStep(key.frame));
    case PutBack(key) =>
      Refs.StepCountsIff(rules, st.refs, Refs.PutStep(st.calls[key].ptr));
    case HandOut(_) =>
    case _ =>
      HolderIsHeld(st, step.key);
      var t := Next(cams, st, step);
      WriteCounts(cams, st.refs, st.calls[step.key].ptr, Record(t, step.key).data);
  }

  lemma WriteCounts(cams: set<Cam>, refs: Refs.State<Sof>, p: Ptr, sof: Sof)
    requires Refs.Counted(refs) && p in refs.held && p in refs.store.recs
    ensures Refs.Counted(refs.(store := Write(refs.store, p, sof)))
  {
    hide Refs.Counted;
    Refs.StepCountsIff(SofRules(cams), refs, Refs.WriteStep(p, sof));
    assert Refs.Next(SofRules(cams), refs, Refs.WriteStep(p, sof)) == refs.(store := Write(refs.store, p, sof));
  }

  /**
   * Over every interleaving without a reckless clear, a count is the number of calls that refer to the
   * record, and each such call finds its record in place, under the frame it reported.
   */
  lemma {:induction false} CallsAreCounted(cams: set<Cam>, trace: seq<State>, steps: seq<Step>, n: nat)
    requires Run(cams, trace, steps)
    requires forall i :: 0 <= i < |steps| ==> !Reckless(cams, trace[i], steps[i])
    requires n < |trace|
    ensures HeldByCalls(trace[n]) && Refs.Counted(trace[n].refs)
  {
    hide Next, Enabled, Refs.Counted, Holders, Reckless;
    if n == 0 {
      StartHolds();
      Refs.StartIsCounted<Sof>();
    } else {
      hide HeldByCalls;
      CallsAreCounted(cams, trace, steps, n - 1);
      EveryRunKeeps(cams, trace, steps, n - 1);
      hide Invariant;
      assert Advances(cams, trace, steps, n - 1);
      StepHolds(cams, trace[n - 1], steps[n - 1]);
      StepCountsIff(cams, trace[n - 1], steps[n - 1]);
    }
  }

  lemma StartHolds()
    ensures HeldByCalls(Start())
  {
    assert forall p: Ptr :: Holders(Start(), p) == {};
  }

  lemma CallFindsItsRecord(cams: set<Cam>, trace: seq<State>, steps: seq<Step>, n: nat, key: Key)
    requires Run(cams, trace, steps)
    requires forall i :: 0 <= i < |steps| ==> !Reckless(cams, trace[i], steps[i])
    requires n < |trace| && key in trace[n].calls && !trace[n].calls[key].phase.Clearing?
    ensures
      var store := trace[n].refs.store;
      var p := trace[n].calls[key].ptr;
      && p in store.recs && key.frame in store.byId && store.byId[key.frame] == p
      && store.recs[p].refCnt == |Holders(trace[n], p)| > 0
  {
    CallsAreCounted(cams, trace, steps, n);
    EveryRunKeeps(cams, trace, steps, n);
    HolderIsHeld(trace[n], key);
    assert CallOk(cams, trace[n], key);
    hide RecordOk, CallOk, DoneOk, DispatchOk, OncePerFrame, Holders, WellFormed, Refs.Counted;
    Refs.ReferredToIsInPlace(trace[n].refs, trace[n].calls[key].ptr);
    assert CallOk(cams, trace[n], key);
  }

  // ----- What clearing can do to the table -----

  /**
   * A lookup of a frame without record deletes nothing while there are at most sixteen records. With more it
   * deletes exactly those that are not in use up to the frame less 8, which is then the mark; for frame 7 all.
   */
  lemma SofTableKeeps(cams: set<Cam>, s: Store<Sof>, n: uint32)
    requires WellFormed(s) && n !in s.byId
    ensures
      var t := Get(SofRules(cams), s, n, true).store;
      && (forall p <- s.recs :: p in t.recs ==> t.recs[p] == s.recs[p])
      && (|s.byId| <= 16 ==> forall p <- s.recs :: p in t.recs)
      && (|s.byId| > 16 && n >= 8 ==>
            forall p <- s.recs :: p in t.recs <==> s.recs[p].refCnt > 0 || s.recs[p].id > n - 8)
      && (|s.byId| > 16 && n == 7 ==> forall p <- s.recs :: p !in t.recs)
      && (|s.byId| > 16 && n < 7 ==>
            forall p <- s.recs :: p in t.recs <==> s.recs[p].refCnt > 0 || s.recs[p].id > n + 0xffff_fff8)
      && (n >= 8 ==> t.cleared == if forall p <- s.recs :: p in t.recs then s.cleared else n - 8)
  {
    NewFrameKeeps(SofRules(cams), s, n);
    if n != 7 {
      MarkAfterNewFrame(SofRules(cams), s, n);
    }
    hide Get, WellFormed;
  }

  lemma SofTableMakes(cams: set<Cam>, s: Store<Sof>, n: uint32)
    requires WellFormed(s)
    ensures
      var got := Get(SofRules(cams), s, n, true);
      if n in s.byId then got.ptr == Some(s.byId[n]) && got.store == Retain(s, s.byId[n])
      else
        && (got.ptr.Some? <==> n >= got.store.cleared)
        && (got.ptr.Some? ==>
              got.ptr.value in got.store.recs && got.store.recs[got.ptr.value] == Slot(n, 1, Sof({}, map[])))
  {
    if n !in s.byId {
      NewFrameIsMadeIff(SofRules(cams), s, n);
      hide WellFormed, Trim;
    }
  }

  /** Seventeen held SOF records, then frame 7: the difference 7 - 8 is the clear-all bound. */
  lemma FrameSevenDeletesHeldRecords(cams: set<Cam>)
    ensures Refs.Counted(Refs.Backlog(SofRules(cams), 17))
    ensures !Refs.Counted(Refs.Next(SofRules(cams), Refs.Backlog(SofRules(cams), 17), Refs.GetStep(7, true)))
  {
    hide Refs.Counted, Refs.Next, Refs.Backlog;
    Refs.FrameBelowMarginDeletesHeldRecords(SofRules(cams));
  }

  /** Frames 3 and 9 are looked up, 9 is put back and cleared, then 3 is: the mark goes to 9 and back to 3. */
  lemma MarkFallsFromNineToThree(cams: set<Cam>)
    ensures
      var rules := SofRules(cams);
      var both := Get(rules, Get(rules, Empty(), 3, true).store, 9, true).store;
      && 0 in both.recs && 1 in both.recs
      && var nine := Clear(rules, Put(both, 1), 9);
         && nine.cleared == 9 && 0 in nine.recs
         && Clear(rules, Put(nine, 0), 3).cleared == 3
  {
    var rules := SofRules(cams);
    var three := Get(rules, Empty(), 3, true).store;
    assert three == Store(map[3 := 0], map[0 := Slot(3, 1, rules.blank)], 1, 0);
    var both := Get(rules, three, 9, true).store;
    assert |three.byId.Keys| == 1;
    assert both == Store(map[3 := 0, 9 := 1], map[0 := Slot(3, 1, rules.blank), 1 := Slot(9, 1, rules.blank)], 2, 0);
    var put := Put(both, 1);
    assert ExpiredIds(put, 9) == {9} by { assert Expired(put, 9, 9); }
    var nine := Clear(rules, put, 9);
    assert nine.recs == map[0 := Slot(3, 1, rules.blank)] && nine.byId == map[3 := 0];
    assert Expired(Put(nine, 0), 3, 3);
  }
}
