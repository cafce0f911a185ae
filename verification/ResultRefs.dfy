/**
 * Who refers to a result record: threads between get and put, sendFrame between its count and its push,
 * the queue of the reprocessing thread, and that thread itself. One step is one section under a mutex,
 * or one queue operation; steps of all threads interleave freely.
 */
module ResultRefs {
  import opened Words
  import opened Options
  import opened RecordStore

  /** The reprocessing thread: waiting, using a record, or about to clear up to the id it processed. */
  datatype Worker = Idle | Busy(ptr: Ptr, id: uint32) | Clearing(id: uint32)

  /** dropped is history: the ids that bounded clears deleted since the last restart. */
  datatype State<+T> = State(store: Store<T>,
                             held: multiset<Ptr>,
                             sending: multiset<Ptr>,
                             queue: seq<Ptr>,
                             worker: Worker,
                             dropped: set<uint32>)

  datatype Step<+T> =
    | GetStep(id: uint32, queryReady: bool)
    | PutStep(ptr: Ptr)
    | WriteStep(ptr: Ptr, data: T)
    | CountStep(ptr: Ptr)
    | PushStep(ptr: Ptr)
    | PopStep
    | WorkerPutStep
    | WorkerClearStep
    | ClearStep(bound: uint32)
    | RestartStep

  function Start<T>(): State<T> {
    State(Empty(), multiset{}, multiset{}, [], Idle, {})
  }

  /** A thread can take a step on a record it refers to, as long as the record was not deleted under it. */
  predicate Enabled<T>(st: State<T>, step: Step<T>) {
    match step
    case GetStep(_, _) => true
    case PutStep(p) => p in st.held && p in st.store.recs
    case WriteStep(p, _) => (p in st.held || (st.worker.Busy? && st.worker.ptr == p)) && p in st.store.recs
    case CountStep(p) => p in st.held && p in st.store.recs
    case PushStep(p) => p in st.sending
    case PopStep => st.worker.Idle? && st.queue != [] && st.queue[0] in st.store.recs
    case WorkerPutStep => st.worker.Busy? && st.worker.ptr in st.store.recs
    case WorkerClearStep => st.worker.Clearing?
    case ClearStep(_) => true
    case RestartStep => st.worker.Idle? && st.held == multiset{} && st.sending == multiset{}
  }

  /** The bound of the clear that this step makes, if it makes one. */
  function ClearBound<T>(rules: Rules<T>, st: State<T>, step: Step<T>): Option<uint32> {
    match step
    case GetStep(id, queryReady) =>
      if Overflows(rules, st.store, id, queryReady) then Some(ToU32(id - rules.margin)) else None
    case WorkerClearStep => if st.worker.Clearing? then Some(st.worker.id) else None
    case ClearStep(bound) => Some(bound)
    case _ => None
  }

  function Dropped<T>(rules: Rules<T>, st: State<T>, step: Step<T>): set<uint32> {
    var bound := ClearBound(rules, st, step);
    if bound.Some? && bound.value != ALL then ExpiredIds(st.store, bound.value) else {}
  }

  function Next<T>(rules: Rules<T>, st: State<T>, step: Step<T>): State<T>
    requires Enabled(st, step)
  {
    var s := st.(dropped := st.dropped + Dropped(rules, st, step));
    match step
    case GetStep(id, queryReady) =>
      var r := Get(rules, st.store, id, queryReady);
      s.(store := r.store, held := if r.ptr.Some? then st.held + multiset{r.ptr.value} else st.held)
    case PutStep(p) => s.(store := Put(st.store, p), held := st.held - multiset{p})
    case WriteStep(p, data) => s.(store := Write(st.store, p, data))
    case CountStep(p) => s.(store := Retain(st.store, p), sending := st.sending + multiset{p})
    case PushStep(p) => s.(sending := st.sending - multiset{p}, queue := st.queue + [p])
    case PopStep => s.(queue := st.queue[1..], worker := Busy(st.queue[0], st.store.recs[st.queue[0]].id))
    case WorkerPutStep => s.(store := Put(st.store, st.worker.ptr), worker := Clearing(st.worker.id))
    case WorkerClearStep => s.(store := Clear(rules, st.store, st.worker.id), worker := Idle)
    case ClearStep(bound) => s.(store := Clear(rules, st.store, bound))
    case RestartStep =>
      s.(store := Clear(rules, st.store, ALL).(cleared := 0), queue := [], dropped := {})
  }

  /** How many references to p exist. */
  function Users<T>(st: State<T>, p: Ptr): nat {
    st.held[p] + st.sending[p] + multiset(st.queue)[p] + if st.worker.Busy? && st.worker.ptr == p then 1 else 0
  }

  /** The reference counts are right, and what is referred to has not been deleted. */
  ghost predicate Counted<T>(st: State<T>) {
    && WellFormed(st.store)
    && (forall p: Ptr :: Users(st, p) == if p in st.store.recs then st.store.recs[p].refCnt else 0)
    && (st.worker.Busy? && st.worker.ptr in st.store.recs ==> st.store.recs[st.worker.ptr].id == st.worker.id)
  }

  predicate Quiet<T>(st: State<T>) {
    st.held == multiset{} && st.sending == multiset{} && st.queue == [] && !st.worker.Busy?
  }

  /** The step clears with the clear-all bound while some thread still refers to a record. */
  predicate Reckless<T>(rules: Rules<T>, st: State<T>, step: Step<T>) {
    ClearBound(rules, st, step) == Some(ALL) && !Quiet(st)
  }

  ghost predicate Execution<T(!new)>(rules: Rules<T>, trace: seq<State<T>>, steps: seq<Step<T>>) {
    && |trace| == |steps| + 1
    && trace[0] == Start()
    && (forall i :: 0 <= i < |steps| ==> Advances(rules, trace, steps, i))
  }

  ghost predicate Advances<T(!new)>(rules: Rules<T>, trace: seq<State<T>>, steps: seq<Step<T>>, i: nat)
    requires i < |steps| && |trace| == |steps| + 1
  {
    Enabled(trace[i], steps[i]) && trace[i + 1] == Next(rules, trace[i], steps[i])
  }

  // ----- One step keeps the counts right, or is a reckless clear -----

  lemma QuietMeansUnused<T>(st: State<T>)
    ensures Quiet(st) <==> forall p: Ptr :: Users(st, p) == 0
  {
    if !Quiet(st) {
      var p := if st.held != multiset{} then AnyOf(st.held)
               else if st.sending != multiset{} then AnyOf(st.sending)
               else if st.queue != [] then st.queue[0]
               else st.worker.ptr;
      assert st.queue != [] ==> st.queue[0] in multiset(st.queue);
      assert Users(st, p) > 0;
    }
  }

  ghost function AnyOf(m: multiset<Ptr>): (p: Ptr)
    requires m != multiset{}
    ensures p in m
  {
    var p :| p in m;
    p
  }

  /** Whoever is counted is in use, and the other way round. */
  lemma InUseIsReferredTo<T>(st: State<T>)
    requires Counted(st)
    ensures forall p: Ptr :: InUse(st.store, p) <==> Users(st, p) > 0
    ensures AnyInUse(st.store) <==> !Quiet(st)
  {
    hide Users, Quiet, WellFormed;
    QuietMeansUnused(st);
    assert forall p: Ptr :: InUse(st.store, p) <==> Users(st, p) > 0;
    if !Quiet(st) {
      var p: Ptr :| Users(st, p) != 0;
      assert InUse(st.store, p);
    }
  }

  /** A step that adds one reference, and may delete records, keeps the counts right unless it deletes one in use. */
  lemma AddingCounts<T>(st: State<T>, t: State<T>, ptr: Option<Ptr>)
    requires Counted(st) && WellFormed(t.store) && (t.worker.Busy? ==> t.worker == st.worker)
    requires forall p: Ptr :: Users(t, p) == Users(st, p) + if ptr == Some(p) then 1 else 0
    requires ptr.Some? ==> ptr.value in t.store.recs
    requires ptr.Some? ==>
      t.store.recs[ptr.value].refCnt == 1 + if ptr.value in st.store.recs then st.store.recs[ptr.value].refCnt else 0
    requires forall p <- t.store.recs :: ptr == Some(p) || (p in st.store.recs && t.store.recs[p] == st.store.recs[p])
    requires forall p <- t.store.recs :: p in st.store.recs ==> t.store.recs[p].id == st.store.recs[p].id
    ensures Counted(t) <==> !DeletesInUse(st.store, t.store)
  {
    InUseIsReferredTo(st);
    hide WellFormed, AnyInUse, Quiet;
    if DeletesInUse(st.store, t.store) {
      var p: Ptr :| InUse(st.store, p) && p !in t.store.recs;
      assert Users(t, p) > 0;
    } else {
      assert st.worker.Busy? ==> Users(st, st.worker.ptr) > 0;
      hide Users;
      forall p: Ptr ensures Users(t, p) == if p in t.store.recs then t.store.recs[p].refCnt else 0 {
        assert InUse(st.store, p) ==> p in t.store.recs;
      }
    }
  }

  lemma RecklessGetIff<T>(rules: Rules<T>, st: State<T>, step: Step<T>)
    requires step.GetStep?
    requires 0 < rules.margin < TWO_TO_32
    requires Counted(st)
    ensures Reckless(rules, st, step) <==> DeletesInUse(st.store, Get(rules, st.store, step.id, step.queryReady).store)
  {
    hide Get, Overflows, DeletesInUse, AnyInUse, WellFormed, Users, Quiet;
    InUseIsReferredTo(st);
    GetDeletesInUseIff(rules, st.store, step.id, step.queryReady);
    TrimBound(rules, step.id);
  }

  lemma GetCounts<T>(rules: Rules<T>, st: State<T>, step: Step<T>)
    requires step.GetStep?
    requires 0 < rules.margin < TWO_TO_32
    requires Counted(st)
    ensures Counted(Next(rules, st, step)) <==> !Reckless(rules, st, step)
  {
    hide Get, Next, Users, Reckless, Quiet, InUse, DeletesInUse, WellFormed;
    GetAddsOneReference(rules, st.store, step.id, step.queryReady);
    GetUsers(rules, st, step);
    RecklessGetIff(rules, st, step);
    AddingCounts(st, Next(rules, st, step), Get(rules, st.store, step.id, step.queryReady).ptr);
  }

  lemma GetUsers<T>(rules: Rules<T>, st: State<T>, step: Step<T>)
    requires step.GetStep?
    ensures
      var t := Next(rules, st, step);
      var r := Get(rules, st.store, step.id, step.queryReady);
      && t.store == r.store
      && t.worker == st.worker
      && forall p: Ptr :: Users(t, p) == Users(st, p) + if r.ptr == Some(p) then 1 else 0
  {
    hide Get;
  }

  /** Sections that neither create nor delete a record. */
  predicate IsLocal<T>(step: Step<T>) {
    step.PutStep? || step.WriteStep? || step.CountStep? || step.PushStep? || step.PopStep? || step.WorkerPutStep?
  }

  /** The same records, and every count changes by what its number of references changes by. */
  ghost predicate Balanced<T>(st: State<T>, t: State<T>) {
    && t.store.byId == st.store.byId && t.store.recs.Keys == st.store.recs.Keys && t.store.next == st.store.next
    && (forall p <- st.store.recs :: BalancedAt(st, t, p))
    && (forall p: Ptr :: Users(t, p) > Users(st, p) ==> p in st.store.recs)
    && (t.worker.Busy? && t.worker != st.worker ==>
          t.worker.ptr in st.store.recs && st.store.recs[t.worker.ptr].id == t.worker.id)
  }

  predicate BalancedAt<T>(st: State<T>, t: State<T>, p: Ptr)
    requires p in st.store.recs && p in t.store.recs
  {
    && t.store.recs[p].id == st.store.recs[p].id
    && t.store.recs[p].refCnt - st.store.recs[p].refCnt == Users(t, p) - Users(st, p)
  }

  lemma BalancedCounts<T>(st: State<T>, t: State<T>)
    requires Counted(st) && Balanced(st, t)
    ensures Counted(t)
  {
    hide Users;
  }

  lemma PutUsers<T>(rules: Rules<T>, st: State<T>, p: Ptr)
    requires Enabled(st, PutStep(p))
    ensures
      var t := Next(rules, st, PutStep(p));
      && t.store == Put(st.store, p) && t.worker == st.worker && Users(st, p) > 0
      && forall q: Ptr :: Users(t, q) == Users(st, q) - if q == p then 1 else 0
  {
    hide ClearBound, Dropped, Put;
  }

  lemma PutIsBalanced<T>(rules: Rules<T>, st: State<T>, p: Ptr)
    requires Counted(st) && Enabled(st, PutStep(p))
    ensures Balanced(st, Next(rules, st, PutStep(p)))
  {
    PutUsers(rules, st, p);
    hide Next, WellFormed, Users;
    assert st.store.recs[p].refCnt == Users(st, p);
  }

  lemma WriteIsBalanced<T>(rules: Rules<T>, st: State<T>, p: Ptr, data: T)
    requires Counted(st) && Enabled(st, WriteStep(p, data))
    ensures Balanced(st, Next(rules, st, WriteStep(p, data)))
  {
    hide ClearBound, Dropped, WellFormed;
  }

  lemma CountIsBalanced<T>(rules: Rules<T>, st: State<T>, p: Ptr)
    requires Counted(st) && Enabled(st, CountStep(p))
    ensures Balanced(st, Next(rules, st, CountStep(p)))
  {
    hide ClearBound, Dropped, WellFormed;
    assert forall q: Ptr :: Users(Next(rules, st, CountStep(p)), q) == Users(st, q) + if q == p then 1 else 0;
    hide Users;
  }

  lemma PushIsBalanced<T>(rules: Rules<T>, st: State<T>, p: Ptr)
    requires Counted(st) && Enabled(st, PushStep(p))
    ensures Balanced(st, Next(rules, st, PushStep(p)))
  {
    hide ClearBound, Dropped, WellFormed;
  }

  lemma PopIsBalanced<T>(rules: Rules<T>, st: State<T>)
    requires Counted(st) && Enabled(st, PopStep)
    ensures Balanced(st, Next(rules, st, PopStep))
  {
    hide ClearBound, Dropped, WellFormed;
    assert st.queue == [st.queue[0]] + st.queue[1..];
  }

  lemma WorkerPutIsBalanced<T>(rules: Rules<T>, st: State<T>)
    requires Counted(st) && Enabled(st, WorkerPutStep)
    ensures Balanced(st, Next(rules, st, WorkerPutStep))
  {
    hide ClearBound, Dropped, WellFormed;
    assert Users(st, st.worker.ptr) > 0;
  }

  lemma LocalCounts<T>(rules: Rules<T>, st: State<T>, step: Step<T>)
    requires IsLocal(step) && Enabled(st, step)
    requires Counted(st)
    ensures Counted(Next(rules, st, step))
  {
    hide Counted, Next, Balanced;
    match step {
      case PutStep(p) => PutIsBalanced(rules, st, p);
      case WriteStep(p, data) => WriteIsBalanced(rules, st, p, data);
      case CountStep(p) => CountIsBalanced(rules, st, p);
      case PushStep(p) => PushIsBalanced(rules, st, p);
      case PopStep => PopIsBalanced(rules, st);
      case WorkerPutStep => WorkerPutIsBalanced(rules, st);
    }
    BalancedCounts(st, Next(rules, st, step));
  }

  lemma ClearCounts<T>(rules: Rules<T>, st: State<T>, step: Step<T>)
    requires step.WorkerClearStep? || step.ClearStep?
    requires Counted(st) && Enabled(st, step)
    ensures Counted(Next(rules, st, step)) <==> !Reckless(rules, st, step)
  {
    var t := Next(rules, st, step);
    var bound := ClearBound(rules, st, step).value;
    ClearUsers(rules, st, step);
    hide Users, Quiet, Next, Enabled;
    InUseIsReferredTo(st);
    if bound != ALL {
      ClearKeepsExactlyTheRest(rules, st.store, bound);
    }
    assert Reckless(rules, st, step) <==> DeletesInUse(st.store, t.store);
    hide Clear, Reckless, InUse, DeletesInUse, WellFormed;
    AddingCounts(st, t, None);
  }

  lemma ClearUsers<T>(rules: Rules<T>, st: State<T>, step: Step<T>)
    requires step.WorkerClearStep? || step.ClearStep?
    requires Enabled(st, step)
    ensures
      var t := Next(rules, st, step);
      && t.store == Clear(rules, st.store, ClearBound(rules, st, step).value)
      && (t.worker.Busy? ==> t.worker == st.worker)
      && forall p: Ptr :: Users(t, p) == Users(st, p)
  {
    hide Clear, ExpiredIds;
  }

  lemma RestartCounts<T>(rules: Rules<T>, st: State<T>)
    requires Enabled(st, RestartStep)
    ensures Counted(Next(rules, st, RestartStep))
  {
    var t := Next(rules, st, RestartStep);
    assert forall p: Ptr :: Users(t, p) == 0;
  }

  /** From a state with right counts, the next state has right counts unless the step is a reckless clear. */
  lemma StepCountsIff<T>(rules: Rules<T>, st: State<T>, step: Step<T>)
    requires 0 < rules.margin < TWO_TO_32
    requires Counted(st) && Enabled(st, step)
    ensures Counted(Next(rules, st, step)) <==> !Reckless(rules, st, step)
  {
    hide Next, Counted;
    match step
    case GetStep(_, _) => GetCounts(rules, st, step);
    case WorkerClearStep => ClearCounts(rules, st, step);
    case ClearStep(_) => ClearCounts(rules, st, step);
    case RestartStep => RestartCounts(rules, st);
    case _ => LocalCounts(rules, st, step);
  }

  // ----- Over whole runs -----

  /** Over every interleaving without a reckless clear, the counts are right in every state. */
  lemma {:induction false} EveryRunCounts<T(!new)>(rules: Rules<T>, trace: seq<State<T>>, steps: seq<Step<T>>, n: nat)
    requires 0 < rules.margin < TWO_TO_32
    requires Execution(rules, trace, steps)
    requires forall i :: 0 <= i < |steps| ==> !Reckless(rules, trace[i], steps[i])
    requires n < |trace|
    ensures Counted(trace[n])
  {
    hide Counted, Next, Reckless;
    if n == 0 {
      StartIsCounted<T>();
    } else {
      EveryRunCounts(rules, trace, steps, n - 1);
      assert Advances(rules, trace, steps, n - 1);
      StepCountsIff(rules, trace[n - 1], steps[n - 1]);
    }
  }

  lemma StartIsCounted<T>()
    ensures Counted<T>(Start())
  {
    assert forall p: Ptr :: Users<T>(Start(), p) == 0;
  }

  /**
   * A record that is held, being sent, queued or processed has not been deleted, is the record the map
   * has under its own id, and its count is the number of those references.
   */
  lemma ReferredToIsInPlace<T>(st: State<T>, p: Ptr)
    requires Counted(st)
    requires p in st.held || p in st.sending || p in st.queue || (st.worker.Busy? && st.worker.ptr == p)
    ensures p in st.store.recs
    ensures st.store.recs[p].refCnt == Users(st, p) > 0
    ensures st.store.recs[p].id in st.store.byId && st.store.byId[st.store.recs[p].id] == p
  {
    assert p in st.queue ==> p in multiset(st.queue);
    assert Users(st, p) > 0;
  }

  /** A reference is enough to act on: whoever holds a record can use it, send it and put it back. */
  lemma HoldersAreNeverStuck<T>(st: State<T>, p: Ptr, data: T)
    requires Counted(st)
    ensures p in st.held ==> Enabled(st, PutStep(p)) && Enabled(st, WriteStep(p, data)) && Enabled(st, CountStep(p))
    ensures st.worker.Idle? && st.queue != [] ==> Enabled<T>(st, PopStep)
    ensures st.worker.Busy? ==> Enabled<T>(st, WorkerPutStep) && Enabled(st, WriteStep(st.worker.ptr, data))
  {
    if p in st.held {
      ReferredToIsInPlace(st, p);
    }
    if st.queue != [] {
      ReferredToIsInPlace(st, st.queue[0]);
    }
    if st.worker.Busy? {
      ReferredToIsInPlace(st, st.worker.ptr);
    }
  }

  // ----- The reckless clear can be reached -----

  /** Frames margin, margin + 1, .. each looked up once and held, none processed yet. */
  function Backlog<T>(rules: Rules<T>, k: nat): State<T>
    requires 0 < rules.margin && rules.margin + k < TWO_TO_32
  {
    if k == 0 then Start() else Next(rules, Backlog(rules, k - 1), GetStep(rules.margin - 1 + k, true))
  }

  lemma {:induction false} BacklogHolds<T>(rules: Rules<T>, k: nat)
    requires 0 < rules.margin && rules.margin + k < TWO_TO_32
    requires k <= rules.capacity + 1
    ensures |Backlog(rules, k).store.byId| == k && Backlog(rules, k).store.cleared == 0
    ensures forall id <- Backlog(rules, k).store.byId :: rules.margin <= id < rules.margin + k
    ensures |Backlog(rules, k).held| == k
    ensures Counted(Backlog(rules, k))
    decreases k
  {
    hide Counted, Next;
    if k == 0 {
      StartIsCounted<T>();
    } else {
      BacklogHolds(rules, k - 1);
      var st := Backlog(rules, k - 1);
      assert rules.margin - 1 + k !in st.store.byId;
      BacklogStep(rules, st, rules.margin - 1 + k);
    }
  }

  lemma BacklogStep<T>(rules: Rules<T>, st: State<T>, id: uint32)
    requires 0 < rules.margin < TWO_TO_32
    requires Counted(st) && id !in st.store.byId && |st.store.byId| <= rules.capacity && st.store.cleared <= id
    ensures
      var t := Next(rules, st, GetStep(id, true));
      && Counted(t)
      && t.store.byId == st.store.byId[id := st.store.next]
      && t.store.cleared == st.store.cleared
      && t.held == st.held + multiset{st.store.next}
  {
    var step: Step<T> := GetStep(id, true);
    assert !Reckless(rules, st, step);
    GetCounts(rules, st, step);
    hide Counted, Reckless;
  }

  /** One more held frame than the table is meant for, then frame margin - 1: held records are deleted. */
  lemma FrameBelowMarginDeletesHeldRecords<T>(rules: Rules<T>)
    requires 0 < rules.margin && rules.margin + rules.capacity + 1 < TWO_TO_32
    ensures Counted(Backlog(rules, rules.capacity + 1))
    ensures !Counted(Next(rules, Backlog(rules, rules.capacity + 1), GetStep(rules.margin - 1, true)))
  {
    hide Counted, Next, Backlog;
    BacklogHolds(rules, rules.capacity + 1);
    StepCountsIff(rules, Backlog(rules, rules.capacity + 1), GetStep(rules.margin - 1, true));
  }

  // ----- The cleared-id mark -----

  function Newest(ids: set<uint32>): uint32 {
    if ids == {} then 0 else Max(ids)
  }

  lemma NewestOfUnion(a: set<uint32>, b: set<uint32>)
    ensures Newest(a + b) == if Newest(a) < Newest(b) then Newest(b) else Newest(a)
  {
  }

  /** The mark is the largest id that bounded clears have deleted. */
  predicate MarkIsNewestDropped<T>(st: State<T>) {
    st.store.cleared == Newest(st.dropped)
  }

  lemma StepKeepsMark<T>(rules: Rules<T>, st: State<T>, step: Step<T>)
    requires !rules.markIsBound
    requires Enabled(st, step) && MarkIsNewestDropped(st)
    ensures MarkIsNewestDropped(Next(rules, st, step))
    ensures !step.RestartStep? ==> st.store.cleared <= Next(rules, st, step).store.cleared
    ensures !step.RestartStep? ==> st.dropped <= Next(rules, st, step).dropped
  {
    hide Newest, Next, Dropped;
    MarkAfter(rules, st, step);
    hide MarkBound;
    NewestOfUnion(st.dropped, Dropped(rules, st, step));
    NewestIsMark(rules, st.store.cleared, Dropped(rules, st, step));
  }

  /** The bound of the clear that this step makes, if it makes one; otherwise it does not matter. */
  function MarkBound<T>(rules: Rules<T>, st: State<T>, step: Step<T>): uint32 {
    var bound := ClearBound(rules, st, step);
    if bound.Some? then bound.value else 0
  }

  lemma MarkAfter<T>(rules: Rules<T>, st: State<T>, step: Step<T>)
    requires Enabled(st, step)
    ensures
      var t := Next(rules, st, step);
      if step.RestartStep? then t.store.cleared == 0 && t.dropped == {}
      else
        && t.dropped == st.dropped + Dropped(rules, st, step)
        && t.store.cleared
           == NewMark(rules, st.store.cleared, MarkBound(rules, st, step), Dropped(rules, st, step))
  {
    if step.GetStep? {
      MarkAfterGet(rules, st, step);
    } else if step.WorkerClearStep? || step.ClearStep? {
      MarkAfterClear(rules, st.store, MarkBound(rules, st, step));
      hide Clear, ExpiredIds;
    } else {
      MarkStays(rules, st, step);
    }
  }

  /** A clear sets the mark by what it drops, and nothing else does. */
  lemma MarkAfterClear<T>(rules: Rules<T>, s: Store<T>, bound: uint32)
    ensures Clear(rules, s, bound).cleared
         == NewMark(rules, s.cleared, bound, if bound != ALL then ExpiredIds(s, bound) else {})
  {
  }

  lemma MarkAfterGet<T>(rules: Rules<T>, st: State<T>, step: Step<T>)
    requires step.GetStep?
    ensures Get(rules, st.store, step.id, step.queryReady).store.cleared
         == NewMark(rules, st.store.cleared, MarkBound(rules, st, step), Dropped(rules, st, step))
  {
    MarkAfterClear(rules, st.store, ToU32(step.id - rules.margin));
    hide Clear, ExpiredIds;
  }

  lemma MarkStays<T>(rules: Rules<T>, st: State<T>, step: Step<T>)
    requires Enabled(st, step) && !step.GetStep? && !step.WorkerClearStep? && !step.ClearStep?
    ensures
      var t := Next(rules, st, step);
      if step.RestartStep? then t.store.cleared == 0 && t.dropped == {}
      else t.dropped == st.dropped && Dropped(rules, st, step) == {} && t.store.cleared == st.store.cleared
  {
    hide Clear, ExpiredIds;
    assert st.dropped + {} == st.dropped;
    match step
    case PutStep(p) => assert Put(st.store, p).cleared == st.store.cleared;
    case WriteStep(p, data) => assert Write(st.store, p, data).cleared == st.store.cleared;
    case CountStep(p) => assert Retain(st.store, p).cleared == st.store.cleared;
    case WorkerPutStep => assert Put(st.store, st.worker.ptr).cleared == st.store.cleared;
    case RestartStep => assert Next(rules, st, RestartStep).store.cleared == 0;
    case _ =>
  }

  lemma NewestIsMark<T>(rules: Rules<T>, was: uint32, ids: set<uint32>)
    requires !rules.markIsBound
    ensures forall bound: uint32 :: NewMark(rules, was, bound, ids) == if was < Newest(ids) then Newest(ids) else was
    ensures Newest({}) == 0
  {
  }

  /** A record that a lookup creates has no smaller id than the mark it leaves. */
  lemma CreatedAboveMark<T>(rules: Rules<T>, st: State<T>, step: Step<T>)
    requires step.GetStep? && step.id !in st.store.byId
    requires Enabled(st, step)
    requires step.id in Next(rules, st, step).store.byId
    ensures step.id >= Next(rules, st, step).store.cleared
  {
  }

  /** Without a restart in between, the mark only rises and what was dropped stays dropped. */
  lemma {:induction false} MarkRises<T(!new)>(rules: Rules<T>, trace: seq<State<T>>, steps: seq<Step<T>>,
      i: nat, j: nat)
    requires !rules.markIsBound
    requires Execution(rules, trace, steps)
    requires i <= j < |trace|
    requires forall k :: i <= k < j ==> !steps[k].RestartStep?
    ensures MarkIsNewestDropped(trace[i]) && MarkIsNewestDropped(trace[j])
    ensures trace[i].store.cleared <= trace[j].store.cleared
    ensures trace[i].dropped <= trace[j].dropped
    decreases j
  {
    hide Next, MarkIsNewestDropped;
    if i == j {
      MarkAlways(rules, trace, steps, j);
    } else {
      MarkRises(rules, trace, steps, i, j - 1);
      assert Advances(rules, trace, steps, j - 1);
      StepKeepsMark(rules, trace[j - 1], steps[j - 1]);
    }
  }

  lemma {:induction false} MarkAlways<T(!new)>(rules: Rules<T>, trace: seq<State<T>>, steps: seq<Step<T>>, n: nat)
    requires !rules.markIsBound
    requires Execution(rules, trace, steps)
    requires n < |trace|
    ensures MarkIsNewestDropped(trace[n])
  {
    hide Next, MarkIsNewestDropped;
    if n == 0 {
      StartHasMark<T>();
    } else {
      MarkAlways(rules, trace, steps, n - 1);
      assert Advances(rules, trace, steps, n - 1);
      StepKeepsMark(rules, trace[n - 1], steps[n - 1]);
    }
  }

  lemma StartHasMark<T>()
    ensures MarkIsNewestDropped<T>(Start())
  {
  }

  /** In one session, no record is ever created with a smaller id than one that a bounded clear deleted. */
  lemma NothingOlderIsCreated<T(!new)>(rules: Rules<T>, trace: seq<State<T>>, steps: seq<Step<T>>, i: nat,
      j: nat, gone: uint32)
    requires !rules.markIsBound
    requires Execution(rules, trace, steps)
    requires j < |steps| && i <= j + 1
    requires forall k :: i <= k < j ==> !steps[k].RestartStep?
    requires gone in trace[i].dropped
    requires steps[j].GetStep? && steps[j].id !in trace[j].store.byId && steps[j].id in trace[j + 1].store.byId
    ensures gone <= steps[j].id
  {
    hide Next;
    assert Advances(rules, trace, steps, j);
    MarkRises(rules, trace, steps, i, j + 1);
    CreatedAboveMark(rules, trace[j], steps[j]);
  }
}
