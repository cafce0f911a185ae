/**
 * When a group result is complete, and what is then queued for reprocessing. One step is one section under
 * the mutex, one queue operation, one look at the state of the group, or the unlocked change of a late
 * record; steps of all threads interleave freely. The references to records follow ResultRefs.
 */
module CamGroupResults {
  import opened Words
  import opened Options
  import opened Cameras
  import opened RecordStore
  import Refs = ResultRefs

  type Bit = b: nat | b < 64

  /** What one camera has delivered: the bits of its messages and of its algorithm results. */
  datatype CamStatus = CamStatus(msgs: set<Bit>, algos: set<Bit>, ready: bool)

  /** A group result: the cameras that are done, and the status of those that delivered something. */
  datatype Result = Result(cams: set<Cam>, status: map<Cam, CamStatus>, ready: bool)

  /** The bound cameras, the required messages and results, and the messages that carry statistics. */
  datatype Group = Group(cams: set<Cam>, msgs: set<Bit>, algos: set<Bit>, stats: set<Bit>)

  datatype Source = Core(msg: Bit) | Algo(kind: Bit)

  /** One delivery by one camera. */
  datatype Report = Report(cam: Cam, source: Source, frame: uint32)

  /** An entry in the history of what was queued, with the contents at that time. */
  datatype Sent = Sent(ptr: Ptr, id: uint32, forced: bool, data: Result)

  /** Between start and stop, and inside stop, before it clears. */
  datatype Phase = Stopped | Started | Stopping

  /**
   * What a completion found of the frame before: no record, one that was ready, one that it was not to force
   * because the group did not run, or one that it forced and queued.
   */
  datatype Before = NoRecord | WasReady(ptr: Ptr) | Spared(ptr: Ptr) | SentFirst(ptr: Ptr)

  /**
   * How far a thread has come that made a record ready: late is the record of the frame before, which it
   * looks up, forces, counts, pushes and puts back; then it counts and pushes its own record.
   */
  datatype Stage =
    | Completed
    | Looked(late: Ptr)
    | Chosen(late: Ptr)
    | Declared(late: Ptr)
    | LateCounted(late: Ptr)
    | Returning(late: Ptr, sent: bool)
    | Alone(before: Before)
    | Willing(before: Before)
    | OwnCounted(before: Before)

  /**
   * calls are the completions in progress, by the record that was completed. The rest is history since the
   * last stop: what was queued and delivered; the records that were forced; those completed while another
   * thread had them as late record; those that were completed, or after such a clash not forced, because the
   * group did not run; and those made for an id that was queued before.
   */
  datatype State = State(refs: Refs.State<Result>,
                         phase: Phase,
                         calls: map<Ptr, Stage>,
                         log: seq<Sent>,
                         reports: set<Report>,
                         written: set<Ptr>,
                         clashed: set<Ptr>,
                         missed: set<Ptr>,
                         spared: set<Ptr>,
                         again: set<Ptr>)

  /** Advance is the next section of the completion of this record. */
  datatype Step =
    | LookUp(id: uint32)
    | Mark(ptr: Ptr, report: Report)
    | SetReady(ptr: Ptr, cam: Cam)
    | Advance(ptr: Ptr)
    | PutBack(ptr: Ptr)
    | Pop
    | WorkerPut
    | WorkerClear
    | Begin
    | Halt
    | ClearAll

  const Blank := Result({}, map[], false)

  const ResultRules: Rules<Result> := Rules(12, 4, false, Blank, (r: Result) => r.ready)

  function Start(): State {
    State(Refs.Start(), Stopped, map[], [], {}, {}, {}, {}, {}, {})
  }

  // ----- The contents of a record -----

  function StatusOf(r: Result, cam: Cam): CamStatus {
    if cam in r.status then r.status[cam] else CamStatus({}, {}, false)
  }

  /** Statistics of a frame are filed with the frame they influence, two later. */
  function FiledUnder(g: Group, report: Report): uint32 {
    if report.source.Core? && report.source.msg in g.stats then ToU32(report.frame + 2) else report.frame
  }

  function Marked(r: Result, report: Report): Result {
    var was := StatusOf(r, report.cam);
    var now :=
      match report.source
      case Core(m) => was.(msgs := was.msgs + {m})
      case Algo(k) => was.(algos := was.algos + {k});
    r.(status := r.status[report.cam := now])
  }

  predicate HasAll(g: Group, s: CamStatus) {
    g.msgs <= s.msgs && g.algos <= s.algos
  }

  function CamDone(g: Group, r: Result, cam: Cam): Result {
    if HasAll(g, StatusOf(r, cam))
    then Result(r.cams + {cam}, r.status[cam := StatusOf(r, cam).(ready := true)], r.ready || r.cams + {cam} == g.cams)
    else r
  }

  predicate Completes(g: Group, r: Result, cam: Cam) {
    !r.ready && CamDone(g, r, cam).ready
  }

  /** A late record is declared ready; its two masks are stored the other way round. */
  function Forced(g: Group, r: Result): Result {
    Result(g.cams,
           map c | c in r.status.Keys + g.cams ::
             if c in g.cams then StatusOf(r, c).(algos := g.msgs, msgs := g.algos) else r.status[c],
           true)
  }

  // ----- Steps -----

  function Queued(log: seq<Sent>): set<Ptr> {
    set i | 0 <= i < |log| :: log[i].ptr
  }

  /** The records that were pushed by the thread that completed them, and by one that forced them. */
  function OwnSent(log: seq<Sent>): set<Ptr> {
    set i | 0 <= i < |log| && !log[i].forced :: log[i].ptr
  }

  function ForcedSent(log: seq<Sent>): set<Ptr> {
    set i | 0 <= i < |log| && log[i].forced :: log[i].ptr
  }

  function QueuedIds(log: seq<Sent>): set<uint32> {
    set i | 0 <= i < |log| :: log[i].id
  }

  function ReadyIn(s: Store<Result>): set<Ptr> {
    set p | p in s.recs && s.recs[p].data.ready
  }

  /** The late record of a completion, until it is pushed. */
  predicate Takes(stage: Stage, q: Ptr) {
    (stage.Looked? || stage.Chosen? || stage.Declared? || stage.LateCounted?) && stage.late == q
  }

  /** The completion has looked the late record up, and not yet forced it. */
  predicate TakesEarly(stage: Stage, q: Ptr) {
    (stage.Looked? || stage.Chosen?) && stage.late == q
  }

  predicate HoldsLate(stage: Stage, q: Ptr) {
    Takes(stage, q) || (stage.Returning? && stage.late == q)
  }

  /** The references that completions in progress need. */
  function Needed(st: State, p: Ptr): nat {
    (if p in st.calls then 1 else 0) + |set r | r in st.calls && HoldsLate(st.calls[r], p)|
  }

  /** Some completion has p as its late record, and has not forced it. */
  predicate IsTakenEarly(st: State, p: Ptr) {
    exists r <- st.calls :: TakesEarly(st.calls[r], p)
  }

  predicate IsLive(st: State, p: Ptr) {
    p in st.refs.store.recs
  }

  /** Some thread refers to p that is not busy completing a record. */
  predicate IsFree(st: State, p: Ptr) {
    IsLive(st, p) && st.refs.held[p] > Needed(st, p)
  }

  predicate CanAdvance(st: State, p: Ptr) {
    && p in st.calls && IsLive(st, p)
    && match st.calls[p]
       case Completed => true
       case Looked(q) => IsLive(st, q)
       case Chosen(q) => q in st.refs.held && IsLive(st, q)
       case Declared(q) => q in st.refs.held && IsLive(st, q)
       case LateCounted(q) => q in st.refs.sending && IsLive(st, q)
       case Returning(q, _) => q in st.refs.held && IsLive(st, q)
       case Alone(_) => true
       case Willing(_) => p in st.refs.held
       case OwnCounted(_) => p in st.refs.sending
  }

  predicate Enabled(g: Group, st: State, step: Step) {
    match step
    case LookUp(_) => true
    case Mark(p, report) =>
      && IsFree(st, p)
      && st.refs.store.recs[p].id == FiledUnder(g, report)
      && (report.source.Core? ==> report.source.msg in g.msgs)
    case SetReady(p, _) => IsFree(st, p)
    case Advance(p) => CanAdvance(st, p)
    case PutBack(p) => IsFree(st, p)
    case Pop => Refs.Enabled<Result>(st.refs, Refs.PopStep)
    case WorkerPut => Refs.Enabled<Result>(st.refs, Refs.WorkerPutStep)
    case WorkerClear => Refs.Enabled<Result>(st.refs, Refs.WorkerClearStep)
    case Begin => st.phase.Stopped?
    case Halt => st.phase.Started?
    case ClearAll => !st.phase.Started? && st.calls == map[] && Refs.Enabled<Result>(st.refs, Refs.RestartStep)
  }

  /** A lookup that makes a record for an id that was queued before. */
  predicate MakesAgain(st: State, id: uint32) {
    id !in st.refs.store.byId && id in QueuedIds(st.log) && Get(ResultRules, st.refs.store, id, true).ptr.Some?
  }

  function AgainAfter(st: State, id: uint32): set<Ptr> {
    if MakesAgain(st, id) then st.again + {Get(ResultRules, st.refs.store, id, true).ptr.value} else st.again
  }

  /** The frame before that of record p. */
  function IdBefore(st: State, p: Ptr): uint32
    requires IsLive(st, p)
  {
    ToU32(st.refs.store.recs[p].id - 1)
  }

  /** The record of the frame before, if it exists and is not ready. */
  function Late(st: State, p: Ptr): Option<Ptr>
    requires IsLive(st, p)
  {
    Get(ResultRules, st.refs.store, IdBefore(st, p), false).ptr
  }

  /** What the section of a step does to the references, if it touches them. */
  function RefsStep(g: Group, st: State, step: Step): Option<Refs.Step<Result>>
    requires Enabled(g, st, step)
  {
    match step
    case LookUp(id) => Some(Refs.GetStep(id, true))
    case Mark(p, report) => Some(Refs.WriteStep(p, Marked(st.refs.store.recs[p].data, report)))
    case SetReady(p, cam) => Some(Refs.WriteStep(p, CamDone(g, st.refs.store.recs[p].data, cam)))
    case Advance(p) =>
      (match st.calls[p]
       case Completed => Some(Refs.GetStep(IdBefore(st, p), false))
       case Chosen(q) => Some(Refs.WriteStep(q, Forced(g, st.refs.store.recs[q].data)))
       case Declared(q) => Some(Refs.CountStep(q))
       case LateCounted(q) => Some(Refs.PushStep(q))
       case Returning(q, _) => Some(Refs.PutStep(q))
       case Willing(_) => Some(Refs.CountStep(p))
       case OwnCounted(_) => Some(Refs.PushStep(p))
       case _ => None)
    case PutBack(p) => Some(Refs.PutStep(p))
    case Pop => Some(Refs.PopStep)
    case WorkerPut => Some(Refs.WorkerPutStep)
    case WorkerClear => Some(Refs.WorkerClearStep)
    case Begin => None
    case Halt => None
    case ClearAll => Some(Refs.RestartStep)
  }

  function RefsAfter(g: Group, st: State, step: Step): Refs.State<Result>
    requires Enabled(g, st, step)
  {
    var section := RefsStep(g, st, step);
    if section.Some? then Refs.Next(ResultRules, st.refs, section.value)
    else if step.Begin? then st.refs.(queue := [])
    else st.refs
  }

  /** Where a completion goes from its stage. */
  function StageAfter(st: State, p: Ptr): Option<Stage>
    requires CanAdvance(st, p)
  {
    match st.calls[p]
    case Completed =>
      if Late(st, p).Some? then Some(Looked(Late(st, p).value))
      else if IdBefore(st, p) in st.refs.store.byId then Some(Alone(WasReady(st.refs.store.byId[IdBefore(st, p)])))
      else Some(Alone(NoRecord))
    case Looked(q) => Some(if st.phase.Started? then Chosen(q) else Returning(q, false))
    case Chosen(q) => Some(Declared(q))
    case Declared(q) => Some(LateCounted(q))
    case LateCounted(q) => Some(Returning(q, true))
    case Returning(q, sent) => Some(Alone(if sent then SentFirst(q) else Spared(q)))
    case Alone(before) => if st.phase.Started? then Some(Willing(before)) else None
    case Willing(before) => Some(OwnCounted(before))
    case OwnCounted(_) => None
  }

  function EntryFor(st: State, p: Ptr, forced: bool): Sent
    requires IsLive(st, p)
  {
    Sent(p, st.refs.store.recs[p].id, forced, st.refs.store.recs[p].data)
  }

  /** One section of a completion; what it does to the references is in RefsAfter. */
  function Advanced(st: State, p: Ptr): State
    requires CanAdvance(st, p)
  {
    var after := StageAfter(st, p);
    var t := st.(calls := if after.Some? then st.calls[p := after.value] else st.calls - {p});
    match st.calls[p]
    case Looked(q) => t.(spared := if !st.phase.Started? && q in st.clashed then st.spared + {q} else st.spared)
    case Chosen(q) => t.(written := st.written + {q})
    case LateCounted(q) => t.(log := st.log + [EntryFor(st, q, true)])
    case Alone(_) => t.(missed := if st.phase.Started? then st.missed else st.missed + {p})
    case OwnCounted(_) => t.(log := st.log + [EntryFor(st, p, false)])
    case _ => t
  }

  function Next(g: Group, st: State, step: Step): State
    requires Enabled(g, st, step)
  {
    var refs := RefsAfter(g, st, step);
    match step
    case LookUp(id) => st.(refs := refs, again := AgainAfter(st, id))
    case Mark(_, report) => st.(refs := refs, reports := st.reports + {report})
    case SetReady(p, cam) =>
      if Completes(g, st.refs.store.recs[p].data, cam) then
        st.(refs := refs, calls := st.calls[p := Completed],
            clashed := if IsTakenEarly(st, p) then st.clashed + {p} else st.clashed)
      else st.(refs := refs)
    case Advance(p) => Advanced(st, p).(refs := refs)
    case PutBack(_) => st.(refs := refs)
    case Pop => st.(refs := refs)
    case WorkerPut => st.(refs := refs)
    case WorkerClear => st.(refs := refs)
    case Begin => st.(refs := refs, phase := Started)
    case Halt => st.(phase := Stopping)
    case ClearAll => Start().(refs := refs)
  }
}
