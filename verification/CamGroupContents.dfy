/** What every section of every completion keeps about contents, deliveries, and the queue history. */
module CamGroupContents {
  import opened Words
  import opened Options
  import opened Cameras
  import opened RecordStore
  import opened CamGroupResults
  import opened CamGroupInvariant
  import Refs = ResultRefs

  // ----- The contents of a record stand for deliveries -----

  /** The frame whose delivery is filed under id. */
  function FrameOf(g: Group, source: Source, id: uint32): uint32 {
    if source.Core? && source.msg in g.stats then ToU32(id - 2) else id
  }

  /** The deliveries that the bits of one camera stand for. */
  predicate Backed(g: Group, reports: set<Report>, id: uint32, cam: Cam, s: CamStatus) {
    && (forall m <- s.msgs :: Report(cam, Core(m), FrameOf(g, Core(m), id)) in reports)
    && (forall k <- s.algos :: Report(cam, Algo(k), FrameOf(g, Algo(k), id)) in reports)
  }

  /** Every bit stands for a delivery, and a camera is only counted as done when it has delivered everything. */
  predicate Honest(g: Group, reports: set<Report>, id: uint32, r: Result) {
    && (forall c <- r.status :: Backed(g, reports, id, c, r.status[c]))
    && (forall c <- r.cams :: HasAll(g, StatusOf(r, c)))
  }

  /** Every bound camera has delivered everything that is required for the frame of this id. */
  predicate AllDelivered(g: Group, reports: set<Report>, id: uint32) {
    forall c <- g.cams ::
      && (forall m <- g.msgs :: Report(c, Core(m), FrameOf(g, Core(m), id)) in reports)
      && (forall k <- g.algos :: Report(c, Algo(k), FrameOf(g, Algo(k), id)) in reports)
  }

  predicate DataOk(g: Group, st: State, p: Ptr)
    requires IsLive(st, p)
  {
    var r := st.refs.store.recs[p];
    && (p !in st.written ==> Honest(g, st.reports, r.id, r.data))
    && (p in st.calls ==> AllDelivered(g, st.reports, r.id) && (p !in st.written ==> g.cams <= r.data.cams))
  }

  /**
   * An entry pushed by the completing thread was delivered in full; unless another thread had the record as
   * its late one, it also holds everything.
   */
  predicate EntryOk(g: Group, st: State, e: Sent) {
    && (IsLive(st, e.ptr) ==> st.refs.store.recs[e.ptr].id == e.id)
    && e.ptr < st.refs.store.next
    && (!e.forced ==>
          && AllDelivered(g, st.reports, e.id)
          && (e.ptr !in st.clashed ==> g.cams <= e.data.cams && Honest(g, st.reports, e.id, e.data)))
  }

  ghost predicate Contents(g: Group, st: State) {
    && (forall p <- st.refs.store.recs :: DataOk(g, st, p))
    && (forall e <- st.log :: EntryOk(g, st, e))
  }

  lemma BackedStays(g: Group, before: set<Report>, after: set<Report>, id: uint32, r: Result)
    requires before <= after
    ensures Honest(g, before, id, r) ==> Honest(g, after, id, r)
    ensures AllDelivered(g, before, id) ==> AllDelivered(g, after, id)
  {
  }

  lemma BlankIsHonest(g: Group, reports: set<Report>, id: uint32)
    ensures Honest(g, reports, id, Blank)
  {
  }

  lemma MarkIsHonest(g: Group, reports: set<Report>, id: uint32, r: Result, report: Report)
    requires Honest(g, reports, id, r)
    requires FiledUnder(g, report) == id
    ensures Honest(g, reports + {report}, id, Marked(r, report))
  {
    var now := Marked(r, report);
    assert report.frame == FrameOf(g, report.source, id);
    forall c | c in now.status ensures Backed(g, reports + {report}, id, c, now.status[c]) {
      assert c in r.status ==> Backed(g, reports, id, c, r.status[c]);
      assert report == Report(report.cam, report.source, FrameOf(g, report.source, id));
    }
    assert forall c <- r.cams :: HasAll(g, StatusOf(r, c));
  }

  lemma DoneIsHonest(g: Group, reports: set<Report>, id: uint32, r: Result, cam: Cam)
    requires Honest(g, reports, id, r)
    ensures Honest(g, reports, id, CamDone(g, r, cam))
    ensures r.cams <= CamDone(g, r, cam).cams
  {
    var now := CamDone(g, r, cam);
    forall c | c in now.status ensures Backed(g, reports, id, c, now.status[c]) {
      assert c in r.status ==> Backed(g, reports, id, c, r.status[c]);
    }
    forall c | c in now.cams ensures HasAll(g, StatusOf(now, c)) {
      assert c in r.cams ==> HasAll(g, StatusOf(r, c));
    }
  }

  lemma CompleteIsDelivered(g: Group, reports: set<Report>, id: uint32, r: Result)
    requires Honest(g, reports, id, r) && g.cams <= r.cams
    ensures AllDelivered(g, reports, id)
  {
    forall c | c in g.cams
      ensures forall m <- g.msgs :: Report(c, Core(m), FrameOf(g, Core(m), id)) in reports
      ensures forall k <- g.algos :: Report(c, Algo(k), FrameOf(g, Algo(k), id)) in reports
    {
      assert HasAll(g, StatusOf(r, c));
      assert c in r.status ==> Backed(g, reports, id, c, r.status[c]);
    }
  }

  /** What a step does to the contents of a record that stays. */
  function DataAfter(g: Group, st: State, step: Step, p: Ptr): Result
    requires Enabled(g, st, step) && IsLive(st, p)
  {
    var data := st.refs.store.recs[p].data;
    if step.Mark? && step.ptr == p then Marked(data, step.report)
    else if step.SetReady? && step.ptr == p then CamDone(g, data, step.cam)
    else if step.Advance? && st.calls[step.ptr] == Chosen(p) then Forced(g, data)
    else data
  }

  predicate RecordAfter(g: Group, st: State, step: Step, t: Store<Result>, p: Ptr)
    requires Enabled(g, st, step) && p in t.recs
  {
    if IsLive(st, p) then t.recs[p].id == st.refs.store.recs[p].id && t.recs[p].data == DataAfter(g, st, step, p)
    else st.refs.store.next <= p < t.next && t.recs[p].data == Blank
  }

  /** The contents after a section: what it writes, what was there, or blank for a new record. */
  predicate Written(s: Store<Result>, section: Refs.Step<Result>, t: Store<Result>, p: Ptr)
    requires p in t.recs
  {
    if p in s.recs then
      && t.recs[p].id == s.recs[p].id
      && t.recs[p].data == if section.WriteStep? && section.ptr == p then section.data else s.recs[p].data
    else s.next <= p < t.next && t.recs[p].data == Blank
  }

  ghost predicate AllWritten(s: Store<Result>, section: Refs.Step<Result>, t: Store<Result>) {
    s.next <= t.next && forall p <- t.recs :: Written(s, section, t, p)
  }

  lemma PutWrites(s: Store<Result>, section: Refs.Step<Result>, p: Ptr)
    requires p in s.recs && !section.WriteStep?
    ensures AllWritten(s, section, Put(s, p)) && AllWritten(s, section, Retain(s, p)) && AllWritten(s, section, s)
  {
  }

  lemma GetWrites(s: Store<Result>, section: Refs.Step<Result>, id: uint32, queryReady: bool)
    requires WellFormed(s) && !section.WriteStep?
    ensures AllWritten(s, section, Get(ResultRules, s, id, queryReady).store)
  {
    GetAddsOneReference(ResultRules, s, id, queryReady);
    GetCreatesBlank(ResultRules, s, id, queryReady);
    hide Get, WellFormed;
  }

  lemma ClearWrites(s: Store<Result>, section: Refs.Step<Result>, bound: uint32)
    requires WellFormed(s) && !section.WriteStep?
    ensures AllWritten(s, section, Clear(ResultRules, s, bound))
  {
    if bound != ALL {
      ClearKeepsExactlyTheRest(ResultRules, s, bound);
    }
  }

  lemma WriteWrites(s: Store<Result>, p: Ptr, data: Result)
    requires p in s.recs
    ensures AllWritten(s, Refs.WriteStep(p, data), Write(s, p, data))
  {
  }

  /** What a section does to the table. */
  function StoreAfter(refs: Refs.State<Result>, section: Refs.Step<Result>): Store<Result>
    requires Refs.Enabled(refs, section)
  {
    match section
    case GetStep(id, queryReady) => Get(ResultRules, refs.store, id, queryReady).store
    case PutStep(p) => Put(refs.store, p)
    case WriteStep(p, data) => Write(refs.store, p, data)
    case CountStep(p) => Retain(refs.store, p)
    case PushStep(_) => refs.store
    case PopStep => refs.store
    case WorkerPutStep => Put(refs.store, refs.worker.ptr)
    case WorkerClearStep => Clear(ResultRules, refs.store, refs.worker.id)
    case ClearStep(bound) => Clear(ResultRules, refs.store, bound)
    case RestartStep => Clear(ResultRules, refs.store, ALL).(cleared := 0)
  }

  lemma StoreAfterIsNext(refs: Refs.State<Result>, section: Refs.Step<Result>)
    requires Refs.Enabled(refs, section)
    ensures Refs.Next(ResultRules, refs, section).store == StoreAfter(refs, section)
  {
    hide Get, Put, Write, Retain, Clear, Refs.Dropped;
  }

  lemma SectionWrites(refs: Refs.State<Result>, section: Refs.Step<Result>)
    requires WellFormed(refs.store) && Refs.Enabled(refs, section) && !section.RestartStep?
    ensures AllWritten(refs.store, section, Refs.Next(ResultRules, refs, section).store)
  {
    StoreAfterIsNext(refs, section);
    hide WellFormed, AllWritten, Get, Put, Write, Retain, Clear, Refs.Next;
    match section
    case GetStep(id, queryReady) => GetWrites(refs.store, section, id, queryReady);
    case PutStep(p) => PutWrites(refs.store, section, p);
    case WriteStep(p, data) => WriteWrites(refs.store, p, data);
    case CountStep(p) => PutWrites(refs.store, section, p);
    case PushStep(_) => NothingWrites(refs.store, section);
    case PopStep => NothingWrites(refs.store, section);
    case WorkerPutStep => PutWrites(refs.store, section, refs.worker.ptr);
    case WorkerClearStep => ClearWrites(refs.store, section, refs.worker.id);
    case ClearStep(bound) => ClearWrites(refs.store, section, bound);
  }

  lemma NothingWrites(s: Store<Result>, section: Refs.Step<Result>)
    requires !section.WriteStep?
    ensures AllWritten(s, section, s)
  {
  }

  lemma SectionIsEnabled(g: Group, st: State, step: Step)
    requires Enabled(g, st, step)
    ensures Next(g, st, step).refs == RefsAfter(g, st, step)
    ensures RefsStep(g, st, step).Some? ==> Refs.Enabled(st.refs, RefsStep(g, st, step).value)
  {
    hide Refs.Next, Get, Forced, Marked, CamDone;
  }

  /** The section that a step consists of; one that leaves the table alone stands for none. */
  function SectionOf(g: Group, st: State, step: Step): Refs.Step<Result>
    requires Enabled(g, st, step)
  {
    if RefsStep(g, st, step).Some? then RefsStep(g, st, step).value else Refs.PopStep
  }

  lemma SectionContents(g: Group, st: State, step: Step, p: Ptr)
    requires Enabled(g, st, step) && IsLive(st, p)
    ensures
      var section := SectionOf(g, st, step);
      DataAfter(g, st, step, p)
      == if section.WriteStep? && section.ptr == p then section.data else st.refs.store.recs[p].data
  {
    hide Marked, CamDone, Forced, Get, Late;
  }

  lemma StepWrites(g: Group, st: State, step: Step)
    requires WellFormed(st.refs.store) && Enabled(g, st, step) && !step.ClearAll?
    ensures AllWritten(st.refs.store, SectionOf(g, st, step), Next(g, st, step).refs.store)
  {
    SectionIsEnabled(g, st, step);
    if RefsStep(g, st, step).Some? {
      NoRestart(g, st, step);
      SectionWrites(st.refs, RefsStep(g, st, step).value);
    } else {
      NothingWrites(st.refs.store, Refs.PopStep);
    }
    hide Next, Refs.Next, Refs.Enabled, RefsStep, AllWritten, WellFormed;
  }

  lemma NoRestart(g: Group, st: State, step: Step)
    requires Enabled(g, st, step) && !step.ClearAll? && RefsStep(g, st, step).Some?
    ensures !RefsStep(g, st, step).value.RestartStep?
  {
    hide Marked, CamDone, Forced, Get, Late;
  }

  lemma TableAfter(g: Group, st: State, step: Step)
    requires WellFormed(st.refs.store) && Enabled(g, st, step) && !step.ClearAll?
    ensures st.refs.store.next <= Next(g, st, step).refs.store.next
    ensures forall p <- Next(g, st, step).refs.store.recs :: RecordAfter(g, st, step, Next(g, st, step).refs.store, p)
  {
    var t := Next(g, st, step).refs.store;
    StepWrites(g, st, step);
    hide Next, Enabled, SectionOf, DataAfter, WellFormed;
    forall p | p in t.recs ensures RecordAfter(g, st, step, t, p) {
      assert Written(st.refs.store, SectionOf(g, st, step), t, p);
      if IsLive(st, p) {
        SectionContents(g, st, step, p);
      }
    }
  }

  /** What a step does to the histories. */
  lemma HistoryAfter(g: Group, st: State, step: Step)
    requires Enabled(g, st, step) && !step.ClearAll?
    ensures
      var t := Next(g, st, step);
      && st.reports <= t.reports && st.clashed <= t.clashed && st.written <= t.written
      && (step.Mark? ==> t.reports == st.reports + {step.report})
      && (forall q :: step.Advance? && st.calls[step.ptr] == Chosen(q) ==> q in t.written)
      && (forall p <- t.calls :: p in st.calls ||
            (step.SetReady? && step.ptr == p && Completes(g, st.refs.store.recs[p].data, step.cam)))
  {
    hide Marked, CamDone, Forced, Get, Clear, ExpiredIds;
  }

  lemma DataStaysOk(g: Group, st: State, step: Step, p: Ptr)
    requires Base(st) && Contents(g, st) && Enabled(g, st, step) && !step.ClearAll?
    requires IsLive(Next(g, st, step), p)
    ensures DataOk(g, Next(g, st, step), p)
  {
    var t := Next(g, st, step);
    TableAfter(g, st, step);
    HistoryAfter(g, st, step);
    assert RecordAfter(g, st, step, t.refs.store, p);
    assert PtrOk(st, p);
    hide Next, WellFormed, Honest, AllDelivered, Queued, OwnSent, ForcedSent, Marked, CamDone, Forced, StageOk;
    if IsLive(st, p) {
      var r := st.refs.store.recs[p];
      assert DataOk(g, st, p);
      BackedStays(g, st.reports, t.reports, r.id, r.data);
      if step.Mark? && step.ptr == p && p !in t.written {
        MarkIsHonest(g, st.reports, r.id, r.data, step.report);
        MarkKeepsCams(r.data, step.report);
      } else if step.SetReady? && step.ptr == p && p !in t.written {
        DoneIsHonest(g, st.reports, r.id, r.data, step.cam);
        BackedStays(g, st.reports, t.reports, r.id, CamDone(g, r.data, step.cam));
        if Completes(g, r.data, step.cam) {
          CompletesAll(g, r.data, step.cam);
          CompleteIsDelivered(g, t.reports, r.id, CamDone(g, r.data, step.cam));
        }
      }
    } else {
      BlankIsHonest(g, t.reports, t.refs.store.recs[p].id);
    }
  }

  lemma MarkKeepsCams(r: Result, report: Report)
    ensures Marked(r, report).cams == r.cams
  {
  }

  lemma CompletesAll(g: Group, r: Result, cam: Cam)
    requires Completes(g, r, cam)
    ensures CamDone(g, r, cam).cams == g.cams
  {
  }

  /** The entry that a step adds to the queue history, if it adds one. */
  function Pushed(g: Group, st: State, step: Step): seq<Sent>
    requires Enabled(g, st, step)
  {
    if !step.Advance? then []
    else
      match st.calls[step.ptr]
      case LateCounted(q) => [EntryFor(st, q, true)]
      case OwnCounted(_) => [EntryFor(st, step.ptr, false)]
      case _ => []
  }

  lemma LogAfter(g: Group, st: State, step: Step)
    requires Enabled(g, st, step) && !step.ClearAll?
    ensures Next(g, st, step).log == st.log + Pushed(g, st, step)
    ensures Pushed(g, st, step) != [] ==> Next(g, st, step).refs.store == st.refs.store
    ensures Pushed(g, st, step) != [] ==>
              Next(g, st, step).reports == st.reports && Next(g, st, step).clashed == st.clashed
  {
    hide Marked, CamDone, Forced, Get, Clear, ExpiredIds;
  }

  lemma EntryStaysOk(g: Group, st: State, step: Step, e: Sent)
    requires Base(st) && Contents(g, st) && Enabled(g, st, step) && !step.ClearAll?
    requires e in Next(g, st, step).log
    ensures EntryOk(g, Next(g, st, step), e)
  {
    var t := Next(g, st, step);
    LogAfter(g, st, step);
    TableAfter(g, st, step);
    HistoryAfter(g, st, step);
    hide Honest, AllDelivered, Queued, OwnSent, ForcedSent, StageOk, Next;
    if e in st.log {
      assert EntryOk(g, st, e);
      BackedStays(g, st.reports, t.reports, e.id, e.data);
      if IsLive(t, e.ptr) {
        assert RecordAfter(g, st, step, t.refs.store, e.ptr);
      }
    } else {
      var p := e.ptr;
      assert e in Pushed(g, st, step) && IsLive(st, p);
      assert PtrOk(st, p) && DataOk(g, st, p);
    }
  }

  lemma StepKeepsContents(g: Group, st: State, step: Step)
    requires Base(st) && Contents(g, st) && Enabled(g, st, step)
    ensures Contents(g, Next(g, st, step))
  {
    hide Base, DataOk, EntryOk;
    if step.ClearAll? {
      NothingIsLeft(g, st);
    } else {
      hide Next, Enabled, Contents;
      forall p | p in Next(g, st, step).refs.store.recs ensures DataOk(g, Next(g, st, step), p) {
        DataStaysOk(g, st, step, p);
      }
      forall e | e in Next(g, st, step).log ensures EntryOk(g, Next(g, st, step), e) {
        EntryStaysOk(g, st, step, e);
      }
      ContentsIf(g, Next(g, st, step));
    }
  }

  lemma NothingIsLeft(g: Group, st: State)
    requires Enabled(g, st, ClearAll)
    ensures
      var t := Next(g, st, ClearAll);
      t == Start().(refs := t.refs) && t.refs.store.recs == map[] && t.refs.queue == []
  {
  }

  lemma ContentsIf(g: Group, st: State)
    requires forall p <- st.refs.store.recs :: DataOk(g, st, p)
    requires forall e <- st.log :: EntryOk(g, st, e)
    ensures Contents(g, st)
  {
  }
}
