/**
 * The table of reference-counted per-frame records that the camera group keeps behind one mutex. The
 * group has two of them, for results and for SOF events; they differ in the Rules.
 */
module RecordStore {
  import opened Words
  import opened Options

  /** Where a record lives. Memory is explicit, so that using a deleted record can be told apart. */
  type Ptr = nat

  datatype Slot<+T> = Slot(id: uint32, refCnt: nat, data: T)

  /** byId is the map of records, recs the records not yet deleted, cleared the cleared-id mark. */
  datatype Store<+T> = Store(byId: map<uint32, Ptr>, recs: map<Ptr, Slot<T>>, next: Ptr, cleared: uint32)

  /**
   * More than capacity records make a new frame clear what is older by margin. After a clear the mark
   * is the bound itself, or else the largest id deleted so far.
   */
  datatype Rules<!T> = Rules(capacity: nat, margin: nat, markIsBound: bool, blank: T, ready: T -> bool)

  /** The bound that deletes every record, whoever holds it. */
  const ALL: uint32 := 0xffff_ffff

  ghost predicate WellFormed<T>(s: Store<T>) {
    && (forall id <- s.byId :: s.byId[id] in s.recs && s.recs[s.byId[id]].id == id)
    && (forall p <- s.recs :: s.recs[p].id in s.byId && s.byId[s.recs[p].id] == p && p < s.next)
  }

  // ----- What each operation does to the table -----

  function Empty<T>(): Store<T> {
    Store(map[], map[], 0, 0)
  }

  predicate Expired<T>(s: Store<T>, bound: uint32, id: uint32) {
    id in s.byId && id <= bound && s.byId[id] in s.recs && s.recs[s.byId[id]].refCnt == 0
  }

  /** The ids that a bounded clear deletes. */
  function ExpiredIds<T>(s: Store<T>, bound: uint32): set<uint32> {
    set id | id in s.byId && Expired(s, bound, id)
  }

  function NewMark<T>(rules: Rules<T>, was: uint32, bound: uint32, ids: set<uint32>): uint32 {
    if ids == {} then was
    else if rules.markIsBound then bound
    else if Max(ids) > was then Max(ids) else was
  }

  /** The table after the records of these ids were deleted by a clear up to bound. */
  function Deleted<T>(rules: Rules<T>, s: Store<T>, bound: uint32, ids: set<uint32>): Store<T> {
    Store(map id | id in s.byId && id !in ids :: s.byId[id],
          map p | p in s.recs && s.recs[p].id !in ids :: s.recs[p],
          s.next,
          NewMark(rules, s.cleared, bound, ids))
  }

  function Clear<T>(rules: Rules<T>, s: Store<T>, bound: uint32): Store<T> {
    if bound == ALL then s.(byId := map[], recs := map[]) else Deleted(rules, s, bound, ExpiredIds(s, bound))
  }

  /** What overflow does before a record for a new frame is made. */
  function Trim<T>(rules: Rules<T>, s: Store<T>, id: uint32): Store<T> {
    if |s.byId| > rules.capacity then Clear(rules, s, ToU32(id - rules.margin)) else s
  }

  datatype Got<+T> = Got(store: Store<T>, ptr: Option<Ptr>)

  function Get<T>(rules: Rules<T>, s: Store<T>, id: uint32, queryReady: bool): Got<T> {
    if id in s.byId then
      var p := s.byId[id];
      if p !in s.recs || (!queryReady && rules.ready(s.recs[p].data)) then Got(s, None)
      else Got(Retain(s, p), Some(p))
    else if !queryReady then Got(s, None)
    else
      var t := Trim(rules, s, id);
      if id < t.cleared then Got(t, None)
      else Got(t.(byId := t.byId[id := t.next], recs := t.recs[t.next := Slot(id, 1, rules.blank)], next := t.next + 1),
               Some(t.next))
  }

  function Retain<T>(s: Store<T>, p: Ptr): Store<T>
    requires p in s.recs
  {
    s.(recs := s.recs[p := s.recs[p].(refCnt := s.recs[p].refCnt + 1)])
  }

  function Put<T>(s: Store<T>, p: Ptr): Store<T>
    requires p in s.recs
  {
    if s.recs[p].refCnt == 0 then s
    else s.(recs := s.recs[p := s.recs[p].(refCnt := s.recs[p].refCnt - 1)])
  }

  function Write<T>(s: Store<T>, p: Ptr, data: T): Store<T>
    requires p in s.recs
  {
    s.(recs := s.recs[p := s.recs[p].(data := data)])
  }

  lemma StartOfClear<T>(rules: Rules<T>, s: Store<T>, bound: uint32)
    ensures Deleted(rules, s, bound, {}) == s
    ensures ExpiredIds(s, bound) <= s.byId.Keys
  {
    assert Deleted(rules, s, bound, {}).byId == s.byId;
    assert Deleted(rules, s, bound, {}).recs == s.recs;
  }

  /** One visit of the clearing pass: smaller ids are done, id is next. */
  lemma Visit<T>(rules: Rules<T>, s: Store<T>, bound: uint32, gone: set<uint32>, id: uint32)
    requires WellFormed(s)
    requires id in s.byId && id !in gone
    requires forall x <- gone :: x < id
    ensures
      var t := Deleted(rules, s, bound, gone);
      && id in t.byId
      && t.byId[id] in t.recs
      && (id in ExpiredIds(s, bound) <==> id <= bound && t.recs[t.byId[id]].refCnt == 0)
      && Deleted(rules, s, bound, gone + {id})
         == Store(t.byId - {id}, t.recs - {t.byId[id]}, t.next,
                  if rules.markIsBound then bound else if id > t.cleared then id else t.cleared)
  {
    var t := Deleted(rules, s, bound, gone);
    var u := Deleted(rules, s, bound, gone + {id});
    assert u.byId == t.byId - {id};
    assert u.recs == t.recs - {s.byId[id]} by {
      forall p | p in t.recs ensures p in u.recs <==> p != s.byId[id] {
        assert s.recs[p].id == id <==> p == s.byId[id];
      }
    }
    assert Max(gone + {id}) == id;
  }

  // ----- The table as it is built: in place -----

  class RecordTable<!T> {
    const rules: Rules<T>
    var byId: map<uint32, Ptr>
    var recs: map<Ptr, Slot<T>>
    var next: Ptr
    var cleared: uint32

    constructor (rules: Rules<T>)
      ensures this.rules == rules && Contents() == Empty()
    {
      this.rules := rules;
      byId, recs, next, cleared := map[], map[], 0, 0;
    }

    function Contents(): Store<T>
      reads this
    {
      Store(byId, recs, next, cleared)
    }

    method ClearLocked(bound: uint32)
      requires WellFormed(Contents())
      modifies this
      ensures Contents() == Clear(rules, old(Contents()), bound)
    {
      if bound == ALL {
        recs := map[];
        byId := map[];
      } else {
        ClearExpired(bound);
      }
    }

    /** Deletes in one pass over the map, smallest id first, skipping what is in use. */
    method ClearExpired(bound: uint32)
      requires WellFormed(Contents())
      modifies this
      ensures Contents() == Deleted(rules, old(Contents()), bound, ExpiredIds(old(Contents()), bound))
    {
      hide WellFormed, ExpiredIds, Deleted, NewMark, Expired;
      ghost var was := Contents();
      ghost var expired := ExpiredIds(was, bound);
      ghost var gone: set<uint32> := {};
      var todo := byId.Keys;
      StartOfClear(rules, was, bound);
      while todo != {}
        invariant todo <= was.byId.Keys
        invariant gone <= expired <= gone + todo
        invariant forall x <- gone, y <- todo :: x < y
        invariant Contents() == Deleted(rules, was, bound, gone)
        decreases |todo|
      {
        var id := Min(todo);
        assert id in was.byId;
        Visit(rules, was, bound, gone, id);
        todo := todo - {id};
        if id <= bound && recs[byId[id]].refCnt == 0 {
          gone := gone + {id};
          recs := recs - {byId[id]};
          byId := byId - {id};
          if rules.markIsBound {
            cleared := bound;
          } else if id > cleared {
            cleared := id;
          }
        }
      }
      assert gone == expired;
    }

    method GetRecord(id: uint32, queryReady: bool) returns (ptr: Option<Ptr>)
      requires WellFormed(Contents())
      modifies this
      ensures Got(Contents(), ptr) == Get(rules, old(Contents()), id, queryReady)
    {
      if id in byId {
        var p := byId[id];
        if !queryReady && rules.ready(recs[p].data) {
          return None;
        }
        recs := recs[p := recs[p].(refCnt := recs[p].refCnt + 1)];
        return Some(p);
      }
      if !queryReady {
        return None;
      }
      if |byId| > rules.capacity {
        ClearLocked(ToU32(id - rules.margin));
      }
      if id < cleared {
        return None;
      }
      var p := next;
      next := next + 1;
      recs := recs[p := Slot(id, 1, rules.blank)];
      byId := byId[id := p];
      return Some(p);
    }

    method RetainRecord(p: Ptr)
      requires p in recs
      modifies this`recs
      ensures Contents() == Retain(old(Contents()), p)
    {
      recs := recs[p := recs[p].(refCnt := recs[p].refCnt + 1)];
    }

    method WriteRecord(p: Ptr, data: T)
      requires p in recs
      modifies this`recs
      ensures Contents() == Write(old(Contents()), p, data)
    {
      recs := recs[p := recs[p].(data := data)];
    }

    method PutRecord(ptr: Option<Ptr>)
      requires ptr.Some? ==> ptr.value in recs
      modifies this`recs
      ensures Contents() == if ptr.Some? then Put(old(Contents()), ptr.value) else old(Contents())
    {
      if ptr.Some? && recs[ptr.value].refCnt != 0 {
        recs := recs[ptr.value := recs[ptr.value].(refCnt := recs[ptr.value].refCnt - 1)];
      }
    }
  }

  // ----- Laws of the table -----

  ghost predicate InUse<T>(s: Store<T>, p: Ptr) {
    p in s.recs && s.recs[p].refCnt > 0
  }

  ghost predicate AnyInUse<T>(s: Store<T>) {
    exists p: Ptr :: InUse(s, p)
  }

  ghost predicate DeletesInUse<T>(s: Store<T>, t: Store<T>) {
    exists p: Ptr :: InUse(s, p) && p !in t.recs
  }

  /** A bounded clear deletes nothing that is in use and nothing newer than its bound, and all the rest. */
  lemma ClearKeepsExactlyTheRest<T>(rules: Rules<T>, s: Store<T>, bound: uint32)
    requires WellFormed(s)
    requires bound != ALL
    ensures WellFormed(Clear(rules, s, bound))
    ensures forall p <- s.recs ::
              p in Clear(rules, s, bound).recs <==> InUse(s, p) || s.recs[p].id > bound
    ensures forall p <- Clear(rules, s, bound).recs :: p in s.recs && Clear(rules, s, bound).recs[p] == s.recs[p]
  {
  }

  /** Contents and counts are no part of the shape of the table. */
  lemma WriteAndPutKeepShape<T>(s: Store<T>, p: Ptr, data: T)
    requires WellFormed(s) && p in s.recs
    ensures WellFormed(Write(s, p, data)) && WellFormed(Put(s, p))
  {
  }

  /** The clear that overflow causes before a record for this frame is made. */
  predicate Overflows<T>(rules: Rules<T>, s: Store<T>, id: uint32, queryReady: bool) {
    id !in s.byId && queryReady && |s.byId| > rules.capacity
  }

  /** A lookup keeps the table well formed, and adds one reference to the record it returns. */
  lemma GetAddsOneReference<T>(rules: Rules<T>, s: Store<T>, id: uint32, queryReady: bool)
    requires WellFormed(s)
    ensures WellFormed(Get(rules, s, id, queryReady).store)
    ensures
      var r := Get(rules, s, id, queryReady);
      r.ptr.Some? ==>
        && r.ptr.value in r.store.recs && r.ptr.value < r.store.next
        && r.store.recs[r.ptr.value].id == id
        && (r.ptr.value in s.recs ==> s.recs[r.ptr.value].id == id)
        && r.store.recs[r.ptr.value].refCnt == 1 + if r.ptr.value in s.recs then s.recs[r.ptr.value].refCnt else 0
    ensures
      var r := Get(rules, s, id, queryReady);
      forall p <- r.store.recs :: r.ptr == Some(p) || (p in s.recs && r.store.recs[p] == s.recs[p])
  {
    TrimOnlyDeletes(rules, s, id);
    hide Trim;
  }

  /** A lookup invents no contents: a record it did not have before starts blank, at an address never used. */
  lemma GetCreatesBlank<T>(rules: Rules<T>, s: Store<T>, id: uint32, queryReady: bool)
    requires WellFormed(s)
    ensures
      var t := Get(rules, s, id, queryReady).store;
      && s.next <= t.next
      && forall p <- t.recs ::
           if p in s.recs then t.recs[p].id == s.recs[p].id && t.recs[p].data == s.recs[p].data
           else p == s.next && t.recs[p].data == rules.blank
  {
    TrimOnlyDeletes(rules, s, id);
    hide Trim;
  }

  lemma TrimOnlyDeletes<T>(rules: Rules<T>, s: Store<T>, id: uint32)
    requires WellFormed(s)
    ensures WellFormed(Trim(rules, s, id))
    ensures Trim(rules, s, id).next == s.next
    ensures Trim(rules, s, id).byId.Keys <= s.byId.Keys
    ensures forall p <- Trim(rules, s, id).recs :: p in s.recs && Trim(rules, s, id).recs[p] == s.recs[p]
  {
    var bound := ToU32(id - rules.margin);
    if bound != ALL {
      ClearKeepsExactlyTheRest(rules, s, bound);
    }
  }

  /**
   * Overflow subtracts the margin in 32 bits. The lookup deletes a record in use exactly when the
   * difference is the clear-all bound, which is one frame id: margin - 1.
   */
  lemma GetDeletesInUseIff<T>(rules: Rules<T>, s: Store<T>, id: uint32, queryReady: bool)
    requires WellFormed(s)
    requires 0 < rules.margin < TWO_TO_32
    ensures DeletesInUse(s, Get(rules, s, id, queryReady).store)
       <==> Overflows(rules, s, id, queryReady) && id == rules.margin - 1 && AnyInUse(s)
  {
    var r := Get(rules, s, id, queryReady).store;
    TrimBound(rules, id);
    if Overflows(rules, s, id, queryReady) && id == rules.margin - 1 {
      assert forall p: Ptr :: InUse(s, p) ==> p < s.next && p !in r.recs;
    } else {
      forall p: Ptr | InUse(s, p) ensures p in r.recs {
        if Overflows(rules, s, id, queryReady) {
          ClearKeepsExactlyTheRest(rules, s, ToU32(id - rules.margin));
          hide Clear;
        }
      }
    }
  }

  lemma TrimBound<T>(rules: Rules<T>, id: uint32)
    requires 0 < rules.margin < TWO_TO_32
    ensures ToU32(id - rules.margin) == ALL <==> id == rules.margin - 1
    ensures ToU32(id - rules.margin)
         == if id >= rules.margin then id - rules.margin else id - rules.margin + 0x1_0000_0000
  {
  }

  /** A bounded clear lowers the mark exactly when the mark is the bound, lies above it, and something expired. */
  lemma MarkFallsIff<T>(rules: Rules<T>, s: Store<T>, bound: uint32)
    ensures Clear(rules, s, bound).cleared < s.cleared
       <==> rules.markIsBound && bound < s.cleared && bound != ALL && exists id :: Expired(s, bound, id)
  {
    var ids := ExpiredIds(s, bound);
    if ids != {} {
      assert Expired(s, bound, Any(ids));
    } else {
      assert forall id :: Expired(s, bound, id) ==> id in ids;
    }
  }

  /**
   * What looking up a frame without a record leaves of the records: with no more than capacity of them all, and
   * with more those in use and those above the bound, which is the frame less the margin, in 32 bits; but none
   * if that is the clear-all bound.
   */
  lemma NewFrameKeeps<T>(rules: Rules<T>, s: Store<T>, n: uint32)
    requires WellFormed(s) && n !in s.byId && 0 < rules.margin < TWO_TO_32
    ensures
      var t := Get(rules, s, n, true).store;
      && (forall p <- s.recs :: p in t.recs ==> t.recs[p] == s.recs[p])
      && forall p <- s.recs ::
           p in t.recs
           <==> || |s.byId| <= rules.capacity
                || (n >= rules.margin && (s.recs[p].refCnt > 0 || s.recs[p].id > n - rules.margin))
                || (n < rules.margin - 1
                    && (s.recs[p].refCnt > 0 || s.recs[p].id > n - rules.margin + 0x1_0000_0000))
  {
    TrimKeeps(rules, s, n);
    TrimOnlyDeletes(rules, s, n);
    hide Trim;
  }

  lemma TrimKeeps<T>(rules: Rules<T>, s: Store<T>, n: uint32)
    requires WellFormed(s) && 0 < rules.margin < TWO_TO_32
    ensures
      forall p <- s.recs ::
        p in Trim(rules, s, n).recs
        <==> || |s.byId| <= rules.capacity
             || (n >= rules.margin && (s.recs[p].refCnt > 0 || s.recs[p].id > n - rules.margin))
             || (n < rules.margin - 1
                 && (s.recs[p].refCnt > 0 || s.recs[p].id > n - rules.margin + 0x1_0000_0000))
  {
    TrimBound(rules, n);
    var bound := ToU32(n - rules.margin);
    assert bound == if n >= rules.margin then n - rules.margin else n - rules.margin + 0x1_0000_0000;
    if bound != ALL {
      ClearKeepsExactlyTheRest(rules, s, bound);
      hide Clear;
    }
  }

  /** A lookup that may create refuses a frame without record exactly if it lies below the mark that trimming leaves. */
  lemma NewFrameIsMadeIff<T>(rules: Rules<T>, s: Store<T>, n: uint32)
    requires WellFormed(s) && n !in s.byId
    ensures
      var got := Get(rules, s, n, true);
      && (got.ptr.Some? <==> n >= Trim(rules, s, n).cleared)
      && (got.ptr.Some? ==>
            && got.ptr.value !in s.recs && got.ptr.value in got.store.recs
            && got.store.recs[got.ptr.value] == Slot(n, 1, rules.blank))
      && got.store.cleared == Trim(rules, s, n).cleared
  {
    TrimOnlyDeletes(rules, s, n);
    hide Trim;
  }

  /** What a bounded trim leaves as mark: its bound if it deletes anything, or else the largest id deleted so far. */
  lemma MarkAfterNewFrame<T>(rules: Rules<T>, s: Store<T>, n: uint32)
    requires WellFormed(s) && n !in s.byId && 0 < rules.margin < TWO_TO_32 && n != rules.margin - 1
    ensures
      var t := Get(rules, s, n, true).store;
      && ((forall p <- s.recs :: p in t.recs) ==> t.cleared == s.cleared)
      && ((exists p <- s.recs :: p !in t.recs) && rules.markIsBound ==>
            t.cleared == if n >= rules.margin then n - rules.margin else n - rules.margin + 0x1_0000_0000)
      && (!rules.markIsBound ==>
            && t.cleared >= s.cleared && (forall p <- s.recs :: p !in t.recs ==> s.recs[p].id <= t.cleared)
            && (t.cleared == s.cleared || exists p <- s.recs :: p !in t.recs && s.recs[p].id == t.cleared))
  {
    NewFrameIsMadeIff(rules, s, n);
    SameRecordsAsTrim(rules, s, n);
    TrimIsBounded(rules, s, n);
    hide Get, Trim, Clear;
    if |s.byId| > rules.capacity {
      var bound := if n >= rules.margin then n - rules.margin else n - rules.margin + 0x1_0000_0000;
      MarkOfClear(rules, s, bound);
    }
    hide WellFormed;
  }

  lemma TrimIsBounded<T>(rules: Rules<T>, s: Store<T>, n: uint32)
    requires 0 < rules.margin < TWO_TO_32 && n != rules.margin - 1
    ensures |s.byId| <= rules.capacity ==> Trim(rules, s, n) == s
    ensures |s.byId| > rules.capacity ==>
              var bound := if n >= rules.margin then n - rules.margin else n - rules.margin + 0x1_0000_0000;
              0 <= bound < TWO_TO_32 && bound != ALL && Trim(rules, s, n) == Clear(rules, s, bound)
  {
    TrimBound(rules, n);
    hide Clear, ToU32;
  }

  lemma SameRecordsAsTrim<T>(rules: Rules<T>, s: Store<T>, n: uint32)
    requires WellFormed(s) && n !in s.byId
    ensures forall p <- s.recs :: p in Get(rules, s, n, true).store.recs <==> p in Trim(rules, s, n).recs
  {
    TrimOnlyDeletes(rules, s, n);
    hide Trim;
  }

  lemma MarkOfClear<T>(rules: Rules<T>, s: Store<T>, bound: uint32)
    requires WellFormed(s) && bound != ALL
    ensures
      var t := Clear(rules, s, bound);
      && ((forall p <- s.recs :: p in t.recs) ==> t.cleared == s.cleared)
      && ((exists p <- s.recs :: p !in t.recs) && rules.markIsBound ==> t.cleared == bound)
      && (!rules.markIsBound ==>
            && t.cleared >= s.cleared && (forall p <- s.recs :: p !in t.recs ==> s.recs[p].id <= t.cleared)
            && (t.cleared == s.cleared || exists p <- s.recs :: p !in t.recs && s.recs[p].id == t.cleared))
  {
    var ids := ExpiredIds(s, bound);
    var t := Clear(rules, s, bound);
    forall p | p in s.recs ensures p !in t.recs <==> s.recs[p].id in ids {
    }
    if ids != {} {
      var top := Max(ids);
      assert s.byId[top] in s.recs && s.byId[top] !in t.recs && s.recs[s.byId[top]].id == top;
    }
  }
}
