/**
 * Where start-of-frame messages come from: one hardware event may announce several frames ahead,
 * and events may repeat or skip sequence numbers. What is posted is what the collector relies on.
 */
module SofSource {
  import opened Words
  import opened FrameMessages
  import opened CollectorRuns

  /**
   * One hardware event. Exposure data or buffers may run out while it is handled: limit is how
   * many messages can be posted before that happens.
   */
  datatype Event = Event(sequence: uint32, expDelay: uint32, limit: nat)

  function FirstId(last: uint32, e: Event): uint32 {
    if ToU32(last + 1) > e.sequence then ToU32(last + 1) else e.sequence
  }

  function MaxId(e: Event): uint32 {
    ToU32(e.sequence + e.expDelay - 1)
  }

  /** The ids posted from id on. */
  function PostedFrom(id: uint32, maxId: uint32, limit: nat): seq<uint32>
    decreases limit
  {
    if limit == 0 || id > maxId then [] else [id] + PostedFrom(ToU32(id + 1), maxId, limit - 1)
  }

  function Posted(last: uint32, e: Event): seq<uint32> {
    if e.sequence == 0 then [] else PostedFrom(FirstId(last, e), MaxId(e), e.limit)
  }

  lemma PostedOneMore(before: seq<uint32>, id: uint32, maxId: uint32, limit: nat)
    requires id <= maxId && limit > 0
    ensures before + PostedFrom(id, maxId, limit) == before + [id] + PostedFrom(ToU32(id + 1), maxId, limit - 1)
  {
  }

  /**
   * What an event posts, in numbers: one id after the other from the first that was not announced before, up
   * to the last that this event announces, or until data or buffers run out. An announcement whose end wraps
   * is for nothing, and one that ends with the largest word is without end.
   */
  predicate IsAnnounced(last: uint32, e: Event, posted: seq<uint32>) {
    var next := if last == 0xffff_ffff then 0 else last + 1;
    var first := if next > e.sequence then next else e.sequence;
    var end := e.sequence + e.expDelay;
    if e.sequence == 0 || end > 0x1_0000_0000 then posted == []
    else if end == 0x1_0000_0000 then
      |posted| == e.limit && forall k :: 0 <= k < |posted| ==> posted[k] == (first + k) % 0x1_0000_0000
    else
      && |posted| == (if end <= first then 0 else if e.limit < end - first then e.limit else end - first)
      && forall k :: 0 <= k < |posted| ==> posted[k] == first + k
  }

  lemma PostedIsAnnounced(last: uint32, e: Event)
    ensures IsAnnounced(last, e, Posted(last, e))
  {
    var first: int, max := FirstId(last, e), MaxId(e);
    var end := e.sequence + e.expDelay;
    if e.sequence != 0 {
      FirstAndLast(last, e);
    }
    hide FirstId, MaxId, PostedFrom, LARGEST;
    if e.sequence != 0 && end == 0x1_0000_0000 {
      AllArePosted(first, e.limit);
    } else if e.sequence != 0 && end < 0x1_0000_0000 {
      PostedFromCounts(first, max, e.limit);
    } else if e.sequence != 0 {
      NothingIsPosted(first, max, e.limit);
    }
  }

  lemma FirstAndLast(last: uint32, e: Event)
    requires e.sequence != 0
    ensures
      var next := if last == 0xffff_ffff then 0 else last + 1;
      FirstId(last, e) == if next > e.sequence then next else e.sequence
    ensures
      var end := e.sequence + e.expDelay;
      MaxId(e) == if end <= 0x1_0000_0000 then end - 1 else end - 1 - 0x1_0000_0000
    ensures LARGEST == 0xffff_ffff
  {
  }

  lemma NothingIsPosted(id: uint32, maxId: uint32, limit: nat)
    requires maxId < id
    ensures PostedFrom(id, maxId, limit) == []
  {
  }

  lemma AllArePosted(id: uint32, limit: nat)
    ensures
      var ids := PostedFrom(id, LARGEST, limit);
      |ids| == limit && forall k :: 0 <= k < limit ==> ids[k] == (id + k) % 0x1_0000_0000
  {
    if limit > 0 {
      PostedFromRunsOn(id, limit, 0);
    }
    forall k | 0 <= k < limit
      ensures PostedFrom(id, LARGEST, limit)[k] == (id + k) % 0x1_0000_0000
    {
      PostedFromRunsOn(id, limit, k);
    }
  }

  /** Where the last announced id is not the largest word, one id after the other is posted up to it. */
  lemma {:induction false} PostedFromCounts(id: uint32, maxId: uint32, limit: nat)
    requires maxId < LARGEST
    ensures
      var ids := PostedFrom(id, maxId, limit);
      && |ids| == (if maxId < id then 0 else if limit < maxId + 1 - id then limit else maxId + 1 - id)
      && forall k :: 0 <= k < |ids| ==> ids[k] == id + k
    decreases limit
  {
    if limit > 0 && id <= maxId {
      PostedFromCounts(id + 1, maxId, limit - 1);
      assert PostedFrom(id, maxId, limit) == [id] + PostedFrom(id + 1, maxId, limit - 1);
    }
  }

  function LastOr(ids: seq<uint32>, last: uint32): uint32 {
    if ids == [] then last else ids[|ids| - 1]
  }

  class SofAnalyzer {
    var lastAnalyzedId: uint32

    constructor ()
      ensures lastAnalyzedId == 0
    {
      lastAnalyzedId := 0;
    }

    method EventsAnalyze(e: Event) returns (posted: seq<uint32>)
      modifies this
      ensures posted == Posted(old(lastAnalyzedId), e)
      ensures lastAnalyzedId == if posted == [] then old(lastAnalyzedId) else posted[|posted| - 1]
      ensures IsAnnounced(old(lastAnalyzedId), e, posted)
    {
      PostedIsAnnounced(lastAnalyzedId, e);
      hide IsAnnounced;
      posted := [];
      if e.sequence == 0 {
        return;
      }
      var id: uint32 := if ToU32(lastAnalyzedId + 1) > e.sequence then ToU32(lastAnalyzedId + 1) else e.sequence;
      var maxId := ToU32(e.sequence + e.expDelay - 1);
      var left := e.limit;
      while id <= maxId && left > 0
        invariant posted + PostedFrom(id, maxId, left) == Posted(old(lastAnalyzedId), e)
        invariant lastAnalyzedId == LastOr(posted, old(lastAnalyzedId))
        decreases left
      {
        PostedOneMore(posted, id, maxId, left);
        posted := posted + [id];
        lastAnalyzedId := id;
        id := ToU32(id + 1);
        left := left - 1;
      }
      assert posted + [] == posted;
    }
  }

  /** Everything posted over a whole run of events. */
  function AllPosted(last: uint32, events: seq<Event>): seq<uint32>
    decreases |events|
  {
    if events == [] then []
    else
      var ids := Posted(last, events[0]);
      ids + AllPosted(LastOr(ids, last), events[1..])
  }

  ghost predicate StrictlyIncreasing(ids: seq<uint32>) {
    forall i, j :: 0 <= i < j < |ids| ==> ids[i] < ids[j]
  }

  const LARGEST: uint32 := 0xffff_ffff

  predicate PostsNothing(last: uint32, e: Event) {
    e.sequence == 0 || e.limit == 0 || FirstId(last, e) > MaxId(e)
  }

  /**
   * The event posts nothing, or the largest word was not posted before it, and the posting loop does not run
   * on behind the largest word, which it does if that is the last announced id and data and buffers suffice.
   */
  predicate PostsInOrder(last: uint32, e: Event) {
    || PostsNothing(last, e)
    || (last < LARGEST && (MaxId(e) == LARGEST ==> e.limit <= TWO_TO_32 - FirstId(last, e)))
  }

  predicate AllInOrder(last: uint32, events: seq<Event>)
    decreases |events|
  {
    events == []
    || (PostsInOrder(last, events[0]) && AllInOrder(LastOr(Posted(last, events[0]), last), events[1..]))
  }

  /** Where the loop ends before the ids wrap, it posts one id after the other. */
  lemma {:induction false} PostedFromIncreases(id: uint32, maxId: uint32, limit: nat)
    requires maxId == LARGEST ==> limit <= TWO_TO_32 - id
    ensures var ids := PostedFrom(id, maxId, limit);
            StrictlyIncreasing(ids) && forall x <- ids :: id <= x <= maxId
    decreases limit
  {
    if limit > 0 && id <= maxId {
      if limit == 1 {
        assert PostedFrom(id, maxId, limit) == [id];
      } else {
        PostedFromIncreases(id + 1, maxId, limit - 1);
        var rest := PostedFrom(id + 1, maxId, limit - 1);
        assert PostedFrom(id, maxId, limit) == [id] + rest;
        assert forall i :: 0 <= i < |rest| ==> rest[i] in rest;
      }
    }
  }

  /** Where the last announced id is the largest word, only the limit ends the loop. */
  lemma {:induction false} PostedFromRunsOn(id: uint32, limit: nat, k: nat)
    requires k < limit
    ensures |PostedFrom(id, LARGEST, limit)| == limit && PostedFrom(id, LARGEST, limit)[k] == ToU32(id + k)
    decreases limit
  {
    var i: int := id;
    var next := ToU32(i + 1);
    var rest := PostedFrom(next, LARGEST, limit - 1);
    RunsOn(id, limit);
    hide PostedFrom, ToU32;
    if limit > 1 {
      PostedFromRunsOn(next, limit - 1, if k > 0 then k - 1 else 0);
    }
    NextWord(id, k);
  }

  lemma RunsOn(id: uint32, limit: nat)
    requires limit > 0
    ensures
      var i: int := id;
      PostedFrom(id, LARGEST, limit) == [id] + PostedFrom(ToU32(i + 1), LARGEST, limit - 1)
    ensures PostedFrom(id, LARGEST, 0) == []
    ensures forall x: uint32 :: |PostedFrom(x, LARGEST, 0)| == 0
  {
  }

  lemma NextWord(id: int, k: nat)
    requires 0 <= id < TWO_TO_32
    ensures k > 0 ==> ToU32(ToU32(id + 1) + (k - 1)) == ToU32(id + k)
    ensures ToU32(id) == id
  {
    var x := id + 1;
    assert x == x / TWO_TO_32 * TWO_TO_32 + x % TWO_TO_32;
  }

  lemma RunningOnFallsBack(first: uint32, limit: nat)
    requires limit > TWO_TO_32 - first
    ensures !StrictlyIncreasing(PostedFrom(first, LARGEST, limit))
  {
    PostedFromRunsOn(first, limit, TWO_TO_32 - first);
    PostedFromRunsOn(first, limit, 0);
  }

  lemma FirstAboveIff(last: uint32, e: Event)
    ensures last < FirstId(last, e) || last == LARGEST
    ensures last == LARGEST ==> FirstId(last, e) <= last
  {
  }

  /** The ids of one event increase and are above the last one before it, exactly if it posts in order. */
  lemma EventPostsInOrderIff(last: uint32, e: Event)
    ensures
      var ids := Posted(last, e);
      PostsInOrder(last, e) <==> StrictlyIncreasing(ids) && forall x <- ids :: last < x
  {
    var ids := Posted(last, e);
    var first := FirstId(last, e);
    FirstAboveIff(last, e);
    hide FirstId, MaxId, StrictlyIncreasing;
    if PostsNothing(last, e) {
      NothingIncreases(ids);
    } else if MaxId(e) == LARGEST && e.limit > TWO_TO_32 - first {
      RunningOnFallsBack(first, e.limit);
    } else {
      PostedFromIncreases(first, MaxId(e), e.limit);
      FirstIsPosted(first, MaxId(e), e.limit);
    }
  }

  lemma NothingIncreases(ids: seq<uint32>)
    requires ids == []
    ensures StrictlyIncreasing(ids)
  {
  }

  lemma FirstIsPosted(id: uint32, maxId: uint32, limit: nat)
    requires id <= maxId && limit > 0
    ensures id in PostedFrom(id, maxId, limit)
  {
  }

  lemma LastIsLargest(ids: seq<uint32>, last: uint32)
    requires StrictlyIncreasing(ids) && forall x <- ids :: last < x
    ensures last <= LastOr(ids, last) && forall x <- ids :: x <= LastOr(ids, last)
  {
    if ids != [] {
      assert ids[|ids| - 1] in ids;
      forall x | x in ids ensures x <= LastOr(ids, last) {
        var i :| 0 <= i < |ids| && ids[i] == x;
      }
    }
  }

  lemma JoinIncreases(a: seq<uint32>, b: seq<uint32>, last: uint32)
    requires StrictlyIncreasing(a) && forall x <- a :: last < x
    requires StrictlyIncreasing(b) && forall x <- b :: LastOr(a, last) < x
    ensures StrictlyIncreasing(a + b) && forall x <- a + b :: last < x
  {
    LastIsLargest(a, last);
    var both := a + b;
    forall i, j | 0 <= i < j < |both| ensures both[i] < both[j] {
      if i < |a| <= j {
        assert a[i] in a && b[j - |a|] in b;
      }
    }
  }

  lemma RestIncreases(a: seq<uint32>, b: seq<uint32>, last: uint32)
    requires StrictlyIncreasing(a + b) && forall x <- a + b :: last < x
    ensures StrictlyIncreasing(b) && forall x <- b :: LastOr(a, last) < x
  {
    var both := a + b;
    forall x | x in b ensures LastOr(a, last) < x {
      var i :| 0 <= i < |b| && b[i] == x;
      assert both[|a| + i] == x && x in both;
      assert a != [] ==> both[|a| - 1] == LastOr(a, last);
    }
    forall i, j | 0 <= i < j < |b| ensures b[i] < b[j] {
      assert both[|a| + i] < both[|a| + j];
    }
  }

  /**
   * However events repeat, skip or fall behind, the posted ids increase strictly over the whole run and stay
   * above everything posted before it, exactly if every event posts in order.
   */
  lemma {:induction false} PostedIdsIncreaseIff(last: uint32, events: seq<Event>)
    ensures AllInOrder(last, events)
       <==> StrictlyIncreasing(AllPosted(last, events)) && forall x <- AllPosted(last, events) :: last < x
    decreases |events|
  {
    if events != [] {
      var ids := Posted(last, events[0]);
      var rest := AllPosted(LastOr(ids, last), events[1..]);
      EventPostsInOrderIff(last, events[0]);
      if PostsInOrder(last, events[0]) {
        PostedIdsIncreaseIff(LastOr(ids, last), events[1..]);
        hide PostsInOrder, Posted, StrictlyIncreasing, LastOr;
        if AllInOrder(last, events) {
          JoinIncreases(ids, rest, last);
        } else if StrictlyIncreasing(ids + rest) && forall x <- ids + rest :: last < x {
          RestIncreases(ids, rest, last);
        }
      } else {
        hide PostsInOrder, Posted, LastOr;
        PartIncreases(ids, rest);
      }
    }
  }

  lemma PartIncreases(a: seq<uint32>, b: seq<uint32>)
    ensures StrictlyIncreasing(a + b) ==> StrictlyIncreasing(a)
    ensures forall x <- a :: x in a + b
  {
    assert forall i :: 0 <= i < |a| ==> (a + b)[i] == a[i];
  }

  /** Two messages for an event that announces the largest word: the second is for frame 0. */
  lemma LargestWordRunsOn()
    ensures
      var e := Event(LARGEST, 1, 2);
      Posted(5, e) == [LARGEST, 0] && !PostsInOrder(5, e) && !StrictlyIncreasing(Posted(5, e))
  {
    var e := Event(LARGEST, 1, 2);
    assert PostedFrom(0, LARGEST, 1) == [0];
    assert Posted(5, e) == [LARGEST] + [0];
    var ids := Posted(5, e);
    assert ids[0] > ids[1];
  }

  // ----- From strictly increasing frames to the order the collector relies on -----

  /** The frames of one type in a run, in order of arrival. */
  function FramesOf(h: History, kind: MsgType): seq<uint32> {
    if h == [] then []
    else FramesOf(Butlast(h), kind) + if Last(h).kind == kind then [Last(h).frame] else []
  }

  lemma {:induction false} FrameIsListed(h: History, i: nat)
    requires i < |h|
    ensures h[i].frame in FramesOf(h, h[i].kind)
  {
    if i < |h| - 1 {
      FrameIsListed(Butlast(h), i);
    }
  }

  lemma {:induction false} FramesInOrder(h: History, i: nat, j: nat)
    requires i < j < |h| && h[i].kind == h[j].kind
    requires StrictlyIncreasing(FramesOf(h, h[j].kind))
    ensures h[i].frame < h[j].frame
  {
    var kind := h[j].kind;
    var frames := FramesOf(h, kind);
    var earlier := FramesOf(Butlast(h), kind);
    if j < |h| - 1 {
      forall a, b | 0 <= a < b < |earlier|
        ensures earlier[a] < earlier[b]
      {
        assert frames[a] == earlier[a] && frames[b] == earlier[b];
      }
      FramesInOrder(Butlast(h), i, j);
    } else {
      FrameIsListed(Butlast(h), i);
      var k :| 0 <= k < |earlier| && earlier[k] == h[i].frame;
      assert frames[k] < frames[|earlier|];
    }
  }

  /** How often the sum of frame and delay wraps. */
  function Wraps(cfg: Config, m: Message): int {
    (m.frame + DelayOf(cfg.conds, m.kind)) / TWO_TO_32
  }

  /** Messages of the same required type wrap equally often. */
  ghost predicate WrapAlike(cfg: Config, h: History) {
    forall i, j :: 0 <= i < j < |h| && h[i].kind == h[j].kind && h[j].kind in cfg.deps ==>
      Wraps(cfg, h[i]) == Wraps(cfg, h[j])
  }

  lemma FiledInOrderIff(cfg: Config, a: Message, b: Message)
    requires a.kind == b.kind && a.frame < b.frame
    ensures UserId(cfg, a) < UserId(cfg, b) <==> Wraps(cfg, a) == Wraps(cfg, b)
  {
    var delay := DelayOf(cfg.conds, a.kind);
    QuotientsDecide(a.frame + delay, b.frame + delay);
  }

  lemma QuotientsDecide(x: int, y: int)
    requires x < y < x + TWO_TO_32
    ensures x % TWO_TO_32 < y % TWO_TO_32 <==> x / TWO_TO_32 == y / TWO_TO_32
  {
  }

  /**
   * Strictly increasing frames of every required type, in any interleaving of the types, are the order that
   * the collector relies on, exactly if the sums of frame and delay of one type wrap equally often.
   */
  lemma IncreasingFramesAreOrderedIff(cfg: Config, h: History)
    requires forall kind :: kind in cfg.deps ==> StrictlyIncreasing(FramesOf(h, kind))
    ensures Ordered(cfg, h) <==> WrapAlike(cfg, h)
  {
    hide UserId, Wraps;
    forall i, j | 0 <= i < j < |h| && h[i].kind == h[j].kind && h[j].kind in cfg.deps
      ensures InOrder(cfg, h, i, j) <==> Wraps(cfg, h[i]) == Wraps(cfg, h[j])
    {
      FramesInOrder(h, i, j);
      FiledInOrderIff(cfg, h[i], h[j]);
    }
    if Ordered(cfg, h) {
      forall i, j | 0 <= i < j < |h| && h[i].kind == h[j].kind && h[j].kind in cfg.deps
        ensures Wraps(cfg, h[i]) == Wraps(cfg, h[j])
      {
        assert InOrder(cfg, h, i, j);
      }
    }
  }

  /**
   * End to end for a group that waits for start-of-frame messages: whatever events the hardware sends, if
   * they post in order and the other types arrive in frame order, the group's log is the reference's log
   * minus the trimmed ids.
   */
  lemma SofDrivenGroup(cfg: Config, h: History, sof: MsgType, events: seq<Event>)
    requires AllInOrder(0, events) && FramesOf(h, sof) == AllPosted(0, events)
    requires forall kind :: kind in cfg.deps && kind != sof ==> StrictlyIncreasing(FramesOf(h, kind))
    requires WrapAlike(cfg, h)
    ensures FireLog(cfg, h) == Without(ReferenceLog(cfg, h), Trimmed(cfg, h))
  {
    PostedIdsIncreaseIff(0, events);
    IncreasingFramesAreOrderedIff(cfg, h);
    LogIsReferenceWithoutTrimmed(cfg, h);
  }

  /**
   * Where a sum wraps the order is lost, and so is a frame: with delay 2 on type 1, frames 2^32-3 and
   * 2^32-2 of type 1 are filed under ids 2^32-1 and 0.
   */
  lemma WrappedSumsAreNotOrdered()
    ensures var cfg := Config({0, 1}, [Cond(1, 2)]);
            var h := [Message(1, TWO_TO_32 - 3, 0), Message(1, TWO_TO_32 - 2, 0)];
            StrictlyIncreasing(FramesOf(h, 1)) && !Ordered(cfg, h)
  {
    var cfg := Config({0, 1}, [Cond(1, 2)]);
    var a, b := Message(1, TWO_TO_32 - 3, 0), Message(1, TWO_TO_32 - 2, 0);
    var h := [a, b];
    assert Butlast(h) == [a] && Butlast([a]) == [];
    assert FramesOf([a], 1) == [a.frame];
    assert FramesOf(h, 1) == [a.frame, b.frame];
    assert !InOrder(cfg, h, 0, 1);
  }
}
