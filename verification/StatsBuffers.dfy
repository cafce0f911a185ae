/**
 * The bounded pool of statistics buffers: filled buffers are cached in order of arrival, taken out by the
 * user and released again. A buffer that nothing refers to is free.
 */
module StatsBuffers {
  import opened Options

  type Buffer = nat
  type Stats = int

  datatype Status = NoError | TimedOut | Failed

  // ----- The reference: a bounded queue of values that knows no buffers -----

  datatype Queue = Queue(cached: seq<Stats>, held: nat)

  /** With no buffer free, the oldest cached value makes room; with none cached either, the new value is lost. */
  function Arrive(q: Queue, capacity: nat, stats: Stats): Queue {
    if |q.cached| + q.held < capacity then q.(cached := q.cached + [stats])
    else if q.cached == [] then q
    else q.(cached := q.cached[1..] + [stats])
  }

  function Take(q: Queue): Queue
    requires q.cached != []
  {
    Queue(q.cached[1..], q.held + 1)
  }

  function TakeCopy(q: Queue): Queue
    requires q.cached != []
  {
    q.(cached := q.cached[1..])
  }

  function GiveBack(q: Queue): Queue
    requires q.held > 0
  {
    q.(held := q.held - 1)
  }

  // ----- The pool: which buffer is where, and what it holds -----

  /** out are the buffers that the user holds, memory the contents of all. */
  datatype Pool = Pool(all: set<Buffer>, free: set<Buffer>, cached: seq<Buffer>, out: set<Buffer>,
                       memory: map<Buffer, Stats>, stopped: bool)

  /** Every buffer is in exactly one of free, cached (once) and out. */
  ghost predicate Valid(p: Pool) {
    && (forall i, j :: 0 <= i < j < |p.cached| ==> p.cached[i] != p.cached[j])
    && p.free !! p.out && (forall b <- p.cached :: b !in p.free && b !in p.out)
    && (forall b <- p.all :: b in p.free || b in p.out || b in p.cached)
    && p.free <= p.all && p.out <= p.all && (forall b <- p.cached :: b in p.all)
    && |p.free| + |p.cached| + |p.out| == |p.all|
    && p.memory.Keys == p.all
  }

  function ValuesOf(memory: map<Buffer, Stats>, buffers: seq<Buffer>): seq<Stats>
    requires forall b <- buffers :: b in memory
  {
    seq(|buffers|, i requires 0 <= i < |buffers| => assert buffers[i] in buffers; memory[buffers[i]])
  }

  ghost function Contents(p: Pool): Queue
    requires Valid(p)
  {
    Queue(ValuesOf(p.memory, p.cached), |p.out|)
  }

  function Filled(p: Pool, buffer: Buffer, stats: Stats): Pool {
    p.(memory := p.memory[buffer := stats], cached := p.cached + [buffer])
  }

  /** New statistics go to the free buffer that is picked, or else to the oldest cached one. */
  function Cached(p: Pool, stats: Stats, pick: Buffer): Pool {
    if p.free != {} then Filled(p.(free := p.free - {pick}), pick, stats)
    else if p.cached == [] then p
    else Filled(p.(cached := p.cached[1..]), p.cached[0], stats)
  }

  function Taken(p: Pool): Pool {
    if p.stopped || p.cached == [] then p else p.(cached := p.cached[1..], out := p.out + {p.cached[0]})
  }

  function Copied(p: Pool): Pool {
    if p.cached == [] then p else p.(cached := p.cached[1..], free := p.free + {p.cached[0]})
  }

  function Released(p: Pool, buffer: Buffer): Pool {
    if buffer in p.out then p.(out := p.out - {buffer}, free := p.free + {buffer}) else p
  }

  function Stopped(p: Pool): Pool {
    p.(free := p.all, cached := [], out := {}, stopped := true)
  }

  lemma ValuesAppend(memory: map<Buffer, Stats>, buffers: seq<Buffer>, buffer: Buffer, stats: Stats)
    requires forall b <- buffers :: b in memory
    requires buffer !in buffers
    ensures ValuesOf(memory[buffer := stats], buffers + [buffer]) == ValuesOf(memory, buffers) + [stats]
  {
  }

  lemma ValuesTail(memory: map<Buffer, Stats>, buffers: seq<Buffer>)
    requires buffers != [] && forall b <- buffers :: b in memory
    ensures buffers[0] in memory && ValuesOf(memory, buffers) == [memory[buffers[0]]] + ValuesOf(memory, buffers[1..])
  {
    assert buffers == [buffers[0]] + buffers[1..];
  }

  /** Caching is arriving in the queue of values; the user's buffers are not touched. */
  lemma CachedArrives(p: Pool, stats: Stats, pick: Buffer)
    requires Valid(p) && (p.free != {} ==> pick in p.free)
    ensures Valid(Cached(p, stats, pick))
    ensures Contents(Cached(p, stats, pick)) == Arrive(Contents(p), |p.all|, stats)
    ensures Cached(p, stats, pick).out == p.out && forall b <- p.out :: Cached(p, stats, pick).memory[b] == p.memory[b]
  {
    if p.free != {} {
      ValuesAppend(p.memory, p.cached, pick, stats);
      hide ValuesOf;
    } else if p.cached != [] {
      var rest := p.cached[1..];
      assert forall b <- rest :: b in p.cached;
      assert p.cached[0] in p.cached && p.cached[0] !in rest;
      ValuesTail(p.memory, p.cached);
      ValuesAppend(p.memory, rest, p.cached[0], stats);
      hide ValuesOf;
    }
  }

  /** The oldest cached buffer is in no other place. */
  lemma OldestIsCached(p: Pool)
    requires Valid(p) && p.cached != []
    ensures p.cached[0] !in p.free && p.cached[0] !in p.out && p.cached[0] !in p.cached[1..]
    ensures p.cached[0] in p.memory && Contents(p).cached != [] && p.memory[p.cached[0]] == Contents(p).cached[0]
    ensures (forall b <- p.cached[1..] :: b in p.memory) && ValuesOf(p.memory, p.cached[1..]) == Contents(p).cached[1..]
  {
    assert p.cached[0] in p.cached && forall b <- p.cached[1..] :: b in p.cached;
    ValuesTail(p.memory, p.cached);
  }

  /** Taking hands out the oldest. */
  lemma TakenIsOldest(p: Pool)
    requires Valid(p) && p.cached != [] && !p.stopped
    ensures Valid(Taken(p)) && Contents(Taken(p)) == Take(Contents(p))
  {
    OldestIsCached(p);
    hide ValuesOf;
    assert |p.out + {p.cached[0]}| == |p.out| + 1;
  }

  lemma CopiedIsOldest(p: Pool)
    requires Valid(p) && p.cached != []
    ensures Valid(Copied(p)) && Contents(Copied(p)) == TakeCopy(Contents(p))
  {
    OldestIsCached(p);
    hide ValuesOf;
    assert |p.free + {p.cached[0]}| == |p.free| + 1;
  }

  lemma ReleasedIsFree(p: Pool, buffer: Buffer)
    requires Valid(p)
    ensures Valid(Released(p, buffer))
    ensures Contents(Released(p, buffer)) == if buffer in p.out then GiveBack(Contents(p)) else Contents(p)
  {
    if buffer in p.out {
      assert |p.out - {buffer}| == |p.out| - 1 && |p.free + {buffer}| == |p.free| + 1;
    }
  }

  lemma StoppedIsEmpty(p: Pool)
    requires Valid(p)
    ensures Valid(Stopped(p)) && Contents(Stopped(p)) == Queue([], 0)
  {
  }

  // ----- The buffers as they are kept: in place -----

  class StatsBuffers {
    const pool: set<Buffer>
    var free: set<Buffer>
    var cached: seq<Buffer>
    /** Taken by the user, by address. */
    var out: set<Buffer>
    /** The contents of every buffer. */
    var memory: map<Buffer, Stats>
    var stopped: bool

    function State(): Pool
      reads this
    {
      Pool(pool, free, cached, out, memory, stopped)
    }

    constructor (pool: set<Buffer>)
      ensures Valid(State()) && this.pool == pool && !stopped
      ensures Contents(State()) == Queue([], 0)
    {
      this.pool := pool;
      free, cached, out, stopped := pool, [], {}, false;
      memory := map b | b in pool :: 0;
    }

    /** Stores new statistics; pick is the free item the pool hands out. */
    method CacheIspStats(stats: Stats, pick: Buffer)
      requires Valid(State())
      requires free != {} ==> pick in free
      modifies this`free, this`cached, this`memory
      ensures State() == Cached(old(State()), stats, pick)
      ensures Valid(State()) && Contents(State()) == Arrive(old(Contents(State())), |pool|, stats)
      ensures forall b <- out :: memory[b] == old(memory[b])
      ensures old(free) == {} && old(cached) != [] ==> cached == old(cached)[1..] + [old(cached)[0]]
    {
      CachedArrives(State(), stats, pick);
      hide Valid, ValuesOf, Contents;
      var buffer: Buffer;
      if free != {} {
        buffer := pick;
        free := free - {pick};
      } else {
        if cached == [] {
          return;
        }
        buffer := cached[0];
        cached := cached[1..];
      }
      memory := memory[buffer := stats];
      cached := cached + [buffer];
    }

    /** Hands the oldest cached buffer to the user, who holds it from then on. */
    method Get3AStats(timedOut: bool) returns (status: Status, stats: Option<Buffer>)
      requires Valid(State())
      modifies this`cached, this`out
      ensures Valid(State()) && State() == Taken(old(State()))
      ensures old(stopped) ==> status == NoError && stats == None
      ensures !old(stopped) && old(cached) == [] ==>
                status == (if timedOut then TimedOut else Failed) && stats == None
      ensures !old(stopped) && old(cached) != [] ==>
                && status == NoError && stats == Some(old(cached)[0])
                && out == old(out) + {stats.value} && memory[stats.value] == old(Contents(State())).cached[0]
                && Contents(State()) == Take(old(Contents(State())))
    {
      if stopped {
        return NoError, None;
      }
      if cached == [] {
        return if timedOut then TimedOut else Failed, None;
      }
      TakenIsOldest(State());
      OldestIsCached(State());
      hide Valid, ValuesOf;
      var buffer := cached[0];
      cached := cached[1..];
      out := out + {buffer};
      return NoError, Some(buffer);
    }

    /** Releasing what the user holds makes it free; anything else is ignored. */
    method Release3AStats(buffer: Buffer)
      requires Valid(State())
      modifies this`out, this`free
      ensures Valid(State()) && State() == Released(old(State()), buffer)
      ensures out == old(out) - {buffer}
      ensures Contents(State())
           == if buffer in old(out) then GiveBack(old(Contents(State()))) else old(Contents(State()))
    {
      ReleasedIsFree(State(), buffer);
      if buffer in out {
        out := out - {buffer};
        free := free + {buffer};
      }
    }

    /** Copies the oldest cached statistics out; its buffer becomes free at once. */
    method Get3AStatsCopy() returns (status: Status, stats: Option<Stats>)
      requires Valid(State())
      modifies this`cached, this`free
      ensures Valid(State()) && State() == Copied(old(State()))
      ensures old(cached) == [] ==> status == Failed && stats == None
      ensures old(cached) != [] ==>
                && status == NoError && stats == Some(old(Contents(State())).cached[0])
                && Contents(State()) == TakeCopy(old(Contents(State())))
    {
      if cached == [] {
        return Failed, None;
      }
      CopiedIsOldest(State());
      OldestIsCached(State());
      hide Valid, ValuesOf;
      var buffer := cached[0];
      cached := cached[1..];
      stats := Some(memory[buffer]);
      free := free + {buffer};
      status := NoError;
    }

    method Stop()
      requires Valid(State())
      modifies this`cached, this`out, this`free, this`stopped
      ensures Valid(State()) && State() == Stopped(old(State()))
      ensures stopped && Contents(State()) == Queue([], 0)
    {
      StoppedIsEmpty(State());
      free := pool;
      cached := [];
      out := {};
      stopped := true;
    }
  }

  // ----- Runs of calls -----

  datatype Op = CacheOp(pick: Buffer) | TakeOp | CopyOp | ReleaseOp(buffer: Buffer) | StopOp | StartOp

  /** The statistics that arrive are numbered; taken lists those that users got, oldest first. */
  datatype Run = Run(pool: Pool, arrivals: nat, taken: seq<Stats>)

  predicate CanDo(r: Run, op: Op) {
    op.CacheOp? && r.pool.free != {} ==> op.pick in r.pool.free
  }

  function Oldest(p: Pool): seq<Stats> {
    if p.cached != [] && p.cached[0] in p.memory then [p.memory[p.cached[0]]] else []
  }

  function Do(r: Run, op: Op): Run {
    match op
    case CacheOp(pick) => r.(pool := Cached(r.pool, r.arrivals, pick), arrivals := r.arrivals + 1)
    case TakeOp => Run(Taken(r.pool), r.arrivals, r.taken + if r.pool.stopped then [] else Oldest(r.pool))
    case CopyOp => Run(Copied(r.pool), r.arrivals, r.taken + Oldest(r.pool))
    case ReleaseOp(b) => r.(pool := Released(r.pool, b))
    case StopOp => r.(pool := Stopped(r.pool))
    case StartOp => r.(pool := r.pool.(stopped := false))
  }

  function After(r: Run, ops: seq<Op>): Run
    decreases |ops|
  {
    if ops == [] then r else After(Do(r, ops[0]), ops[1..])
  }

  predicate CanDoAll(r: Run, ops: seq<Op>)
    decreases |ops|
  {
    ops == [] || (CanDo(r, ops[0]) && CanDoAll(Do(r, ops[0]), ops[1..]))
  }

  ghost predicate Rising(s: seq<Stats>) {
    forall i, j :: 0 <= i < j < |s| ==> s[i] < s[j]
  }

  /** What was taken, then what is cached, is in order of arrival; and every buffer is in its place. */
  ghost predicate InOrder(r: Run) {
    Valid(r.pool) && IsOrdered(r.taken, Contents(r.pool).cached, r.arrivals)
  }

  ghost predicate IsOrdered(taken: seq<Stats>, cached: seq<Stats>, arrivals: nat) {
    Rising(taken + cached) && forall x <- taken + cached :: x < arrivals
  }

  lemma StepKeepsOrder(r: Run, op: Op)
    requires InOrder(r) && CanDo(r, op)
    ensures InOrder(Do(r, op))
  {
    hide Valid, Contents, IsOrdered;
    match op
    case CacheOp(pick) =>
      CachedArrives(r.pool, r.arrivals, pick);
      ArrivalIsOrdered(r.taken, Contents(r.pool), |r.pool.all|, r.arrivals);
    case TakeOp =>
      if r.pool.stopped || r.pool.cached == [] {
        NothingTaken(r.taken);
      } else {
        TakenIsOldest(r.pool);
        OldestIsCached(r.pool);
        TakingIsOrdered(r.taken, Contents(r.pool).cached, r.arrivals);
      }
    case CopyOp =>
      if r.pool.cached == [] {
        NothingTaken(r.taken);
      } else {
        CopiedIsOldest(r.pool);
        OldestIsCached(r.pool);
        TakingIsOrdered(r.taken, Contents(r.pool).cached, r.arrivals);
      }
    case ReleaseOp(b) => ReleasedIsFree(r.pool, b);
    case StopOp =>
      StoppedIsEmpty(r.pool);
      StoppingIsOrdered(r.taken, Contents(r.pool).cached, r.arrivals);
    case StartOp => StartChangesNoBuffer(r.pool);
  }

  lemma NothingTaken(taken: seq<Stats>)
    ensures taken + [] == taken
  {
  }

  lemma StartChangesNoBuffer(p: Pool)
    requires Valid(p)
    ensures Valid(p.(stopped := false)) && Contents(p.(stopped := false)) == Contents(p)
  {
  }

  lemma TakingIsOrdered(taken: seq<Stats>, cached: seq<Stats>, arrivals: nat)
    requires cached != [] && IsOrdered(taken, cached, arrivals)
    ensures IsOrdered(taken + [cached[0]], cached[1..], arrivals)
  {
    assert taken + [cached[0]] + cached[1..] == taken + cached;
  }

  lemma StoppingIsOrdered(taken: seq<Stats>, cached: seq<Stats>, arrivals: nat)
    requires IsOrdered(taken, cached, arrivals)
    ensures IsOrdered(taken, [], arrivals) && Rising(taken)
  {
    assert taken + [] == taken;
    assert forall i :: 0 <= i < |taken| ==> (taken + cached)[i] == taken[i];
    assert forall x <- taken :: x in taken + cached;
  }

  lemma ArrivalIsOrdered(taken: seq<Stats>, q: Queue, capacity: nat, arrivals: nat)
    requires IsOrdered(taken, q.cached, arrivals)
    ensures IsOrdered(taken, Arrive(q, capacity, arrivals).cached, arrivals + 1)
  {
    var keepsAll := |q.cached| + q.held < capacity || q.cached == [];
    var kept := if keepsAll then q.cached else q.cached[1..];
    KeptInOrder(taken, q.cached, kept);
    var before := taken + kept;
    NewestLast(before, arrivals);
    assert taken + Arrive(q, capacity, arrivals).cached == before
        || taken + Arrive(q, capacity, arrivals).cached == before + [arrivals];
  }

  lemma NewestLast(s: seq<Stats>, newest: Stats)
    requires Rising(s) && forall x <- s :: x < newest
    ensures Rising(s + [newest])
  {
    assert forall i :: 0 <= i < |s| ==> s[i] in s;
  }

  lemma KeptInOrder(taken: seq<Stats>, cached: seq<Stats>, kept: seq<Stats>)
    requires Rising(taken + cached)
    requires kept == cached || (cached != [] && kept == cached[1..])
    ensures Rising(taken + kept)
    ensures forall x <- taken + kept :: x in taken + cached
  {
    if kept != cached {
      var whole, part := taken + cached, taken + kept;
      forall i | 0 <= i < |part| ensures part[i] == whole[Position(taken, i)] && part[i] in whole {
        assert whole[Position(taken, i)] in whole;
      }
      forall i, j | 0 <= i < j < |part| ensures part[i] < part[j] {
        assert whole[Position(taken, i)] < whole[Position(taken, j)];
      }
    }
  }

  /** Where an element was before the first cached one went. */
  function Position(taken: seq<Stats>, i: nat): nat {
    if i < |taken| then i else i + 1
  }

  /**
   * Over every sequence of calls, stops and starts, users get statistics in order of arrival, each at most
   * once, and no buffer is lost or in two places.
   */
  lemma {:induction false} TakenInOrderOfArrival(r: Run, ops: seq<Op>)
    requires InOrder(r) && CanDoAll(r, ops)
    ensures InOrder(After(r, ops)) && Rising(After(r, ops).taken)
    decreases |ops|
  {
    if ops == [] {
      StoppingIsOrdered(r.taken, Contents(r.pool).cached, r.arrivals);
    } else {
      hide InOrder, Do;
      StepKeepsOrder(r, ops[0]);
      TakenInOrderOfArrival(Do(r, ops[0]), ops[1..]);
    }
  }

  // ----- What the user holds -----

  /** The user holds the buffer throughout. */
  predicate HeldThroughout(r: Run, ops: seq<Op>, buffer: Buffer)
    decreases |ops|
  {
    buffer in r.pool.out && (ops != [] ==> HeldThroughout(Do(r, ops[0]), ops[1..], buffer))
  }

  predicate GivesUp(op: Op, buffer: Buffer) {
    op == ReleaseOp(buffer) || op.StopOp?
  }

  lemma HeldStaysIff(r: Run, op: Op, buffer: Buffer)
    requires Valid(r.pool) && CanDo(r, op) && buffer in r.pool.out
    ensures buffer in Do(r, op).pool.out <==> !GivesUp(op, buffer)
    ensures !GivesUp(op, buffer) ==>
              buffer in r.pool.memory && buffer in Do(r, op).pool.memory
              && Do(r, op).pool.memory[buffer] == r.pool.memory[buffer]
  {
    if op.CacheOp? {
      CachedArrives(r.pool, r.arrivals, op.pick);
      hide Cached;
    }
  }

  /**
   * Over every sequence of calls, a buffer that the user holds stays held exactly until it is released or the
   * engine stops; and until then its contents are not rewritten.
   */
  lemma {:induction false} HeldIsKeptIff(r: Run, ops: seq<Op>, buffer: Buffer)
    requires InOrder(r) && CanDoAll(r, ops) && buffer in r.pool.out
    ensures HeldThroughout(r, ops, buffer) <==> forall op <- ops :: !GivesUp(op, buffer)
    ensures HeldThroughout(r, ops, buffer) ==>
              buffer in r.pool.memory && buffer in After(r, ops).pool.memory
              && After(r, ops).pool.memory[buffer] == r.pool.memory[buffer]
    decreases |ops|
  {
    if ops != [] {
      HeldStaysIff(r, ops[0], buffer);
      StepKeepsOrder(r, ops[0]);
      hide InOrder, Do, GivesUp, Valid;
      assert ops == [ops[0]] + ops[1..];
      if !GivesUp(ops[0], buffer) {
        HeldIsKeptIff(Do(r, ops[0]), ops[1..], buffer);
      }
    } else {
      assert buffer in r.pool.all;
    }
  }

  /**
   * New statistics are lost exactly when users hold all buffers; otherwise they are the newest cached, and of the
   * others the oldest goes exactly if no buffer was free.
   */
  lemma LostIffAllAreHeld(q: Queue, capacity: nat, stats: Stats)
    requires |q.cached| + q.held <= capacity
    ensures Arrive(q, capacity, stats) == q.(cached := Arrive(q, capacity, stats).cached)
    ensures q.held < capacity ==>
              var cached := Arrive(q, capacity, stats).cached;
              && cached != [] && cached[|cached| - 1] == stats
              && (|q.cached| + q.held < capacity ==> cached[..|cached| - 1] == q.cached)
              && (|q.cached| + q.held == capacity ==> q.cached != [] && cached[..|cached| - 1] == q.cached[1..])
    ensures q.held == capacity ==> Arrive(q, capacity, stats) == q
  {
  }
}
