/** Frame messages, the conditions a group waits for, and what a group reports when it fires. */
module FrameMessages {
  import opened Words

  /** A message type is a bit position of the 64-bit dependency masks. */
  type MsgType = t: nat | t < 64

  /** A delay is stored in a signed byte. */
  type Delay = d: int | -128 <= d < 128

  datatype Message = Message(kind: MsgType, frame: uint32, payload: int)

  datatype Cond = Cond(kind: MsgType, delay: Delay)

  /** All messages collected for one frame id, and the union of their type bits. */
  datatype GroupMessage = GroupMessage(flags: set<MsgType>, list: seq<Message>)

  /** One call of the group's handler. */
  datatype Fire = Fire(id: uint32, list: seq<Message>)

  datatype Status = NoError | Bypass | ErrorParam

  /** The dependency mask and the per-type delays of one group. */
  datatype Config = Config(deps: set<MsgType>, conds: seq<Cond>)

  /** The delay of the first condition on this type, 0 when there is none. */
  function DelayOf(conds: seq<Cond>, kind: MsgType): Delay {
    if conds == [] then 0
    else if conds[0].kind == kind then conds[0].delay
    else DelayOf(conds[1..], kind)
  }

  /** Condition i is the first one on this type; i is behind the last condition if there is none. */
  ghost predicate IsFirstCond(conds: seq<Cond>, kind: MsgType, i: nat) {
    && i <= |conds| && (i < |conds| ==> conds[i].kind == kind)
    && forall j :: 0 <= j < i ==> conds[j].kind != kind
  }

  lemma {:induction false} DelayIsOfFirstCond(conds: seq<Cond>, kind: MsgType, i: nat)
    requires IsFirstCond(conds, kind, i)
    ensures DelayOf(conds, kind) == if i < |conds| then conds[i].delay else 0
  {
    if i > 0 {
      DelayIsOfFirstCond(conds[1..], kind, i - 1);
    }
  }

  lemma {:induction false} SomeCondIsFirst(conds: seq<Cond>, kind: MsgType) returns (i: nat)
    ensures IsFirstCond(conds, kind, i)
  {
    i := 0;
    if conds != [] && conds[0].kind != kind {
      var k := SomeCondIsFirst(conds[1..], kind);
      i := k + 1;
      assert i < |conds| ==> conds[i] == conds[1..][k];
      forall j | 0 <= j < i ensures conds[j].kind != kind {
        assert j > 0 ==> conds[j] == conds[1..][j - 1];
      }
    }
  }

  /** The id a message is filed under; the sum is kept in 32 bits. */
  function UserId(cfg: Config, m: Message): uint32 {
    ToU32(m.frame + DelayOf(cfg.conds, m.kind))
  }

  /** The types of the listed messages. */
  function Kinds(list: seq<Message>): set<MsgType> {
    if list == [] then {} else Kinds(list[..|list| - 1]) + {list[|list| - 1].kind}
  }

  lemma {:induction false} KindsAreListed(list: seq<Message>, kind: MsgType)
    ensures kind in Kinds(list) <==> exists m :: m in list && m.kind == kind
  {
    if list != [] {
      var before, last := list[..|list| - 1], list[|list| - 1];
      KindsAreListed(before, kind);
      assert forall m :: m in list <==> m in before || m == last;
    }
  }
}

/** The message collector of one analyzer group. */
module Collector {
  import opened Options
  import opened Words
  import opened FrameMessages

  type Pending = map<uint32, GroupMessage>

  const OVERFLOW_SIZE := 12
  const SIZE_AFTER_REDUCTION := 6

  // ----- What each operation leaves in the pending map -----

  /** m without its k smallest ids. */
  function DropSmallest(m: Pending, k: nat): (r: Pending)
    requires k <= |m|
    decreases k
  {
    if k == 0 then m else DropSmallest(m - {Min(m.Keys)}, k - 1)
  }

  /** Only the newest ids survive: what is dropped is older than everything that is kept. */
  lemma {:induction false} DropSmallestKeepsNewest(m: Pending, k: nat)
    requires k <= |m|
    ensures |DropSmallest(m, k)| == |m| - k
    ensures forall id :: id in DropSmallest(m, k) ==> id in m && DropSmallest(m, k)[id] == m[id]
    ensures forall id, kept :: id in m && id !in DropSmallest(m, k) && kept in DropSmallest(m, k) ==> id < kept
    decreases k
  {
    if k > 0 {
      var rest := m - {Min(m.Keys)};
      assert rest.Keys == m.Keys - {Min(m.Keys)};
      DropSmallestKeepsNewest(rest, k - 1);
    }
  }

  function Reduced(m: Pending): Pending {
    if |m| > OVERFLOW_SIZE then DropSmallest(m, |m| - SIZE_AFTER_REDUCTION) else m
  }

  function From(m: Pending, id: uint32): Pending {
    map i | i in m && i >= id :: m[i]
  }

  function Newer(m: Pending, id: uint32): Pending {
    map i | i in m && i > id :: m[i]
  }

  function Filed(cfg: Config, m: Pending, msg: Message): Pending {
    var id := UserId(cfg, msg);
    var was := if id in m then m[id] else GroupMessage({}, []);
    m[id := GroupMessage(was.flags + {msg.kind}, was.list + [msg])]
  }

  /** What one message does: the new pending map, and the call of the handler if there is one. */
  datatype Outcome = Outcome(pending: Pending, fired: Option<Fire>)

  function Handle(cfg: Config, m: Pending, msg: Message): Outcome {
    if msg.kind !in cfg.deps then Outcome(m, None)
    else
      var id := UserId(cfg, msg);
      var filed := Filed(cfg, m, msg);
      if filed[id].flags == cfg.deps
      then Outcome(Newer(filed, id), Some(Fire(id, filed[id].list)))
      else Outcome(Reduced(filed), None)
  }

  lemma FromWithoutIsNewer(m: Pending, id: uint32)
    ensures From(m, id) - {id} == Newer(m, id)
  {
  }

  // ----- What that means for the message and for the others -----

  /** At most twelve ids stay as they are; of more, the six newest do. */
  ghost predicate IsReduced(before: Pending, after: Pending) {
    && (forall id <- after :: id in before && after[id] == before[id])
    && (|before| <= 12 ==> after == before)
    && (|before| > 12 ==> |after| == 6 && forall id <- before, kept <- after :: id !in after ==> id < kept)
  }

  lemma ReducedKeepsSix(m: Pending)
    ensures IsReduced(m, Reduced(m))
  {
    if |m| > 12 {
      DropSmallestKeepsNewest(m, |m| - 6);
    }
  }

  /** The message is added to the messages of its id; then a complete id is fired and all up to it are gone. */
  ghost predicate LandsUnder(before: Pending, msg: Message, deps: set<MsgType>, id: uint32, after: Pending,
      fired: Option<Fire>)
  {
    var list := (if id in before then before[id].list else []) + [msg];
    var flags := (if id in before then before[id].flags else {}) + {msg.kind};
    if flags == deps then
      && fired == Some(Fire(id, list))
      && (forall x: uint32 :: x in after <==> x in before && x > id)
      && (forall x <- after :: after[x] == before[x])
    else fired == None && IsReduced(before[id := GroupMessage(flags, list)], after)
  }

  /** The message lands under its frame plus the delay of the first condition on its type, 0 without one, in 32 bits. */
  ghost predicate LandsByFirstCond(cfg: Config, before: Pending, msg: Message, after: Pending, fired: Option<Fire>) {
    exists i: nat ::
      && IsFirstCond(cfg.conds, msg.kind, i)
      && var delay := if i < |cfg.conds| then cfg.conds[i].delay else 0;
         LandsUnder(before, msg, cfg.deps, (msg.frame + delay) % 0x1_0000_0000, after, fired)
  }

  lemma MessageLands(cfg: Config, m: Pending, msg: Message)
    requires msg.kind in cfg.deps
    ensures LandsByFirstCond(cfg, m, msg, Handle(cfg, m, msg).pending, Handle(cfg, m, msg).fired)
  {
    var i := SomeCondIsFirst(cfg.conds, msg.kind);
    IdByFirstCond(cfg, msg, i);
    HandleLands(cfg, m, msg);
    hide LandsUnder, Handle, UserId, IsFirstCond;
  }

  lemma IdByFirstCond(cfg: Config, msg: Message, i: nat)
    requires IsFirstCond(cfg.conds, msg.kind, i)
    ensures
      var delay := if i < |cfg.conds| then cfg.conds[i].delay else 0;
      UserId(cfg, msg) == (msg.frame + delay) % 0x1_0000_0000
  {
    DelayIsOfFirstCond(cfg.conds, msg.kind, i);
    hide DelayOf, IsFirstCond;
  }

  lemma HandleLands(cfg: Config, m: Pending, msg: Message)
    requires msg.kind in cfg.deps
    ensures LandsUnder(m, msg, cfg.deps, UserId(cfg, msg), Handle(cfg, m, msg).pending, Handle(cfg, m, msg).fired)
  {
    ReducedKeepsSix(Filed(cfg, m, msg));
    hide Reduced, UserId, IsReduced;
  }

  // ----- The collector as it is built: in place -----

  class AnalyzerGroup {
    var deps: set<MsgType>
    const conds: seq<Cond>
    var pending: Pending

    constructor (deps: set<MsgType>, conds: seq<Cond>)
      ensures this.deps == deps && this.conds == conds && pending == map[]
    {
      this.deps := deps;
      this.conds := conds;
      this.pending := map[];
    }

    function Cfg(): Config
      reads this
    {
      Config(deps, conds)
    }

    method GetMsgDelayCnt(kind: MsgType) returns (delay: Delay)
      ensures delay == DelayOf(conds, kind)
      ensures exists i: nat :: IsFirstCond(conds, kind, i) && delay == if i < |conds| then conds[i].delay else 0
    {
      var i := 0;
      while i < |conds|
        invariant 0 <= i <= |conds|
        invariant DelayOf(conds, kind) == DelayOf(conds[i..], kind)
        invariant forall j :: 0 <= j < i ==> conds[j].kind != kind
      {
        if conds[i].kind == kind {
          assert IsFirstCond(conds, kind, i);
          return conds[i].delay;
        }
        i := i + 1;
      }
      assert IsFirstCond(conds, kind, i);
      delay := 0;
    }

    method MsgReduction()
      modifies this`pending
      ensures pending == Reduced(old(pending)) && IsReduced(old(pending), pending)
    {
      ReducedKeepsSix(pending);
      if |pending| > OVERFLOW_SIZE {
        var numToErase := |pending| - SIZE_AFTER_REDUCTION;
        var erased := 0;
        while erased < numToErase
          invariant 0 <= erased <= numToErase
          invariant |pending| == |old(pending)| - erased
          invariant DropSmallest(old(pending), numToErase) == DropSmallest(pending, numToErase - erased)
        {
          var first := Min(pending.Keys);
          assert (pending - {first}).Keys == pending.Keys - {first};
          pending := pending - {first};
          erased := erased + 1;
        }
      }
    }

    method EraseOlder(id: uint32)
      requires id in pending
      modifies this`pending
      ensures pending == From(old(pending), id)
      ensures forall x: uint32 :: x in pending <==> x in old(pending) && x >= id
      ensures forall x <- pending :: pending[x] == old(pending)[x]
    {
      var first := Min(pending.Keys);
      while first < id
        invariant id in pending
        invariant first == Min(pending.Keys)
        invariant pending.Keys <= old(pending).Keys
        invariant forall i :: i in old(pending) && i >= id ==> i in pending
        invariant forall i :: i in pending ==> pending[i] == old(pending)[i]
        decreases |pending|
      {
        assert (pending - {first}).Keys == pending.Keys - {first};
        pending := pending - {first};
        assert id in pending.Keys;
        first := Min(pending.Keys);
      }
    }

    /** Handles one message (None is the null pointer); fired is what the handler is called with. */
    method MsgHandle(msg: Option<Message>) returns (status: Status, fired: Option<Fire>)
      modifies this`pending
      ensures msg.None? ==> status == ErrorParam && fired == None && pending == old(pending)
      ensures msg.Some? ==> Outcome(pending, fired) == Handle(Cfg(), old(pending), msg.value)
      ensures msg.Some? ==> status == if fired.Some? then NoError else Bypass
      ensures msg.Some? && msg.value.kind !in deps ==> fired == None && pending == old(pending)
      ensures msg.Some? && msg.value.kind in deps ==>
                LandsByFirstCond(Cfg(), old(pending), msg.value, pending, fired)
    {
      if msg.Some? && msg.value.kind in deps {
        MessageLands(Cfg(), pending, msg.value);
      }
      hide LandsByFirstCond, IsReduced, IsFirstCond, From, Newer, Reduced, DelayOf, ToU32;
      fired := None;
      if msg.None? {
        return ErrorParam, None;
      }
      if msg.value.kind !in deps {
        return Bypass, None;
      }
      var delayCnt := GetMsgDelayCnt(msg.value.kind);
      var userId := ToU32(msg.value.frame + delayCnt);
      var wrapper := if userId in pending then pending[userId] else GroupMessage({}, []);
      wrapper := GroupMessage(wrapper.flags + {msg.value.kind}, wrapper.list + [msg.value]);
      pending := pending[userId := wrapper];
      assert userId == UserId(Cfg(), msg.value) && pending == Filed(Cfg(), old(pending), msg.value);
      hide Filed, UserId;
      if wrapper.flags == deps {
        FromWithoutIsNewer(pending, userId);
        EraseOlder(userId);
        fired := Some(Fire(userId, wrapper.list));
        pending := pending - {userId};
        status := NoError;
      } else {
        MsgReduction();
        status := Bypass;
      }
    }

    method Stop()
      modifies this`pending
      ensures pending == map[]
    {
      pending := map[];
    }
  }
}
