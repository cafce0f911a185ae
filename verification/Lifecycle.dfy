/** The life of a camera group: which cameras are bound, the mask of their bits, and the state. */
module Lifecycle {
  import opened Cameras

  /** The context of a bound camera. */
  type Manager = int

  datatype Phase = Invalid | Binded | Unbinded | Inited | Prepared | Started

  datatype Life = Life(phase: Phase, bound: map<Cam, Manager>, mask: bv8)

  /** What the caller asks for; ready says whether the initial parameters could be processed. */
  datatype Op = Bind(cam: Cam, ctx: Manager) | Unbind(cam: Cam) | Init | Prepare(ready: bool) | StartOp | Stop | DeInit

  datatype Status = NoError | Failed

  datatype Outcome = Outcome(life: Life, status: Status)

  function Bit(cam: Cam): bv8 {
    1 << cam
  }

  function WithBit(mask: bv8, cam: Cam): bv8 {
    mask | Bit(cam)
  }

  function WithoutBit(mask: bv8, cam: Cam): bv8 {
    mask & !Bit(cam)
  }

  predicate HasBit(mask: bv8, cam: Cam) {
    mask & Bit(cam) != 0
  }

  function Created(): Life {
    Life(Invalid, map[], 0)
  }

  /** What each call does, from every state. */
  function Do(g: Life, op: Op): Outcome {
    match op
    case Bind(cam, ctx) =>
      if g.phase != Invalid && g.phase != Binded then Outcome(g, Failed)
      else if cam in g.bound then Outcome(g, NoError)
      else Outcome(Life(Binded, g.bound[cam := ctx], WithBit(g.mask, cam)), NoError)
    case Unbind(cam) =>
      if g.phase == Started then Outcome(g, Failed)
      else if cam !in g.bound then Outcome(g, NoError)
      else
        var rest := g.bound - {cam};
        Outcome(Life(if rest == map[] then Unbinded else g.phase, rest, WithoutBit(g.mask, cam)), NoError)
    case Init => if g.phase != Binded then Outcome(g, Failed) else Outcome(g.(phase := Inited), NoError)
    case Prepare(ready) =>
      if g.phase != Inited && g.phase != Binded then Outcome(g, Failed)
      else if g.bound == map[] then Outcome(g, NoError)
      else if ready then Outcome(g.(phase := Prepared), NoError)
      else Outcome(g, Failed)
    case StartOp => if g.phase != Prepared then Outcome(g, Failed) else Outcome(g.(phase := Started), NoError)
    case Stop =>
      if g.phase == Invalid then Outcome(g, Failed)
      else Outcome(if g.phase == Started then g.(phase := Prepared) else g, NoError)
    case DeInit => if g.phase != Unbinded then Outcome(g, Failed) else Outcome(g.(phase := Invalid), NoError)
  }

  // ----- The group as it is built: in place -----

  class CamGroup {
    var phase: Phase
    var bound: map<Cam, Manager>
    var mask: bv8

    constructor ()
      ensures Contents() == Created()
    {
      phase, bound, mask := Invalid, map[], 0;
    }

    function Contents(): Life
      reads this
    {
      Life(phase, bound, mask)
    }

    method BindCam(cam: Cam, ctx: Manager) returns (status: Status)
      modifies this
      ensures Outcome(Contents(), status) == Do(old(Contents()), Bind(cam, ctx))
    {
      if phase != Invalid && phase != Binded {
        return Failed;
      }
      if cam in bound {
        return NoError;
      } else {
        bound := bound[cam := ctx];
        mask := WithBit(mask, cam);
      }
      phase := Binded;
      return NoError;
    }

    method UnbindCam(cam: Cam) returns (status: Status)
      modifies this
      ensures Outcome(Contents(), status) == Do(old(Contents()), Unbind(cam))
    {
      hide WithoutBit;
      if phase == Started {
        return Failed;
      }
      if cam in bound {
        bound := bound - {cam};
        mask := WithoutBit(mask, cam);
        if bound == map[] {
          phase := Unbinded;
        }
      }
      return NoError;
    }

    method InitAlgos() returns (status: Status)
      modifies this`phase
      ensures Outcome(Contents(), status) == Do(old(Contents()), Init)
    {
      if phase != Binded {
        return Failed;
      }
      phase := Inited;
      return NoError;
    }

    method PrepareParams(ready: bool) returns (status: Status)
      modifies this`phase
      ensures Outcome(Contents(), status) == Do(old(Contents()), Prepare(ready))
    {
      if phase != Inited && phase != Binded {
        return Failed;
      }
      if bound == map[] {
        return NoError;
      }
      if !ready {
        return Failed;
      }
      phase := Prepared;
      return NoError;
    }

    method StartThread() returns (status: Status)
      modifies this`phase
      ensures Outcome(Contents(), status) == Do(old(Contents()), StartOp)
    {
      if phase != Prepared {
        return Failed;
      }
      phase := Started;
      return NoError;
    }

    method StopThread() returns (status: Status)
      modifies this`phase
      ensures Outcome(Contents(), status) == Do(old(Contents()), Stop)
    {
      if phase == Invalid {
        return Failed;
      }
      if phase == Started {
        phase := Prepared;
      }
      return NoError;
    }

    method DeInitAlgos() returns (status: Status)
      modifies this`phase
      ensures Outcome(Contents(), status) == Do(old(Contents()), DeInit)
    {
      if phase != Unbinded {
        return Failed;
      }
      phase := Invalid;
      return NoError;
    }
  }

  // ----- What holds after every sequence of calls -----

  function After(g: Life, ops: seq<Op>): Life
    decreases |ops|
  {
    if ops == [] then g else After(Do(g, ops[0]).life, ops[1..])
  }

  ghost predicate Consistent(g: Life) {
    && (g.bound == map[] <==> g.phase == Invalid || g.phase == Unbinded)
    && (forall cam: Cam :: HasBit(g.mask, cam) <==> cam in g.bound)
  }

  lemma BitsAreApart(mask: bv8, a: Cam, b: Cam)
    ensures HasBit(WithBit(mask, a), b) <==> a == b || HasBit(mask, b)
    ensures HasBit(WithoutBit(mask, a), b) <==> a != b && HasBit(mask, b)
  {
    if a == b {
      OneBit(mask, a);
    } else {
      TwoBits(mask, a, b);
    }
  }

  lemma OneBit(mask: bv8, a: Cam)
    ensures (mask | Bit(a)) & Bit(a) != 0
    ensures (mask & !Bit(a)) & Bit(a) == 0
  {
  }

  lemma TwoBits(mask: bv8, a: Cam, b: Cam)
    requires a != b
    ensures (mask | Bit(a)) & Bit(b) == mask & Bit(b)
    ensures (mask & !Bit(a)) & Bit(b) == mask & Bit(b)
  {
    assert Bit(a) & Bit(b) == 0;
  }

  lemma OpKeepsConsistent(g: Life, op: Op)
    requires Consistent(g)
    ensures Consistent(Do(g, op).life)
  {
    hide HasBit, WithBit, WithoutBit;
    if op.Bind? || op.Unbind? {
      forall cam: Cam
        ensures HasBit(WithBit(g.mask, op.cam), cam) <==> op.cam == cam || HasBit(g.mask, cam)
        ensures HasBit(WithoutBit(g.mask, op.cam), cam) <==> op.cam != cam && HasBit(g.mask, cam)
      {
        BitsAreApart(g.mask, op.cam, cam);
      }
    }
  }

  lemma CreatedIsConsistent()
    ensures Consistent(Created())
  {
  }

  /** From a consistent state every sequence of calls leads to a consistent one. */
  lemma {:induction false} EveryCallKeepsConsistent(g: Life, ops: seq<Op>)
    requires Consistent(g)
    ensures Consistent(After(g, ops))
    decreases |ops|
  {
    hide Consistent, Do;
    if ops != [] {
      OpKeepsConsistent(g, ops[0]);
      EveryCallKeepsConsistent(Do(g, ops[0]).life, ops[1..]);
    }
  }

  /** Whatever is called after construction, nothing is bound exactly in those two states, and the mask is right. */
  lemma ReachableIsConsistent(ops: seq<Op>)
    ensures Consistent(After(Created(), ops))
  {
    hide Consistent;
    CreatedIsConsistent();
    EveryCallKeepsConsistent(Created(), ops);
  }

  /** A started group keeps its cameras and its mask until it is stopped: every other call leaves it as it is. */
  lemma {:induction false} StartedIsFrozen(g: Life, ops: seq<Op>)
    requires g.phase == Started
    requires Stop !in ops
    ensures After(g, ops) == g
    decreases |ops|
  {
    if ops != [] {
      assert ops[0] in ops;
      assert Do(g, ops[0]).life == g;
      hide Do;
      StartedIsFrozen(g, ops[1..]);
    }
  }

  // ----- What each call answers, and what it does to the cameras -----

  /** A call fails exactly in these states, and then changes nothing. */
  lemma CallFailsIff(g: Life, op: Op)
    ensures
      Do(g, op).status == Failed
      <==> match op
           case Bind(_, _) => g.phase != Invalid && g.phase != Binded
           case Unbind(_) => g.phase == Started
           case Init => g.phase != Binded
           case Prepare(ready) => (g.phase != Inited && g.phase != Binded) || (g.bound != map[] && !ready)
           case StartOp => g.phase != Prepared
           case Stop => g.phase == Invalid
           case DeInit => g.phase != Unbinded
    ensures Do(g, op).status == Failed ==> Do(g, op).life == g
  {
    hide WithBit, WithoutBit;
  }

  /** The state after a call that does not fail. */
  lemma PhaseAfter(g: Life, op: Op)
    requires Do(g, op).status == NoError
    ensures
      Do(g, op).life.phase
      == match op
         case Bind(cam, _) => if cam in g.bound then g.phase else Binded
         case Unbind(cam) => if g.bound.Keys == {cam} then Unbinded else g.phase
         case Init => Inited
         case Prepare(_) => if g.bound.Keys == {} then g.phase else Prepared
         case StartOp => Started
         case Stop => if g.phase == Started then Prepared else g.phase
         case DeInit => Invalid
  {
    hide WithBit, WithoutBit;
    if op.Unbind? && op.cam in g.bound {
      var rest := g.bound - {op.cam};
      assert rest.Keys == g.bound.Keys - {op.cam};
      assert rest == map[] <==> rest.Keys == {};
      assert g.bound.Keys == {op.cam} <==> g.bound.Keys - {op.cam} == {};
    }
  }

  /** Only binding and unbinding change the cameras; a bound camera keeps the context it was bound with. */
  lemma CamerasAfter(g: Life, op: Op, cam: Cam)
    ensures
      var t := Do(g, op);
      && (cam in t.life.bound
          <==> if op == Unbind(cam) && t.status == NoError then false
               else cam in g.bound || (op.Bind? && op.cam == cam && t.status == NoError))
      && (cam in t.life.bound ==> t.life.bound[cam] == if cam in g.bound then g.bound[cam] else op.ctx)
  {
    hide WithBit, WithoutBit;
  }

  /** The bits of the eight cameras, lowest first. */
  lemma MaskOfCameras()
    ensures Bit(0) == 0x01 && Bit(1) == 0x02 && Bit(2) == 0x04 && Bit(3) == 0x08
    ensures Bit(4) == 0x10 && Bit(5) == 0x20 && Bit(6) == 0x40 && Bit(7) == 0x80
  {
  }

  // ----- The transition table -----

  datatype Call = DoBind | DoUnbind | DoInit | DoPrepare | DoStart | DoStop | DoDeInit

  function CallOf(op: Op): Call {
    match op
    case Bind(_, _) => DoBind
    case Unbind(_) => DoUnbind
    case Init => DoInit
    case Prepare(_) => DoPrepare
    case StartOp => DoStart
    case Stop => DoStop
    case DeInit => DoDeInit
  }

  /** The table in the header, including its "Others". */
  predicate Documented(from: Phase, call: Call, to: Phase) {
    || (from == Invalid && call == DoBind && to == Binded)
    || (from == Binded && call == DoInit && to == Inited)
    || (from == Inited && call == DoPrepare && to == Prepared)
    || (from == Prepared && call == DoStart && to == Started)
    || (from == Started && call == DoStop && to == Prepared)
    || (from == Prepared && call == DoUnbind && to == Unbinded)
    || (from == Unbinded && call == DoDeInit && to == Invalid)
    || (from == Binded && call == DoUnbind && to == Unbinded)
    || (from == Inited && call == DoUnbind && to == Unbinded)
  }

  ghost predicate CanMove(from: Phase, call: Call, to: Phase) {
    exists g: Life, op: Op :: Moves(g, op, from, call, to)
  }

  ghost predicate Moves(g: Life, op: Op, from: Phase, call: Call, to: Phase) {
    && Consistent(g) && g.phase == from && CallOf(op) == call
    && Do(g, op).life.phase == to && to != from
  }

  /**
   * The transitions that can happen are those of the table and one more: a group that was never inited
   * can be prepared.
   */
  lemma TransitionsAreTheTableAndOneMore(from: Phase, call: Call, to: Phase)
    ensures CanMove(from, call, to)
            <==> Documented(from, call, to) || (from == Binded && call == DoPrepare && to == Prepared)
  {
    if CanMove(from, call, to) {
      var g, op :| Moves(g, op, from, call, to);
    }
    if Documented(from, call, to) || (from == Binded && call == DoPrepare && to == Prepared) {
      var g := if from == Invalid || from == Unbinded then Life(from, map[], 0) else Life(from, map[0 := 0], 1);
      var op :=
        match call
        case DoBind => Bind(0, 0)
        case DoUnbind => Unbind(0)
        case DoInit => Init
        case DoPrepare => Prepare(true)
        case DoStart => StartOp
        case DoStop => Stop
        case DoDeInit => DeInit;
      OneCamera();
      hide HasBit, WithBit, WithoutBit;
      var alone: map<Cam, Manager> := map[0 := 0];
      assert alone - {0} == map[] && 0 in alone;
      assert Consistent(g);
      assert Moves(g, op, from, call, to);
    }
  }

  lemma OneCamera()
    ensures forall cam: Cam :: HasBit(1, cam) <==> cam == 0
    ensures forall cam: Cam :: !HasBit(0, cam)
  {
  }

  /** Preparing a consistent group never finds it without cameras. */
  lemma PrepareHasCameras(g: Life, ready: bool)
    requires Consistent(g)
    ensures Do(g, Prepare(ready)).status == NoError <==> (g.phase == Inited || g.phase == Binded) && ready
    ensures Do(g, Prepare(ready)).status == NoError ==> Do(g, Prepare(ready)).life == g.(phase := Prepared)
  {
  }
}
