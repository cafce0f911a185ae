/** Which analyzer group a message goes to: groups are kept in a map whose key is their dependency mask. */
module Dispatcher {
  import opened Words

  type Mask = m: nat | m < 0x1_0000_0000_0000_0000
  type MsgId = b: nat | b < 64
  type Kind = int

  /** An analyzer group: its type, and the dependency mask it holds itself. */
  datatype Analyzer = Analyzer(kind: Kind, deps: Mask)

  type Algo = a: nat | a < 64

  /** One algorithm description: its algorithm, its group type and its dependency mask. */
  datatype Description = Description(algo: Algo, kind: Kind, deps: Mask)

  /** The group type under which every algorithm is listed. */
  const ANALYZE_ALL: Kind := 0xffff_ffff

  datatype Status = NoError | ErrorParam

  type Analyzers = map<Mask, Analyzer>

  function Power(b: nat): nat {
    if b == 0 then 1 else 2 * Power(b - 1)
  }

  lemma PowerIsPositive(b: nat)
    ensures Power(b) > 0
  {
  }

  predicate Has(mask: Mask, msg: MsgId) {
    PowerIsPositive(msg);
    mask / Power(msg) % 2 == 1
  }

  /** The number whose binary digits these are, the lowest first. */
  function MaskOf(digits: seq<bool>): nat {
    if digits == [] then 0 else (if digits[0] then 1 else 0) + 2 * MaskOf(digits[1..])
  }

  lemma {:induction false} EveryNumberHasDigits(mask: nat) returns (digits: seq<bool>)
    ensures MaskOf(digits) == mask
  {
    if mask == 0 {
      digits := [];
    } else {
      var rest := EveryNumberHasDigits(mask / 2);
      digits := [mask % 2 == 1] + rest;
      assert digits[1..] == rest;
    }
  }

  lemma {:induction false} DigitOfMask(digits: seq<bool>, b: nat)
    ensures Power(b) > 0
    ensures MaskOf(digits) / Power(b) % 2 == 1 <==> b < |digits| && digits[b]
  {
    PowerIsPositive(b);
    assert Power(b) == if b == 0 then 1 else 2 * Power(b - 1);
    if digits == [] {
      NoDigit(Power(b));
    } else {
      var low, high := (if digits[0] then 1 else 0), MaskOf(digits[1..]);
      assert MaskOf(digits) == low + 2 * high;
      hide MaskOf, Power;
      if b == 0 {
        LowestDigit(low, high);
      } else {
        DigitOfMask(digits[1..], b - 1);
        DigitBehind(low, high, Power(b - 1));
      }
    }
  }

  lemma NoDigit(p: nat)
    requires p > 0
    ensures 0 / p % 2 == 0
  {
  }

  lemma LowestDigit(low: nat, high: nat)
    requires low < 2
    ensures (low + 2 * high) / 1 % 2 == low
  {
  }

  lemma DigitBehind(low: nat, high: nat, p: nat)
    requires low < 2 && p > 0
    ensures (low + 2 * high) / (2 * p) == high / p
  {
    var q, r := high / p, high % p;
    assert high == q * p + r;
    assert low + 2 * high == q * (2 * p) + (low + 2 * r) && 0 <= low + 2 * r < 2 * p;
    QuotientIs(low + 2 * high, 2 * p, q, low + 2 * r);
  }

  lemma QuotientIs(x: nat, d: nat, q: nat, r: nat)
    requires d > 0 && x == q * d + r && r < d
    ensures x / d == q
  {
    var k := x / d;
    Parts(x, d);
    Difference(k, q, d);
    NoMultiple(k - q, d);
  }

  lemma Parts(x: nat, d: nat)
    requires d > 0
    ensures x == x / d * d + x % d && 0 <= x % d < d
  {
  }

  lemma Difference(k: int, q: int, d: int)
    ensures (k - q) * d == k * d - q * d
  {
  }

  lemma NoMultiple(e: int, d: int)
    requires d > 0 && -d < e * d < d
    ensures e == 0
  {
    if e >= 1 {
      Difference(e, 1, d);
      Product(e - 1, d);
    } else if e <= -1 {
      Difference(e, -1, d);
      Product(-1 - e, d);
      Difference(-1, e, d);
    }
  }

  lemma Product(a: int, b: int)
    requires a >= 0 && b >= 0
    ensures a * b >= 0
  {
  }

  /** A mask has a message exactly if its binary digit at the position of the message is set. */
  lemma MaskHasItsDigits(mask: Mask) returns (digits: seq<bool>)
    ensures MaskOf(digits) == mask
    ensures forall msg: MsgId :: Has(mask, msg) <==> msg < |digits| && digits[msg]
  {
    digits := EveryNumberHasDigits(mask);
    forall msg: MsgId ensures Has(mask, msg) <==> msg < |digits| && digits[msg] {
      DigitOfMask(digits, msg);
    }
  }

  /** The key of every group is the mask the group holds. */
  predicate KeyedByDeps(m: Analyzers) {
    forall key <- m :: m[key].deps == key
  }

  function KeysOf(m: Analyzers, kind: Kind): set<Mask> {
    set key | key in m && m[key].kind == kind
  }

  /** Groups of the same mask share one analyzer: that of the description that comes first. */
  function Parsed(descriptions: seq<Description>): (m: Analyzers)
  {
    if descriptions == [] then map[]
    else
      var m := Parsed(descriptions[..|descriptions| - 1]);
      var d := descriptions[|descriptions| - 1];
      if d.deps in m then m else m[d.deps := Analyzer(d.kind, d.deps)]
  }

  /** The descriptions of enabled algorithms. */
  function Enabled(descriptions: seq<Description>, enabled: Mask): seq<Description> {
    if descriptions == [] then []
    else
      var d := descriptions[|descriptions| - 1];
      Enabled(descriptions[..|descriptions| - 1], enabled) + if Has(enabled, d.algo) then [d] else []
  }

  type AlgoLists = map<Kind, seq<Algo>>

  function ListOf(lists: AlgoLists, kind: Kind): seq<Algo> {
    if kind in lists then lists[kind] else []
  }

  function Listed(lists: AlgoLists, kind: Kind, algo: Algo): AlgoLists {
    lists[kind := ListOf(lists, kind) + [algo]]
  }

  /** Every algorithm that has a handle is listed under its group type and under the type for all. */
  function Lists(descriptions: seq<Description>, handles: set<Algo>): AlgoLists {
    if descriptions == [] then map[]
    else
      var d := descriptions[|descriptions| - 1];
      var lists := Lists(descriptions[..|descriptions| - 1], handles);
      if d.algo in handles then Listed(Listed(lists, d.kind, d.algo), ANALYZE_ALL, d.algo) else lists
  }

  datatype Changed = Changed(groups: Analyzers, status: Status)

  /** The first group of this kind, in the order of the masks, gets new dependencies and moves to their key. */
  function WithDeps(m: Analyzers, kind: Kind, deps: Mask): Changed {
    if KeysOf(m, kind) == {} then Changed(m, ErrorParam)
    else
      var group := m[Min(KeysOf(m, kind))];
      if group.deps == deps then Changed(m, NoError)
      else Changed(m[deps := group.(deps := deps)] - {group.deps}, NoError)
  }

  lemma EnabledSnoc(descriptions: seq<Description>, i: nat, enabled: Mask)
    requires i < |descriptions|
    ensures
      var before := Enabled(descriptions[..i], enabled);
      Enabled(descriptions[..i + 1], enabled)
      == if Has(enabled, descriptions[i].algo) then before + [descriptions[i]] else before
  {
    hide Has;
    assert descriptions[..i + 1][..i] == descriptions[..i];
    var before := Enabled(descriptions[..i], enabled);
    assert before + [] == before;
  }

  lemma Snoc(before: seq<Description>, d: Description, handles: set<Algo>)
    ensures
      var m := Parsed(before);
      Parsed(before + [d]) == if d.deps in m then m else m[d.deps := Analyzer(d.kind, d.deps)]
    ensures
      var lists := Lists(before, handles);
      Lists(before + [d], handles)
      == if d.algo in handles then Listed(Listed(lists, d.kind, d.algo), ANALYZE_ALL, d.algo) else lists
  {
    assert (before + [d])[..|before|] == before;
  }

  class GroupManager {
    /** One thread for all groups, instead of one for each. */
    const single: bool
    var groups: Analyzers
    var lists: AlgoLists

    constructor (single: bool)
      ensures this.single == single && groups == map[] && lists == map[]
    {
      this.single := single;
      groups, lists := map[], map[];
    }

    method ParseAlgoGroup(descriptions: seq<Description>, enabled: Mask, handles: set<Algo>)
      requires groups == map[] && lists == map[]
      modifies this
      ensures groups == Parsed(Enabled(descriptions, enabled))
      ensures lists == Lists(Enabled(descriptions, enabled), handles)
    {
      for i := 0 to |descriptions|
        invariant groups == Parsed(Enabled(descriptions[..i], enabled))
        invariant lists == Lists(Enabled(descriptions[..i], enabled), handles)
      {
        hide Has, Enabled, Parsed, Lists;
        var d := descriptions[i];
        EnabledSnoc(descriptions, i, enabled);
        Snoc(Enabled(descriptions[..i], enabled), d, handles);
        if Has(enabled, d.algo) {
          if d.algo in handles {
            lists := lists[d.kind := ListOf(lists, d.kind) + [d.algo]];
            lists := lists[ANALYZE_ALL := ListOf(lists, ANALYZE_ALL) + [d.algo]];
          }
          if d.deps !in groups {
            groups := groups[d.deps := Analyzer(d.kind, d.deps)];
          }
        }
      }
      assert descriptions[..|descriptions|] == descriptions;
    }

    method SetGrpDeps(kind: Kind, deps: Mask) returns (status: Status)
      modifies this
      ensures Changed(groups, status) == WithDeps(old(groups), kind, deps)
    {
      var keys := KeysOf(groups, kind);
      if keys == {} {
        return ErrorParam;
      }
      var group := groups[Min(keys)];
      if group.deps == deps {
        return NoError;
      }
      groups := groups[deps := group.(deps := deps)];
      groups := groups - {group.deps};
      return NoError;
    }

    /** The groups that a message reaches: the single thread hands every message to every group. */
    method HandleMessage(msg: MsgId) returns (receivers: set<Analyzer>)
      requires KeyedByDeps(groups)
      ensures forall g: Analyzer :: g in receivers <==> g in groups.Values && (single || Has(g.deps, msg))
    {
      if single {
        return groups.Values;
      }
      receivers := set key | key in groups && Has(key, msg) :: groups[key];
    }
  }

  // ----- Keys and masks stay together -----

  lemma {:induction false} ParsedIsKeyed(descriptions: seq<Description>)
    ensures KeyedByDeps(Parsed(descriptions))
  {
    if descriptions != [] {
      ParsedIsKeyed(descriptions[..|descriptions| - 1]);
    }
  }

  lemma ChangeKeepsKeys(m: Analyzers, kind: Kind, deps: Mask)
    requires KeyedByDeps(m)
    ensures KeyedByDeps(WithDeps(m, kind, deps).groups)
  {
  }

  /** A kind of group has an analyzer exactly when one of its descriptions is the first with its mask. */
  lemma KindIsServedIff(descriptions: seq<Description>, kind: Kind)
    ensures KeysOf(Parsed(descriptions), kind) != {} <==>
            exists i :: 0 <= i < |descriptions| && descriptions[i].kind == kind && IsFirst(descriptions, i)
  {
    var m := Parsed(descriptions);
    if KeysOf(m, kind) != {} {
      var key: Mask := Any(KeysOf(m, kind));
      FirstOwnsMask(descriptions, key);
    }
    forall i | 0 <= i < |descriptions| && descriptions[i].kind == kind && IsFirst(descriptions, i)
      ensures descriptions[i].deps in KeysOf(m, kind)
    {
      OwnerIsFirst(descriptions, i);
    }
  }

  lemma {:induction false} FirstOwnsMask(descriptions: seq<Description>, key: Mask)
    requires key in Parsed(descriptions)
    ensures exists i :: 0 <= i < |descriptions| && IsFirst(descriptions, i)
                        && Parsed(descriptions)[key] == Analyzer(descriptions[i].kind, key)
                                && descriptions[i].deps == key
  {
    var n := |descriptions| - 1;
    var before := descriptions[..n];
    if key in Parsed(before) {
      FirstOwnsMask(before, key);
      var i :| 0 <= i < n && IsFirst(before, i) && Parsed(before)[key] == Analyzer(before[i].kind, key)
              && before[i].deps == key;
      assert IsFirst(descriptions, i) && descriptions[i] == before[i];
    } else {
      assert IsFirst(descriptions, n) by {
        forall j | 0 <= j < n ensures descriptions[j].deps != key {
          MaskIsTaken(before, j);
          assert before[j] == descriptions[j];
        }
      }
    }
  }

  lemma {:induction false} MaskIsTaken(descriptions: seq<Description>, j: nat)
    requires j < |descriptions|
    ensures descriptions[j].deps in Parsed(descriptions)
  {
    var n := |descriptions| - 1;
    if j < n {
      MaskIsTaken(descriptions[..n], j);
    }
  }

  lemma {:induction false} OwnerIsFirst(descriptions: seq<Description>, i: nat)
    requires i < |descriptions| && IsFirst(descriptions, i)
    ensures descriptions[i].deps in Parsed(descriptions)
    ensures Parsed(descriptions)[descriptions[i].deps].kind == descriptions[i].kind
  {
    var n := |descriptions| - 1;
    var before := descriptions[..n];
    if i < n {
      assert IsFirst(before, i);
      OwnerIsFirst(before, i);
    } else if descriptions[n].deps in Parsed(before) {
      FirstOwnsMask(before, descriptions[n].deps);
    }
  }

  predicate IsFirst(descriptions: seq<Description>, i: nat)
    requires i < |descriptions|
  {
    forall j :: 0 <= j < i ==> descriptions[j].deps != descriptions[i].deps
  }

  /**
   * Changing the dependencies of the first group of a kind moves it to its new key and leaves every other
   * group alone, except that one group is lost exactly when the new mask already belonged to another.
   */
  lemma ChangeLosesAGroupIff(m: Analyzers, kind: Kind, deps: Mask)
    requires KeyedByDeps(m) && KeysOf(m, kind) != {}
    ensures
      var first: Mask := Min(KeysOf(m, kind));
      var after := WithDeps(m, kind, deps).groups;
      && first in m && m[first].kind == kind && (forall key <- m :: m[key].kind == kind ==> first <= key)
      && after.Keys == m.Keys - {first} + {deps}
      && after[deps] == Analyzer(kind, deps)
      && (forall other <- m :: other != first && other != deps ==> after[other] == m[other])
      && (|after| == |m| - 1 <==> deps in m && deps != first)
      && (|after| == |m| <==> deps !in m || deps == first)
  {
    var first: Mask := Min(KeysOf(m, kind));
    assert first in KeysOf(m, kind) && m[first].deps == first;
    assert forall key <- m :: m[key].kind == kind ==> key in KeysOf(m, kind);
    var after := WithDeps(m, kind, deps).groups;
    assert after.Keys == m.Keys - {first} + {deps};
    assert |after| == |after.Keys| && |m| == |m.Keys|;
  }

  /** Two groups of masks 1 and 2: giving the first the mask of the second leaves one group. */
  lemma SecondGroupIsLost()
    ensures
      var m: Analyzers := map[1 := Analyzer(0, 1), 2 := Analyzer(5, 2)];
      KeyedByDeps(m) && WithDeps(m, 0, 2) == Changed(map[2 := Analyzer(0, 2)], NoError)
  {
    var m: Analyzers := map[1 := Analyzer(0, 1), 2 := Analyzer(5, 2)];
    assert KeysOf(m, 0) == {1};
    assert Min(KeysOf(m, 0)) == 1;
  }

  /** An algorithm is listed for all groups exactly if one of the descriptions is for it and it has a handle. */
  lemma {:induction false} AllIsListed(descriptions: seq<Description>, handles: set<Algo>, algo: Algo)
    requires forall d <- descriptions :: d.kind != ANALYZE_ALL
    ensures algo in ListOf(Lists(descriptions, handles), ANALYZE_ALL)
       <==> algo in handles && exists d :: d in descriptions && d.algo == algo
  {
    if descriptions != [] {
      var n := |descriptions| - 1;
      var before := descriptions[..n];
      AllIsListed(before, handles, algo);
      assert forall d <- descriptions :: d in before || d == descriptions[n];
      assert descriptions[n] in descriptions;
    }
  }

  /** The algorithms of one kind, or of all, that are enabled and have a handle, in the order of the descriptions. */
  function AlgosOf(descriptions: seq<Description>, enabled: Mask, handles: set<Algo>, kind: Kind): seq<Algo> {
    if descriptions == [] then []
    else
      var d := descriptions[0];
      (if Has(enabled, d.algo) && d.algo in handles && (kind == 0xffff_ffff || d.kind == kind) then [d.algo] else [])
      + AlgosOf(descriptions[1..], enabled, handles, kind)
  }

  lemma {:induction false} AlgosOfLast(descriptions: seq<Description>, d: Description, enabled: Mask,
      handles: set<Algo>, kind: Kind)
    ensures AlgosOf(descriptions + [d], enabled, handles, kind)
         == AlgosOf(descriptions, enabled, handles, kind) + AlgosOf([d], enabled, handles, kind)
  {
    hide Has;
    if descriptions == [] {
      assert [d] == [] + [d];
    } else {
      assert (descriptions + [d])[1..] == descriptions[1..] + [d];
      AlgosOfLast(descriptions[1..], d, enabled, handles, kind);
    }
  }

  lemma ListOfLast(before: seq<Description>, d: Description, handles: set<Algo>, kind: Kind)
    requires d.kind != 0xffff_ffff
    ensures ListOf(Lists(before + [d], handles), kind)
         == ListOf(Lists(before, handles), kind)
            + if d.algo in handles && (kind == 0xffff_ffff || d.kind == kind) then [d.algo] else []
  {
    Snoc(before, d, handles);
    hide Lists;
  }

  lemma AlgosOfOne(d: Description, enabled: Mask, handles: set<Algo>, kind: Kind)
    ensures AlgosOf([d], enabled, handles, kind)
         == if Has(enabled, d.algo) && d.algo in handles && (kind == 0xffff_ffff || d.kind == kind) then [d.algo]
            else []
  {
    hide Has;
    assert [d][1..] == [];
  }

  /** Every group lists its algorithms in the order of the descriptions, and the type for all lists all of them. */
  lemma {:induction false} ListedInOrder(descriptions: seq<Description>, enabled: Mask, handles: set<Algo>, kind: Kind)
    requires forall d <- descriptions :: d.kind != 0xffff_ffff
    ensures ListOf(Lists(Enabled(descriptions, enabled), handles), kind)
         == AlgosOf(descriptions, enabled, handles, kind)
    decreases |descriptions|
  {
    if descriptions == [] {
      assert ListOf(map[], kind) == [];
    } else {
      hide Has, AlgosOf, Lists, Enabled, ListOf;
      var n := |descriptions| - 1;
      var before, d := descriptions[..n], descriptions[n];
      assert descriptions == before + [d] && descriptions[..n + 1] == descriptions;
      ListedInOrder(before, enabled, handles, kind);
      AlgosOfLast(before, d, enabled, handles, kind);
      AlgosOfOne(d, enabled, handles, kind);
      EnabledSnoc(descriptions, n, enabled);
      ListOfLast(Enabled(before, enabled), d, handles, kind);
    }
  }

  /** Changing the dependencies fails, and changes nothing, exactly if there is no group of this kind. */
  lemma ChangeFailsIff(m: Analyzers, kind: Kind, deps: Mask)
    ensures WithDeps(m, kind, deps).status == ErrorParam <==> forall key <- m :: m[key].kind != kind
    ensures WithDeps(m, kind, deps).status == ErrorParam ==> WithDeps(m, kind, deps).groups == m
  {
    assert KeysOf(m, kind) == {} <==> forall key <- m :: key !in KeysOf(m, kind);
  }
}
