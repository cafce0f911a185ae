/**
 * The handles of one algorithm type: an ordered map by id, and at the same time a linked chain that starts
 * with the default handle. The core and the camera group both keep such a pair.
 */
module HandleChain {
  import opened Words

  datatype Status = NoError | Failed

  /** The ids in increasing order: how an ordered map is iterated. */
  function SortedIds(ids: set<int>): seq<int> {
    if ids == {} then [] else [Min(ids)] + SortedIds(ids - {Min(ids)})
  }

  ghost predicate Increasing(ids: seq<int>) {
    forall i, j :: 0 <= i < j < |ids| ==> ids[i] < ids[j]
  }

  function Elements(ids: seq<int>): set<int> {
    set i | 0 <= i < |ids| :: ids[i]
  }

  /** An increasing list is the ordered iteration of its elements. */
  lemma {:induction false} IncreasingIsSorted(ids: seq<int>)
    requires Increasing(ids)
    ensures ids == SortedIds(Elements(ids))
  {
    if ids != [] {
      var rest := ids[1..];
      assert ids == [ids[0]] + rest;
      assert Elements(ids) - {ids[0]} == Elements(rest) by {
        forall x | x in Elements(ids) && x != ids[0] ensures x in Elements(rest) {
          var i :| 0 <= i < |ids| && ids[i] == x;
          assert rest[i - 1] == x;
        }
        forall x | x in Elements(rest) ensures x in Elements(ids) && x != ids[0] {
          var i :| 0 <= i < |rest| && rest[i] == x;
          assert ids[i + 1] == x;
        }
      }
      assert ids[0] in Elements(ids);
      assert Min(Elements(ids)) == ids[0];
      IncreasingIsSorted(rest);
    }
  }

  class Handle {
    const id: nat
    var enabled: bool
    var mulRun: bool
    var next: Handle?

    constructor (id: nat, enabled: bool)
      ensures this.id == id && this.enabled == enabled && !mulRun && next == null
    {
      this.id := id;
      this.enabled := enabled;
      mulRun := false;
      next := null;
    }
  }

  /**
   * A removed id is given out again by the next addition exactly when it was the largest and followed
   * its predecessor.
   */
  lemma RemovedIdComesBackIff(ids: set<int>, id: int)
    requires id in ids && ids - {id} != {}
    ensures Max(ids - {id}) + 1 == id <==> Max(ids) == id && id - 1 in ids
  {
    var rest := ids - {id};
    if Max(ids) == id && id - 1 in ids {
      assert id - 1 in rest;
    }
    if Max(rest) + 1 == id {
      assert forall x <- ids :: x == id || x in rest;
    }
  }

  // ----- A map and a list of the same handles -----

  ghost predicate Ordered(chain: seq<Handle>) {
    forall i, j :: 0 <= i < j < |chain| ==> chain[i].id < chain[j].id
  }

  ghost predicate SameHandles(handles: map<int, Handle>, chain: seq<Handle>) {
    && (forall h <- chain :: h.id in handles && handles[h.id] == h)
    && (forall id <- handles :: handles[id] in chain && handles[id].id == id)
  }

  function HandleAfter(chain: seq<Handle>, i: nat): Handle? {
    if i + 1 < |chain| then chain[i + 1] else null
  }

  /** Each handle points to the one after it. */
  ghost predicate Linked(chain: seq<Handle>)
    reads chain
  {
    forall i {:trigger chain[i].next} :: 0 <= i < |chain| ==> chain[i].next == HandleAfter(chain, i)
  }

  /** All but one do. */
  ghost predicate LinkedBut(chain: seq<Handle>, k: nat)
    reads chain
  {
    forall i {:trigger chain[i].next} :: 0 <= i < |chain| && i != k ==> chain[i].next == HandleAfter(chain, i)
  }

  function Ids(chain: seq<Handle>): seq<int> {
    seq(|chain|, i requires 0 <= i < |chain| => chain[i].id)
  }

  /** The largest id is that of the last handle. */
  lemma LastIsMax(handles: map<int, Handle>, chain: seq<Handle>)
    requires chain != [] && Ordered(chain) && SameHandles(handles, chain)
    ensures handles.Keys != {} && Max(handles.Keys) == chain[|chain| - 1].id
    ensures handles[Max(handles.Keys)] == chain[|chain| - 1]
  {
    var last := chain[|chain| - 1];
    assert last in chain && last.id in handles;
    var max := Max(handles.Keys);
    assert handles[max] in chain;
  }

  lemma OrderedAreDistinct(chain: seq<Handle>)
    requires Ordered(chain)
    ensures forall i, j :: 0 <= i < j < |chain| ==> chain[i] != chain[j]
  {
  }

  lemma Append(handles: map<int, Handle>, chain: seq<Handle>, h: Handle)
    requires chain != [] && Ordered(chain) && SameHandles(handles, chain)
    requires chain[|chain| - 1].id < h.id
    ensures Ordered(chain + [h]) && SameHandles(handles[h.id := h], chain + [h])
    ensures h.id !in handles && h !in chain
  {
    forall x | x in chain ensures x.id < h.id {
      var i :| 0 <= i < |chain| && chain[i] == x;
    }
  }

  function Dropped(chain: seq<Handle>, k: nat): seq<Handle>
    requires k < |chain|
  {
    chain[..k] + chain[k + 1..]
  }

  lemma DroppedHolds(chain: seq<Handle>, k: nat, h: Handle)
    requires k < |chain| && Ordered(chain)
    ensures h in Dropped(chain, k) <==> h in chain && h != chain[k]
  {
    var rest := Dropped(chain, k);
    if h in chain && h != chain[k] {
      var i :| 0 <= i < |chain| && chain[i] == h;
      assert h == rest[if i < k then i else i - 1];
    }
  }

  /** The handle before the k-th points past it. */
  lemma DroppedIsLinked(chain: seq<Handle>, k: nat)
    requires 0 < k < |chain|
    requires LinkedBut(chain, k - 1)
    requires chain[k - 1].next == HandleAfter(chain, k)
    ensures Linked(Dropped(chain, k))
  {
    var rest := Dropped(chain, k);
    forall i | 0 <= i < |rest| ensures rest[i].next == HandleAfter(rest, i) {
      var j := if i < k then i else i + 1;
      assert rest[i] == chain[j];
      assert HandleAfter(rest, i) == if i == k - 1 then HandleAfter(chain, k) else HandleAfter(chain, j);
    }
  }

  /** The last handle points to a new one. */
  lemma OneMoreIsLinked(chain: seq<Handle>, hdl: Handle)
    requires chain != [] && LinkedBut(chain, |chain| - 1) && chain[|chain| - 1].next == hdl && hdl.next == null
    ensures Linked(chain + [hdl])
  {
    var more := chain + [hdl];
    forall i | 0 <= i < |more| ensures more[i].next == HandleAfter(more, i) {
      assert i < |chain| ==> more[i] == chain[i];
    }
  }

  lemma Remove(handles: map<int, Handle>, chain: seq<Handle>, k: nat)
    requires k < |chain| && Ordered(chain) && SameHandles(handles, chain)
    ensures Ordered(Dropped(chain, k)) && SameHandles(handles - {chain[k].id}, Dropped(chain, k))
  {
    var rest := Dropped(chain, k);
    assert Ordered(rest);
    forall h: Handle ensures h in rest <==> h in chain && h != chain[k] {
      DroppedHolds(chain, k, h);
    }
    hide Ordered, Dropped;
    assert chain[k] in chain;
  }

  ghost function Flags(chain: seq<Handle>): seq<bool>
    reads chain
  {
    seq(|chain|, i requires 0 <= i < |chain| reads chain => chain[i].enabled)
  }

  /** How many of the first n flags are set. */
  function CountSet(flags: seq<bool>, n: nat): nat
    requires n <= |flags|
  {
    if n == 0 then 0 else CountSet(flags, n - 1) + if flags[n - 1] then 1 else 0
  }

  lemma {:induction false} CountSetIs(flags: seq<bool>, n: nat)
    requires n <= |flags|
    ensures CountSet(flags, n) > 0 <==> exists i :: 0 <= i < n && flags[i]
    ensures CountSet(flags, n) > 1 <==> exists i, j :: 0 <= i < j < n && flags[i] && flags[j]
  {
    if n > 0 {
      CountSetIs(flags, n - 1);
    }
  }

  /** Some handle is enabled; two handles are. */
  ghost predicate OneEnabled(chain: seq<Handle>)
    reads chain
  {
    exists i :: 0 <= i < |chain| && chain[i].enabled
  }

  ghost predicate TwoEnabled(chain: seq<Handle>)
    reads chain
  {
    exists i, j :: 0 <= i < j < |chain| && chain[i].enabled && chain[j].enabled
  }

  lemma EnabledCountIs(chain: seq<Handle>)
    ensures EnabledCount(chain) > 0 <==> OneEnabled(chain)
    ensures EnabledCount(chain) > 1 <==> TwoEnabled(chain)
  {
    CountSetIs(Flags(chain), |chain|);
    assert forall i :: 0 <= i < |chain| ==> Flags(chain)[i] == chain[i].enabled;
    hide CountSet;
  }

  ghost function EnabledCount(chain: seq<Handle>): nat
    reads chain
  {
    CountSet(Flags(chain), |chain|)
  }

  class AlgoHandles {
    /** Custom algorithms are only taken for exposure and white balance. */
    const takesCustom: bool
    const root: Handle
    var handles: map<int, Handle>

    ghost var chain: seq<Handle>

    /** The chain from the default handle, id 0, is the map's values in increasing order of id, and ends. */
    ghost predicate Valid()
      reads this, chain
    {
      && chain != [] && chain[0] == root && root.id == 0
      && Ordered(chain) && SameHandles(handles, chain) && Linked(chain)
    }

    constructor (takesCustom: bool, root: Handle)
      requires root.id == 0 && root.next == null
      ensures Valid() && this.takesCustom == takesCustom && this.root == root && chain == [root]
    {
      this.takesCustom := takesCustom;
      this.root := root;
      handles := map[0 := root];
      chain := [root];
    }

    /** Walking the chain visits what iterating the map visits, in the same order. */
    lemma ChainIsOrderedMap()
      requires Valid()
      ensures Ids(chain) == SortedIds(handles.Keys)
      ensures forall i :: 0 <= i < |chain| ==> Ids(chain)[i] in handles && handles[Ids(chain)[i]] == chain[i]
    {
      assert Elements(Ids(chain)) == handles.Keys by {
        forall id | id in handles ensures id in Elements(Ids(chain)) {
          var i :| 0 <= i < |chain| && chain[i] == handles[id];
          assert Ids(chain)[i] == id;
        }
        forall id | id in Elements(Ids(chain)) ensures id in handles {
          var i :| 0 <= i < |chain| && Ids(chain)[i] == id;
          assert chain[i] in chain;
        }
      }
      IncreasingIsSorted(Ids(chain));
    }

    /** Appends a new handle, disabled, with the id after the largest. */
    method AddAlgo() returns (status: Status, id: int)
      requires Valid()
      modifies this`handles, this`chain, chain
      ensures Valid() && id == Max(old(handles).Keys) + 1
      ensures !takesCustom ==> status == Failed && handles == old(handles) && chain == old(chain)
      ensures takesCustom ==> status == NoError && id !in old(handles) && id in handles
      ensures takesCustom ==> chain == old(chain) + [handles[id]] && fresh(handles[id]) && !handles[id].enabled
      ensures forall h <- old(chain) :: h.enabled == old(h.enabled)
    {
      hide Ordered, SameHandles;
      LastIsMax(handles, chain);
      ghost var was := chain;
      var last := Max(handles.Keys);
      id := last + 1;
      if !takesCustom {
        return Failed, id;
      }
      OrderedAreDistinct(was);
      var hdl := new Handle(id, false);
      Append(handles, was, hdl);
      LinkAfter(handles[last], hdl);
      handles := handles[id := hdl];
      status := NoError;
    }

    method LinkAfter(last: Handle, hdl: Handle)
      requires chain != [] && last == chain[|chain| - 1] && hdl !in chain && hdl.next == null
      requires Linked(chain)
      requires forall i :: 0 <= i < |chain| - 1 ==> chain[i] != last
      modifies this`chain, last
      ensures chain == old(chain) + [hdl] && Linked(chain)
      ensures last.enabled == old(last.enabled)
    {
      ghost var was := chain;
      last.next := hdl;
      assert LinkedBut(was, |was| - 1);
      chain := chain + [hdl];
      OneMoreIsLinked(was, hdl);
    }

    /** Finds the handle before rm and takes rm out of the chain. */
    method Unlink(rm: Handle) returns (ghost k: nat)
      requires Valid() && rm in chain && rm != root
      modifies this`chain, chain
      ensures 0 < k < |old(chain)| && old(chain)[k] == rm && chain == Dropped(old(chain), k)
      ensures Linked(chain) && chain != [] && chain[0] == root
      ensures forall h <- old(chain) :: h.enabled == old(h.enabled)
    {
      ghost var was := chain;
      OrderedAreDistinct(was);
      hide Ordered, SameHandles;
      var cur: Handle? := root;
      k := 0;
      while cur != null && cur.next != rm
        invariant 0 <= k <= |was|
        invariant cur == if k < |was| then was[k] else null
        invariant forall i :: 0 <= i <= k && i < |was| ==> was[i] != rm
        decreases |was| - k
      {
        assert cur.next == HandleAfter(was, k);
        cur := cur.next;
        k := k + 1;
      }
      assert cur.next == HandleAfter(was, k);
      assert was[k + 1] == rm && rm.next == HandleAfter(was, k + 1);
      cur.next := rm.next;
      assert LinkedBut(was, k);
      k := k + 1;
      chain := Dropped(was, k);
      DroppedIsLinked(was, k);
    }

    /** Takes out a custom handle; refused says that the group is running. */
    method RmAlgo(id: int, refused: bool) returns (status: Status)
      requires Valid()
      modifies this`handles, this`chain, chain
      ensures Valid()
      ensures status == if id != 0 && (id !in old(handles) || refused) then Failed else NoError
      ensures id == 0 || status == Failed ==> handles == old(handles) && chain == old(chain)
      ensures id != 0 && status == NoError ==> handles == old(handles) - {id}
      ensures forall h <- old(chain) :: h.enabled == old(h.enabled)
    {
      if id == 0 {
        return NoError;
      }
      if id !in handles || refused {
        return Failed;
      }
      ghost var was := chain;
      var k := Unlink(handles[id]);
      Remove(handles, was, k);
      hide Ordered, SameHandles;
      handles := handles - {id};
      status := NoError;
    }

    /** Switches one handle; the others of its type learn whether they share the work. */
    method EnableAlgo(id: int, enable: bool) returns (status: Status, required: bool)
      requires Valid()
      modifies chain
      ensures Valid()
      ensures status == if id in handles then NoError else Failed
      ensures forall h <- chain :: h.enabled == if h.id == id then enable else old(h.enabled)
      ensures status == Failed ==> forall h <- chain :: h.mulRun == old(h.mulRun)
      ensures status == NoError ==> (required <==> EnabledCount(chain) > 0)
      ensures status == NoError ==> forall h <- chain :: h.mulRun <==> EnabledCount(chain) > 1
      ensures status == NoError ==> (required <==> OneEnabled(chain))
      ensures status == NoError ==> forall h <- chain :: h.mulRun <==> TwoEnabled(chain)
    {
      if id !in handles {
        return Failed, false;
      }
      assert handles[id] in chain && forall h <- chain :: h.id == id <==> h == handles[id];
      hide Ordered, SameHandles;
      ghost var list := chain;
      SetEnabled(handles[id], enable);
      var count := CountEnabled();
      required := count > 0;
      ghost var flags := Flags(list);
      SetMulRun(count > 1);
      assert Flags(list) == flags;
      EnabledCountIs(chain);
      hide OneEnabled, TwoEnabled;
      status := NoError;
    }

    method SetEnabled(hdl: Handle, enable: bool)
      requires Linked(chain)
      modifies hdl`enabled
      ensures hdl.enabled == enable && Linked(chain)
    {
      hdl.enabled := enable;
      assert forall h: Handle :: allocated(h) ==> h.next == old(h.next);
    }

    method CountEnabled() returns (count: nat)
      requires Linked(chain) && chain != [] && root == chain[0]
      ensures count == EnabledCount(chain)
    {
      count := 0;
      var cur: Handle? := root;
      ghost var k := 0;
      while cur != null
        invariant 0 <= k <= |chain|
        invariant cur == if k < |chain| then chain[k] else null
        invariant count == CountSet(Flags(chain), k)
        decreases |chain| - k
      {
        if cur.enabled {
          count := count + 1;
        }
        cur := cur.next;
        k := k + 1;
      }
    }

    method SetMulRun(on: bool)
      requires Linked(chain) && chain != [] && root == chain[0]
      modifies chain`mulRun
      ensures forall h <- chain :: h.mulRun == on
    {
      ghost var list := chain;
      var cur: Handle? := root;
      ghost var k := 0;
      while cur != null
        invariant 0 <= k <= |list|
        invariant cur == if k < |list| then list[k] else null
        invariant Linked(list)
        invariant forall i :: 0 <= i < k ==> list[i].mulRun == on
        decreases |list| - k
      {
        assert cur.next == HandleAfter(list, k);
        label L:
        cur.mulRun := on;
        assert forall h: Handle :: h.next == old@L(h.next);
        cur := cur.next;
        k := k + 1;
      }
    }
  }
}
