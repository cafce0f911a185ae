/** Fixed-width words and the extremal elements of finite sets of numbers. */
module Words {

  const TWO_TO_16 := 0x1_0000
  const TWO_TO_32 := 0x1_0000_0000

  type uint16 = x: int | 0 <= x < TWO_TO_16
  type uint32 = x: int | 0 <= x < TWO_TO_32

  /** The value kept when an integer is stored in an unsigned 16-bit word. */
  function ToU16(x: int): uint16 {
    x % TWO_TO_16
  }

  /** The value kept when an integer is stored in an unsigned 32-bit word. */
  function ToU32(x: int): uint32 {
    x % TWO_TO_32
  }

  /** A small number is kept as it is. */
  lemma SmallWord(x: int)
    requires 0 <= x < TWO_TO_16
    ensures ToU16(x) == x && ToU32(x) == x
  {
  }

  /** Adding words is adding the numbers they keep. */
  lemma WordsAdd(a: int, b: int)
    ensures ToU32(ToU32(a) + ToU32(b)) == ToU32(a + b)
    ensures ToU32(ToU32(a)) == ToU32(a)
  {
  }

  /** Some element of a non-empty set. */
  ghost function Any<T>(s: set<T>): (y: T)
    requires s != {}
    ensures y in s
  {
    var y :| y in s;
    y
  }

  lemma MinExists(s: set<int>)
    requires s != {}
    ensures exists k :: k in s && forall x :: x in s ==> k <= x
  {
    var y := Any(s);
    var rest := s - {y};
    if rest == {} {
      assert s == {y};
      assert y in s && forall x :: x in s ==> y <= x;
    } else {
      MinExists(rest);
      var k :| k in rest && forall x :: x in rest ==> k <= x;
      var m := if k < y then k else y;
      assert m in s && forall x :: x in s ==> m <= x by {
        assert forall x :: x in s ==> x == y || x in rest;
      }
    }
  }

  /** The least element: where iteration over an ordered map begins. */
  function Min(s: set<int>): (k: int)
    requires s != {}
    ensures k in s
    ensures forall x :: x in s ==> k <= x
  {
    MinExists(s);
    var k :| k in s && forall x :: x in s ==> k <= x;
    k
  }

  lemma MaxExists(s: set<int>)
    requires s != {}
    ensures exists k :: k in s && forall x :: x in s ==> x <= k
  {
    var y := Any(s);
    var rest := s - {y};
    if rest == {} {
      assert s == {y};
      assert y in s && forall x :: x in s ==> x <= y;
    } else {
      MaxExists(rest);
      var k :| k in rest && forall x :: x in rest ==> x <= k;
      var m := if k > y then k else y;
      assert m in s && forall x :: x in s ==> x <= m by {
        assert forall x :: x in s ==> x == y || x in rest;
      }
    }
  }

  /** The greatest element: where reverse iteration over an ordered map begins. */
  function Max(s: set<int>): (k: int)
    requires s != {}
    ensures k in s
    ensures forall x :: x in s ==> x <= k
  {
    MaxExists(s);
    var k :| k in s && forall x :: x in s ==> x <= k;
    k
  }

  /** A set of numbers between lo and hi has at most hi - lo elements. */
  lemma {:induction false} WindowBound(s: set<int>, lo: int, hi: int)
    requires lo <= hi
    requires forall x :: x in s ==> lo <= x < hi
    ensures |s| <= hi - lo
    decreases hi - lo
  {
    if s != {} {
      var k := Max(s);
      WindowBound(s - {k}, lo, k);
    }
  }
}
