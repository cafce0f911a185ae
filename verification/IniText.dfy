/**
 * What an INI text says, as a function of the characters: the sections and entries in order. This is
 * the reference for the in-place splitter, which works on a buffer of NUL-terminated strings.
 */
module IniText {
  import opened Options

  type Text = seq<char>

  const NUL := '\0'

  datatype Item = Section(name: Text) | Entry(key: Text, value: Text)

  predicate IsBlank(c: char) {
    c == ' ' || c == '\t' || c == '\r'
  }

  /** Characters between statements. */
  predicate IsGap(c: char) {
    IsBlank(c) || c == '\n' || c == NUL
  }

  /** How many characters come before the first a, b or NUL. */
  function Span(s: Text, a: char, b: char): (n: nat)
    ensures n <= |s|
  {
    if s == [] || s[0] == a || s[0] == b || s[0] == NUL then 0 else 1 + Span(s[1..], a, b)
  }

  lemma {:induction false} SpanStops(s: Text, a: char, b: char)
    ensures var n := Span(s, a, b);
            && (n < |s| ==> s[n] == a || s[n] == b || s[n] == NUL)
            && forall i :: 0 <= i < n ==> s[i] != a && s[i] != b && s[i] != NUL
  {
    if Span(s, a, b) > 0 {
      SpanStops(s[1..], a, b);
    }
  }

  /** How many characters come before the end of the line; a NUL does not end a line. */
  function LineEnd(s: Text): (n: nat)
    ensures n <= |s|
  {
    if s == [] || s[0] == '\n' then 0 else 1 + LineEnd(s[1..])
  }

  lemma {:induction false} LineEndStops(s: Text)
    ensures var n := LineEnd(s);
            (n < |s| ==> s[n] == '\n') && forall i :: 0 <= i < n ==> s[i] != '\n'
  {
    if LineEnd(s) > 0 {
      LineEndStops(s[1..]);
    }
  }

  lemma {:induction false} LineEndJoin(a: Text, b: Text)
    requires '\n' !in a
    ensures LineEnd(a + b) == |a| + LineEnd(b)
  {
    if a == [] {
      assert a + b == b;
    } else {
      assert (a + b)[1..] == a[1..] + b;
      LineEndJoin(a[1..], b);
    }
  }

  /** How many blanks a text starts with. */
  function Blanks(s: Text): (n: nat)
    ensures n <= |s|
  {
    if s == [] || !IsBlank(s[0]) then 0 else 1 + Blanks(s[1..])
  }

  lemma {:induction false} BlanksStop(s: Text)
    ensures var n := Blanks(s);
            (n < |s| ==> !IsBlank(s[n])) && forall i :: 0 <= i < n ==> IsBlank(s[i])
  {
    if Blanks(s) > 0 {
      BlanksStop(s[1..]);
    }
  }

  /** s without the blanks at its end. */
  function TrimEnd(s: Text): (t: Text)
    ensures |t| <= |s|
  {
    if s == [] || !IsBlank(s[|s| - 1]) then s else TrimEnd(s[..|s| - 1])
  }

  lemma {:induction false} TrimEndIsPrefix(s: Text)
    ensures var t := TrimEnd(s);
            && t <= s
            && (t != [] ==> !IsBlank(t[|t| - 1]))
            && forall i :: |t| <= i < |s| ==> IsBlank(s[i])
  {
    if s != [] && IsBlank(s[|s| - 1]) {
      TrimEndIsPrefix(s[..|s| - 1]);
    }
  }

  /** The value of a quoted string, from behind its opening quote. */
  function Decode(u: Text): Text {
    if u == [] || u[0] == '"' || u[0] == '\r' || u[0] == '\n' then []
    else if u[0] != '\\' then [u[0]] + Decode(u[1..])
    else if |u| == 1 || u[1] == '\r' || u[1] == '\n' || u[1] == NUL then []
    else [Unescaped(u[1])] + Decode(u[2..])
  }

  function Unescaped(c: char): char {
    if c == 'r' then '\r' else if c == 'n' then '\n' else if c == 't' then '\t' else c
  }

  /** One statement at the start of a text: what it says, if anything, and how long it is. */
  datatype Statement = Statement(item: Option<Item>, length: nat)

  /** Where the value starts behind the '=' at eq. */
  function ValueStart(s: Text, eq: nat): (v: nat)
    requires eq < |s|
    ensures eq < v <= |s|
  {
    eq + 1 + Blanks(s[eq + 1..])
  }

  /** A line that is neither blank nor a header nor a comment. */
  function KeyLine(s: Text): Statement {
    var eq := Span(s, '=', '\n');
    if eq == |s| || s[eq] != '=' then Statement(None, LineEnd(s))
    else
      var v := ValueStart(s, eq);
      if v == |s| || s[v] == '\n' || s[v] == NUL then Statement(None, LineEnd(s))
      else if s[v] == '"' then
        var value := Decode(s[v + 1..]);
        Statement(if value == [] then None else Some(Entry(TrimEnd(s[..eq]), value)), LineEnd(s))
      else
        var end := v + Span(s[v..], '\n', '\n');
        Statement(Some(Entry(TrimEnd(s[..eq]), TrimEnd(s[v..end]))), end)
  }

  function First(s: Text): Statement
    requires s != []
  {
    if IsGap(s[0]) then Statement(None, 1)
    else if s[0] == '[' then
      var k := Span(s, ']', '\n');
      Statement(Some(Section(s[1..k])), if k < |s| then k + 1 else k)
    else if s[0] == ';' then Statement(None, LineEnd(s))
    else KeyLine(s)
  }

  lemma FirstLength(s: Text)
    requires s != []
    ensures 0 < First(s).length <= |s|
  {
  }

  function AsList(item: Option<Item>): seq<Item> {
    if item.Some? then [item.value] else []
  }

  /** The statements of a text. */
  function Items(s: Text): seq<Item>
    decreases |s|
  {
    if s == [] then []
    else
      FirstLength(s);
      AsList(First(s).item) + Items(s[First(s).length..])
  }

  /** A part of a part. */
  lemma SliceOfSlice(s: Text, a: nat, b: nat, c: nat, d: nat)
    requires a <= b <= |s| && c <= d <= b - a
    ensures s[a..b][c..d] == s[a + c..a + d]
  {
    var x, y := s[a..b][c..d], s[a + c..a + d];
    assert |x| == |y|;
    forall i | 0 <= i < |x|
      ensures x[i] == y[i]
    {
    }
  }

  // ----- NUL-separated strings -----

  function StrLen(s: Text): nat {
    Span(s, NUL, NUL)
  }

  /** The non-empty strings of a buffer, in order. */
  function Pieces(s: Text): seq<Text>
    decreases |s|
  {
    if s == [] then []
    else if s[0] == NUL then Pieces(s[1..])
    else [s[..StrLen(s)]] + Pieces(s[StrLen(s)..])
  }

  function Nuls(n: nat): Text {
    seq(n, _ => NUL)
  }

  /** The strings an item is stored as. */
  function Stored(item: Item): seq<Text> {
    match item
    case Section(name) => ["[" + name]
    case Entry(key, value) => Pieces(key) + Pieces(value)
  }

  function Strings(items: seq<Item>): seq<Text> {
    if items == [] then [] else Stored(items[0]) + Strings(items[1..])
  }

  lemma {:induction false} NulsHoldNothing(n: nat)
    ensures Pieces(Nuls(n)) == []
  {
    if n > 0 {
      NulsHoldNothing(n - 1);
      assert Nuls(n)[1..] == Nuls(n - 1);
    }
  }

  lemma {:induction false} PiecesOfString(s: Text)
    requires s != [] && NUL !in s
    ensures Pieces(s) == [s]
  {
    SpanStops(s, NUL, NUL);
    assert StrLen(s) == |s|;
    assert s[..|s|] == s && s[|s|..] == [];
  }

  /** Two parts of a buffer hold their own strings when no string runs across the border. */
  predicate Separated(a: Text, b: Text) {
    a == [] || b == [] || a[|a| - 1] == NUL || b[0] == NUL
  }

  lemma StrLenPositive(s: Text)
    ensures s != [] && s[0] != NUL ==> StrLen(s) > 0
  {
  }

  lemma {:induction false} PiecesJoin(a: Text, b: Text)
    requires Separated(a, b)
    ensures Pieces(a + b) == Pieces(a) + Pieces(b)
    decreases |a|
  {
    hide Span;
    StrLenPositive(a);
    if a == [] {
      assert a + b == b;
    } else if b == [] {
      assert a + b == a;
    } else if a[0] == NUL {
      assert (a + b)[1..] == a[1..] + b;
      PiecesJoin(a[1..], b);
    } else {
      var k := StrLen(a);
      StrLenJoin(a, b);
      assert (a + b)[..k] == a[..k] && (a + b)[k..] == a[k..] + b;
      PiecesJoin(a[k..], b);
    }
  }

  lemma StringsCons(item: Item, rest: seq<Item>)
    ensures Strings([item] + rest) == Stored(item) + Strings(rest)
  {
    assert ([item] + rest)[1..] == rest;
  }

  lemma {:induction false} StrLenJoin(a: Text, b: Text)
    requires a != [] && b != [] && Separated(a, b)
    ensures StrLen(a + b) == StrLen(a)
  {
    assert (a + b)[1..] == a[1..] + b;
    if a[0] != NUL {
      if |a| > 1 {
        StrLenJoin(a[1..], b);
      } else {
        assert a[1..] == [] && a[1..] + b == b;
        assert Span(b, NUL, NUL) == 0;
      }
    }
  }
}
