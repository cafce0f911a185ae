/** What each step of the in-place splitter does to the strings a buffer holds. */
module IniSteps {
  import opened Options
  import opened IniText

  // ----- What the splitter's steps leave, as texts -----

  /** Blanks at the end of s overwritten. */
  function Trimmed(s: Text): Text {
    TrimEnd(s) + Nuls(|s| - |TrimEnd(s)|)
  }

  lemma {:induction false} TrimStep(s: Text)
    requires s != [] && IsBlank(s[|s| - 1])
    ensures TrimEnd(s) == TrimEnd(s[..|s| - 1])
    ensures Trimmed(s) == Trimmed(s[..|s| - 1]) + [NUL]
  {
  }

  /** Trimming does not reach past a NUL, nor past a character that stays. */
  lemma {:induction false} TrimJoin(a: Text, b: Text)
    requires a == [] || !IsBlank(a[|a| - 1]) || TrimEnd(b) != []
    ensures TrimEnd(a + b) == a + TrimEnd(b)
    decreases |b|
  {
    if b == [] {
      assert a + b == a;
    } else if IsBlank(b[|b| - 1]) {
      assert (a + b)[..|a + b| - 1] == a + b[..|b| - 1];
      TrimJoin(a, b[..|b| - 1]);
    }
  }

  /** Decoding never reaches beyond the line, and shortens what it reads. */
  lemma {:induction false} DecodeStaysInLine(u: Text)
    ensures |Decode(u)| <= LineEnd(u)
    decreases |u|
  {
    if u == [] || u[0] == '"' || u[0] == '\r' || u[0] == '\n' {
    } else if u[0] != '\\' {
      DecodeStaysInLine(u[1..]);
    } else if |u| == 1 || u[1] == '\r' || u[1] == '\n' || u[1] == NUL {
    } else {
      DecodeStaysInLine(u[2..]);
      assert u[1..][1..] == u[2..];
    }
  }

  lemma {:induction false} LineEndDrop(s: Text, n: nat)
    requires n <= LineEnd(s)
    ensures LineEnd(s[n..]) == LineEnd(s) - n
  {
    if n > 0 {
      assert s[1..][n - 1..] == s[n..];
      LineEndDrop(s[1..], n - 1);
    }
  }

  lemma NulStepBack(was: Text, q: nat, p: nat)
    requires q <= p < |was|
    ensures (was[..q + 1] + Nuls(p - q) + was[p + 1..])[q := NUL] == was[..q] + Nuls(p + 1 - q) + was[p + 1..]
  {
    assert was[..q + 1] == was[..q] + [was[q]];
    assert Nuls(p + 1 - q) == [NUL] + Nuls(p - q);
  }

  /** One more character of the decoded text is known. */
  lemma OneMore(all: Text, n: nat, c: char, rest: Text)
    requires n <= |all| && all[n..] == [c] + rest
    ensures n < |all| && all[n] == c && all[n + 1..] == rest
  {
    assert all[n..][0] == c && all[n..][1..] == rest;
  }

  lemma Assembled(now: Text, was: Text, p: nat, text: Text)
    requires |now| == |was| && p + |text| <= |was|
    requires forall i :: 0 <= i < p || p + |text| <= i < |was| ==> now[i] == was[i]
    requires forall i :: 0 <= i < |text| ==> now[p + i] == text[i]
    ensures now == was[..p] + text + was[p + |text|..]
  {
    var r := was[..p] + text + was[p + |text|..];
    forall i | 0 <= i < |now|
      ensures now[i] == r[i]
    {
      if p <= i < p + |text| {
        assert now[p + (i - p)] == text[i - p];
      }
    }
  }

  /** Decoding by position in a buffer that holds NUL at end. */
  function DecodeFrom(was: Text, r: nat, end: nat): Text
    requires r <= end < |was|
    decreases end - r
  {
    if r == end || was[r] == '"' || was[r] == '\r' || was[r] == '\n' then []
    else if was[r] != '\\' then [was[r]] + DecodeFrom(was, r + 1, end)
    else if r + 1 == end || was[r + 1] == '\r' || was[r + 1] == '\n' || was[r + 1] == NUL then []
    else [Unescaped(was[r + 1])] + DecodeFrom(was, r + 2, end)
  }

  lemma DecodeFromStep(was: Text, r: nat, end: nat)
    requires r <= end < |was| && was[end] == NUL
    ensures DecodeFrom(was, r, end)
            == if r == end || was[r] == '"' || was[r] == '\r' || was[r] == '\n' then []
               else if was[r] != '\\' then [was[r]] + DecodeFrom(was, r + 1, end)
               else if was[r + 1] == '\r' || was[r + 1] == '\n' || was[r + 1] == NUL then []
               else [Unescaped(was[r + 1])] + DecodeFrom(was, r + 2, end)
  {
  }

  lemma {:induction false} DecodeByPosition(was: Text, r: nat, end: nat)
    requires r <= end < |was|
    ensures DecodeFrom(was, r, end) == Decode(was[r..end])
    decreases end - r
  {
    var u := was[r..end];
    if r < end {
      assert u[1..] == was[r + 1..end];
      DecodeByPosition(was, r + 1, end);
      if r + 1 < end {
        assert u[2..] == was[r + 2..end];
        DecodeByPosition(was, r + 2, end);
      }
    }
  }

  lemma TrimStepBack(was: Text, q: nat, p: nat)
    requires q <= p < |was| && IsBlank(was[q])
    ensures Trimmed(was[..q + 1]) + Nuls(p - q) == Trimmed(was[..q]) + Nuls(p - q + 1)
  {
    var head := was[..q + 1];
    assert head[..q] == was[..q];
    TrimStep(head);
    assert [NUL] + Nuls(p - q) == Nuls(p - q + 1);
  }

  lemma LineEndAt(was: Text, q: nat, end: nat)
    requires q <= end <= |was|
    ensures LineEnd(was[q..end]) == if q == end || was[q] == '\n' then 0 else 1 + LineEnd(was[q + 1..end])
  {
    assert q < end ==> was[q..end][1..] == was[q + 1..end];
  }

  lemma BlanksAt(was: Text, q: nat, end: nat)
    requires q <= end <= |was|
    ensures Blanks(was[q..end]) == if q == end || !IsBlank(was[q]) then 0 else 1 + Blanks(was[q + 1..end])
  {
    assert q < end ==> was[q..end][1..] == was[q + 1..end];
  }

  // ----- Progress of the splitter -----

  predicate StopsString(was: Text, p: nat, end: nat)
    requires p <= end < |was|
  {
    p == end || was[p] == NUL || was[p] == '\n'
  }

  /** At p the splitter may start a new string: nothing before runs into it. */
  predicate AtBorder(was: Text, p: nat, end: nat)
    requires p <= end < |was|
  {
    p == 0 || was[p - 1] == NUL || StopsString(was, p, end)
  }

  /**
   * The splitter moved from p to q: what it left between them are the strings of the items it
   * passed, and nothing outside was touched except that a delimiter at q may be overwritten.
   */
  ghost predicate Advanced(was: Text, now: Text, p: nat, q: nat, end: nat) {
    && p < q <= end < |was| == |now|
    && now[end] == NUL
    && now[..p] == was[..p]
    && Separated(now[..p], now[p..q])
    && AtBorder(now, q, end)
    && Pieces(now[p..q]) + Strings(Items(now[q..end])) == Strings(Items(was[p..end]))
  }

  lemma JoinStrings(a: Text, b: Text, after: seq<Text>, before: seq<Text>)
    requires Separated(a, b) && Pieces(b) + after == before
    ensures Pieces(a + b) + after == Pieces(a) + before
  {
    PiecesJoin(a, b);
    assert Pieces(a) + Pieces(b) + after == Pieces(a) + (Pieces(b) + after);
  }

  lemma AdvancedKeepsStrings(was: Text, now: Text, p: nat, q: nat, end: nat)
    requires Advanced(was, now, p, q, end)
    ensures Pieces(now[..q]) + Strings(Items(now[q..end])) == Pieces(was[..p]) + Strings(Items(was[p..end]))
  {
    hide Items, Strings, Pieces;
    assert now[..q] == now[..p] + now[p..q];
    JoinStrings(now[..p], now[p..q], Strings(Items(now[q..end])), Strings(Items(was[p..end])));
  }

  function StringsOf(item: Option<Item>): seq<Text> {
    if item.Some? then Stored(item.value) else []
  }

  lemma StringsOfFirst(s: Text)
    requires s != []
    ensures First(s).length <= |s|
    ensures Strings(Items(s)) == StringsOf(First(s).item) + Strings(Items(s[First(s).length..]))
  {
    FirstLength(s);
    var item, rest := First(s).item, Items(s[First(s).length..]);
    assert Items(s) == AsList(item) + rest;
    if item.Some? {
      StringsCons(item.value, rest);
    } else {
      assert AsList(item) + rest == rest;
    }
  }

  /** What a step has to show: the statement it passed, and the strings it left for it. */
  lemma AdvancedIf(was: Text, now: Text, p: nat, q: nat, end: nat, item: Option<Item>, rest: Text)
    requires p < q <= end < |was| == |now| && now[end] == NUL && now[..p] == was[..p]
    requires Separated(now[..p], now[p..q]) && AtBorder(now, q, end)
    requires Pieces(now[p..q]) == StringsOf(item)
    requires Strings(Items(was[p..end])) == StringsOf(item) + Strings(Items(rest))
    requires Strings(Items(rest)) == Strings(Items(now[q..end]))
    ensures Advanced(was, now, p, q, end)
  {
  }

  lemma GapAdvances(was: Text, p: nat, end: nat)
    requires p < end < |was| && was[end] == NUL && IsGap(was[p])
    ensures Advanced(was, was[p := NUL], p, p + 1, end)
  {
    hide Items, Strings, Pieces;
    var now := was[p := NUL];
    assert now[p..p + 1] == Nuls(1);
    NulsHoldNothing(1);
    assert now[p + 1..end] == was[p..end][1..];
    StringsOfFirst(was[p..end]);
    AdvancedIf(was, now, p, p + 1, end, None, was[p..end][1..]);
  }

  /** The delimiter behind a header says nothing itself. */
  lemma StringsBehindNul(s: Text)
    requires s != [] && s[0] == NUL
    ensures Strings(Items(s)) == Strings(Items(s[1..]))
  {
    StringsOfFirst(s);
  }

  lemma StringsOfHeader(t: Text)
    requires t != [] && t[0] == '['
    ensures var k := Span(t, ']', '\n');
            && 0 < k
            && Pieces(t[..k]) == StringsOf(Some(Section(t[1..k])))
            && Strings(Items(t))
                    == StringsOf(Some(Section(t[1..k]))) + Strings(Items(if k < |t| then t[k + 1..] else []))
  {
    hide Items, Strings, Pieces;
    var k := Span(t, ']', '\n');
    SpanStops(t, ']', '\n');
    assert t[..k] == "[" + t[1..k];
    PiecesOfString(t[..k]);
    StringsOfFirst(t);
    assert k == |t| ==> t[k..] == [];
  }

  lemma HeaderAdvances(was: Text, p: nat, end: nat)
    requires p < end < |was| && was[end] == NUL && was[p] == '[' && AtBorder(was, p, end)
    ensures var q := p + Span(was[p..end], ']', '\n');
            q <= end && Advanced(was, was[q := NUL], p, q, end)
  {
    hide Span, Items, Strings, Pieces, First;
    var t := was[p..end];
    var k := Span(t, ']', '\n');
    var q := p + k;
    var now := was[q := NUL];
    var rest := if k < |t| then t[k + 1..] else [];
    StringsOfHeader(t);
    assert now[p..q] == t[..k];
    assert Strings(Items(now[q..end])) == Strings(Items(rest)) by {
      if k < |t| {
        StringsBehindNul(now[q..end]);
        assert now[q..end][1..] == rest;
      } else {
        assert now[q..end] == rest;
      }
    }
    AdvancedIf(was, now, p, q, end, Some(Section(t[1..k])), rest);
  }

  lemma CommentLine(t: Text)
    requires t != [] && t[0] == ';'
    ensures First(t) == Statement(None, LineEnd(t))
  {
  }

  lemma DiscardAdvances(was: Text, now: Text, p: nat, end: nat)
    requires p < end < |was| && was[end] == NUL && AtBorder(was, p, end) && was[p] != '\n'
    requires var t := was[p..end]; First(t) == Statement(None, LineEnd(t))
    requires var q := p + LineEnd(was[p..end]); now == was[..p] + Nuls(q - p) + was[q..]
    ensures Advanced(was, now, p, p + LineEnd(was[p..end]), end)
  {
    hide LineEnd, Items, Strings, Pieces, First;
    var q := p + LineEnd(was[p..end]);
    assert now[p..q] == Nuls(q - p);
    NulsHoldNothing(q - p);
    assert now[q..end] == was[q..end] == was[p..end][LineEnd(was[p..end])..];
    LineEndStops(was[p..end]);
    StringsOfFirst(was[p..end]);
    AdvancedIf(was, now, p, q, end, None, was[q..end]);
  }

  // ----- A line with a key -----

  /** The buffer once the key at p is cut off: '=' at eq and the blanks around it are overwritten. */
  function Keyed(was: Text, p: nat, eq: nat, v: nat): Text
    requires p <= eq < v <= |was|
  {
    var key := TrimEnd(was[p..eq]);
    was[..p] + (key + Nuls(v - p - |key|)) + was[v..]
  }

  lemma KeyIsTrimmed(was: Text, p: nat, eq: nat)
    requires p <= eq < |was|
    requires p == 0 || was[p - 1] == NUL || !IsBlank(was[p])
    requires p < eq ==> !IsBlank(was[p])
    requires p == eq ==> p == 0 || was[p - 1] == NUL
    ensures Trimmed(was[..eq]) == was[..p] + (TrimEnd(was[p..eq]) + Nuls(eq - p - |TrimEnd(was[p..eq])|))
  {
    assert was[..eq] == was[..p] + was[p..eq];
    TrimEndIsPrefix(was[p..eq]);
    assert p < eq ==> was[p..eq][0] == was[p];
    TrimJoin(was[..p], was[p..eq]);
  }

  /** Cutting off the key does not move the end of the line. */
  lemma KeyedLineEnd(was: Text, p: nat, eq: nat, v: nat, end: nat)
    requires p <= eq < v <= end < |was|
    requires forall i :: p <= i < v ==> was[i] != '\n'
    ensures LineEnd(Keyed(was, p, eq, v)[p..end]) == LineEnd(was[p..end])
    ensures LineEnd(was[p..end]) == v - p + LineEnd(was[v..end])
  {
    hide LineEnd, TrimEnd;
    var key := TrimEnd(was[p..eq]);
    var head := key + Nuls(v - p - |key|);
    TrimEndIsPrefix(was[p..eq]);
    forall i | 0 <= i < |head|
      ensures head[i] != '\n'
    {
      assert i < |key| ==> key[i] == was[p..eq][i] == was[p + i];
    }
    assert Keyed(was, p, eq, v) == was[..p] + head + was[v..];
    assert was[v..][..end - v] == was[v..end];
    assert Keyed(was, p, eq, v)[p..end] == head + was[v..end];
    LineEndJoin(head, was[v..end]);
    assert was[p..end] == was[p..v] + was[v..end];
    LineEndJoin(was[p..v], was[v..end]);
  }

  lemma PaddedPieces(s: Text, n: nat)
    ensures Pieces(s + Nuls(n)) == Pieces(s)
  {
    PiecesJoin(s, Nuls(n));
    NulsHoldNothing(n);
  }

  /** The strings of a cut-off key followed by a value. */
  lemma EntryStrings(key: Text, n: nat, value: Text, m: nat)
    requires n > 0
    ensures Pieces(key + Nuls(n) + (value + Nuls(m))) == Stored(Entry(key, value))
  {
    var a := key + Nuls(n);
    assert a[|a| - 1] == NUL;
    PiecesJoin(a, value + Nuls(m));
    PaddedPieces(key, n);
    PaddedPieces(value, m);
  }

  lemma EntryText(was: Text, now: Text, p: nat, key: Text, n: nat, value: Text, m: nat, q: nat, end: nat)
    requires p <= q <= end < |was| && q == p + |key| + n + |value| + m
    requires now == was[..p] + (key + Nuls(n)) + (value + Nuls(m)) + was[q..]
    ensures |now| == |was| && now[..p] == was[..p] && now[p..q] == key + Nuls(n) + (value + Nuls(m))
    ensures now[q..] == was[q..] && now[q..end] == was[q..end]
  {
    hide TrimEnd;
  }

  /** A line whose value has been stored over it, up to q. */
  lemma EntryAdvances(was: Text, now: Text, p: nat, key: Text, n: nat, value: Text, m: nat, q: nat, end: nat)
    requires p < q <= end < |was| && was[end] == NUL && q == p + |key| + n + |value| + m && n > 0
    requires AtBorder(was, p, end) && !StopsString(was, p, end) && StopsString(was, q, end)
    requires First(was[p..end]) == Statement(Some(Entry(key, value)), q - p)
    requires now == was[..p] + (key + Nuls(n)) + (value + Nuls(m)) + was[q..]
    ensures Advanced(was, now, p, q, end)
  {
    hide Items, Strings, Pieces, First;
    EntryText(was, now, p, key, n, value, m, q, end);
    assert now[end] == was[end] && now[q] == was[q] by {
      assert now[q..][end - q] == was[q..][end - q] && now[q..][0] == was[q..][0];
    }
    EntryStrings(key, n, value, m);
    assert Strings(Items(was[p..end])) == Stored(Entry(key, value)) + Strings(Items(was[q..end])) by {
      StringsOfFirst(was[p..end]);
      assert was[q..end] == was[p..end][q - p..];
    }
    AdvancedIf(was, now, p, q, end, Some(Entry(key, value)), was[q..end]);
  }

  // ----- What the reference says about the line at p -----

  predicate AtKey(was: Text, p: nat, end: nat) {
    && p < end < |was| && was[end] == NUL
    && !IsGap(was[p]) && was[p] != '[' && was[p] != ';'
    && AtBorder(was, p, end)
  }

  function KeyEnd(was: Text, p: nat, end: nat): (eq: nat)
    requires p <= end < |was|
    ensures p <= eq <= end
  {
    p + Span(was[p..end], '=', '\n')
  }

  function AfterEquals(was: Text, eq: nat, end: nat): (v: nat)
    requires eq < end < |was|
    ensures eq < v <= end
  {
    eq + 1 + Blanks(was[eq + 1..end])
  }

  lemma KeyShape(was: Text, p: nat, end: nat)
    requires AtKey(was, p, end)
    ensures var eq := KeyEnd(was, p, end);
            && (forall i :: p <= i < eq ==> was[i] != '\n' && was[i] != NUL)
            && (was[eq] == '=' ==> eq < end)
            && (was[eq] == '=' ==> forall i :: eq < i < AfterEquals(was, eq, end) ==> IsBlank(was[i]))
            && (was[eq] == '=' ==> !IsBlank(was[AfterEquals(was, eq, end)]))
  {
    hide Span, Blanks;
    var t, eq := was[p..end], KeyEnd(was, p, end);
    SpanStops(t, '=', '\n');
    forall i | p <= i < eq
      ensures was[i] != '\n' && was[i] != NUL
    {
      assert t[i - p] == was[i];
    }
    if was[eq] == '=' {
      var u, v := was[eq + 1..end], AfterEquals(was, eq, end);
      BlanksStop(u);
      forall i | eq < i < v
        ensures IsBlank(was[i])
      {
        assert u[i - eq - 1] == was[i];
      }
      assert v < end ==> u[v - eq - 1] == was[v];
    }
  }

  lemma LineWithoutKey(was: Text, p: nat, end: nat)
    requires AtKey(was, p, end) && was[KeyEnd(was, p, end)] != '='
    ensures First(was[p..end]) == Statement(None, LineEnd(was[p..end]))
  {
    hide LineEnd, Span, TrimEnd, Decode, Blanks;
    assert KeyEnd(was, p, end) < end ==> was[p..end][KeyEnd(was, p, end) - p] == was[KeyEnd(was, p, end)];
  }

  lemma LineWithKey(was: Text, p: nat, end: nat)
    requires AtKey(was, p, end) && was[KeyEnd(was, p, end)] == '='
    ensures var t, eq := was[p..end], KeyEnd(was, p, end);
            && eq < end && eq - p == Span(t, '=', '\n') && t[eq - p] == '='
            && ValueStart(t, eq - p) == AfterEquals(was, eq, end) - p
            && t[..eq - p] == was[p..eq]
  {
    hide Span, Blanks;
    var t, eq := was[p..end], KeyEnd(was, p, end);
    assert t[eq - p + 1..] == was[eq + 1..end];
  }

  lemma LineWithoutValue(was: Text, p: nat, end: nat)
    requires AtKey(was, p, end) && was[KeyEnd(was, p, end)] == '='
    requires StopsString(was, AfterEquals(was, KeyEnd(was, p, end), end), end)
    ensures First(was[p..end]) == Statement(None, LineEnd(was[p..end]))
  {
    hide LineEnd, Span, TrimEnd, Decode, Blanks;
    LineWithKey(was, p, end);
  }

  lemma QuotedKeyLine(t: Text, eq: nat, v: nat)
    requires t != [] && !IsGap(t[0]) && t[0] != '[' && t[0] != ';'
    requires eq == Span(t, '=', '\n') && eq < |t| && t[eq] == '='
    requires v == ValueStart(t, eq) && v < |t| && t[v] == '"'
    ensures var value := Decode(t[v + 1..]);
            First(t) == Statement(if value == [] then None else Some(Entry(TrimEnd(t[..eq]), value)), LineEnd(t))
  {
    hide Span, ValueStart, LineEnd, Decode, TrimEnd;
  }

  lemma LineWithQuotes(was: Text, p: nat, end: nat)
    requires AtKey(was, p, end) && was[KeyEnd(was, p, end)] == '='
    requires var v := AfterEquals(was, KeyEnd(was, p, end), end); v < end && was[v] == '"'
    ensures var eq, v := KeyEnd(was, p, end), AfterEquals(was, KeyEnd(was, p, end), end);
            var value := Decode(was[v + 1..end]);
            First(was[p..end])
            == Statement(if value == [] then None else Some(Entry(TrimEnd(was[p..eq]), value)), LineEnd(was[p..end]))
  {
    hide Span, ValueStart, Blanks, LineEnd, Decode, TrimEnd, First;
    var t, eq, v := was[p..end], KeyEnd(was, p, end), AfterEquals(was, KeyEnd(was, p, end), end);
    LineWithKey(was, p, end);
    assert t[v - p] == was[v] && t[0] == was[p];
    assert t[v - p + 1..] == was[v + 1..end];
    QuotedKeyLine(t, eq - p, v - p);
  }

  lemma PlainKeyLine(t: Text, eq: nat, v: nat, n: nat)
    requires t != [] && !IsGap(t[0]) && t[0] != '[' && t[0] != ';'
    requires eq == Span(t, '=', '\n') && eq < |t| && t[eq] == '='
    requires v == ValueStart(t, eq) && v < |t| && t[v] != '\n' && t[v] != NUL && t[v] != '"'
    requires n == Span(t[v..], '\n', '\n')
    ensures First(t) == Statement(Some(Entry(TrimEnd(t[..eq]), TrimEnd(t[v..v + n]))), v + n)
  {
    hide Span, ValueStart, LineEnd, Decode, TrimEnd;
  }

  lemma LineWithPlainValue(was: Text, p: nat, end: nat)
    requires AtKey(was, p, end) && was[KeyEnd(was, p, end)] == '='
    requires var v := AfterEquals(was, KeyEnd(was, p, end), end); !StopsString(was, v, end) && was[v] != '"'
    ensures var eq, v := KeyEnd(was, p, end), AfterEquals(was, KeyEnd(was, p, end), end);
            var q := v + Span(was[v..end], '\n', '\n');
            First(was[p..end]) == Statement(Some(Entry(TrimEnd(was[p..eq]), TrimEnd(was[v..q]))), q - p)
  {
    hide Span, ValueStart, Blanks, LineEnd, Decode, TrimEnd, First;
    var t, eq, v := was[p..end], KeyEnd(was, p, end), AfterEquals(was, KeyEnd(was, p, end), end);
    var q := v + Span(was[v..end], '\n', '\n');
    LineWithKey(was, p, end);
    assert t[v - p] == was[v] && t[0] == was[p];
    assert t[v - p..] == was[v..end];
    SliceOfSlice(was, p, end, v - p, q - p);
    PlainKeyLine(t, eq - p, v - p, q - v);
  }

  // ----- The intermediate buffers of a line with a key -----

  lemma CutKeyText(was: Text, trimmed: Text, p: nat, eq: nat, v: nat)
    requires p <= eq < v <= |was|
    requires var key := TrimEnd(was[p..eq]); trimmed == was[..p] + (key + Nuls(eq - p - |key|)) + was[eq..]
    ensures trimmed[..eq] + Nuls(v - eq) + trimmed[v..] == Keyed(was, p, eq, v)
  {
    var key := TrimEnd(was[p..eq]);
    assert trimmed[..eq] == was[..p] + (key + Nuls(eq - p - |key|));
    assert trimmed[v..] == was[v..];
    assert Nuls(v - p - |key|) == Nuls(eq - p - |key|) + Nuls(v - eq);
  }

  lemma KeyedShape(was: Text, p: nat, eq: nat, v: nat, end: nat)
    requires AtKey(was, p, end) && eq == KeyEnd(was, p, end) && was[eq] == '=' && v == AfterEquals(was, eq, end)
    ensures var keyed := Keyed(was, p, eq, v);
            && |keyed| == |was| && keyed[..p] == was[..p] && keyed[v..] == was[v..]
            && LineEnd(keyed[p..end]) == LineEnd(was[p..end]) && p + LineEnd(was[p..end]) == v + LineEnd(was[v..end])
  {
    hide LineEnd, TrimEnd, Span, Blanks;
    KeyShape(was, p, end);
    KeyedLineEnd(was, p, eq, v, end);
  }

  lemma PlainShape(was: Text, v: nat, q: nat, end: nat)
    requires v < end < |was| && !StopsString(was, v, end) && !IsBlank(was[v])
    requires q == v + Span(was[v..end], '\n', '\n')
    ensures v < q <= end && StopsString(was, q, end)
    ensures TrimEnd(was[v..q]) != []
  {
    hide Span, TrimEnd;
    SpanStops(was[v..end], '\n', '\n');
    TrimEndIsPrefix(was[v..q]);
    assert was[v..end][0] == was[v];
    assert q < end ==> was[v..end][q - v] == was[q];
    assert was[v..q][0] == was[v];
  }

  lemma PlainIsTrimmed(was: Text, p: nat, eq: nat, v: nat, q: nat)
    requires p <= eq < v < q <= |was| && TrimEnd(was[v..q]) != []
    ensures var keyed := Keyed(was, p, eq, v);
            var key, value := TrimEnd(was[p..eq]), TrimEnd(was[v..q]);
            Trimmed(keyed[..q]) + keyed[q..]
            == was[..p] + (key + Nuls(v - p - |key|)) + (value + Nuls(q - v - |value|)) + was[q..]
  {
    hide TrimEnd;
    var keyed := Keyed(was, p, eq, v);
    var key := TrimEnd(was[p..eq]);
    var head := was[..p] + (key + Nuls(v - p - |key|));
    assert keyed[..q] == head + was[v..q];
    assert keyed[q..] == was[q..];
    TrimJoin(head, was[v..q]);
  }

  lemma DecodedTail(was: Text, keyed: Text, v: nat, value: Text, end: nat)
    requires v + |value| <= end < |was| == |keyed| && keyed[v..] == was[v..]
    ensures var r := v + |value|;
            (keyed[..v] + value + keyed[r..])[r..end] == was[r..end]
  {
    var r := v + |value|;
    assert keyed[r..] == keyed[v..][r - v..] == was[r..];
  }

  lemma QuotedText(was: Text, p: nat, eq: nat, v: nat, value: Text, r: nat, q: nat)
    requires p <= eq < v <= r <= q <= |was| && r == v + |value|
    ensures var keyed := Keyed(was, p, eq, v);
            var key := TrimEnd(was[p..eq]);
            var decoded := keyed[..v] + value + keyed[r..];
            decoded[..r] + Nuls(q - r) + decoded[q..]
            == was[..p] + (key + Nuls(v - p - |key|)) + (value + Nuls(q - r)) + was[q..]
  {
    hide TrimEnd;
    var keyed := Keyed(was, p, eq, v);
    var key := TrimEnd(was[p..eq]);
    assert keyed[..v] == was[..p] + (key + Nuls(v - p - |key|));
    var decoded := keyed[..v] + value + keyed[r..];
    assert decoded[..r] == keyed[..v] + value;
    assert decoded[q..] == was[q..];
  }

  lemma QuotedLineEnd(was: Text, v: nat, end: nat)
    requires v < end < |was| && was[v] == '"'
    ensures var q := v + |Decode(was[v + 1..end])|;
            q < end && q + LineEnd(was[q..end]) == v + LineEnd(was[v..end])
            && q < v + LineEnd(was[v..end])
  {
    hide Decode;
    var n := |Decode(was[v + 1..end])|;
    DecodeStaysInLine(was[v + 1..end]);
    assert LineEnd(was[v..end]) == 1 + LineEnd(was[v + 1..end]) by {
      assert was[v..end][1..] == was[v + 1..end];
    }
    assert was[v..end][n..] == was[v + n..end];
    LineEndDrop(was[v..end], n);
  }

  // ----- Whole lines -----

  predicate AtValue(was: Text, p: nat, eq: nat, v: nat, end: nat) {
    AtKey(was, p, end) && eq == KeyEnd(was, p, end) && was[eq] == '=' && v == AfterEquals(was, eq, end)
  }

  lemma PlainAdvances(was: Text, now: Text, p: nat, eq: nat, v: nat, q: nat, end: nat)
    requires AtValue(was, p, eq, v, end) && !StopsString(was, v, end) && was[v] != '"'
    requires q == v + Span(was[v..end], '\n', '\n')
    requires var keyed := Keyed(was, p, eq, v); now == Trimmed(keyed[..q]) + keyed[q..]
    ensures q <= end && Advanced(was, now, p, q, end)
  {
    hide Span, Blanks, TrimEnd, First, Trimmed, Keyed, Advanced;
    KeyShape(was, p, end);
    PlainShape(was, v, q, end);
    PlainIsTrimmed(was, p, eq, v, q);
    LineWithPlainValue(was, p, end);
    var key, value := TrimEnd(was[p..eq]), TrimEnd(was[v..q]);
    EntryAdvances(was, now, p, key, v - p - |key|, value, q - v - |value|, q, end);
  }

  lemma QuotedAdvances(was: Text, now: Text, p: nat, eq: nat, v: nat, value: Text, q: nat, end: nat)
    requires AtValue(was, p, eq, v, end) && v < end && was[v] == '"'
    requires value == Decode(was[v + 1..end]) && value != []
    requires q == p + LineEnd(was[p..end]) && v + |value| <= q
    requires var r := v + |value|;
             var keyed := Keyed(was, p, eq, v);
             var decoded := keyed[..v] + value + keyed[r..];
             now == decoded[..r] + Nuls(q - r) + decoded[q..]
    ensures q <= end && Advanced(was, now, p, q, end)
  {
    hide LineEnd, Span, Blanks, TrimEnd, First, Keyed, Advanced, Decode;
    KeyShape(was, p, end);
    LineWithQuotes(was, p, end);
    LineEndStops(was[p..end]);
    assert q < end ==> was[p..end][q - p] == was[q];
    var key := TrimEnd(was[p..eq]);
    QuotedText(was, p, eq, v, value, v + |value|, q);
    EntryAdvances(was, now, p, key, v - p - |key|, value, q - v - |value|, q, end);
  }
}
