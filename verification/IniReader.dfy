/** Reading a split buffer: only positions move, nothing is written. */
module IniReader {
  import opened Options
  import opened IniText
  import opened IniLookup
  import opened IniBuffer

  /** The C string at p; s is the buffer without its terminating NUL. */
  function StringAt(s: Text, p: nat): Text
    requires p <= |s|
  {
    s[p..][..StrLen(s[p..])]
  }

  predicate AtString(s: Text, p: nat) {
    p <= |s| && (p < |s| ==> s[p] != NUL)
  }

  lemma StringIsWhole(s: Text, p: nat)
    requires p <= |s|
    ensures NUL !in StringAt(s, p)
    ensures p < |s| && s[p] != NUL ==> StringAt(s, p) != [] && StringAt(s, p)[0] == s[p]
  {
    SpanStops(s[p..], NUL, NUL);
    StrLenPositive(s[p..]);
  }

  /** The start of the next string behind the one at p; the end when there is none. */
  method Next(s: Text, p: nat) returns (q: nat)
    requires p <= |s|
    ensures p <= q && AtString(s, q)
    ensures p < |s| && s[p] != NUL ==> p < q && Pieces(s[p..]) == [StringAt(s, p)] + Pieces(s[q..])
    ensures p == |s| || s[p] == NUL ==> Pieces(s[p..]) == Pieces(s[q..])
  {
    StringThenRest(s, p);
    hide StrLen, Pieces, StringAt;
    q := p + StrLen(s[p..]);
    ghost var behind := Pieces(s[q..]);
    while q < |s| && s[q] == NUL
      invariant p <= q <= |s|
      invariant p < |s| && s[p] != NUL ==> p < q
      invariant Pieces(s[q..]) == behind
    {
      NulIsPassed(s, q);
      q := q + 1;
    }
  }

  lemma StringThenRest(s: Text, p: nat)
    requires p <= |s|
    ensures
      var q := p + StrLen(s[p..]);
      && q <= |s|
      && if p < |s| && s[p] != NUL then p < q && Pieces(s[p..]) == [StringAt(s, p)] + Pieces(s[q..]) else q == p
  {
    StrLenPositive(s[p..]);
    assert s[p..][StrLen(s[p..])..] == s[p + StrLen(s[p..])..];
  }

  lemma NulIsPassed(s: Text, q: nat)
    requires q < |s| && s[q] == NUL
    ensures Pieces(s[q + 1..]) == Pieces(s[q..])
  {
    assert s[q..][1..] == s[q + 1..];
  }

  /** Case-insensitive comparison: 0 exactly when the two strings are the same name. */
  method StrCmpCi(a: Text, b: Text) returns (d: int)
    requires NUL !in a && NUL !in b
    ensures d == 0 <==> SameName(a, b)
    ensures d == 0 <==> AnyCase(a, b)
  {
    SameNameIsAnyCase(a, b);
    var i := 0;
    while true
      invariant 0 <= i <= |a| && i <= |b|
      invariant forall j :: 0 <= j < i ==> LowerChar(a[j]) == LowerChar(b[j])
      decreases |a| - i
    {
      var x := if i < |a| then a[i] else NUL;
      var y := if i < |b| then b[i] else NUL;
      d := LowerChar(x) as int - LowerChar(y) as int;
      if d != 0 || x == NUL {
        NamesDiffer(a, b, i, d != 0);
        return;
      }
      i := i + 1;
    }
  }

  lemma NamesDiffer(a: Text, b: Text, i: nat, differ: bool)
    requires i <= |a| && i <= |b|
    requires forall j :: 0 <= j < i ==> LowerChar(a[j]) == LowerChar(b[j])
    requires differ ==> i < |a| || i < |b|
    requires differ && i < |a| && i < |b| ==> LowerChar(a[i]) != LowerChar(b[i])
    requires !differ ==> i == |a| == |b|
    ensures SameName(a, b) <==> !differ
  {
    if differ {
      if i < |a| && i < |b| {
        assert Lower(a)[i] != Lower(b)[i];
      } else {
        assert |Lower(a)| != |Lower(b)|;
      }
    } else {
      assert forall j :: 0 <= j < i ==> Lower(a)[j] == Lower(b)[j];
    }
  }

  /** What the reader sees at p. */
  ghost predicate Answers(s: Text, p: nat, section: Option<Text>, key: Text, current: Text, answer: Option<Text>) {
    p <= |s| && Walk(Pieces(s[p..]), section, key, current) == answer
  }

  lemma PassHeader(s: Text, p: nat, q: nat, section: Option<Text>, key: Text, current: Text, answer: Option<Text>)
    requires Answers(s, p, section, key, current, answer) && p < q <= |s| && s[p] == '['
    requires Pieces(s[p..]) == [StringAt(s, p)] + Pieces(s[q..])
    ensures StringAt(s, p) != [] && Answers(s, q, section, key, StringAt(s, p)[1..], answer)
  {
    StringIsWhole(s, p);
    assert Pieces(s[p..])[1..] == Pieces(s[q..]);
  }

  lemma PiecesAt(s: Text, q: nat)
    requires AtString(s, q)
    ensures q < |s| ==> |Pieces(s[q..])| > 0 && Pieces(s[q..])[0] == StringAt(s, q)
    ensures q == |s| ==> Pieces(s[q..]) == [] && StringAt(s, q) == []
  {
  }

  lemma FoundKey(s: Text, p: nat, q: nat, section: Option<Text>, key: Text, current: Text, answer: Option<Text>)
    requires Answers(s, p, section, key, current, answer) && p < q && AtString(s, q) && s[p] != '[' && s[p] != NUL
    requires Pieces(s[p..]) == [StringAt(s, p)] + Pieces(s[q..])
    requires InSection(section, current) && SameName(StringAt(s, p), key)
    ensures answer == Some(StringAt(s, q))
  {
    hide StringAt, Pieces;
    StringIsWhole(s, p);
    PiecesAt(s, q);
  }

  lemma PassKey(s: Text, p: nat, q: nat, r: nat, section: Option<Text>, key: Text, current: Text, answer: Option<Text>)
    requires Answers(s, p, section, key, current, answer) && p < q <= r <= |s| && s[p] != '[' && s[p] != NUL
    requires Pieces(s[p..]) == [StringAt(s, p)] + Pieces(s[q..]) && AtString(s, q)
    requires q < |s| ==> Pieces(s[q..]) == [StringAt(s, q)] + Pieces(s[r..])
    requires !(InSection(section, current) && SameName(StringAt(s, p), key))
    ensures Answers(s, r, section, key, current, answer)
  {
    hide StringAt, Pieces;
    StringIsWhole(s, p);
    PiecesAt(s, q);
    if q < |s| {
      assert Pieces(s[p..])[2..] == Pieces(s[r..]);
    } else {
      PiecesAt(s, r);
    }
  }

  method Matches(section: Option<Text>, current: Text, key: Text, here: Text) returns (yes: bool)
    requires NUL !in current && NUL !in key && NUL !in here && (section.Some? ==> NUL !in section.value)
    ensures yes <==> InSection(section, current) && SameName(here, key)
  {
    var d := 0;
    if section.Some? {
      d := StrCmpCi(section.value, current);
    }
    if d == 0 {
      d := StrCmpCi(here, key);
    }
    yes := d == 0;
  }

  /** The position of the value of the first matching key; None is the null pointer. */
  method Get(s: Text, section: Option<Text>, key: Text) returns (at: Option<nat>)
    requires NUL !in key && (section.Some? ==> NUL !in section.value)
    ensures at.Some? ==> at.value <= |s|
    ensures Walk(Pieces(s), section, key, []) == if at.Some? then Some(StringAt(s, at.value)) else None
  {
    hide Span, StrLen, Pieces, StringAt, Walk;
    var p := 0;
    if s == [] || s[0] == NUL {
      p := Next(s, p);
    }
    var current: Text := [];
    ghost var answer := Walk(Pieces(s), section, key, []);
    assert s[0..] == s;
    while p < |s|
      invariant AtString(s, p) && NUL !in current
      invariant Answers(s, p, section, key, current, answer)
      decreases |s| - p
    {
      var q := Next(s, p);
      StringIsWhole(s, p);
      var here := StringAt(s, p);
      if s[p] == '[' {
        PassHeader(s, p, q, section, key, current, answer);
        current := here[1..];
        p := q;
      } else {
        var yes := Matches(section, current, key, here);
        if yes {
          FoundKey(s, p, q, section, key, current, answer);
          return Some(q);
        }
        var r := Next(s, q);
        PassKey(s, p, q, r, section, key, current, answer);
        p := r;
      }
    }
    NothingLeft(s, section, key, current);
    at := None;
  }

  /** In a buffer that holds the strings of these items, the first entry for what is asked is found, in any case. */
  lemma FoundInBuffer(s: Text, items: seq<Item>, section: Option<Text>, key: Text)
    requires Pieces(s) == Strings(items) && forall item <- items :: Shaped(item) && HasKey(item)
    ensures IsFirstMatch(items, section, key, [], Walk(Pieces(s), section, key, []))
  {
    WalkIsLookup(items, section, key, []);
    LookupFindsFirstMatch(items, section, key, []);
  }

  lemma NothingLeft(s: Text, section: Option<Text>, key: Text, current: Text)
    ensures Walk(Pieces(s[|s|..]), section, key, current) == None
  {
  }

  /**
   * From a file to an answer: open, read, split, look up. There is no file if it cannot be opened, and reading
   * may end early; both times nothing is loaded.
   */
  method LoadAndGet(file: Option<Text>, bytesRead: nat, section: Option<Text>, key: Text)
    returns (loaded: bool, value: Option<Text>)
    requires NUL !in key && (section.Some? ==> NUL !in section.value)
    ensures loaded <==> file.Some? && bytesRead == |file.value|
    ensures !loaded ==> value == None
    ensures loaded ==> value == Walk(Strings(Items(file.value)), section, key, [])
    ensures loaded && NUL !in file.value && (forall item :: item in Items(file.value) ==> HasKey(item)) ==>
              && value == Lookup(Items(file.value), section, key, [])
              && IsFirstMatch(Items(file.value), section, key, [], value)
  {
    if file.None? || bytesRead != |file.value| {
      return false, None;
    }
    var content := file.value;
    var ini := new Ini.Load(content);
    var s := ini.data[..ini.end];
    var at := Get(s, section, key);
    loaded := true;
    value := if at.Some? then Some(StringAt(s, at.value)) else None;
    if NUL !in content {
      FaithfulIffEveryEntryHasKey(content);
      LookupFindsFirstMatch(Items(content), section, key, []);
    }
  }
}
