/** Finding a value: among the strings of a split buffer, and among the statements of a text. */
module IniLookup {
  import opened Options
  import opened IniText

  function LowerChar(c: char): char {
    if 'A' <= c <= 'Z' then c - 'A' + 'a' else c
  }

  function Lower(s: Text): Text {
    seq(|s|, i requires 0 <= i < |s| => LowerChar(s[i]))
  }

  /** Equality ignoring case. */
  predicate SameName(a: Text, b: Text) {
    Lower(a) == Lower(b)
  }

  /** The same character, or the upper- and lower-case form of one of the letters A to Z. */
  predicate SameLetter(c: char, d: char) {
    || c == d
    || ('A' <= c <= 'Z' && d as int == c as int + 32)
    || ('A' <= d <= 'Z' && c as int == d as int + 32)
  }

  /** One text is the other with some letters in the other case. */
  predicate AnyCase(a: Text, b: Text) {
    |a| == |b| && forall i :: 0 <= i < |a| ==> SameLetter(a[i], b[i])
  }

  lemma SameNameIsAnyCase(a: Text, b: Text)
    ensures SameName(a, b) <==> AnyCase(a, b)
  {
    forall i | 0 <= i < |a| && i < |b| ensures Lower(a)[i] == Lower(b)[i] <==> SameLetter(a[i], b[i]) {
      SameLowerIsSameLetter(a[i], b[i]);
    }
    if SameName(a, b) {
      assert |Lower(a)| == |Lower(b)|;
    }
  }

  lemma SameLowerIsSameLetter(c: char, d: char)
    ensures LowerChar(c) == LowerChar(d) <==> SameLetter(c, d)
  {
    var x, y := c as int, d as int;
    assert 'A' as int == 65 && 'Z' as int == 90 && 'a' as int == 97 && 'z' as int == 122;
    assert ('A' <= c <= 'Z') <==> 65 <= x <= 90;
    assert ('A' <= d <= 'Z') <==> 65 <= y <= 90;
    assert LowerChar(c) as int == if 65 <= x <= 90 then x + 32 else x;
    assert LowerChar(d) as int == if 65 <= y <= 90 then y + 32 else y;
  }

  /** No section asked for means any section. */
  predicate InSection(section: Option<Text>, current: Text) {
    section.None? || SameName(section.value, current)
  }

  /** What the reader sees: headers start with '[', any other string is a key and the next one its value. */
  function Walk(strings: seq<Text>, section: Option<Text>, key: Text, current: Text): Option<Text>
    decreases |strings|
  {
    if strings == [] then None
    else if strings[0] != [] && strings[0][0] == '[' then Walk(strings[1..], section, key, strings[0][1..])
    else
      var value := if |strings| > 1 then strings[1] else [];
      if InSection(section, current) && SameName(strings[0], key) then Some(value)
      else Walk(if |strings| > 1 then strings[2..] else [], section, key, current)
  }

  /** The value of the first entry whose section and key match. */
  function Lookup(items: seq<Item>, section: Option<Text>, key: Text, current: Text): Option<Text>
    decreases |items|
  {
    if items == [] then None
    else match items[0]
      case Section(name) => Lookup(items[1..], section, key, name)
      case Entry(k, value) =>
        if InSection(section, current) && SameName(k, key) then Some(value)
        else Lookup(items[1..], section, key, current)
  }

  /** What every statement of a text without NUL looks like. */
  predicate Shaped(item: Item) {
    match item
    case Section(name) => NUL !in name
    case Entry(key, value) => NUL !in key && (key != [] ==> key[0] != '[') && value != [] && NUL !in value
  }

  predicate HasKey(item: Item) {
    item.Entry? ==> item.key != []
  }

  lemma {:induction false} DecodeHasNoNul(u: Text)
    requires NUL !in u
    ensures NUL !in Decode(u)
    decreases |u|
  {
    if u != [] && u[0] != '"' && u[0] != '\r' && u[0] != '\n' {
      if u[0] != '\\' {
        DecodeHasNoNul(u[1..]);
      } else if |u| > 1 && u[1] != '\r' && u[1] != '\n' {
        DecodeHasNoNul(u[2..]);
      }
    }
  }

  lemma KeyLineIsShaped(s: Text)
    requires NUL !in s && s != [] && !IsGap(s[0]) && s[0] != '[' && KeyLine(s).item.Some?
    ensures Shaped(KeyLine(s).item.value)
  {
    hide Span, Blanks, Decode, TrimEnd, LineEnd;
    var eq := Span(s, '=', '\n');
    var v := ValueStart(s, eq);
    TrimEndIsPrefix(s[..eq]);
    if s[v] == '"' {
      DecodeHasNoNul(s[v + 1..]);
    } else {
      var n := Span(s[v..], '\n', '\n');
      SpanStops(s[v..], '\n', '\n');
      TrimEndIsPrefix(s[v..v + n]);
      BlanksStop(s[eq + 1..]);
      assert s[v..][0] == s[eq + 1..][v - eq - 1] == s[v];
      assert s[v..v + n][0] == s[v];
    }
  }

  lemma {:induction false} ItemsAreShaped(s: Text)
    requires NUL !in s
    ensures forall item :: item in Items(s) ==> Shaped(item)
    decreases |s|
  {
    hide KeyLine, Span, LineEnd;
    if s != [] {
      FirstLength(s);
      ItemsAreShaped(s[First(s).length..]);
      if First(s).item.Some? && s[0] != '[' {
        KeyLineIsShaped(s);
      }
    }
  }

  lemma StoredEntry(key: Text, value: Text)
    requires Shaped(Entry(key, value)) && key != []
    ensures Stored(Entry(key, value)) == [key, value]
  {
    PiecesOfString(key);
    PiecesOfString(value);
  }

  /** Reading the strings is reading the statements, as long as every entry has a key. */
  lemma {:induction false} WalkIsLookup(items: seq<Item>, section: Option<Text>, key: Text, current: Text)
    requires forall item :: item in items ==> Shaped(item) && HasKey(item)
    ensures Walk(Strings(items), section, key, current) == Lookup(items, section, key, current)
  {
    if items != [] {
      var rest := Strings(items[1..]);
      match items[0]
      case Section(name) =>
        assert Strings(items) == ["[" + name] + rest;
        assert Strings(items)[0][1..] == name && Strings(items)[1..] == rest;
        WalkIsLookup(items[1..], section, key, name);
      case Entry(k, value) =>
        assert items[0] in items;
        StoredEntry(k, value);
        assert Strings(items) == [k, value] + rest;
        assert Strings(items)[2..] == rest;
        WalkIsLookup(items[1..], section, key, current);
    }
  }

  lemma {:induction false} PiecesAreNotEmpty(s: Text)
    ensures forall t :: t in Pieces(s) ==> t != []
    decreases |s|
  {
    hide Span;
    if s != [] {
      StrLenPositive(s);
      if s[0] == NUL {
        PiecesAreNotEmpty(s[1..]);
      } else {
        PiecesAreNotEmpty(s[StrLen(s)..]);
      }
    }
  }

  lemma {:induction false} StringsAreNotEmpty(items: seq<Item>)
    ensures forall t :: t in Strings(items) ==> t != []
  {
    if items != [] {
      StringsAreNotEmpty(items[1..]);
      if items[0].Entry? {
        PiecesAreNotEmpty(items[0].key);
        PiecesAreNotEmpty(items[0].value);
      }
    }
  }

  /** No stored string is empty, so the reader never finds an empty key. */
  lemma {:induction false} WalkNeverFindsEmptyKey(strings: seq<Text>, section: Option<Text>, current: Text)
    requires forall t :: t in strings ==> t != []
    ensures Walk(strings, section, [], current) == None
    decreases |strings|
  {
    if strings != [] {
      assert strings[0] in strings && |Lower(strings[0])| == |strings[0]|;
      assert forall t :: t in strings[1..] ==> t in strings;
      assert |strings| > 1 ==> forall t :: t in strings[2..] ==> t in strings;
      if strings[0][0] == '[' {
        WalkNeverFindsEmptyKey(strings[1..], section, strings[0][1..]);
      } else if |strings| > 1 {
        WalkNeverFindsEmptyKey(strings[2..], section, current);
      }
    }
  }

  lemma {:induction false} LookupFindsEmptyKey(items: seq<Item>, i: nat, current: Text)
    requires i < |items| && !HasKey(items[i])
    ensures Lookup(items, None, [], current).Some?
    decreases |items|
  {
    assert Lower([]) == [];
    if items[0].Section? {
      LookupFindsEmptyKey(items[1..], i - 1, items[0].name);
    } else if i > 0 && !SameName(items[0].key, []) {
      LookupFindsEmptyKey(items[1..], i - 1, current);
    }
  }

  /** Whatever is asked for, the split buffer answers like the text. */
  ghost predicate Faithful(text: Text) {
    forall section: Option<Text>, key: Text ::
      Walk(Strings(Items(text)), section, key, []) == Lookup(Items(text), section, key, [])
  }

  /**
   * A line whose '=' comes first stores a value but no key, and shifts every later key and value. The
   * split buffer answers every question like the text exactly when there is no such line.
   */
  lemma FaithfulIffEveryEntryHasKey(text: Text)
    requires NUL !in text
    ensures Faithful(text) <==> forall item :: item in Items(text) ==> HasKey(item)
  {
    var items := Items(text);
    ItemsAreShaped(text);
    if forall item :: item in items ==> HasKey(item) {
      forall section: Option<Text>, key: Text
        ensures Walk(Strings(items), section, key, []) == Lookup(items, section, key, [])
      {
        WalkIsLookup(items, section, key, []);
      }
    } else {
      var item :| item in items && !HasKey(item);
      var i :| 0 <= i < |items| && items[i] == item;
      LookupFindsEmptyKey(items, i, []);
      StringsAreNotEmpty(items);
      WalkNeverFindsEmptyKey(Strings(items), None, []);
      assert Walk(Strings(Items(text)), None, [], []) != Lookup(Items(text), None, [], []);
    }
  }

  // ----- What is found -----

  /** The name of the last section that begins before item i, or current. */
  function SectionOf(items: seq<Item>, i: nat, current: Text): Text
    requires i <= |items|
  {
    if i == 0 then current
    else if items[i - 1].Section? then items[i - 1].name
    else SectionOf(items, i - 1, current)
  }

  /** Item i is an entry for what is asked, in any case of letters. */
  predicate IsMatch(items: seq<Item>, i: nat, section: Option<Text>, key: Text, current: Text)
    requires i < |items|
  {
    && items[i].Entry? && AnyCase(items[i].key, key)
    && (section.Some? ==> AnyCase(section.value, SectionOf(items, i, current)))
  }

  /** The answer is the value of the first entry for what is asked, and there is none without such an entry. */
  ghost predicate IsFirstMatch(items: seq<Item>, section: Option<Text>, key: Text, current: Text,
      answer: Option<Text>)
  {
    if answer.None? then forall i :: 0 <= i < |items| ==> !IsMatch(items, i, section, key, current)
    else
      exists i :: 0 <= i < |items| && IsMatch(items, i, section, key, current) && items[i].value == answer.value
                  && forall j :: 0 <= j < i ==> !IsMatch(items, j, section, key, current)
  }

  lemma {:induction false} SectionBehindFirst(items: seq<Item>, i: nat, current: Text)
    requires 0 < i <= |items|
    ensures
      var next := if items[0].Section? then items[0].name else current;
      SectionOf(items, i, current) == SectionOf(items[1..], i - 1, next)
  {
    if i > 1 {
      SectionBehindFirst(items, i - 1, current);
    }
  }

  lemma MatchBehindFirst(items: seq<Item>, i: nat, section: Option<Text>, key: Text, current: Text)
    requires 0 < i < |items|
    ensures
      var next := if items[0].Section? then items[0].name else current;
      IsMatch(items, i, section, key, current) <==> IsMatch(items[1..], i - 1, section, key, next)
  {
    SectionBehindFirst(items, i, current);
    hide SectionOf, AnyCase;
  }

  lemma FirstIsNoMatch(items: seq<Item>, section: Option<Text>, key: Text, current: Text, answer: Option<Text>)
    requires items != [] && !IsMatch(items, 0, section, key, current)
    requires
      var next := if items[0].Section? then items[0].name else current;
      IsFirstMatch(items[1..], section, key, next, answer)
    ensures IsFirstMatch(items, section, key, current, answer)
  {
    hide AnyCase, SectionOf;
    forall i | 0 < i < |items|
      ensures
        var next := if items[0].Section? then items[0].name else current;
        IsMatch(items, i, section, key, current) <==> IsMatch(items[1..], i - 1, section, key, next)
    {
      MatchBehindFirst(items, i, section, key, current);
    }
    if answer.Some? {
      var next := if items[0].Section? then items[0].name else current;
      var k :| 0 <= k < |items[1..]| && IsMatch(items[1..], k, section, key, next)
              && items[1..][k].value == answer.value
              && forall j :: 0 <= j < k ==> !IsMatch(items[1..], j, section, key, next);
      assert IsMatch(items, k + 1, section, key, current) && items[k + 1].value == answer.value;
    }
  }

  lemma {:induction false} LookupFindsFirstMatch(items: seq<Item>, section: Option<Text>, key: Text, current: Text)
    ensures IsFirstMatch(items, section, key, current, Lookup(items, section, key, current))
    decreases |items|
  {
    if items != [] {
      var next := if items[0].Section? then items[0].name else current;
      if items[0].Entry? {
        SameNameIsAnyCase(items[0].key, key);
      }
      if section.Some? {
        SameNameIsAnyCase(section.value, current);
      }
      assert IsMatch(items, 0, section, key, current)
        <==> items[0].Entry? && InSection(section, current) && SameName(items[0].key, key);
      hide SameName, AnyCase, IsFirstMatch;
      if !IsMatch(items, 0, section, key, current) {
        LookupFindsFirstMatch(items[1..], section, key, next);
        FirstIsNoMatch(items, section, key, current, Lookup(items, section, key, current));
      } else {
        FirstIsFound(items, section, key, current);
      }
    }
  }

  lemma FirstIsFound(items: seq<Item>, section: Option<Text>, key: Text, current: Text)
    requires items != [] && IsMatch(items, 0, section, key, current)
    ensures IsFirstMatch(items, section, key, current, Some(items[0].value))
  {
  }
}
