/** Writing INI texts, and reading back what was written. */
module IniDocument {
  import opened Options
  import opened IniText
  import opened IniLookup

  /** A character inside quotes, as it is written: by itself, or behind a backslash. */
  datatype Written = Bare(c: char) | Escaped(c: char)

  /**
   * A value as written: bare, in quotes with those escapes that are needed, or in any other way that begins
   * with a quote; tail is then what stands behind its characters on the line.
   */
  datatype Value = Plain(text: Text) | Quoted(text: Text) | Raw(chars: seq<Written>, tail: Text)

  /**
   * A line as written; pad, gap, lead and trail are the free spaces of the format. The last four are lines
   * without a closing bracket, an equals sign, a value, or a character in the value.
   */
  datatype Line =
    | Blank(pad: Text)
    | Comment(pad: Text, text: Text)
    | Header(pad: Text, name: Text, trail: Text)
    | Pair(pad: Text, key: Text, gap: Text, lead: Text, value: Value, trail: Text)
    | OpenHeader(pad: Text, name: Text)
    | NoPair(pad: Text, text: Text)
    | NoValue(pad: Text, key: Text, gap: Text, lead: Text)
    | NoText(pad: Text, key: Text, gap: Text, lead: Text, tail: Text)

  predicate IsSpace(c: char) {
    c == ' ' || c == '\t' || c == '\r'
  }

  predicate AllBlank(s: Text) {
    forall i :: 0 <= i < |s| ==> IsSpace(s[i])
  }

  predicate OneLine(s: Text) {
    '\n' !in s && NUL !in s
  }

  function EscapeChar(c: char): Text {
    if c == '\\' then "\\\\"
    else if c == '"' then "\\\""
    else if c == '\n' then "\\n"
    else if c == '\r' then "\\r"
    else [c]
  }

  function Escape(s: Text): Text {
    if s == [] then [] else EscapeChar(s[0]) + Escape(s[1..])
  }

  function RenderChars(chars: seq<Written>): Text {
    if chars == [] then [] else RenderChar(chars[0]) + RenderChars(chars[1..])
  }

  function RenderChar(w: Written): Text {
    match w
    case Bare(c) => [c]
    case Escaped(c) => ['\\', c]
  }

  function RenderValue(value: Value): Text {
    match value
    case Plain(text) => text
    case Quoted(text) => "\"" + (Escape(text) + "\"")
    case Raw(chars, tail) => "\"" + (RenderChars(chars) + tail)
  }

  function Render(line: Line): Text {
    match line
    case Blank(pad) => pad + "\n"
    case Comment(pad, text) => pad + (";" + text + "\n")
    case Header(pad, name, trail) => pad + ("[" + name + ("]" + (trail + "\n")))
    case Pair(pad, key, gap, lead, value, trail) =>
      pad + (key + gap + ("=" + (lead + (RenderValue(value) + trail + "\n"))))
    case OpenHeader(pad, name) => pad + ("[" + name + "\n")
    case NoPair(pad, text) => pad + (text + "\n")
    case NoValue(pad, key, gap, lead) => pad + (key + gap + ("=" + (lead + "\n")))
    case NoText(pad, key, gap, lead, tail) => pad + (key + gap + ("=" + (lead + ("\"" + tail + "\n"))))
  }

  function RenderAll(lines: seq<Line>): Text {
    if lines == [] then [] else Render(lines[0]) + RenderAll(lines[1..])
  }

  predicate KeyOk(key: Text) {
    && OneLine(key) && '=' !in key
    && (key != [] ==> StartsKey(key[0]) && !IsSpace(key[|key| - 1]))
  }

  predicate StartsKey(c: char) {
    !IsSpace(c) && c != '\n' && c != NUL && c != '[' && c != ';'
  }

  /** Inside quotes a character ends neither the value nor the line. */
  predicate CharOk(w: Written) {
    match w
    case Bare(c) => c != '"' && c != '\\' && c != '\r' && c != '\n' && c != NUL
    case Escaped(c) => c != '\r' && c != '\n' && c != NUL
  }

  /** The quoted value ends here: with a quote, or with the line, which a backslash does not hold back. */
  predicate EndsQuoted(tail: Text) {
    && '\n' !in tail
    && (|| tail == [] || tail[0] == '"' || tail[0] == '\r' || tail == "\\"
        || (|tail| > 1 && tail[0] == '\\' && tail[1] == '\r'))
  }

  predicate ValueOk(value: Value, trail: Text) {
    match value
    case Plain(text) =>
      && text != [] && OneLine(text) && !IsSpace(text[0]) && text[0] != '"'
      && !IsSpace(text[|text| - 1]) && AllBlank(trail)
    case Quoted(text) => text != [] && NUL !in text && '\n' !in trail
    case Raw(chars, tail) => chars != [] && (forall w <- chars :: CharOk(w)) && EndsQuoted(tail) && trail == []
  }

  predicate WellFormed(line: Line) {
    match line
    case Blank(pad) => AllBlank(pad)
    case Comment(pad, text) => AllBlank(pad) && '\n' !in text
    case Header(pad, name, trail) => AllBlank(pad) && OneLine(name) && ']' !in name && AllBlank(trail)
    case Pair(pad, key, gap, lead, value, trail) =>
      && AllBlank(pad) && AllBlank(gap) && AllBlank(lead)
      && KeyOk(key) && (key == [] ==> gap == []) && ValueOk(value, trail)
    case OpenHeader(pad, name) => AllBlank(pad) && OneLine(name) && ']' !in name
    case NoPair(pad, text) => AllBlank(pad) && OneLine(text) && '=' !in text && text != [] && StartsKey(text[0])
    case NoValue(pad, key, gap, lead) =>
      AllBlank(pad) && AllBlank(gap) && AllBlank(lead) && KeyOk(key) && (key == [] ==> gap == [])
    case NoText(pad, key, gap, lead, tail) =>
      && AllBlank(pad) && AllBlank(gap) && AllBlank(lead) && KeyOk(key) && (key == [] ==> gap == [])
      && EndsQuoted(tail)
  }

  /** What a written character stands for. */
  function CharOf(w: Written): char {
    match w
    case Bare(c) => c
    case Escaped(c) => if c == 'n' then '\n' else if c == 'r' then '\r' else if c == 't' then '\t' else c
  }

  function CharsOf(chars: seq<Written>): Text {
    if chars == [] then [] else [CharOf(chars[0])] + CharsOf(chars[1..])
  }

  function TextOf(value: Value): Text {
    match value
    case Plain(text) => text
    case Quoted(text) => text
    case Raw(chars, _) => CharsOf(chars)
  }

  function Meaning(line: Line): seq<Item> {
    match line
    case Blank(_) => []
    case Comment(_, _) => []
    case Header(_, name, _) => [Section(name)]
    case Pair(_, key, _, _, value, _) => [Entry(key, TextOf(value))]
    case OpenHeader(_, name) => [Section(name)]
    case NoPair(_, _) => []
    case NoValue(_, _, _, _) => []
    case NoText(_, _, _, _, _) => []
  }

  function MeaningOfAll(lines: seq<Line>): seq<Item> {
    if lines == [] then [] else Meaning(lines[0]) + MeaningOfAll(lines[1..])
  }

  // ----- Scanning what was written -----

  lemma {:induction false} SpanOver(a: Text, b: Text, x: char, y: char)
    requires forall i :: 0 <= i < |a| ==> a[i] != x && a[i] != y && a[i] != NUL
    requires b == [] || b[0] == x || b[0] == y || b[0] == NUL
    ensures Span(a + b, x, y) == |a|
  {
    if a == [] {
      assert a + b == b;
    } else {
      assert (a + b)[1..] == a[1..] + b;
      SpanOver(a[1..], b, x, y);
    }
  }

  lemma {:induction false} BlanksOver(a: Text, b: Text)
    requires AllBlank(a) && (b == [] || !IsSpace(b[0]))
    ensures Blanks(a + b) == |a|
  {
    if a == [] {
      assert a + b == b;
    } else {
      assert (a + b)[1..] == a[1..] + b;
      BlanksOver(a[1..], b);
    }
  }

  lemma {:induction false} TrimOver(a: Text, b: Text)
    requires AllBlank(b) && (a == [] || !IsSpace(a[|a| - 1]))
    ensures TrimEnd(a + b) == a
    decreases |b|
  {
    if b == [] {
      assert a + b == a;
    } else {
      assert (a + b)[..|a + b| - 1] == a + b[..|b| - 1];
      TrimOver(a, b[..|b| - 1]);
    }
  }

  lemma {:induction false} GapsSayNothing(pad: Text, s: Text)
    requires forall i :: 0 <= i < |pad| ==> IsSpace(pad[i]) || pad[i] == '\n'
    ensures Items(pad + s) == Items(s)
  {
    hide KeyLine, Span;
    if pad == [] {
      assert pad + s == s;
    } else {
      assert (pad + s)[1..] == pad[1..] + s;
      GapsSayNothing(pad[1..], s);
    }
  }

  lemma DecodeOneEscape(c: char, tail: Text)
    requires c != NUL
    ensures Decode(EscapeChar(c) + tail) == [c] + Decode(tail)
  {
    var u := EscapeChar(c) + tail;
    assert u[|EscapeChar(c)|..] == tail;
  }

  /** Decoding undoes escaping, for every value. */
  lemma {:induction false} DecodeEscape(s: Text, rest: Text)
    requires NUL !in s
    ensures Decode(Escape(s) + ("\"" + rest)) == s
  {
    if s == [] {
      assert Escape(s) + ("\"" + rest) == "\"" + rest;
    } else {
      hide Decode, EscapeChar;
      var tail := Escape(s[1..]) + ("\"" + rest);
      assert Escape(s) + ("\"" + rest) == EscapeChar(s[0]) + tail;
      DecodeOneEscape(s[0], tail);
      DecodeEscape(s[1..], rest);
    }
  }

  lemma {:induction false} EscapeIsOneLine(s: Text)
    ensures '\n' !in Escape(s)
  {
    if s != [] {
      EscapeIsOneLine(s[1..]);
    }
  }

  // ----- One written line -----

  lemma StatementThenRest(s: Text, statement: Text, rest: Text)
    requires statement != [] && s == statement + rest && First(s).length == |statement|
    ensures Items(s) == AsList(First(s).item) + Items(rest)
  {
    hide First;
    assert s[|statement|..] == rest;
  }

  lemma CommentSaysNothing(text: Text, rest: Text)
    requires '\n' !in text
    ensures Items(";" + text + "\n" + rest) == Items(rest)
  {
    hide Items;
    var s := ";" + text + "\n" + rest;
    assert s == (";" + text) + ("\n" + rest);
    LineEndJoin(";" + text, "\n" + rest);
    StatementThenRest(s, ";" + text, "\n" + rest);
    GapsSayNothing("\n", rest);
  }

  lemma HeaderSaysSection(name: Text, trail: Text, rest: Text)
    requires OneLine(name) && ']' !in name && AllBlank(trail)
    ensures Items("[" + name + ("]" + (trail + "\n")) + rest) == [Section(name)] + Items(rest)
  {
    hide Items, Span;
    var s := "[" + name + ("]" + (trail + "\n")) + rest;
    var gap := trail + "\n";
    assert s == ("[" + name) + ("]" + (gap + rest));
    SpanOver("[" + name, "]" + (gap + rest), ']', '\n');
    assert s[1..|name| + 1] == name;
    assert s == ("[" + name + "]") + (gap + rest);
    StatementThenRest(s, "[" + name + "]", gap + rest);
    GapsSayNothing(gap, rest);
  }

  /** The parts of a written pair: where '=' is and where the value starts. */
  lemma PairParts(key: Text, gap: Text, lead: Text, after: Text)
    requires KeyOk(key) && AllBlank(gap) && AllBlank(lead) && after != [] && !IsSpace(after[0])
    ensures var s := key + gap + ("=" + (lead + after));
            var eq := |key + gap|;
            && Span(s, '=', '\n') == eq && s[eq] == '='
            && TrimEnd(s[..eq]) == key
            && ValueStart(s, eq) == eq + 1 + |lead|
            && s[eq + 1 + |lead|..] == after
  {
    hide Span, Blanks, TrimEnd;
    var s := key + gap + ("=" + (lead + after));
    var eq := |key + gap|;
    SpanOver(key + gap, "=" + (lead + after), '=', '\n');
    assert s[..eq] == key + gap;
    TrimOver(key, gap);
    assert s[eq + 1..] == lead + after;
    BlanksOver(lead, after);
    assert s[eq + 1..][|lead|..] == after;
  }

  lemma PlainPairIsStatement(key: Text, gap: Text, lead: Text, text: Text, trail: Text, rest: Text)
    requires KeyOk(key) && AllBlank(gap) && AllBlank(lead) && (key == [] ==> gap == [])
    requires ValueOk(Plain(text), trail)
    ensures var s := key + gap + ("=" + (lead + (text + trail + ("\n" + rest))));
            First(s) == Statement(Some(Entry(key, text)), |key + gap| + 1 + |lead| + |text + trail|)
  {
    hide Span, Blanks, TrimEnd, ValueStart, LineEnd, Decode;
    var after := text + trail + ("\n" + rest);
    var s := key + gap + ("=" + (lead + after));
    var v := |key + gap| + 1 + |lead|;
    PairParts(key, gap, lead, after);
    assert s[v] == after[0] == text[0];
    SpanOver(text + trail, "\n" + rest, '\n', '\n');
    var n := |text + trail|;
    assert s[v..v + n] == text + trail by { assert s[v..][..n] == text + trail; }
    TrimOver(text, trail);
    FirstIsKeyLine(s, key, gap, "=" + (lead + after));
  }

  lemma PlainPairSaysEntry(key: Text, gap: Text, lead: Text, text: Text, trail: Text, rest: Text)
    requires KeyOk(key) && AllBlank(gap) && AllBlank(lead) && (key == [] ==> gap == [])
    requires ValueOk(Plain(text), trail)
    ensures var s := key + gap + ("=" + (lead + (text + trail + ("\n" + rest))));
            Items(s) == [Entry(key, text)] + Items(rest)
  {
    PlainPairIsStatement(key, gap, lead, text, trail, rest);
    hide Items, First, KeyOk, ValueOk;
    var s := key + gap + ("=" + (lead + (text + trail + ("\n" + rest))));
    var statement := key + gap + ("=" + (lead + (text + trail)));
    assert s == statement + ("\n" + rest);
    assert |statement| == |key + gap| + 1 + |lead| + |text + trail|;
    StatementThenRest(s, statement, "\n" + rest);
    GapsSayNothing("\n", rest);
  }

  lemma FirstIsKeyLine(s: Text, key: Text, gap: Text, after: Text)
    requires s == key + gap + after && KeyOk(key) && (key == [] ==> gap == []) && after != [] && after[0] == '='
    ensures First(s) == KeyLine(s)
  {
    hide KeyLine;
    assert s[0] == if key == [] then after[0] else key[0];
  }

  lemma NewlineEndsLine(rest: Text)
    ensures LineEnd("\n" + rest) == 0
  {
  }

  lemma WrittenInQuotes(text: Text, rest: Text)
    requires NUL !in text
    ensures var after := RenderValue(Quoted(text)) + rest;
            after[0] == '"' && Decode(after[1..]) == text
  {
    hide Decode, Escape;
    var after := RenderValue(Quoted(text)) + rest;
    assert after[1..] == Escape(text) + ("\"" + rest);
    DecodeEscape(text, rest);
  }

  lemma QuotedPairFirst(key: Text, gap: Text, lead: Text, text: Text, after: Text)
    requires KeyOk(key) && AllBlank(gap) && AllBlank(lead) && (key == [] ==> gap == [])
    requires after != [] && after[0] == '"' && Decode(after[1..]) == text && text != []
    ensures var s := key + gap + ("=" + (lead + after));
            First(s) == Statement(Some(Entry(key, text)), LineEnd(s))
  {
    hide Span, Blanks, TrimEnd, ValueStart, LineEnd, Decode;
    var s := key + gap + ("=" + (lead + after));
    var eq := |key + gap|;
    var v := eq + 1 + |lead|;
    PairParts(key, gap, lead, after);
    assert s[v] == after[0];
    assert s[v..][1..] == s[v + 1..];
    FirstIsKeyLine(s, key, gap, "=" + (lead + after));
  }

  lemma DecodeOneChar(w: Written, behind: Text)
    requires CharOk(w)
    ensures Decode(RenderChar(w) + behind) == [CharOf(w)] + Decode(behind)
  {
    var u := RenderChar(w) + behind;
    assert u[|RenderChar(w)|..] == behind;
  }

  lemma DecodeEnds(tail: Text, rest: Text)
    requires EndsQuoted(tail)
    ensures Decode(tail + ("\n" + rest)) == []
  {
    var u := tail + ("\n" + rest);
    assert |tail| > 0 ==> u[0] == tail[0];
    assert |tail| > 1 ==> u[1] == tail[1];
    assert |tail| < 2 ==> u[|tail|] == '\n';
  }

  /** Decoding gives what the characters stand for, however they are written and whatever ends the value. */
  lemma {:induction false} DecodeChars(chars: seq<Written>, tail: Text, rest: Text)
    requires (forall w <- chars :: CharOk(w)) && EndsQuoted(tail)
    ensures Decode(RenderChars(chars) + (tail + ("\n" + rest))) == CharsOf(chars)
  {
    hide Decode, CharOk, RenderChar, CharOf, EndsQuoted;
    var end := tail + ("\n" + rest);
    if chars == [] {
      assert RenderChars(chars) + end == end;
      DecodeEnds(tail, rest);
    } else {
      DecodeChars(chars[1..], tail, rest);
      assert RenderChars(chars) + end == RenderChar(chars[0]) + (RenderChars(chars[1..]) + end);
      DecodeOneChar(chars[0], RenderChars(chars[1..]) + end);
    }
  }

  lemma {:induction false} CharsAreOneLine(chars: seq<Written>)
    requires forall w <- chars :: CharOk(w)
    ensures '\n' !in RenderChars(chars) && |CharsOf(chars)| == |chars| && NUL !in CharsOf(chars)
  {
    if chars != [] {
      assert CharOk(chars[0]);
      CharsAreOneLine(chars[1..]);
    }
  }

  lemma RawPairSaysEntry(key: Text, gap: Text, lead: Text, chars: seq<Written>, tail: Text, rest: Text)
    requires KeyOk(key) && AllBlank(gap) && AllBlank(lead) && (key == [] ==> gap == [])
    requires ValueOk(Raw(chars, tail), [])
    ensures var s := key + gap + ("=" + (lead + (RenderValue(Raw(chars, tail)) + [] + ("\n" + rest))));
            Items(s) == [Entry(key, CharsOf(chars))] + Items(rest)
  {
    hide Items, First, LineEnd, Decode, RenderChars, CharsOf, CharOk;
    var written := "\"" + (RenderChars(chars) + tail);
    var after := written + [] + ("\n" + rest);
    var s := key + gap + ("=" + (lead + after));
    var statement := key + gap + ("=" + (lead + written));
    DecodeChars(chars, tail, rest);
    CharsAreOneLine(chars);
    assert after[1..] == RenderChars(chars) + (tail + ("\n" + rest));
    QuotedPairFirst(key, gap, lead, CharsOf(chars), after);
    assert s == statement + ("\n" + rest);
    QuotedPairLineEnd(statement, rest);
    StatementThenRest(s, statement, "\n" + rest);
    GapsSayNothing("\n", rest);
  }

  // ----- Lines that say nothing, and an open header -----

  lemma OpenHeaderSaysSection(name: Text, rest: Text)
    requires OneLine(name) && ']' !in name
    ensures Items("[" + name + "\n" + rest) == [Section(name)] + Items(rest)
  {
    hide Items, Span;
    var s := "[" + name + "\n" + rest;
    assert s == ("[" + name) + ("\n" + rest);
    SpanOver("[" + name, "\n" + rest, ']', '\n');
    assert s[1..|name| + 1] == name;
    assert s == ("[" + name + "\n") + rest;
    StatementThenRest(s, "[" + name + "\n", rest);
  }

  lemma NoPairSaysNothing(text: Text, rest: Text)
    requires OneLine(text) && '=' !in text && text != [] && StartsKey(text[0])
    ensures Items(text + "\n" + rest) == Items(rest)
  {
    hide Items, Span, LineEnd;
    var s := text + "\n" + rest;
    assert s == text + ("\n" + rest);
    SpanOver(text, "\n" + rest, '=', '\n');
    assert s[0] == text[0] && s[|text|] == '\n';
    QuotedPairLineEnd(text, rest);
    assert First(s) == Statement(None, |text|);
    StatementThenRest(s, text, "\n" + rest);
    GapsSayNothing("\n", rest);
  }

  /** Behind the blanks that follow '=' the line ends, or a quoted value without characters begins. */
  lemma NothingIsNoEntry(key: Text, gap: Text, lead: Text, written: Text, rest: Text)
    requires KeyOk(key) && AllBlank(gap) && AllBlank(lead) && (key == [] ==> gap == [])
    requires written == [] || (written[0] == '"' && EndsQuoted(written[1..]))
    ensures
      var s := key + gap + ("=" + (lead + (written + ("\n" + rest))));
      First(s) == Statement(None, LineEnd(s))
  {
    hide Items, Span, Blanks, TrimEnd, ValueStart, LineEnd, Decode, EndsQuoted;
    var after := written + ("\n" + rest);
    var s := key + gap + ("=" + (lead + after));
    var v := |key + gap| + 1 + |lead|;
    PairParts(key, gap, lead, after);
    assert s[v] == after[0];
    if written != [] {
      DecodeEnds(written[1..], rest);
      assert s[v + 1..] == s[v..][1..] == written[1..] + ("\n" + rest);
    }
    FirstIsKeyLine(s, key, gap, "=" + (lead + after));
  }

  lemma NothingSaysNothing(key: Text, gap: Text, lead: Text, written: Text, rest: Text)
    requires KeyOk(key) && AllBlank(gap) && AllBlank(lead) && (key == [] ==> gap == [])
    requires written == [] || (written[0] == '"' && EndsQuoted(written[1..]))
    ensures Items(key + gap + ("=" + (lead + (written + ("\n" + rest))))) == Items(rest)
  {
    NothingIsNoEntry(key, gap, lead, written, rest);
    hide Items, First, LineEnd;
    var s := key + gap + ("=" + (lead + (written + ("\n" + rest))));
    var statement := key + gap + ("=" + (lead + written));
    assert s == statement + ("\n" + rest);
    assert '\n' !in statement;
    QuotedPairLineEnd(statement, rest);
    StatementThenRest(s, statement, "\n" + rest);
    GapsSayNothing("\n", rest);
  }

  lemma QuotedPairLineEnd(statement: Text, rest: Text)
    requires '\n' !in statement
    ensures LineEnd(statement + ("\n" + rest)) == |statement|
  {
    LineEndJoin(statement, "\n" + rest);
    NewlineEndsLine(rest);
  }

  lemma QuotedPairSaysEntry(key: Text, gap: Text, lead: Text, text: Text, trail: Text, rest: Text)
    requires KeyOk(key) && AllBlank(gap) && AllBlank(lead) && (key == [] ==> gap == [])
    requires ValueOk(Quoted(text), trail)
    ensures var s := key + gap + ("=" + (lead + (RenderValue(Quoted(text)) + trail + ("\n" + rest))));
            Items(s) == [Entry(key, text)] + Items(rest)
  {
    hide Items, First, LineEnd, Decode, Escape;
    var written := RenderValue(Quoted(text));
    var after := written + trail + ("\n" + rest);
    var s := key + gap + ("=" + (lead + after));
    var statement := key + gap + ("=" + (lead + (written + trail)));
    WrittenInQuotes(text, trail + ("\n" + rest));
    assert after == written + (trail + ("\n" + rest));
    QuotedPairFirst(key, gap, lead, text, after);
    EscapeIsOneLine(text);
    assert s == statement + ("\n" + rest);
    QuotedPairLineEnd(statement, rest);
    StatementThenRest(s, statement, "\n" + rest);
    GapsSayNothing("\n", rest);
  }

  lemma PairSaysEntry(line: Line, rest: Text)
    requires line.Pair? && WellFormed(line)
    ensures Items(Render(line) + rest) == Meaning(line) + Items(rest)
  {
    hide Items, RenderValue;
    var Pair(pad, key, gap, lead, value, trail) := line;
    var written := RenderValue(value);
    var body := key + gap + ("=" + (lead + (written + trail + ("\n" + rest))));
    assert Render(line) + rest == pad + body;
    GapsSayNothing(pad, body);
    match value
    case Plain(text) =>
      PlainIsWrittenAsIs(text);
      PlainPairSaysEntry(key, gap, lead, text, trail, rest);
    case Quoted(text) =>
      QuotedPairSaysEntry(key, gap, lead, text, trail, rest);
    case Raw(chars, tail) =>
      RawPairSaysEntry(key, gap, lead, chars, tail, rest);
  }

  /** Reading a written line gives its meaning, and then what follows. */
  lemma LineSaysMeaning(line: Line, rest: Text)
    requires WellFormed(line)
    ensures Items(Render(line) + rest) == Meaning(line) + Items(rest)
  {
    hide Items, RenderValue;
    match line
    case Blank(pad) =>
      GapsSayNothing(pad + "\n", rest);
    case Comment(pad, text) =>
      var body := ";" + text + "\n";
      assert Render(line) + rest == pad + (body + rest);
      GapsSayNothing(pad, body + rest);
      CommentSaysNothing(text, rest);
    case Header(pad, name, trail) =>
      var body := "[" + name + ("]" + (trail + "\n"));
      assert Render(line) + rest == pad + (body + rest);
      GapsSayNothing(pad, body + rest);
      HeaderSaysSection(name, trail, rest);
    case Pair(_, _, _, _, _, _) =>
      PairSaysEntry(line, rest);
    case _ =>
      OddLineSaysMeaning(line, rest);
  }

  lemma OddLineSaysMeaning(line: Line, rest: Text)
    requires WellFormed(line) && (line.OpenHeader? || line.NoPair? || line.NoValue? || line.NoText?)
    ensures Items(Render(line) + rest) == Meaning(line) + Items(rest)
  {
    hide Items, KeyOk, EndsQuoted, Render;
    OddRender(line, rest);
    match line
    case OpenHeader(pad, name) =>
      GapsSayNothing(pad, "[" + name + "\n" + rest);
      OpenHeaderSaysSection(name, rest);
    case NoPair(pad, text) =>
      GapsSayNothing(pad, text + "\n" + rest);
      NoPairSaysNothing(text, rest);
    case NoValue(pad, key, gap, lead) => PadThenNothing(pad, key, gap, lead, [], rest);
    case NoText(pad, key, gap, lead, tail) =>
      assert ("\"" + tail)[1..] == tail;
      PadThenNothing(pad, key, gap, lead, "\"" + tail, rest);
  }

  lemma OddRender(line: Line, rest: Text)
    ensures line.OpenHeader? ==> Render(line) + rest == line.pad + ("[" + line.name + "\n" + rest)
    ensures line.NoPair? ==> Render(line) + rest == line.pad + (line.text + "\n" + rest)
    ensures line.NoValue? ==>
      Render(line) + rest == line.pad + (line.key + line.gap + ("=" + (line.lead + ([] + ("\n" + rest)))))
    ensures line.NoText? ==>
              Render(line) + rest
              == line.pad + (line.key + line.gap + ("=" + (line.lead + ("\"" + line.tail + ("\n" + rest)))))
  {
  }

  lemma PadThenNothing(pad: Text, key: Text, gap: Text, lead: Text, written: Text, rest: Text)
    requires AllBlank(pad) && KeyOk(key) && AllBlank(gap) && AllBlank(lead) && (key == [] ==> gap == [])
    requires written == [] || (written[0] == '"' && EndsQuoted(written[1..]))
    ensures Items(pad + (key + gap + ("=" + (lead + (written + ("\n" + rest)))))) == Items(rest)
  {
    hide Items, KeyOk, EndsQuoted;
    GapsSayNothing(pad, key + gap + ("=" + (lead + (written + ("\n" + rest)))));
    NothingSaysNothing(key, gap, lead, written, rest);
  }

  lemma PlainIsWrittenAsIs(text: Text)
    ensures RenderValue(Plain(text)) == text
  {
  }

  /** Round trip, for every document: reading what was written gives what was meant. */
  lemma {:induction false} ReadingUndoesWriting(lines: seq<Line>)
    requires forall line :: line in lines ==> WellFormed(line)
    ensures Items(RenderAll(lines)) == MeaningOfAll(lines)
  {
    if lines != [] {
      LineSaysMeaning(lines[0], RenderAll(lines[1..]));
      ReadingUndoesWriting(lines[1..]);
    }
  }

  predicate NamesKey(line: Line) {
    line.Pair? ==> line.key != []
  }

  lemma MeaningIsShaped(line: Line)
    requires WellFormed(line)
    ensures forall item :: item in Meaning(line) ==> Shaped(item)
    ensures NamesKey(line) <==> forall item :: item in Meaning(line) ==> HasKey(item)
  {
    if line.Pair? {
      if line.value.Raw? {
        CharsAreOneLine(line.value.chars);
      }
      assert Entry(line.key, TextOf(line.value)) in Meaning(line);
    }
  }

  lemma {:induction false} MeaningsAreShaped(lines: seq<Line>)
    requires forall line :: line in lines ==> WellFormed(line) && NamesKey(line)
    ensures forall item :: item in MeaningOfAll(lines) ==> Shaped(item) && HasKey(item)
  {
    if lines != [] {
      MeaningIsShaped(lines[0]);
      MeaningsAreShaped(lines[1..]);
    }
  }

  /**
   * End to end on texts: for any written document whose pairs have keys, what the reader finds among
   * the strings of the split text is the value of the first pair with that section and key, and
   * nothing when there is none.
   */
  lemma WrittenDocumentIsFound(lines: seq<Line>, section: Option<Text>, key: Text)
    requires forall line :: line in lines ==> WellFormed(line) && NamesKey(line)
    ensures Walk(Strings(Items(RenderAll(lines))), section, key, []) == Lookup(MeaningOfAll(lines), section, key, [])
    ensures
      var answer := Walk(Strings(Items(RenderAll(lines))), section, key, []);
      IsFirstMatch(MeaningOfAll(lines), section, key, [], answer)
  {
    ReadingUndoesWriting(lines);
    MeaningsAreShaped(lines);
    WalkIsLookup(MeaningOfAll(lines), section, key, []);
    LookupFindsFirstMatch(MeaningOfAll(lines), section, key, []);
  }

  // ----- The last line may end with the text -----

  lemma {:induction false} SpanWithNewline(s: Text, a: char)
    ensures Span(s + "\n", a, '\n') == Span(s, a, '\n')
  {
    if s != [] {
      assert (s + "\n")[1..] == s[1..] + "\n";
      SpanWithNewline(s[1..], a);
    }
  }

  lemma {:induction false} LineEndWithNewline(s: Text)
    ensures LineEnd(s + "\n") == LineEnd(s)
  {
    if s != [] {
      assert (s + "\n")[1..] == s[1..] + "\n";
      LineEndWithNewline(s[1..]);
    }
  }

  lemma {:induction false} BlanksWithNewline(s: Text)
    ensures Blanks(s + "\n") == Blanks(s)
  {
    if s != [] {
      assert (s + "\n")[1..] == s[1..] + "\n";
      BlanksWithNewline(s[1..]);
    }
  }

  lemma {:induction false} DecodeWithNewline(u: Text)
    ensures Decode(u + "\n") == Decode(u)
    decreases |u|
  {
    if u != [] {
      assert (u + "\n")[1..] == u[1..] + "\n";
      DecodeWithNewline(u[1..]);
      if |u| > 1 {
        assert (u + "\n")[2..] == u[2..] + "\n";
        DecodeWithNewline(u[2..]);
      }
    }
  }

  lemma KeyLineWithNewline(s: Text)
    ensures KeyLine(s + "\n") == KeyLine(s)
  {
    hide Span, LineEnd, Blanks, Decode, TrimEnd;
    var more := s + "\n";
    var eq := Span(s, '=', '\n');
    SpanWithNewline(s, '=');
    LineEndWithNewline(s);
    if eq < |s| && s[eq] == '=' {
      assert more[eq + 1..] == s[eq + 1..] + "\n" && more[..eq] == s[..eq];
      BlanksWithNewline(s[eq + 1..]);
      var v := ValueStart(s, eq);
      if v < |s| {
        ValueWithNewline(s, v);
      }
    }
  }

  lemma ValueWithNewline(s: Text, v: nat)
    requires v < |s|
    ensures Decode((s + "\n")[v + 1..]) == Decode(s[v + 1..])
    ensures
      var end := v + Span(s[v..], '\n', '\n');
      Span((s + "\n")[v..], '\n', '\n') == end - v && (s + "\n")[v..end] == s[v..end]
  {
    hide Span, Decode;
    assert (s + "\n")[v..] == s[v..] + "\n" && (s + "\n")[v + 1..] == s[v + 1..] + "\n";
    SpanWithNewline(s[v..], '\n');
    DecodeWithNewline(s[v + 1..]);
  }

  lemma FirstWithNewline(s: Text)
    requires s != []
    ensures First(s + "\n").item == First(s).item
    ensures First(s + "\n").length == First(s).length
            || (First(s).length == |s| && First(s + "\n").length == |s| + 1)
  {
    hide KeyLine, Span, LineEnd;
    SpanWithNewline(s, ']');
    LineEndWithNewline(s);
    KeyLineWithNewline(s);
    var k := Span(s, ']', '\n');
    assert k >= 1 && s[0] == '[' ==> (s + "\n")[1..k] == s[1..k];
    OpenBracketIsPassed(s);
  }

  lemma OpenBracketIsPassed(s: Text)
    requires s != []
    ensures s[0] == '[' ==> Span(s, ']', '\n') >= 1
  {
  }

  /** Whether the last line ends with a newline or with the text makes no difference. */
  lemma {:induction false} FinalNewlineSaysNothing(s: Text)
    ensures Items(s + "\n") == Items(s)
    decreases |s|
  {
    hide First;
    if s == [] {
      GapsSayNothing("\n", []);
      assert "\n" + [] == "\n" == [] + "\n";
    } else {
      FirstLength(s);
      FirstWithNewline(s);
      var n := First(s).length;
      if First(s + "\n").length == n {
        assert (s + "\n")[n..] == s[n..] + "\n";
        FinalNewlineSaysNothing(s[n..]);
      } else {
        assert (s + "\n")[n + 1..] == [] == s[n..];
      }
    }
  }

  /**
   * A pair written without a key shifts every later key and value: the text "=a", "b=c" gives b the
   * value c, but among the strings of the split text there is no b.
   */
  lemma PairWithoutKeyShiftsTheRest()
    ensures var lines := [Pair([], [], [], [], Plain("a"), []), Pair([], "b", [], [], Plain("c"), [])];
            && (forall line :: line in lines ==> WellFormed(line))
            && Lookup(MeaningOfAll(lines), None, "b", []) == Some("c")
            && Walk(Strings(Items(RenderAll(lines))), None, "b", []) == None
  {
    hide Walk, Lookup, Items, Strings, RenderAll;
    var nameless, named := Pair([], [], [], [], Plain("a"), []), Pair([], "b", [], [], Plain("c"), []);
    var lines := [nameless, named];
    ReadingUndoesWriting(lines);
    assert lines[1..] == [named] && [named][1..] == [];
    assert MeaningOfAll([named]) == [Entry("b", "c")];
    var items := [Entry([], "a"), Entry("b", "c")];
    assert MeaningOfAll(lines) == items;
    StringsOfExample();
    ExampleAnswers();
  }

  lemma ExampleAnswers()
    ensures Lookup([Entry([], "a"), Entry("b", "c")], None, "b", []) == Some("c")
    ensures Walk(["a", "b", "c"], None, "b", []) == None
  {
    DifferentNames();
    assert [Entry([], "a"), Entry("b", "c")][1..] == [Entry("b", "c")];
    assert ["a", "b", "c"][2..] == ["c"];
  }

  lemma StringsOfExample()
    ensures Strings([Entry([], "a"), Entry("b", "c")]) == ["a", "b", "c"]
  {
    StoredEntry("b", "c");
    PiecesOfString("a");
    StringsCons(Entry("b", "c"), []);
    StringsCons(Entry([], "a"), [Entry("b", "c")]);
    assert [Entry([], "a")] + [Entry("b", "c")] == [Entry([], "a"), Entry("b", "c")];
    assert [Entry("b", "c")] + [] == [Entry("b", "c")];
  }

  lemma DifferentNames()
    ensures !SameName("a", "b") && !SameName("c", "b") && !SameName([], "b") && SameName("b", "b")
  {
    assert Lower("a")[0] != Lower("b")[0] && Lower("c")[0] != Lower("b")[0];
    assert |Lower([])| != |Lower("b")|;
  }
}
