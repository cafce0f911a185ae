/** The INI parser as it is built: the text is split in place into NUL-terminated strings. */
module IniBuffer {
  import opened Options
  import opened IniText
  import opened IniSteps

  class Ini {
    var data: array<char>
    var end: nat

    /** The buffer holds the text and a terminating NUL. */
    ghost predicate Valid()
      reads this, data
    {
      data.Length == end + 1 && data[end] == NUL
    }

    ghost function Contents(): Text
      reads this, data
      requires Valid()
    {
      data[..end]
    }

    /** Loads a text and splits it. */
    constructor Load(content: Text)
      ensures Valid() && fresh(data)
      ensures Pieces(Contents()) == Strings(Items(content))
    {
      data := new char[|content| + 1](i requires 0 <= i <= |content| => if i < |content| then content[i] else NUL);
      end := |content|;
      new;
      assert data[..end] == content;
      SplitData();
    }

    /** Overwrites the blanks that end at p, going backwards. */
    method TrimBack(p: int)
      requires Valid() && -1 <= p < end
      modifies data
      ensures Valid()
      ensures data[..] == Trimmed(old(data[..p + 1])) + old(data[p + 1..])
    {
      ghost var was := data[..];
      var q := p;
      while q >= 0 && IsBlank(data[q])
        invariant -1 <= q <= p
        invariant data[..] == was[..q + 1] + Nuls(p - q) + was[p + 1..]
        invariant Trimmed(was[..p + 1]) == Trimmed(was[..q + 1]) + Nuls(p - q)
      {
        assert data[q] == was[q];
        TrimStepBack(was, q, p);
        NulStepBack(was, q, p);
        data[q] := NUL;
        q := q - 1;
      }
      assert q >= 0 ==> data[q] == was[q];
      assert Trimmed(was[..q + 1]) == was[..q + 1];
    }

    /** Overwrites the rest of the line. */
    method DiscardLine(p: nat) returns (q: nat)
      requires Valid() && p <= end
      modifies data
      ensures Valid()
      ensures q == p + LineEnd(old(data[..])[p..end]) && q <= end
      ensures data[..] == old(data[..])[..p] + Nuls(q - p) + old(data[..])[q..]
    {
      hide LineEnd, Overwritten;
      ghost var was := data[..];
      q := p;
      NothingOverwritten(was, p);
      while q < end && data[q] != '\n'
        invariant p <= q <= end
        invariant Overwritten(data[..], was, p, q)
        invariant LineEnd(was[p..end]) == q - p + LineEnd(was[q..end])
      {
        StaysBehind(data[..], was, p, q, q);
        LineEndAt(was, q, end);
        ghost var before := data[..];
        data[q] := NUL;
        assert data[..] == before[q := NUL];
        OneMoreOverwritten(before, was, p, q);
        q := q + 1;
      }
      StaysBehind(data[..], was, p, q, q);
      StaysBehind(data[..], was, p, q, end);
      LineEndAt(was, q, end);
      OverwrittenIs(data[..], was, p, q);
    }

    /** Decodes the quoted string at p over itself; q is where the decoded text ends. */
    method UnescapeQuotedValue(p: nat) returns (q: nat)
      requires Valid() && p < end && data[p] == '"'
      modifies data
      ensures Valid()
      ensures q == p + |Decode(old(data[..])[p + 1..end])| && q < end
      ensures data[..] == old(data[..])[..p] + Decode(old(data[..])[p + 1..end]) + old(data[..])[q..]
    {
      hide Decode, DecodeFrom, DecodedUpTo;
      ghost var was := data[..];
      ghost var all := DecodeFrom(was, p + 1, end);
      q := p;
      var r := p + 1;
      NothingDecoded(was, p, all);
      while r < end && data[r] != '"' && data[r] != '\r' && data[r] != '\n'
        invariant p <= q < r <= end
        invariant q - p <= |all| && all[q - p..] == DecodeFrom(was, r, end)
        invariant DecodedUpTo(data[..], was, p, q, all)
      {
        DecodeFromStep(was, r, end);
        StillThere(data[..], was, p, q, all, r);
        StillThere(data[..], was, p, q, all, r + 1);
        var c := data[r];
        if c == '\\' {
          r := r + 1;
          c := data[r];
          if c == '\r' || c == '\n' || c == NUL {
            assert q - p == |all|;
            break;
          }
          c := Unescaped(c);
        }
        OneMore(all, q - p, c, DecodeFrom(was, r + 1, end));
        ghost var before := data[..];
        data[q] := c;
        assert data[..] == before[q := c];
        OneMoreDecoded(before, was, p, q, all, c);
        q, r := q + 1, r + 1;
      }
      DecodeFromStep(was, r, end);
      StillThere(data[..], was, p, q, all, r);
      StillThere(data[..], was, p, q, all, end);
      assert q - p == |all|;
      DecodeByPosition(was, p + 1, end);
      DecodedIsAssembled(data[..], was, p, q, all);
    }

    /** Overwrites '=' and the blanks behind it; v is where the value starts. */
    method OverwriteGap(eq: nat) returns (v: nat)
      requires Valid() && eq < end && !IsBlank(data[end])
      modifies data
      ensures Valid()
      ensures v == AfterEquals(old(data[..]), eq, end)
      ensures data[..] == old(data[..])[..eq] + Nuls(v - eq) + old(data[..])[v..]
    {
      hide Blanks, Overwritten;
      ghost var was := data[..];
      NothingOverwritten(was, eq);
      data[eq] := NUL;
      assert data[..] == was[eq := NUL];
      OneMoreOverwritten(was, was, eq, eq);
      v := eq + 1;
      StaysBehind(data[..], was, eq, v, end);
      while IsBlank(data[v])
        invariant eq < v <= end && !IsBlank(was[end]) && data[end] == was[end]
        invariant Overwritten(data[..], was, eq, v)
        invariant AfterEquals(was, eq, end) == v + Blanks(was[v..end])
        decreases end - v
      {
        StaysBehind(data[..], was, eq, v, v);
        BlanksAt(was, v, end);
        ghost var before := data[..];
        data[v] := NUL;
        assert data[..] == before[v := NUL];
        OneMoreOverwritten(before, was, eq, v);
        v := v + 1;
      }
      StaysBehind(data[..], was, eq, v, v);
      BlanksAt(was, v, end);
      OverwrittenIs(data[..], was, eq, v);
    }

    /** Cuts off the key at p, whose '=' is at eq. */
    method CutKey(p: nat, eq: nat) returns (v: nat)
      requires Valid() && AtKey(data[..], p, end)
      requires eq == KeyEnd(data[..], p, end) && data[eq] == '='
      modifies data
      ensures Valid()
      ensures v == AfterEquals(old(data[..]), eq, end)
      ensures data[..] == Keyed(old(data[..]), p, eq, v)
    {
      hide Span, ValueStart, Blanks, LineEnd, Decode, TrimEnd, Items, First, Pieces, Strings;
      ghost var was := data[..];
      KeyShape(was, p, end);
      KeyIsTrimmed(was, p, eq);
      TrimBack(eq - 1);
      ghost var trimmed := data[..];
      assert trimmed[eq + 1..end] == was[eq + 1..end] && trimmed[end] == was[end];
      v := OverwriteGap(eq);
      CutKeyText(was, trimmed, p, eq, v);
    }

    /** The line at p, which is neither blank nor a header nor a comment. */
    method SplitLine(p: nat) returns (q: nat)
      requires Valid() && AtKey(data[..], p, end)
      modifies data
      ensures Valid()
      ensures q <= end && Advanced(old(data[..]), data[..], p, q, end)
    {
      hide Span, ValueStart, Blanks, LineEnd, Decode, TrimEnd, Items, First, Pieces, Strings;
      var eq := p + Span(data[p..end], '=', '\n');
      assert data[..][p..end] == data[p..end];
      KeyShape(data[..], p, end);
      if data[eq] != '=' {
        LineWithoutKey(data[..], p, end);
        q := Discard(p, data[..]);
      } else {
        ghost var was := data[..];
        var v := CutKey(p, eq);
        assert data[v] == was[v] by { KeyedShape(was, p, eq, v, end); assert was[v..][0] == data[v]; }
        if data[v] == '\n' || data[v] == NUL {
          LineWithoutValue(was, p, end);
          KeyedShape(was, p, eq, v, end);
          q := Discard(p, was);
        } else if data[v] == '"' {
          q := SplitQuoted(p, eq, v, was);
        } else {
          q := SplitPlain(p, eq, v, was);
        }
      }
    }

    /** Drops the line at p, of which nothing behind its end has been touched yet. */
    method Discard(p: nat, ghost was: Text) returns (q: nat)
      requires Valid() && |was| == data.Length && p < end && was[end] == NUL
      requires data[..][..p] == was[..p] && LineEnd(data[..][p..end]) == LineEnd(was[p..end])
      requires data[..][p + LineEnd(was[p..end])..] == was[p + LineEnd(was[p..end])..]
      requires AtBorder(was, p, end) && was[p] != '\n' && First(was[p..end]) == Statement(None, LineEnd(was[p..end]))
      modifies data
      ensures Valid()
      ensures q <= end && Advanced(was, data[..], p, q, end)
    {
      hide Span, ValueStart, Blanks, LineEnd, Decode, TrimEnd, Items, First, Pieces, Strings;
      q := DiscardLine(p);
      DiscardAdvances(was, data[..], p, end);
    }

    method SplitPlain(p: nat, eq: nat, v: nat, ghost was: Text) returns (q: nat)
      requires Valid() && |was| == data.Length && AtValue(was, p, eq, v, end)
      requires data[..] == Keyed(was, p, eq, v) && !StopsString(was, v, end) && was[v] != '"'
      modifies data
      ensures Valid()
      ensures q <= end && Advanced(was, data[..], p, q, end)
    {
      hide Span, Blanks, LineEnd, TrimEnd, Keyed, Advanced, KeyEnd, AfterEquals;
      KeyShape(was, p, end);
      KeyedShape(was, p, eq, v, end);
      q := v + Span(data[v..end], '\n', '\n');
      assert data[v..end] == was[v..end] by { assert data[v..] == was[v..]; }
      PlainShape(was, v, q, end);
      TrimBack(q - 1);
      PlainAdvances(was, data[..], p, eq, v, q, end);
    }

    method SplitQuoted(p: nat, eq: nat, v: nat, ghost was: Text) returns (q: nat)
      requires Valid() && |was| == data.Length && AtValue(was, p, eq, v, end)
      requires data[..] == Keyed(was, p, eq, v) && v < end && was[v] == '"'
      modifies data
      ensures Valid()
      ensures q <= end && Advanced(was, data[..], p, q, end)
    {
      hide Span, Blanks, LineEnd, TrimEnd, Decode, First, Keyed, Advanced, KeyEnd, AfterEquals;
      hide Items, Pieces, Strings, Nuls;
      ghost var keyed := data[..];
      QuoteIsThere(was, keyed, p, eq, v, end);
      var r := UnescapeQuotedValue(v);
      ghost var decoded := data[..];
      if r == v {
        EmptyQuoted(was, keyed, decoded, p, eq, v, end);
        q := Discard(p, was);
      } else {
        q := DiscardLine(r);
        FullQuoted(was, keyed, decoded, data[..], p, eq, v, q, end);
      }
    }

    /** The statement at p. */
    method SplitStatement(p: nat) returns (q: nat)
      requires Valid() && p < end && AtBorder(data[..], p, end)
      modifies data
      ensures Valid()
      ensures q <= end && Advanced(old(data[..]), data[..], p, q, end)
    {
      hide Span, ValueStart, Blanks, LineEnd, Decode, TrimEnd, Items, First, Pieces, Strings;
      ghost var was := data[..];
      if IsGap(data[p]) {
        GapAdvances(was, p, end);
        data[p] := NUL;
        q := p + 1;
      } else if data[p] == '[' {
        HeaderAdvances(was, p, end);
        assert data[p..end] == was[p..end];
        q := p + Span(data[p..end], ']', '\n');
        data[q] := NUL;
      } else if data[p] == ';' {
        CommentLine(was[p..end]);
        q := Discard(p, was);
      } else {
        q := SplitLine(p);
      }
    }

    /** Splits the whole buffer: afterwards it holds exactly the strings of the statements of the text. */
    method SplitData()
      requires Valid()
      modifies data
      ensures Valid()
      ensures Pieces(Contents()) == Strings(Items(old(Contents())))
    {
      var p := 0;
      while p < end
        invariant 0 <= p <= end
        invariant Valid() && AtBorder(data[..], p, end)
        invariant Pieces(data[..p]) + Strings(Items(data[p..end])) == Strings(Items(old(data[..end])))
      {
        ghost var was := data[..];
        var q := SplitStatement(p);
        AdvancedInBuffer(was, data, p, q, end);
        p := q;
      }
    }
  }

  lemma SameTail(now: Text, was: Text, v: nat, end: nat)
    requires v < end < |was| == |now| && now[v..] == was[v..]
    ensures now[v] == was[v] && now[v + 1..end] == was[v + 1..end]
  {
    assert now[v..][0] == was[v..][0];
    assert now[v..][1..end - v] == was[v..][1..end - v];
  }

  lemma QuoteIsThere(was: Text, keyed: Text, p: nat, eq: nat, v: nat, end: nat)
    requires |was| == end + 1 && AtValue(was, p, eq, v, end) && v < end && was[v] == '"'
    requires keyed == Keyed(was, p, eq, v)
    ensures |keyed| == |was| && keyed[v] == '"' && keyed[v + 1..end] == was[v + 1..end] && keyed[v..] == was[v..]
    ensures keyed[..p] == was[..p] && LineEnd(keyed[p..end]) == LineEnd(was[p..end])
    ensures v + |Decode(was[v + 1..end])| < p + LineEnd(was[p..end])
    ensures p + LineEnd(was[p..end]) == v + LineEnd(was[v..end])
  {
    hide Span, Blanks, LineEnd, TrimEnd, Decode, Keyed, KeyEnd, AfterEquals;
    KeyedShape(was, p, eq, v, end);
    SameTail(keyed, was, v, end);
    QuotedLineEnd(was, v, end);
  }

  /** A value of which nothing is left after decoding: the line can still be dropped as it is. */
  lemma EmptyQuoted(was: Text, keyed: Text, decoded: Text, p: nat, eq: nat, v: nat, end: nat)
    requires |was| == end + 1 && AtValue(was, p, eq, v, end) && v < end && was[v] == '"'
    requires keyed == Keyed(was, p, eq, v) && |keyed| == |was|
    requires Decode(was[v + 1..end]) == []
    requires decoded == keyed[..v] + Decode(was[v + 1..end]) + keyed[v..]
    ensures decoded[..p] == was[..p] && LineEnd(decoded[p..end]) == LineEnd(was[p..end])
    ensures
      var n := LineEnd(was[p..end]);
      p + n <= |was| && decoded[p + n..] == was[p + n..] && First(was[p..end]) == Statement(None, n)
  {
    hide Span, Blanks, LineEnd, TrimEnd, Decode, First, Keyed, KeyEnd, AfterEquals;
    QuoteIsThere(was, keyed, p, eq, v, end);
    NothingInserted(keyed, v, Decode(was[v + 1..end]));
    LineWithQuotes(was, p, end);
    LineEndStops(was[p..end]);
    LaterTail(keyed, was, v, p + LineEnd(was[p..end]));
  }

  /** A value that was decoded, and the rest of the line overwritten. */
  lemma FullQuoted(was: Text, keyed: Text, decoded: Text, now: Text, p: nat, eq: nat, v: nat, q: nat, end: nat)
    requires |was| == end + 1 && AtValue(was, p, eq, v, end) && v < end && was[v] == '"'
    requires keyed == Keyed(was, p, eq, v) && |keyed| == |was|
    requires
      var value := Decode(was[v + 1..end]);
      var r := v + |value|;
      && value != [] && r < end && decoded == keyed[..v] + value + keyed[r..] && |decoded| == |was|
      && r <= q <= end && q == r + LineEnd(decoded[r..end])
      && now == decoded[..r] + Nuls(q - r) + decoded[q..]
    ensures q <= end && Advanced(was, now, p, q, end)
  {
    hide Span, Blanks, LineEnd, TrimEnd, Decode, First, Keyed, Advanced, KeyEnd, AfterEquals;
    var value := Decode(was[v + 1..end]);
    QuoteIsThere(was, keyed, p, eq, v, end);
    DecodedTail(was, keyed, v, value, end);
    QuotedLineEnd(was, v, end);
    QuotedAdvances(was, now, p, eq, v, value, q, end);
  }

  lemma NothingInserted(text: Text, v: nat, value: Text)
    requires v <= |text| && value == []
    ensures text[..v] + value + text[v..] == text
  {
  }

  lemma LaterTail(now: Text, was: Text, v: nat, q: nat)
    requires v <= q <= |was| == |now| && now[v..] == was[v..]
    ensures now[q..] == was[q..]
  {
    assert now[v..][q - v..] == was[v..][q - v..];
  }

  /** NULs lie between p and q, and the rest is as it was. */
  ghost predicate Overwritten(now: Text, was: Text, p: nat, q: nat) {
    && |now| == |was| && p <= q <= |was|
    && (forall i :: 0 <= i < p || q <= i < |was| ==> now[i] == was[i])
    && (forall i :: p <= i < q ==> now[i] == NUL)
  }

  lemma NothingOverwritten(was: Text, p: nat)
    requires p <= |was|
    ensures Overwritten(was, was, p, p)
  {
  }

  lemma StaysBehind(now: Text, was: Text, p: nat, q: nat, i: nat)
    requires Overwritten(now, was, p, q)
    ensures |now| == |was| && (q <= i < |was| ==> now[i] == was[i])
  {
  }

  lemma OneMoreOverwritten(now: Text, was: Text, p: nat, q: nat)
    requires Overwritten(now, was, p, q) && q < |was|
    ensures |now| == |was| && Overwritten(now[q := NUL], was, p, q + 1)
  {
  }

  lemma OverwrittenIs(now: Text, was: Text, p: nat, q: nat)
    requires Overwritten(now, was, p, q)
    ensures p <= q <= |was| && now == was[..p] + Nuls(q - p) + was[q..]
  {
    Assembled(now, was, p, Nuls(q - p));
  }

  /** The decoded text lies between p and q, and the rest is as it was. */
  ghost predicate DecodedUpTo(now: Text, was: Text, p: nat, q: nat, all: Text) {
    && |now| == |was| && p <= q <= |was| && q - p <= |all|
    && (forall i :: 0 <= i < p || q <= i < |was| ==> now[i] == was[i])
    && (forall i :: 0 <= i < q - p ==> now[p + i] == all[i])
  }

  lemma NothingDecoded(was: Text, p: nat, all: Text)
    requires p <= |was|
    ensures DecodedUpTo(was, was, p, p, all)
  {
  }

  lemma StillThere(now: Text, was: Text, p: nat, q: nat, all: Text, i: nat)
    requires DecodedUpTo(now, was, p, q, all)
    ensures |now| == |was| && (q <= i < |was| ==> now[i] == was[i])
  {
  }

  lemma OneMoreDecoded(now: Text, was: Text, p: nat, q: nat, all: Text, c: char)
    requires DecodedUpTo(now, was, p, q, all) && q < |was| && q - p < |all| && all[q - p] == c
    ensures DecodedUpTo(now[q := c], was, p, q + 1, all)
  {
  }

  lemma DecodedIsAssembled(now: Text, was: Text, p: nat, q: nat, all: Text)
    requires DecodedUpTo(now, was, p, q, all) && q - p == |all|
    ensures now == was[..p] + all + was[q..]
  {
  }

  lemma AdvancedInBuffer(was: Text, data: array<char>, p: nat, q: nat, end: nat)
    requires data.Length == |was| && Advanced(was, data[..], p, q, end)
    ensures Pieces(data[..q]) + Strings(Items(data[q..end])) == Pieces(was[..p]) + Strings(Items(was[p..end]))
  {
    AdvancedKeepsStrings(was, data[..], p, q, end);
    assert data[..][..q] == data[..q] && data[..][q..end] == data[q..end];
  }
}
