/** White space, as Go's strings.TrimSpace sees it, and lengths in bytes. */
module Text {
  /** unicode.IsSpace */
  predicate IsSpace(c: char) {
    || '\t' <= c <= '\r' || c == ' ' || c == '\U{0085}' || c == '\U{00A0}' || c == '\U{1680}'
    || '\U{2000}' <= c <= '\U{200A}' || c == '\U{2028}' || c == '\U{2029}' || c == '\U{202F}'
    || c == '\U{205F}' || c == '\U{3000}'
  }

  predicate Blank(s: string) {
    forall i :: 0 <= i < |s| ==> IsSpace(s[i])
  }

  function TrimLeft(s: string): (t: string)
    ensures t == "" || !IsSpace(t[0])
  {
    if s == "" || !IsSpace(s[0]) then s else TrimLeft(s[1..])
  }

  function TrimRight(s: string): (t: string)
    ensures t == "" || !IsSpace(t[|t| - 1])
    ensures t <= s
  {
    if s == "" || !IsSpace(s[|s| - 1]) then s else TrimRight(s[..|s| - 1])
  }

  function TrimSpace(s: string): string {
    TrimRight(TrimLeft(s))
  }

  /** Trimming empties exactly the blank strings. */
  lemma {:induction false} TrimmedBlank(s: string)
    ensures TrimSpace(s) == "" <==> Blank(s)
  {
    if s == "" {
    } else if IsSpace(s[0]) {
      TrimmedBlank(s[1..]);
      assert s == [s[0]] + s[1..];
    } else {
      TrimRightKeepsFirst(s);
    }
  }

  lemma {:induction false} TrimRightKeepsFirst(s: string)
    requires s != "" && !IsSpace(s[0])
    ensures TrimRight(s) != ""
  {
    if !IsSpace(s[|s| - 1]) {
    } else {
      TrimRightKeepsFirst(s[..|s| - 1]);
    }
  }

  lemma {:induction false} TrimLeftStrips(before: string, rest: string)
    requires Blank(before) && (rest == "" || !IsSpace(rest[0]))
    ensures TrimLeft(before + rest) == rest
  {
    if before == "" {
      assert before + rest == rest;
    } else {
      assert (before + rest)[1..] == before[1..] + rest;
      TrimLeftStrips(before[1..], rest);
    }
  }

  lemma {:induction false} TrimRightStrips(rest: string, after: string)
    requires Blank(after) && (rest == "" || !IsSpace(rest[|rest| - 1]))
    ensures TrimRight(rest + after) == rest
  {
    if after == "" {
      assert rest + after == rest;
    } else {
      var init := after[..|after| - 1];
      assert (rest + after)[..|rest + after| - 1] == rest + init;
      TrimRightStrips(rest, init);
    }
  }

  /** Trimming strips the blanks around a text, and nothing of the text. */
  lemma TrimSpaceStrips(before: string, text: string, after: string)
    requires Blank(before) && Blank(after)
    requires text != "" && !IsSpace(text[0]) && !IsSpace(text[|text| - 1])
    ensures TrimSpace(before + text + after) == text
  {
    assert before + text + after == before + (text + after);
    TrimLeftStrips(before, text + after);
    TrimRightStrips(text, after);
  }

  // ---- lengths ----

  /** The bytes of a character in UTF-8. */
  function Width(c: char): (w: nat)
    ensures 1 <= w <= 4
  {
    var point := c as int;
    if point < 0x80 then 1 else if point < 0x800 then 2 else if point < 0x1_0000 then 3 else 4
  }

  /** Go's len of a string. */
  function ByteLength(s: string): (n: nat)
    ensures |s| <= n
  {
    if s == "" then 0 else Width(s[0]) + ByteLength(s[1..])
  }

  /** The least number of bytes whose free bits (7, then 5 + 6, 4 + 12, 3 + 18) hold the code point. */
  lemma WidthIsLeast(c: char)
    ensures Width(c) == 1 <==> (c as int) < 128
    ensures Width(c) <= 2 <==> (c as int) < 32 * 64
    ensures Width(c) <= 3 <==> (c as int) < 16 * 64 * 64
  {
  }

  /** Lengths add up over any cut. */
  lemma {:induction false} LengthOfConcat(a: string, b: string)
    ensures ByteLength(a + b) == ByteLength(a) + ByteLength(b)
    ensures |a| == 1 ==> ByteLength(a) == Width(a[0])
  {
    if a == "" {
      assert a + b == b;
    } else {
      assert (a + b)[1..] == a[1..] + b;
      LengthOfConcat(a[1..], b);
    }
  }

  lemma {:induction false} AsciiLength(s: string)
    requires forall i :: 0 <= i < |s| ==> s[i] < '\U{0080}'
    ensures ByteLength(s) == |s|
  {
    if s == "" {
    } else {
      AsciiLength(s[1..]);
    }
  }
}
