/**
 Certificate fingerprints: how they are printed, parsed, and kept in the trust record.
 */
module Fingerprint {
  import opened Options
  import opened Text

  const DIGITS := 64

  predicate IsHex(c: char) {
    '0' <= c <= '9' || 'a' <= c <= 'f' || 'A' <= c <= 'F'
  }

  predicate IsUpperHex(c: char) {
    '0' <= c <= '9' || 'A' <= c <= 'F'
  }

  /** A fingerprint in normal form. */
  predicate IsDigest(h: string) {
    |h| == DIGITS && forall i :: 0 <= i < |h| ==> IsUpperHex(h[i])
  }

  function RemoveColons(s: string): (r: string)
    ensures forall i :: 0 <= i < |r| ==> r[i] != ':'
  {
    if s == "" then "" else (if s[0] == ':' then "" else [s[0]]) + RemoveColons(s[1..])
  }

  function UpperChar(c: char): char {
    if 'a' <= c <= 'z' then c - 'a' + 'A' else c
  }

  function ToUpper(s: string): string {
    seq(|s|, i requires 0 <= i < |s| => UpperChar(s[i]))
  }

  /** normalizeFingerprint; None is the error. */
  function Normalize(value: string): (r: Option<string>)
    ensures r.Some? ==> r.value == "" || (IsDigest(r.value) && |r.value| == 64)
  {
    if value == "" then Some("")
    else
      var normalized := ToUpper(RemoveColons(TrimSpace(value)));
      if |normalized| != DIGITS then None
      else if exists i :: 0 <= i < |normalized| && !IsHex(normalized[i]) then None
      else
        AllUpper(RemoveColons(TrimSpace(value)));
        Some(normalized)
  }

  lemma AllUpper(s: string)
    ensures forall i :: 0 <= i < |ToUpper(s)| && IsHex(ToUpper(s)[i]) ==> IsUpperHex(ToUpper(s)[i])
  {
  }

  /** Byte pairs joined by colons. */
  function Format(h: string): (s: string)
    requires |h| % 2 == 0
    decreases |h|
  {
    if |h| <= 2 then h else Format(h[..|h| - 2]) + ":" + h[|h| - 2..]
  }

  /** formatFingerprint: cut into pairs, then joined. */
  method FormatFingerprint(h: string) returns (s: string)
    requires |h| % 2 == 0
    ensures s == Format(h)
  {
    hide Join, Format;
    var parts: seq<string> := [];
    var index := 0;
    NothingToJoin();
    while index < |h|
      invariant 0 <= index <= |h| && index % 2 == 0
      invariant |parts| == index / 2
      invariant Join(parts) == Format(h[..index])
    {
      var pair := h[index..index + 2];
      JoinOneMore(parts, pair);
      FormatOneMore(h[..index], pair);
      assert h[..index + 2] == h[..index] + pair;
      parts := parts + [pair];
      index := index + 2;
    }
    assert h[..|h|] == h;
    s := Join(parts);
  }

  /** strings.Join with ":" */
  function Join(parts: seq<string>): string {
    if parts == [] then ""
    else if |parts| == 1 then parts[0]
    else Join(parts[..|parts| - 1]) + ":" + parts[|parts| - 1]
  }

  lemma NothingToJoin()
    ensures Join([]) == "" == Format("")
  {
  }

  lemma JoinOneMore(parts: seq<string>, last: string)
    ensures Join(parts + [last]) == if parts == [] then last else Join(parts) + ":" + last
  {
    assert (parts + [last])[..|parts|] == parts;
  }

  lemma FormatOneMore(h: string, pair: string)
    requires |h| % 2 == 0 && |pair| == 2
    ensures Format(h + pair) == if h == "" then pair else Format(h) + ":" + pair
  {
    assert (h + pair)[..|h|] == h && (h + pair)[|h|..] == pair;
  }

  // ---- what is accepted, and what is printed ----

  /** A digit in either case. */
  predicate SameDigit(c: char, digit: char) {
    c == digit || ('A' <= digit <= 'F' && c == digit - 'A' + 'a')
  }

  /** The text gives the digits of `h` in order, in either case, with colons anywhere. */
  predicate Spells(text: string, h: string) {
    if text == "" then h == ""
    else if text[0] == ':' then Spells(text[1..], h)
    else h != "" && SameDigit(text[0], h[0]) && Spells(text[1..], h[1..])
  }

  lemma {:induction false} SpellsExactly(text: string, h: string)
    requires forall i :: 0 <= i < |h| ==> IsUpperHex(h[i])
    ensures ToUpper(RemoveColons(text)) == h <==> Spells(text, h)
  {
    if text == "" {
    } else if text[0] == ':' {
      SpellsExactly(text[1..], h);
    } else {
      var c, rest := text[0], RemoveColons(text[1..]);
      assert RemoveColons(text) == [c] + rest;
      UpperOneMore(c, rest);
      if h != "" {
        SpellsExactly(text[1..], h[1..]);
        assert h == [h[0]] + h[1..];
        assert UpperChar(c) == h[0] <==> SameDigit(c, h[0]);
      }
    }
  }

  lemma UpperOneMore(c: char, rest: string)
    ensures ToUpper([c] + rest) == [UpperChar(c)] + ToUpper(rest)
  {
  }

  /** A fingerprint is accepted in exactly its spellings, with blanks around them. */
  lemma NormalizeExactly(text: string, h: string)
    requires IsDigest(h)
    ensures Normalize(text) == Some(h) <==> Spells(TrimSpace(text), h)
  {
    SpellsExactly(TrimSpace(text), h);
  }

  /** The `i`-th character of the print: every third is a colon, the others are the digits in order. */
  predicate PrintedAt(s: string, h: string, i: nat)
    requires i < |s| && 2 * |s| <= 3 * |h|
  {
    s[i] == if i % 3 == 2 then ':' else h[i / 3 * 2 + i % 3]
  }

  lemma PrintedAtKept(s: string, h: string, last: string, i: nat)
    requires i < |s| && 2 * |s| <= 3 * |h| && |last| == 2 && PrintedAt(s, h, i)
    ensures PrintedAt(s + ":" + last, h + last, i)
  {
    assert (s + ":" + last)[i] == s[i];
  }

  lemma PrintedAtEnd(s: string, h: string, last: string, n: nat)
    requires |h| == 2 * n && |s| == 3 * n - 1 && |last| == 2
    ensures forall i :: 3 * n - 1 <= i < 3 * n + 2 ==> PrintedAt(s + ":" + last, h + last, i)
  {
    assert (s + ":" + last)[3 * n - 1] == ':';
    assert (s + ":" + last)[3 * n] == (h + last)[2 * n];
    assert (s + ":" + last)[3 * n + 1] == (h + last)[2 * n + 1];
  }

  /** Pairs of digits with a colon between them. */
  lemma {:induction false} FormatShape(h: string)
    requires |h| % 2 == 0 && h != ""
    ensures |Format(h)| == |h| / 2 * 3 - 1
    ensures forall i :: 0 <= i < |Format(h)| ==> PrintedAt(Format(h), h, i)
    decreases |h|
  {
    if |h| == 2 {
    } else {
      hide PrintedAt, Format;
      var init, last := h[..|h| - 2], h[|h| - 2..];
      assert h == init + last;
      FormatShape(init);
      FormatOneMore(init, last);
      PrintedAtEnd(Format(init), init, last, |init| / 2);
      forall i | 0 <= i < |Format(h)| ensures PrintedAt(Format(h), h, i) {
        if i < |Format(init)| {
          PrintedAtKept(Format(init), init, last, i);
        }
      }
    }
  }

  // ---- print, then parse ----

  lemma {:induction false} RemoveColonsConcat(a: string, b: string)
    ensures RemoveColons(a + b) == RemoveColons(a) + RemoveColons(b)
  {
    if a == "" {
      assert a + b == b;
    } else {
      assert (a + b)[1..] == a[1..] + b;
      RemoveColonsConcat(a[1..], b);
    }
  }

  lemma {:induction false} NoColonsToRemove(s: string)
    requires forall i :: 0 <= i < |s| ==> s[i] != ':'
    ensures RemoveColons(s) == s
  {
    if s == "" {
    } else {
      NoColonsToRemove(s[1..]);
    }
  }

  lemma ColonAlone()
    ensures RemoveColons(":") == ""
  {
    assert ":"[1..] == "";
  }

  lemma ColonJoinsDigits(s: string, last: string)
    requires forall i :: 0 <= i < |last| ==> last[i] != ':'
    ensures RemoveColons(s + ":" + last) == RemoveColons(s) + last
  {
    hide RemoveColons;
    NoColonsToRemove(last);
    RemoveColonsConcat(s + ":", last);
    RemoveColonsConcat(s, ":");
    ColonAlone();
  }

  lemma {:induction false} FormatKeepsDigits(h: string)
    requires |h| % 2 == 0 && forall i :: 0 <= i < |h| ==> h[i] != ':'
    ensures RemoveColons(Format(h)) == h
    decreases |h|
  {
    if |h| <= 2 {
      NoColonsToRemove(h);
    } else {
      var init, last := h[..|h| - 2], h[|h| - 2..];
      FormatKeepsDigits(init);
      ColonJoinsDigits(Format(init), last);
      assert h == init + last;
    }
  }

  predicate IsPrinted(s: string) {
    forall i :: 0 <= i < |s| ==> IsUpperHex(s[i]) || s[i] == ':'
  }

  lemma PrintedOneMore(s: string, last: string)
    requires IsPrinted(s) && IsPrinted(last)
    ensures IsPrinted(s + ":" + last)
  {
  }

  lemma {:induction false} FormatAlphabet(h: string)
    requires |h| % 2 == 0 && IsPrinted(h)
    ensures IsPrinted(Format(h))
    ensures |h| <= |Format(h)|
    ensures h != "" ==> Format(h)[|Format(h)| - 1] == h[|h| - 1]
    decreases |h|
  {
    if |h| <= 2 {
    } else {
      hide Format, IsPrinted;
      var init, last := h[..|h| - 2], h[|h| - 2..];
      assert h == init + last;
      PrintedParts(init, last);
      FormatAlphabet(init);
      FormatOneMore(init, last);
      PrintedOneMore(Format(init), last);
    }
  }

  lemma PrintedParts(a: string, b: string)
    requires IsPrinted(a + b)
    ensures IsPrinted(a) && IsPrinted(b)
  {
    assert forall i :: 0 <= i < |a| ==> (a + b)[i] == a[i];
    assert forall i :: 0 <= i < |b| ==> (a + b)[|a| + i] == b[i];
  }

  lemma NothingToTrim(s: string)
    requires forall i :: 0 <= i < |s| ==> !IsSpace(s[i])
    ensures TrimSpace(s) == s
    ensures s != "" ==> TrimSpace(s + "\n") == s
  {
  }

  lemma UpperIsUpper(h: string)
    requires forall i :: 0 <= i < |h| ==> IsUpperHex(h[i])
    ensures ToUpper(h) == h
  {
  }

  /** What is printed for a fingerprint parses back to it. */
  lemma FormatThenNormalize(h: string)
    requires IsDigest(h)
    ensures Normalize(Format(h)) == Some(h)
  {
    FormatKeepsDigits(h);
    FormatAlphabet(h);
    NothingToTrim(Format(h));
    UpperIsUpper(h);
  }

  // ---- the trust record ----

  function Record(h: string): string
    requires IsDigest(h)
  {
    Format(h) + "\n"
  }

  /** readTrustRecord on a file's contents; None is the error. */
  function ReadRecord(contents: string): (r: Option<string>)
    ensures r.Some? ==> IsDigest(r.value)
  {
    var r := Normalize(TrimSpace(contents));
    if r.None? || r.value == "" then None else r
  }

  /** A record cut short anywhere reads as the fingerprint that was being written, or not at all. */
  lemma TruncatedRecord(h: string, n: nat)
    requires IsDigest(h) && n <= |Record(h)|
    ensures ReadRecord(Record(h)[..n]) == Some(h) || ReadRecord(Record(h)[..n]) == None
    ensures n == |Record(h)| ==> ReadRecord(Record(h)[..n]) == Some(h)
  {
    hide Normalize;
    var full := Format(h);
    FormatThenNormalize(h);
    FormatAlphabet(h);
    NothingToTrim(full);
    if n >= |full| {
      assert Record(h)[..n] == full || Record(h)[..n] == full + "\n";
    } else {
      assert Record(h)[..n] == full[..n];
      NothingToTrim(full[..n]);
      CutIsRejected(h, n);
    }
  }

  /** Fewer characters than were printed hold fewer than 64 digits. */
  lemma CutIsRejected(h: string, n: nat)
    requires IsDigest(h) && n < |Format(h)|
    ensures Normalize(Format(h)[..n]) in {Some(""), None}
  {
    var part, rest := Format(h)[..n], Format(h)[n..];
    FormatKeepsDigits(h);
    FormatAlphabet(h);
    assert Format(h) == part + rest;
    RemoveColonsConcat(part, rest);
    LastCharKept(rest);
    NothingToTrim(part);
  }

  lemma {:induction false} LastCharKept(s: string)
    requires s != "" && s[|s| - 1] != ':'
    ensures RemoveColons(s) != ""
  {
    RemoveColonsConcat(s[..|s| - 1], [s[|s| - 1]]);
    assert s == s[..|s| - 1] + [s[|s| - 1]];
    NoColonsToRemove([s[|s| - 1]]);
  }
}
