/** The parts of Python's `str` that the pipeline relies on: `strip()`, `split(sep)`,
    `sep.join(items)`, the substring test `a in b`, and `str(n)` for a natural number. */
module PyStr {

  /** `c.isspace()` in Python 3: the characters whose bidirectional class is WS, B or S,
      or whose general category is Zs. */
  predicate IsSpace(c: char) {
    ('\t' <= c <= '\r') || ('\U{1C}' <= c <= '\U{1F}') || c == ' ' || c == '\U{85}' || c == '\U{A0}'
    || c == '\U{1680}' || ('\U{2000}' <= c <= '\U{200A}') || c == '\U{2028}' || c == '\U{2029}'
    || c == '\U{202F}' || c == '\U{205F}' || c == '\U{3000}'
  }

  predicate AllSpace(s: string) {
    forall i :: 0 <= i < |s| ==> IsSpace(s[i])
  }

  /** Neither end of `s` is whitespace (vacuously true of the empty string). */
  predicate Trimmed(s: string) {
    s == [] || (!IsSpace(s[0]) && !IsSpace(s[|s| - 1]))
  }

  /** How many whitespace characters `s` starts with (what `s.lstrip()` drops). */
  function LeadingSpace(s: string): (n: nat)
    ensures n <= |s|
    ensures forall i :: 0 <= i < n ==> IsSpace(s[i])
    ensures n < |s| ==> !IsSpace(s[n])
    decreases |s|
  {
    if s != [] && IsSpace(s[0]) then 1 + LeadingSpace(s[1..]) else 0
  }

  /** How many whitespace characters `s` ends with (what `s.rstrip()` drops). */
  function TrailingSpace(s: string): (n: nat)
    ensures n <= |s|
    ensures forall i :: |s| - n <= i < |s| ==> IsSpace(s[i])
    ensures n < |s| ==> !IsSpace(s[|s| - n - 1])
    decreases |s|
  {
    if s != [] && IsSpace(s[|s| - 1]) then 1 + TrailingSpace(s[..|s| - 1]) else 0
  }

  /** `s.strip()`: neither end of the result is whitespace. */
  function Strip(s: string): (r: string)
    ensures Trimmed(r)
  {
    var t := s[LeadingSpace(s)..];
    t[..|t| - TrailingSpace(t)]
  }

  /** `s` is some whitespace, then `s.strip()`, then some whitespace. */
  lemma StripIsInfix(s: string) returns (i: nat)
    ensures i + |Strip(s)| <= |s| && Strip(s) == s[i..i + |Strip(s)|]
    ensures AllSpace(s[..i]) && AllSpace(s[i + |Strip(s)|..])
  {
    i := LeadingSpace(s);
    var t := s[i..];
    var r := Strip(s);
    assert s[i + |r|..] == t[|t| - TrailingSpace(t)..];
  }

  /** A string that is already trimmed is left alone by `strip()`. */
  lemma StripTrimmed(s: string)
    requires Trimmed(s)
    ensures Strip(s) == s
  {
  }

  /** `strip()` is idempotent. */
  lemma StripIdempotent(s: string)
    ensures Strip(Strip(s)) == Strip(s)
  {
    StripTrimmed(Strip(s));
  }

  /** `not s.strip()` holds exactly when every character of `s` is whitespace. */
  lemma {:induction false} StripEmptyIff(s: string)
    ensures Strip(s) == [] <==> AllSpace(s)
  {
    var r := Strip(s);
    var i := StripIsInfix(s);
    if r == [] {
      forall k | 0 <= k < |s| ensures IsSpace(s[k]) {
        if k < i { assert s[k] == s[..i][k]; } else { assert s[k] == s[i..][k - i]; }
      }
    } else {
      assert r[0] == s[i];
    }
  }

  /** The delimiter `d` starts at position `i` of `s`. */
  predicate OccursAt(s: string, d: string, i: int) {
    0 <= i && i + |d| <= |s| && s[i..i + |d|] == d
  }

  /** `d` does not occur anywhere in `s`. */
  predicate Free(s: string, d: string) {
    forall i :: 0 <= i <= |s| ==> !OccursAt(s, d, i)
  }

  /** `p` is what a left-to-right scan for `d` cuts off before an occurrence of `d`: the
      first occurrence of `d` in `p + d` is the one at position `|p|`. */
  predicate Cut(p: string, d: string) {
    forall i :: 0 <= i < |p| ==> !OccursAt(p + d, d, i)
  }

  /** `text.split(d)` for a non-empty separator: the pieces between leftmost,
      non-overlapping occurrences of `d`. */
  function Split(text: string, d: string): (r: seq<string>)
    requires d != []
    ensures |r| >= 1
    decreases |text|
  {
    if |text| < |d| then [text]
    else if text[..|d|] == d then [[]] + Split(text[|d|..], d)
    else
      var rest := Split(text[1..], d);
      [[text[0]] + rest[0]] + rest[1..]
  }

  /** `sep.join(items)`. */
  function Join(items: seq<string>, sep: string): (r: string)
    decreases |items|
  {
    if items == [] then []
    else if |items| == 1 then items[0]
    else items[0] + sep + Join(items[1..], sep)
  }

  lemma JoinCons(p: string, items: seq<string>, sep: string)
    requires items != []
    ensures Join([p] + items, sep) == p + sep + Join(items, sep)
  {
    assert ([p] + items)[1..] == items;
  }

  /** Splitting a string whose first occurrence of `d` follows `a` yields `a` and then the
      pieces of what comes after that occurrence. */
  lemma {:induction false} SplitAfterCut(a: string, d: string, rest: string)
    requires d != [] && Cut(a, d)
    ensures Split(a + d + rest, d) == [a] + Split(rest, d)
    decreases |a|
  {
    var t := a + d + rest;
    if a == [] {
      assert t[..|d|] == d && t[|d|..] == rest;
    } else {
      assert t[..|d|] == (a + d)[..|d|];
      assert !OccursAt(a + d, d, 0);
      forall i | 0 <= i < |a[1..]| ensures !OccursAt(a[1..] + d, d, i) {
        assert (a[1..] + d)[i..] == (a + d)[i + 1..];
        assert !OccursAt(a + d, d, i + 1);
      }
      SplitAfterCut(a[1..], d, rest);
      assert t[1..] == a[1..] + d + rest;
      assert [t[0]] + a[1..] == a;
    }
  }

  /** A string without `d` is not split. */
  lemma {:induction false} SplitFree(s: string, d: string)
    requires d != [] && Free(s, d)
    ensures Split(s, d) == [s]
    decreases |s|
  {
    if |s| >= |d| {
      assert !OccursAt(s, d, 0);
      forall i | 0 <= i <= |s[1..]| ensures !OccursAt(s[1..], d, i) {
        assert !OccursAt(s, d, i + 1);
      }
      SplitFree(s[1..], d);
      assert [s[0]] + s[1..] == s;
    }
  }

  /** The pieces a split may produce: every piece but the last is cut at the first
      occurrence of `d`, and the last contains no `d`. */
  predicate SplitPieces(pieces: seq<string>, d: string) {
    |pieces| >= 1 && Free(pieces[|pieces| - 1], d)
    && forall k :: 0 <= k < |pieces| - 1 ==> Cut(pieces[k], d)
  }

  /** `split` is the inverse of `join` on the pieces a split may produce. */
  lemma {:induction false} SplitJoin(pieces: seq<string>, d: string)
    requires d != [] && SplitPieces(pieces, d)
    ensures Split(Join(pieces, d), d) == pieces
    decreases |pieces|
  {
    if |pieces| == 1 {
      SplitFree(pieces[0], d);
    } else {
      var tail := pieces[1..];
      assert pieces == [pieces[0]] + tail;
      assert SplitPieces(tail, d) by {
        assert tail[|tail| - 1] == pieces[|pieces| - 1];
        forall k | 0 <= k < |tail| - 1 ensures Cut(tail[k], d) { assert tail[k] == pieces[k + 1]; }
      }
      JoinCons(pieces[0], tail, d);
      SplitAfterCut(pieces[0], d, Join(tail, d));
      SplitJoin(tail, d);
    }
  }

  /** `join` is the inverse of `split`, and the pieces of a split are the ones described by
      `SplitPieces`. */
  lemma JoinSplit(text: string, d: string)
    requires d != []
    ensures Join(Split(text, d), d) == text
    ensures SplitPieces(Split(text, d), d)
  {
    JoinOfSplit(text, d);
    PiecesOfSplit(text, d);
  }

  lemma {:induction false} JoinOfSplit(text: string, d: string)
    requires d != []
    ensures Join(Split(text, d), d) == text
    decreases |text|
  {
    if |text| < |d| {
    } else if text[..|d|] == d {
      var rest := text[|d|..];
      JoinOfSplit(rest, d);
      assert Split(text, d) == [[]] + Split(rest, d);
      JoinCons([], Split(rest, d), d);
      assert text == [] + d + rest;
    } else {
      JoinOfSplit(text[1..], d);
      JoinGrowsHead(text[0], Split(text[1..], d), d);
      assert text == [text[0]] + text[1..];
    }
  }

  /** Prefixing a character to the first piece prefixes it to the joined string. */
  lemma JoinGrowsHead(c: char, pieces: seq<string>, d: string)
    requires pieces != []
    ensures Join([[c] + pieces[0]] + pieces[1..], d) == [c] + Join(pieces, d)
  {
    var p := [c] + pieces[0];
    if |pieces| > 1 {
      var tail := pieces[1..];
      assert pieces == [pieces[0]] + tail;
      JoinCons(pieces[0], tail, d);
      JoinCons(p, tail, d);
    }
  }

  lemma {:induction false} PiecesOfSplit(text: string, d: string)
    requires d != []
    ensures SplitPieces(Split(text, d), d)
    decreases |text|
  {
    if |text| < |d| {
      assert Split(text, d) == [text];
      forall i | 0 <= i <= |text| ensures !OccursAt(text, d, i) { }
    } else if text[..|d|] == d {
      var rest := text[|d|..];
      PiecesOfSplit(rest, d);
      assert Split(text, d) == [[]] + Split(rest, d);
      assert Cut([], d);
      PiecesCons([], Split(rest, d), d);
    } else {
      PiecesOfSplit(text[1..], d);
      JoinOfSplit(text[1..], d);
      PiecesInside(text, d);
    }
  }

  /** The step of `PiecesOfSplit` where `text` does not start with `d`: its first
      character joins the first piece of the rest. */
  lemma PiecesInside(text: string, d: string)
    requires d != [] && |text| >= |d| && text[..|d|] != d
    requires Join(Split(text[1..], d), d) == text[1..]
    requires SplitPieces(Split(text[1..], d), d)
    ensures SplitPieces(Split(text, d), d)
  {
    var rest := Split(text[1..], d);
    var p := [text[0]] + rest[0];
    assert Split(text, d) == [p] + rest[1..];
    if |rest| == 1 {
      PiecesInsideLast(text, d, rest);
    } else {
      PiecesInsideMore(text, d, rest);
    }
  }

  lemma PiecesInsideLast(text: string, d: string, rest: seq<string>)
    requires d != [] && |text| >= |d| && text[..|d|] != d
    requires |rest| == 1 && Join(rest, d) == text[1..] && SplitPieces(rest, d)
    ensures SplitPieces([[text[0]] + rest[0]] + rest[1..], d)
  {
    assert rest[0] == text[1..];
    assert [text[0]] + rest[0] == text;
    LastPieceFree(text, d);
    assert [[text[0]] + rest[0]] + rest[1..] == [text];
  }

  lemma PiecesInsideMore(text: string, d: string, rest: seq<string>)
    requires d != [] && |text| >= |d| && text[..|d|] != d
    requires |rest| > 1 && Join(rest, d) == text[1..] && SplitPieces(rest, d)
    ensures SplitPieces([[text[0]] + rest[0]] + rest[1..], d)
  {
    var tail := rest[1..];
    assert rest == [rest[0]] + tail;
    JoinCons(rest[0], tail, d);
    assert Cut(rest[0], d);
    FirstPieceCut(text, rest[0], d, Join(tail, d));
    PiecesTail(rest, d);
    PiecesCons([text[0]] + rest[0], tail, d);
  }

  lemma PiecesCons(p: string, pieces: seq<string>, d: string)
    requires Cut(p, d) && SplitPieces(pieces, d)
    ensures SplitPieces([p] + pieces, d)
  {
    var r := [p] + pieces;
    assert r[|r| - 1] == pieces[|pieces| - 1];
    forall k | 0 <= k < |r| - 1 ensures Cut(r[k], d) {
      if k > 0 { assert r[k] == pieces[k - 1]; }
    }
  }

  lemma PiecesTail(pieces: seq<string>, d: string)
    requires |pieces| >= 2 && SplitPieces(pieces, d)
    ensures SplitPieces(pieces[1..], d)
  {
    var t := pieces[1..];
    assert t[|t| - 1] == pieces[|pieces| - 1];
    forall k | 0 <= k < |t| - 1 ensures Cut(t[k], d) {
      assert t[k] == pieces[k + 1];
    }
  }

  /** An occurrence past the first character is an occurrence in the rest. */
  lemma OccursShift(s: string, d: string, i: int)
    requires s != [] && 0 < i
    ensures OccursAt(s, d, i) <==> OccursAt(s[1..], d, i - 1)
  {
    if i + |d| <= |s| {
      assert s[i..i + |d|] == s[1..][i - 1..i - 1 + |d|];
    }
  }

  lemma LastPieceFree(text: string, d: string)
    requires d != [] && |text| >= |d| && text[..|d|] != d && Free(text[1..], d)
    ensures Free(text, d)
  {
    forall i | 0 <= i <= |text| ensures !OccursAt(text, d, i) {
      if 0 < i {
        OccursShift(text, d, i);
      }
    }
  }

  lemma FirstPieceCut(text: string, q: string, d: string, more: string)
    requires d != [] && |text| >= |d| && text[..|d|] != d
    requires Cut(q, d) && text[1..] == q + d + more
    ensures Cut([text[0]] + q, d)
  {
    var p := [text[0]] + q;
    assert text == p + d + more by { assert text == [text[0]] + text[1..]; }
    forall i | 0 <= i < |p| ensures !OccursAt(p + d, d, i) {
      if i == 0 {
        assert text[..|d|] == (p + d)[..|d|];
      } else {
        assert (p + d)[1..] == q + d;
        OccursShift(p + d, d, i);
      }
    }
  }

  /** A string in which the first character of `d` never appears contains no `d`... */
  lemma FreeOfHead(s: string, d: string)
    requires d != [] && forall i :: 0 <= i < |s| ==> s[i] != d[0]
    ensures Free(s, d)
  {
    forall i | 0 <= i <= |s| ensures !OccursAt(s, d, i) {
      if i + |d| <= |s| { assert s[i..i + |d|][0] == s[i]; }
    }
  }

  /** ...and is cut at the occurrence of `d` that follows it. */
  lemma CutOfHead(s: string, d: string)
    requires d != [] && forall i :: 0 <= i < |s| ==> s[i] != d[0]
    ensures Cut(s, d)
  {
    forall i | 0 <= i < |s| ensures !OccursAt(s + d, d, i) {
      assert (s + d)[i..i + |d|][0] == s[i];
    }
  }

  /** `needle in haystack` for two strings: a substring test. */
  predicate IsSubstring(needle: string, haystack: string) {
    exists i :: 0 <= i <= |haystack| && OccursAt(haystack, needle, i)
  }

  function DigitChar(n: nat): char
    requires n < 10
  {
    "0123456789"[n]
  }

  /** `str(n)` for a natural number: its decimal digits. */
  function NatToString(n: nat): (r: string)
    ensures |r| >= 1
    ensures forall i :: 0 <= i < |r| ==> '0' <= r[i] <= '9'
  {
    if n < 10 then [DigitChar(n)] else NatToString(n / 10) + [DigitChar(n % 10)]
  }

  /** The number a string of decimal digits spells, most significant digit first. */
  function DigitsValue(s: string): nat
    requires forall i :: 0 <= i < |s| ==> '0' <= s[i] <= '9'
    decreases |s|
  {
    if s == [] then 0
    else DigitsValue(s[..|s| - 1]) * 10 + (s[|s| - 1] as int - '0' as int)
  }

  /** `str(n)` spells `n` in decimal, with no leading zero unless `n` is zero. */
  lemma {:induction false} NatToStringValue(n: nat)
    ensures DigitsValue(NatToString(n)) == n
    ensures NatToString(n)[0] == '0' ==> n == 0
    decreases n
  {
    DigitCharValue(n % 10);
    if n >= 10 {
      NatToStringValue(n / 10);
      var r := NatToString(n);
      assert r[..|r| - 1] == NatToString(n / 10);
      assert r[0] == NatToString(n / 10)[0];
      assert n == n / 10 * 10 + n % 10;
    }
  }

  /** Each digit character spells its own value. */
  lemma DigitCharValue(k: nat)
    requires k < 10
    ensures DigitChar(k) as int - '0' as int == k
  {
    assert "0123456789"[k] as int == '0' as int + k;
  }
}
