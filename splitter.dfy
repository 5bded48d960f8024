/** Transcript splitting: `split_by_delimiter` cuts a pasted batch at every occurrence of
    the delimiter line, trims each piece and drops the pieces that are blank. */
module Splitter {
  import opened PyStr

  /** A line of exactly five dashes. */
  const DefaultDelimiter: string := "\n-----\n"

  /** `[p.strip() for p in segments]`. */
  function StripAll(segments: seq<string>): (r: seq<string>)
    ensures |r| == |segments| && forall i :: 0 <= i < |r| ==> r[i] == Strip(segments[i])
    decreases |segments|
  {
    if segments == [] then [] else [Strip(segments[0])] + StripAll(segments[1..])
  }

  /** `[p for p in parts if p]`. */
  function KeepNonEmpty(parts: seq<string>): (r: seq<string>)
    ensures forall i :: 0 <= i < |r| ==> r[i] != [] && r[i] in parts
    decreases |parts|
  {
    if parts == [] then []
    else if parts[0] == [] then KeepNonEmpty(parts[1..])
    else [parts[0]] + KeepNonEmpty(parts[1..])
  }

  /** `split_by_delimiter(text, delimiter)`: every transcript it returns is non-empty and
      is its own `strip()`. Python refuses an empty separator, so `delimiter` is not empty. */
  function SplitByDelimiter(text: string, delimiter: string): (r: seq<string>)
    requires delimiter != []
    ensures forall i :: 0 <= i < |r| ==> r[i] != [] && Strip(r[i]) == r[i]
  {
    var parts := StripAll(Split(text, delimiter));
    var r := KeepNonEmpty(parts);
    assert forall i :: 0 <= i < |r| ==> Strip(r[i]) == r[i] by {
      forall i | 0 <= i < |r| ensures Strip(r[i]) == r[i] {
        var j :| 0 <= j < |parts| && parts[j] == r[i];
        StripIdempotent(Split(text, delimiter)[j]);
      }
    }
    r
  }

  /** The number of segments that are not blank. */
  function CountNonBlank(segments: seq<string>): nat
    decreases |segments|
  {
    if segments == [] then 0
    else (if Strip(segments[0]) != [] then 1 else 0) + CountNonBlank(segments[1..])
  }

  /** `a` is `b` with some elements deleted and the rest kept in order. */
  predicate IsSubsequence<T(==)>(a: seq<T>, b: seq<T>)
    decreases |b|
  {
    if a == [] then true
    else if b == [] then false
    else if a[0] == b[0] then IsSubsequence(a[1..], b[1..])
    else IsSubsequence(a, b[1..])
  }

  lemma {:induction false} KeepNonEmptyOrder(segments: seq<string>)
    ensures IsSubsequence(KeepNonEmpty(StripAll(segments)), StripAll(segments))
    ensures |KeepNonEmpty(StripAll(segments))| == CountNonBlank(segments)
    decreases |segments|
  {
    if segments != [] {
      var tail := segments[1..];
      assert StripAll(segments) == [Strip(segments[0])] + StripAll(tail);
      assert StripAll(segments)[1..] == StripAll(tail);
      KeepNonEmptyOrder(tail);
      if Strip(segments[0]) != [] {
        assert KeepNonEmpty(StripAll(segments))[1..] == KeepNonEmpty(StripAll(tail));
      } else {
        assert IsSubsequence([], StripAll(tail));
        SubsequenceOfTail(KeepNonEmpty(StripAll(tail)), StripAll(segments));
      }
    }
  }

  lemma SubsequenceOfTail<T>(a: seq<T>, b: seq<T>)
    requires b != [] && IsSubsequence(a, b[1..])
    requires a == [] || a[0] != b[0]
    ensures IsSubsequence(a, b)
  {
  }

  /** The transcripts are the non-blank segments of `text.split(delimiter)`, each trimmed,
      in their original order and none missing: they form a subsequence of the trimmed
      segments, one for every segment that is not blank. */
  lemma SplitByDelimiterKeepsOrder(text: string, delimiter: string)
    requires delimiter != []
    ensures IsSubsequence(SplitByDelimiter(text, delimiter), StripAll(Split(text, delimiter)))
    ensures |SplitByDelimiter(text, delimiter)| == CountNonBlank(Split(text, delimiter))
  {
    KeepNonEmptyOrder(Split(text, delimiter));
  }

  /** Two chats with an empty chat between them give exactly the two chats. */
  lemma SplitExample()
    ensures SplitByDelimiter("Chat A text\n-----\n\n-----\nChat B text", DefaultDelimiter)
         == ["Chat A text", "Chat B text"]
  {
    var a, b := "Chat A text", "Chat B text";
    assert "Chat A text\n-----\n\n-----\nChat B text" == a + DefaultDelimiter + DefaultDelimiter + b;
    TwoChatsAroundBlank(a, b);
  }

  /** Two trimmed chats without line breaks, separated by two delimiters, give exactly
      the two chats. */
  lemma TwoChatsAroundBlank(a: string, b: string)
    requires a != [] && Trimmed(a) && forall i :: 0 <= i < |a| ==> a[i] != '\n'
    requires b != [] && Trimmed(b) && forall i :: 0 <= i < |b| ==> b[i] != '\n'
    ensures SplitByDelimiter(a + DefaultDelimiter + DefaultDelimiter + b, DefaultDelimiter) == [a, b]
  {
    var d := DefaultDelimiter;
    var pieces := [a, [], b];
    CutOfHead(a, d);
    CutOfHead([], d);
    FreeOfHead(b, d);
    assert SplitPieces(pieces, d);
    JoinCons([], [b], d);
    JoinCons(a, [[], b], d);
    assert pieces == [a] + [[], b];
    assert Join(pieces, d) == a + d + d + b;
    SplitJoin(pieces, d);
    KeepTrimmedChats(a, b);
  }

  lemma KeepTrimmedChats(a: string, b: string)
    requires a != [] && Trimmed(a) && b != [] && Trimmed(b)
    ensures KeepNonEmpty(StripAll([a, [], b])) == [a, b]
  {
    StripAllTrimmed(a, b);
    KeepAroundEmpty(a, b);
  }

  lemma StripAllTrimmed(a: string, b: string)
    requires Trimmed(a) && Trimmed(b)
    ensures StripAll([a, [], b]) == [a, [], b]
  {
    StripTrimmed(a);
    StripTrimmed(b);
    StripTrimmed([]);
    var r := StripAll([a, [], b]);
    assert r[0] == a && r[1] == [] && r[2] == b;
  }

  lemma KeepAroundEmpty(a: string, b: string)
    requires a != [] && b != []
    ensures KeepNonEmpty([a, [], b]) == [a, b]
  {
    assert [b][1..] == [];
    assert KeepNonEmpty([b]) == [b];
    assert [[], b][1..] == [b];
    assert KeepNonEmpty([[], b]) == [b];
    assert [a, [], b][1..] == [[], b];
  }
}
