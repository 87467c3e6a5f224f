/**
 * The comma-separated option string of "--capture" and the strtok(…, ",")
 * calls that split it (picapture.c:69-84, 108-120).  strtok keeps its
 * position in hidden state between calls; here that state is a Tokenizer
 * object whose position field each call advances.
 */
module Options {
  import opened Wrappers

  const Delimiter: char := ','

  /** The length of the token at the front of s: the characters before the first delimiter. */
  function Span(s: string): (n: nat)
    ensures n <= |s|
    ensures forall k :: 0 <= k < n ==> s[k] != Delimiter
    ensures n < |s| ==> s[n] == Delimiter
  {
    if s == [] || s[0] == Delimiter then 0 else 1 + Span(s[1..])
  }

  /**
   * The tokens successive strtok(…, ",") calls return for s, in order: the
   * maximal runs of characters other than the delimiter, so that runs of
   * delimiters, and delimiters at either end, produce no empty token.
   */
  function Tokens(s: string): seq<string>
    decreases |s|
  {
    if s == [] then []
    else if s[0] == Delimiter then Tokens(s[1..])
    else
      var n := Span(s);
      [s[..n]] + Tokens(s[n..])
  }

  /** A token as strtok returns it: non-empty and free of the delimiter. */
  predicate IsToken(t: string) {
    |t| >= 1 && Delimiter !in t
  }

  /** The tokens joined by single delimiters. */
  function Join(ts: seq<string>): string
  {
    if ts == [] then "" else if |ts| == 1 then ts[0] else ts[0] + [Delimiter] + Join(ts[1..])
  }

  /** Every token is non-empty and free of the delimiter. */
  lemma {:induction false} TokensAreTokens(s: string)
    ensures forall k :: 0 <= k < |Tokens(s)| ==> IsToken(Tokens(s)[k])
    decreases |s|
  {
    if s == [] {
    } else if s[0] == Delimiter {
      TokensAreTokens(s[1..]);
    } else {
      var n := Span(s);
      TokensAreTokens(s[n..]);
      assert Delimiter !in s[..n] by {
        forall k | 0 <= k < n ensures s[..n][k] != Delimiter { }
      }
    }
  }

  /** A run of non-delimiters ended by the end of s or by a delimiter is the front token's span. */
  lemma {:induction false} SpanIs(s: string, n: nat)
    requires n <= |s|
    requires forall k :: 0 <= k < n ==> s[k] != Delimiter
    requires n < |s| ==> s[n] == Delimiter
    ensures Span(s) == n
    decreases n
  {
    if n > 0 {
      SpanIs(s[1..], n - 1);
    }
  }

  /** A leading delimiter produces no token. */
  lemma SkipDelimiter(s: string)
    requires |s| >= 1 && s[0] == Delimiter
    ensures Tokens(s) == Tokens(s[1..])
  {
  }

  /** The token strtok finds at start, ended at end, and where the next call resumes. */
  lemma TokenAt(text: string, start: nat, end: nat)
    requires start < end <= |text|
    requires forall k :: start <= k < end ==> text[k] != Delimiter
    requires end < |text| ==> text[end] == Delimiter
    ensures end == |text| ==> Tokens(text[start..]) == [text[start..end]] + Tokens(text[end..])
    ensures end < |text| ==> Tokens(text[start..]) == [text[start..end]] + Tokens(text[end + 1..])
  {
    var s := text[start..];
    SpanIs(s, end - start);
    assert s[..end - start] == text[start..end];
    assert s[end - start..] == text[end..];
    if end < |text| {
      SkipDelimiter(text[end..]);
      assert text[end..][1..] == text[end + 1..];
    }
  }

  /** Splitting what Join glued together gives the tokens back. */
  lemma {:induction false} TokensOfJoin(ts: seq<string>)
    requires forall k :: 0 <= k < |ts| ==> IsToken(ts[k])
    ensures Tokens(Join(ts)) == ts
    decreases |ts|
  {
    if |ts| == 1 {
      var t := ts[0];
      SpanIs(t, |t|);
      assert t[..|t|] == t;
      assert t[|t|..] == [];
    } else if |ts| > 1 {
      var t := ts[0];
      var rest := Join(ts[1..]);
      var s := t + [Delimiter] + rest;
      assert forall k :: 0 <= k < |t| ==> s[k] == t[k];
      SpanIs(s, |t|);
      assert s[..|t|] == t;
      assert s[|t|..] == [Delimiter] + rest;
      SkipDelimiter(s[|t|..]);
      assert s[|t|..][1..] == rest;
      TokensOfJoin(ts[1..]);
    }
  }

  /** The state strtok keeps between calls for one option string. */
  class Tokenizer {
    const text: string
    var pos: nat

    ghost predicate Valid()
      reads this
    {
      pos <= |text|
    }

    /** The tokens later calls will return. */
    ghost function Remaining(): seq<string>
      reads this
      requires Valid()
    {
      Tokens(text[pos..])
    }

    /** strtok(text, …): the first call names the string; nothing has been consumed yet. */
    constructor (s: string)
      ensures Valid() && text == s && Remaining() == Tokens(s)
    {
      text := s;
      pos := 0;
    }

    /**
     * One strtok call: skip delimiters, return the run up to the next
     * delimiter or the end, and resume after that delimiter next time;
     * NULL (None) once only delimiters remain.
     */
    method Next() returns (token: Option<string>)
      requires Valid()
      modifies this
      ensures Valid()
      ensures old(Remaining()) == [] ==> token == None && Remaining() == []
      ensures old(Remaining()) != [] ==>
        token == Some(old(Remaining())[0]) && Remaining() == old(Remaining())[1..]
    {
      ghost var remaining := Tokens(text[pos..]);
      var i := pos;
      while i < |text| && text[i] == Delimiter
        invariant i <= |text|
        invariant Tokens(text[i..]) == remaining
      {
        SkipDelimiter(text[i..]);
        assert text[i..][1..] == text[i + 1..];
        i := i + 1;
      }
      if i == |text| {
        pos := i;
        return None;
      }
      var start := i;
      while i < |text| && text[i] != Delimiter
        invariant start <= i <= |text|
        invariant forall k :: start <= k < i ==> text[k] != Delimiter
      {
        i := i + 1;
      }
      TokenAt(text, start, i);
      token := Some(text[start..i]);
      if i < |text| {
        i := i + 1;
      }
      pos := i;
    }
  }
}
