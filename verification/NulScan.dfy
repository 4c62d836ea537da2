/**
  The escape-parity scan for an encoded NUL.  A byte match of the six-byte escape
  is live when an even run of backslashes precedes it.
*/
module NulScan {

  type Byte = b: nat | b < 256

  const BACKSLASH: Byte := 92

  /** \\u0000 as bytes */
  const NEEDLE: seq<Byte> := [92, 117, 48, 48, 48, 48]

  predicate MatchAt(data: seq<Byte>, pos: int) {
    0 <= pos && pos + 6 <= |data| && data[pos..pos + 6] == NEEDLE
  }

  /** The backslashes immediately before a position. */
  function Run(data: seq<Byte>, pos: nat): nat
    requires pos <= |data|
  {
    if pos > 0 && data[pos - 1] == BACKSLASH then Run(data, pos - 1) + 1 else 0
  }

  predicate Live(data: seq<Byte>, pos: int) {
    MatchAt(data, pos) && Run(data, pos) % 2 == 0
  }

  ghost predicate HasLive(data: seq<Byte>) {
    exists pos :: Live(data, pos)
  }

  // ----- the scan means what a lexer means -----

  /** Reading escapes left to right: does some escape spell NUL? */
  predicate Lex(s: seq<Byte>) {
    if s == [] then false
    else if s[0] != BACKSLASH then Lex(s[1..])
    else if NEEDLE <= s then true
    else if |s| == 1 then false
    else Lex(s[2..])
  }

  lemma MatchIsPrefix(data: seq<Byte>, p: nat)
    requires p <= |data|
    ensures MatchAt(data, p) <==> NEEDLE <= data[p..]
  {
    if NEEDLE <= data[p..] {
      assert data[p..][..6] == data[p..p + 6];
    }
  }

  /** From any position the lexer can stop at, the lexer and the parity rule agree. */
  lemma {:induction false} LexIsParity(data: seq<Byte>, p: nat)
    requires p <= |data| && Run(data, p) % 2 == 0
    ensures Lex(data[p..]) <==> exists pos :: p <= pos && Live(data, pos)
    decreases |data| - p
  {
    if p < |data| {
      MatchIsPrefix(data, p);
      if data[p] != BACKSLASH {
        assert data[p..][1..] == data[p + 1..];
        LexIsParity(data, p + 1);
      } else if MatchAt(data, p) {
        assert Live(data, p);
      } else if p + 1 < |data| {
        assert data[p..][2..] == data[p + 2..];
        assert Run(data, p + 1) == Run(data, p) + 1;
        LexIsParity(data, p + 2);
        assert !Live(data, p + 1);
      }
    }
  }

  /** On every byte string the parity rule answers as the lexer does. */
  lemma ParityIsLexing(data: seq<Byte>)
    ensures HasLive(data) <==> Lex(data)
  {
    assert data[0..] == data;
    LexIsParity(data, 0);
    if pos :| Live(data, pos) { assert 0 <= pos; }
  }

  // ----- the loops -----

  /** bytes.find: the first match at or after `from`, or -1. */
  method Find(data: seq<Byte>, from: nat) returns (pos: int)
    ensures pos == -1 || (from <= pos && MatchAt(data, pos))
    ensures pos == -1 ==> forall k | from <= k :: !MatchAt(data, k)
    ensures pos != -1 ==> forall k | from <= k < pos :: !MatchAt(data, k)
  {
    pos := from;
    while pos + 6 <= |data|
      invariant from <= pos
      invariant forall k | from <= k < pos :: !MatchAt(data, k)
    {
      if data[pos..pos + 6] == NEEDLE { return; }
      pos := pos + 1;
    }
    pos := -1;
  }

  lemma MatchByte(data: seq<Byte>, pos: nat, i: nat)
    requires MatchAt(data, pos) && i < 6
    ensures data[pos + i] == NEEDLE[i]
  {
    assert data[pos + i] == data[pos..pos + 6][i];
  }

  /** The needle cannot overlap itself. */
  lemma MatchesApart(data: seq<Byte>, p: nat, q: nat)
    requires MatchAt(data, p) && MatchAt(data, q) && p < q
    ensures p + 6 <= q
  {
    MatchByte(data, q, 0);
    if q < p + 6 { MatchByte(data, p, q - p); }
  }

  lemma {:induction false} RunStopsAt(data: seq<Byte>, stop: nat, q: nat)
    requires stop < q <= |data| && data[stop] != BACKSLASH
    ensures Run(data, q) <= q - stop - 1
  {
    if q > stop + 1 { RunStopsAt(data, stop, q - 1); }
  }

  /** The run before a match does not reach back into an earlier match. */
  lemma RunsDisjoint(data: seq<Byte>, p: nat, q: nat)
    requires MatchAt(data, p) && MatchAt(data, q) && p < q
    ensures Run(data, q) < q - p
  {
    MatchesApart(data, p, q);
    MatchByte(data, p, 1);
    RunStopsAt(data, p + 1, q);
  }

  /**
    The pure-Python scan.  `steps` counts the turns of the inner loop over the
    whole call: the runs before distinct matches are disjoint, so they stay
    within the length of the input.
  */
  method EncodedHasNul(data: seq<Byte>) returns (found: bool, ghost steps: nat)
    ensures found <==> HasLive(data)
    ensures steps <= |data|
  {
    steps := 0;
    ghost var last := -1;
    var pos := Find(data, 0);
    while pos != -1
      invariant pos == -1 || (last < pos && MatchAt(data, pos))
      invariant -1 <= last < |data| && steps <= last + 1 && (last >= 0 ==> MatchAt(data, last))
      invariant forall k | 0 <= k && (pos == -1 || k < pos) :: !Live(data, k)
      decreases if pos == -1 then 0 else |data| - pos
    {
      var backslashes := 0;
      var cursor := pos - 1;
      ghost var before := steps;
      while cursor >= 0 && data[cursor] == BACKSLASH
        invariant -1 <= cursor < pos && backslashes == pos - 1 - cursor
        invariant Run(data, pos) == backslashes + Run(data, cursor + 1)
        invariant steps == before + backslashes
      {
        backslashes := backslashes + 1;
        cursor := cursor - 1;
        steps := steps + 1;
      }
      if last >= 0 { RunsDisjoint(data, last, pos); } else { RunBound(data, pos); }
      if backslashes % 2 == 0 {
        assert Live(data, pos);
        return true, steps;
      }
      last := pos;
      pos := Find(data, pos + 1);
    }
    found := false;
  }

  lemma {:induction false} RunBound(data: seq<Byte>, pos: nat)
    requires pos <= |data|
    ensures Run(data, pos) <= pos
  {
    if pos > 0 { RunBound(data, pos - 1); }
  }

  method CountBackslashes(data: seq<Byte>, idx: nat) returns (n: nat)
    requires idx <= |data|
    ensures n == Run(data, idx)
  {
    n := 0;
    while idx - 1 - n >= 0 && data[idx - 1 - n] == BACKSLASH
      invariant n <= idx && Run(data, idx) == n + Run(data, idx - n)
    {
      n := n + 1;
    }
  }

  /** The variant that restarts six bytes after a match refuses the same inputs. */
  method RejectsNul(data: seq<Byte>) returns (raised: bool)
    ensures raised <==> HasLive(data)
  {
    var pos := Find(data, 0);
    while pos != -1
      invariant pos == -1 || MatchAt(data, pos)
      invariant forall k | 0 <= k && (pos == -1 || k < pos) :: !Live(data, k)
      decreases if pos == -1 then 0 else |data| - pos
    {
      var n := CountBackslashes(data, pos);
      if n % 2 == 0 {
        assert Live(data, pos);
        return true;
      }
      ghost var here := pos;
      pos := Find(data, pos + 6);
      forall k | 0 <= k && (pos == -1 || k < pos) ensures !Live(data, k) {
        if here < k < here + 6 && MatchAt(data, k) { MatchesApart(data, here, k); }
      }
    }
    raised := false;
  }
}
