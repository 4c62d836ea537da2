/**
  Integer-index keys are numbers: the decimal numerals of 0 to 2^32 - 2 as
  Number::toString prints them (section 6.1.7 of ECMA-262 2024), in numeric order.
*/
module IndexKeys {
  import opened Prelude
  import opened JsPrint
  import opened Canonical

  predicate Digits(k: Str) {
    forall i | 0 <= i < |k| :: 48 <= k[i] <= 57
  }

  /** The number a run of digits stands for. */
  function Number(k: Str): nat
    requires Digits(k)
  {
    if k == [] then 0 else Number(k[..|k| - 1]) * 10 + (k[|k| - 1] - 48)
  }

  /** The numeral of a number: no leading zero. */
  function Numeral(n: nat): Str {
    if n < 10 then [48 + n] else Numeral(n / 10) + [48 + n % 10]
  }

  lemma {:induction false} NumeralReads(n: nat)
    ensures Numeral(n) != [] && Digits(Numeral(n)) && Number(Numeral(n)) == n
    ensures Numeral(n)[0] == 48 <==> n == 0
    ensures n > 0 || |Numeral(n)| == 1
  {
    if n < 10 {
      assert Numeral(n)[..0] == [] && Number([]) == 0;
    } else {
      NumeralReads(n / 10);
      assert Numeral(n)[..|Numeral(n)| - 1] == Numeral(n / 10);
    }
  }

  /** Digits without a leading zero. */
  predicate Proper(k: Str) {
    k != [] && Digits(k) && (k[0] == 48 ==> |k| == 1)
  }

  lemma {:induction false} ProperIsNumeral(k: Str)
    requires Proper(k)
    ensures Numeral(Number(k)) == k
    ensures |k| > 1 ==> Number(k) >= 10
  {
    var init, d := k[..|k| - 1], k[|k| - 1] - 48;
    if |k| == 1 {
      assert init == [] && Number(k) == d && [48 + d] == k;
    } else {
      ProperIsNumeral(init);
      if |init| == 1 { assert init[..0] == []; }
      var n := Number(k);
      assert n / 10 == Number(init) && n % 10 == d;
      assert k == init + [48 + d];
    }
  }

  /** Between numerals of one length the first different digit decides. */
  lemma {:induction false} LexAppend(a: Str, b: Str, x: CodeUnit, y: CodeUnit)
    requires |a| == |b|
    ensures Lex(a + [x], b + [y]) <==> Lex(a, b) || (a == b && x < y)
  {
    if a == [] {
      assert a + [x] == [x] && b + [y] == [y] && [x][1..] == [] && [y][1..] == [];
    } else {
      assert (a + [x])[1..] == a[1..] + [x] && (b + [y])[1..] == b[1..] + [y];
      LexAppend(a[1..], b[1..], x, y);
      assert a == [a[0]] + a[1..] && b == [b[0]] + b[1..];
    }
  }

  lemma {:induction false} LexIsNumeric(a: Str, b: Str)
    requires |a| == |b| && Digits(a) && Digits(b)
    ensures Lex(a, b) <==> Number(a) < Number(b)
    ensures a == b <==> Number(a) == Number(b)
  {
    if a != [] {
      var n := |a| - 1;
      LexIsNumeric(a[..n], b[..n]);
      LexAppend(a[..n], b[..n], a[n], b[n]);
      assert a == a[..n] + [a[n]] && b == b[..n] + [b[n]];
    }
  }

  /** A longer numeral is a larger number. */
  lemma {:induction false} LongerIsLarger(a: Str, b: Str)
    requires Proper(a) && Proper(b) && |a| < |b|
    ensures Number(a) < Number(b)
  {
    ProperIsNumeral(b);
    if |a| == 1 {
      assert a[..0] == [] && Number(a) == a[0] - 48;
    } else {
      LongerIsLarger(a[..|a| - 1], b[..|b| - 1]);
    }
  }

  lemma MaxIndexIs()
    ensures Proper(MAX_INDEX) && Number(MAX_INDEX) == 4294967294
  {
    var k := MAX_INDEX;
    assert k[..9][8] == 57 && k[..9][..8][7] == 50 && k[..9][..8][..7][6] == 55;
    assert Number(k[..1]) == 4 by { assert k[..1][..0] == []; }
    assert Number(k[..2]) == 42 by { assert k[..2][..1] == k[..1]; }
    assert Number(k[..3]) == 429 by { assert k[..3][..2] == k[..2]; }
    assert Number(k[..4]) == 4294 by { assert k[..4][..3] == k[..3]; }
    assert Number(k[..5]) == 42949 by { assert k[..5][..4] == k[..4]; }
    assert Number(k[..6]) == 429496 by { assert k[..6][..5] == k[..5]; }
    assert Number(k[..7]) == 4294967 by { assert k[..7][..6] == k[..6]; }
    assert Number(k[..8]) == 42949672 by { assert k[..8][..7] == k[..7]; }
    assert Number(k[..9]) == 429496729 by { assert k[..9][..8] == k[..8]; }
  }

  lemma ProperOrder(a: Str, b: Str)
    requires Proper(a) && Proper(b)
    ensures IndexLess(a, b) <==> Number(a) < Number(b)
  {
    if |a| < |b| {
      LongerIsLarger(a, b);
    } else if |b| < |a| {
      LongerIsLarger(b, a);
    } else {
      LexIsNumeric(a, b);
    }
  }

  /** An index key is the numeral of a number below 2^32 - 1. */
  lemma IndexIff(k: Str)
    ensures IsIndex(k) <==> Digits(k) && Number(k) < 4294967295 && k == Numeral(Number(k))
  {
    if Digits(k) && k == Numeral(Number(k)) { NumeralReads(Number(k)); }
    if Proper(k) {
      ProperIsNumeral(k);
      MaxIndexIs();
      ProperOrder(MAX_INDEX, k);
    }
  }

  /** ... and index keys come in numeric order. */
  lemma IndexOrder(a: Str, b: Str)
    requires IsIndex(a) && IsIndex(b)
    ensures KeyBefore(a, b) <==> Number(a) < Number(b)
  {
    ProperOrder(a, b);
  }

  /** The other keys come after them, by their first different code unit, a prefix first. */
  lemma {:induction false} LexIff(a: Str, b: Str)
    ensures Lex(a, b) <==> exists n: nat :: PartAt(a, b, n) && (n == |a| || a[n] < b[n])
  {
    if b != [] {
      if a == [] || a[0] != b[0] {
        PartNow(a, b, 0);
        if n: nat :| PartAt(a, b, n) && (n == |a| || a[n] < b[n]) { PartNow(a, b, n); }
      } else {
        LexIff(a[1..], b[1..]);
        PartLater(a, b, 0);
        if n: nat :| PartAt(a[1..], b[1..], n) && (n == |a[1..]| || a[1..][n] < b[1..][n]) { PartLater(a, b, n); }
        if n: nat :| PartAt(a, b, n) && (n == |a| || a[n] < b[n]) { PartLater(a, b, n - 1); }
      }
    }
  }
}
