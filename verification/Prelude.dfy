/** Small notions several modules share. */
module Prelude {

  /** A value that may be absent: NULL, undefined, a missing key. */
  datatype Option<+T> = None | Some(value: T)

  ghost predicate Distinct<T>(xs: seq<T>) {
    forall i, j | 0 <= i < j < |xs| :: xs[i] != xs[j]
  }

  function Min(a: nat, b: nat): nat {
    if a < b then a else b
  }

  /** Where two sequences first part, or where one of them ends. */
  ghost predicate PartAt<T>(a: seq<T>, b: seq<T>, n: nat) {
    n <= |a| && n < |b| && a[..n] == b[..n] && (n < |a| ==> a[n] != b[n])
  }

  lemma PartLater<T>(a: seq<T>, b: seq<T>, n: nat)
    requires a != [] && b != [] && a[0] == b[0]
    ensures PartAt(a[1..], b[1..], n) <==> PartAt(a, b, n + 1)
    ensures !PartAt(a, b, 0)
  {
    if n <= |a[1..]| && n <= |b[1..]| {
      assert a[..n + 1] == [a[0]] + a[1..][..n] && b[..n + 1] == [b[0]] + b[1..][..n];
    }
  }

  lemma PartNow<T>(a: seq<T>, b: seq<T>, n: nat)
    requires b != [] && (a == [] || a[0] != b[0])
    ensures PartAt(a, b, n) <==> n == 0
  {
    if 0 < n <= |a| && n < |b| { assert a[..n][0] == a[0] && b[..n][0] == b[0]; }
  }

  /** A lower-case hexadecimal digit. */
  function Hex(d: nat): (unit: nat)
    requires d < 16
    ensures unit < 128
  {
    if d < 10 then 48 + d else 87 + d
  }
}
