/**
  SQL's `ORDER BY ... LIMIT n` and `ROW_NUMBER() OVER (ORDER BY ...)` on a finite
  set of rows.  A row's number is one more than the number of rows sorted before
  it, and `LIMIT n` keeps the rows numbered at most n.
*/
module Ranking {
  import opened Prelude

  /** `lt` orders the rows of `s`: irreflexive, transitive and total on them. */
  ghost predicate StrictTotal<T>(s: set<T>, lt: (T, T) -> bool) {
    && (forall x | x in s :: !lt(x, x))
    && (forall x, y, z | x in s && y in s && z in s && lt(x, y) && lt(y, z) :: lt(x, z))
    && (forall x, y | x in s && y in s && x != y :: lt(x, y) || lt(y, x))
  }

  function Ahead<T(==)>(s: set<T>, lt: (T, T) -> bool, x: T): set<T> {
    set y | y in s && lt(y, x)
  }

  function RowNumber<T(==)>(s: set<T>, lt: (T, T) -> bool, x: T): nat {
    |Ahead(s, lt, x)| + 1
  }

  function Limit<T(==)>(s: set<T>, lt: (T, T) -> bool, n: nat): set<T> {
    set x | x in s && RowNumber(s, lt, x) <= n
  }

  lemma SubsetSize<T>(a: set<T>, b: set<T>)
    requires a <= b
    ensures |a| <= |b|
    ensures |a| == |b| ==> a == b
  {
    assert b == a + (b - a);
  }

  /** Row numbers follow the order strictly. */
  lemma RowNumberMonotone<T>(s: set<T>, lt: (T, T) -> bool, x: T, y: T)
    requires StrictTotal(s, lt) && x in s && y in s && lt(x, y)
    ensures RowNumber(s, lt, x) < RowNumber(s, lt, y)
  {
    assert x in Ahead(s, lt, y) && x !in Ahead(s, lt, x);
    SubsetSize(Ahead(s, lt, x), Ahead(s, lt, y));
  }

  lemma {:induction false} LastRow<T>(s: set<T>, lt: (T, T) -> bool) returns (m: T)
    requires StrictTotal(s, lt) && s != {}
    ensures m in s && Ahead(s, lt, m) == s - {m}
    decreases |s|
  {
    var x :| x in s;
    m := x;
    if s != {x} {
      var k := LastRow(s - {x}, lt);
      assert forall y | y in s && y != x && y != k :: y in Ahead(s - {x}, lt, k);
      if lt(x, k) { m := k; }
    }
  }

  /** LIMIT n keeps n rows, or all of them when there are fewer. */
  lemma {:induction false} LimitSize<T>(s: set<T>, lt: (T, T) -> bool, n: nat)
    requires StrictTotal(s, lt)
    ensures |Limit(s, lt, n)| == if n < |s| then n else |s|
    decreases |s|
  {
    if s != {} {
      var m := LastRow(s, lt);
      var rest := s - {m};
      LimitSize(rest, lt, n);
      forall x | x in rest ensures Ahead(rest, lt, x) == Ahead(s, lt, x) {
        assert x in Ahead(s, lt, m);
      }
      assert RowNumber(s, lt, m) == |s|;
      if |s| <= n {
        assert Limit(s, lt, n) == Limit(rest, lt, n) + {m};
      } else {
        assert Limit(s, lt, n) == Limit(rest, lt, n);
      }
    }
  }

  lemma FirstRow<T>(s: set<T>, lt: (T, T) -> bool, n: nat) returns (m: T)
    requires StrictTotal(s, lt) && s != {} && n >= 1
    ensures m in s && m in Limit(s, lt, n)
  {
    LimitSize(s, lt, n);
    assert Limit(s, lt, n) != {};
    m :| m in Limit(s, lt, n);
  }

  /** ... and it keeps a prefix: nothing dropped sorts before anything kept. */
  lemma LimitPrefix<T>(s: set<T>, lt: (T, T) -> bool, n: nat, x: T, y: T)
    requires StrictTotal(s, lt) && x in Limit(s, lt, n) && y in s && lt(y, x)
    ensures y in Limit(s, lt, n)
  {
    RowNumberMonotone(s, lt, y, x);
  }

  /** A dropped row has the whole kept prefix, n rows of it, sorted before it. */
  lemma DroppedRow<T>(s: set<T>, lt: (T, T) -> bool, n: nat, x: T)
    requires StrictTotal(s, lt) && x in s && x !in Limit(s, lt, n)
    ensures Limit(s, lt, n) <= Ahead(s, lt, x) && |Limit(s, lt, n)| == n
  {
    forall y | y in Limit(s, lt, n) ensures lt(y, x) {
      if lt(x, y) { LimitPrefix(s, lt, n, y, x); }
    }
    LimitSize(s, lt, n);
    SubsetSize(Ahead(s, lt, x), s - {x});
  }

  /** Cutting a subset that still holds the first n rows gives the same n rows. */
  lemma LimitOfWindow<T>(s: set<T>, t: set<T>, lt: (T, T) -> bool, n: nat)
    requires StrictTotal(s, lt) && t <= s && Limit(s, lt, n) <= t
    ensures Limit(t, lt, n) == Limit(s, lt, n)
  {
    forall x | x in t ensures x in Limit(t, lt, n) <==> x in Limit(s, lt, n) {
      if x in Limit(s, lt, n) {
        forall y | y in Ahead(s, lt, x) ensures y in t { LimitPrefix(s, lt, n, x, y); }
        assert Ahead(t, lt, x) == Ahead(s, lt, x);
      } else {
        DroppedRow(s, lt, n, x);
        SubsetSize(Limit(s, lt, n), Ahead(t, lt, x));
      }
    }
  }

  /** A LIMIT of a LIMIT is the smaller LIMIT. */
  lemma LimitOfLimit<T>(s: set<T>, lt: (T, T) -> bool, n: nat, m: nat)
    requires StrictTotal(s, lt)
    ensures Limit(Limit(s, lt, n), lt, m) == Limit(s, lt, Min(n, m))
  {
    var cut := Limit(s, lt, n);
    if m <= n {
      LimitOfWindow(s, cut, lt, m);
    } else {
      LimitSize(s, lt, n);
      LimitOfFew(cut, lt, m);
    }
  }

  /** LIMIT one short of everything cuts the last row and no other. */
  lemma CutLast<T>(s: set<T>, lt: (T, T) -> bool, n: nat, last: T)
    requires StrictTotal(s, lt) && last in s && |s| == n + 1 && forall x | x in s && x != last :: lt(x, last)
    ensures Limit(s, lt, n) == s - {last}
  {
    assert Ahead(s, lt, last) == s - {last};
    LimitSize(s, lt, n);
    SubsetSize(Limit(s, lt, n), s - {last});
  }

  /** LIMIT cuts nothing from a set it is large enough for. */
  lemma LimitOfFew<T>(s: set<T>, lt: (T, T) -> bool, n: nat)
    requires StrictTotal(s, lt) && |s| <= n
    ensures Limit(s, lt, n) == s
    ensures forall x | x in s :: RowNumber(s, lt, x) <= n
  {
    forall x | x in s ensures RowNumber(s, lt, x) <= n {
      SubsetSize(Ahead(s, lt, x), s - {x});
    }
  }

  /** The first n naturals. */
  function Upto(n: nat): (r: set<nat>)
    ensures |r| == n
    ensures forall i: nat :: i in r <==> i < n
  {
    if n == 0 then {} else Upto(n - 1) + {n - 1}
  }

  // ----- moving between tables -----

  /** An injection into a set cannot come from a larger one. */
  lemma {:induction false} InjectionSize<A, B>(s: set<A>, t: set<B>, f: A -> B)
    requires forall x | x in s :: f(x) in t
    requires forall x, y | x in s && y in s && f(x) == f(y) :: x == y
    ensures |s| <= |t|
    decreases |s|
  {
    if s != {} {
      var x :| x in s;
      InjectionSize(s - {x}, t - {f(x)}, f);
    }
  }

  lemma {:induction false} SurjectionSize<A, B>(s: set<A>, t: set<B>, f: A -> B)
    requires forall y | y in t :: exists x | x in s :: f(x) == y
    ensures |t| <= |s|
    decreases |s|
  {
    if t != {} {
      var y :| y in t;
      var x :| x in s && f(x) == y;
      forall z | z in t - {y} ensures exists w | w in s - {x} :: f(w) == z {
        var w :| w in s && f(w) == z;
      }
      SurjectionSize(s - {x}, t - {y}, f);
    }
  }

  /** The first row of a kind: only rows of other kinds come before it. */
  lemma FirstOf<T>(s: set<T>, lt: (T, T) -> bool, kind: set<T>) returns (m: T)
    requires StrictTotal(s, lt) && kind <= s && kind != {}
    ensures m in kind && Ahead(s, lt, m) <= s - kind
  {
    m := FirstRow(kind, lt, 1);
    assert |Ahead(kind, lt, m)| == 0;
    forall x | x in Ahead(s, lt, m) ensures x !in kind { assert x !in Ahead(kind, lt, m); }
  }

  function Pairs<A, B>(s: set<A>, t: set<B>): set<(A, B)> {
    set x, y | x in s && y in t :: (x, y)
  }

  lemma {:induction false} PairsSize<A, B>(s: set<A>, t: set<B>)
    ensures |Pairs(s, t)| == |s| * |t|
    decreases |s|
  {
    if s == {} {
      assert Pairs(s, t) == {};
    } else {
      var a :| a in s;
      var rest := s - {a};
      PairsSize(rest, t);
      var here := set y | y in t :: (a, y);
      InjectionSize(t, here, (y: B) => (a, y));
      SurjectionSize(t, here, (y: B) => (a, y));
      assert Pairs(s, t) == Pairs(rest, t) + here;
      assert Pairs(rest, t) !! here;
      assert |s| * |t| == (|s| - 1) * |t| + |t|;
    }
  }

  /** The same rows in the same order under another name. */
  ghost predicate Same<A(!new), B>(s: set<A>, lt: (A, A) -> bool, t: set<B>, lu: (B, B) -> bool, f: A -> B) {
    && (forall x | x in s :: f(x) in t)
    && (forall y | y in t :: exists x | x in s :: f(x) == y)
    && (forall x, y | x in s && y in s && f(x) == f(y) :: x == y)
    && (forall x, y | x in s && y in s :: lt(x, y) <==> lu(f(x), f(y)))
  }

  /** ... are cut at the same place. */
  lemma LimitOfSame<A(!new), B>(s: set<A>, lt: (A, A) -> bool, t: set<B>, lu: (B, B) -> bool, f: A -> B, n: nat, x: A)
    requires Same(s, lt, t, lu, f) && x in s
    ensures x in Limit(s, lt, n) <==> f(x) in Limit(t, lu, n)
  {
    InjectionSize(Ahead(s, lt, x), Ahead(t, lu, f(x)), f);
    SurjectionSize(Ahead(s, lt, x), Ahead(t, lu, f(x)), f);
  }
}
