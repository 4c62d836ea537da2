/**
  Canonical key order.  Object.keys(..).sort() orders keys by code units, but an
  object built from them lists its integer-index keys first, in numeric order; the
  canonical form is the arrangement those two steps produce at every depth.
*/
module Canonical {
  import opened JsPrint

  // ----- key orders -----

  /** Array.prototype.sort's default order on strings. */
  predicate Lex(a: Str, b: Str) {
    if b == [] then false
    else if a == [] then true
    else a[0] < b[0] || (a[0] == b[0] && Lex(a[1..], b[1..]))
  }

  const MAX_INDEX: Str := [52, 50, 57, 52, 57, 54, 55, 50, 57, 52]

  /** A canonical decimal numeral from 0 to 4294967294. */
  predicate IsIndex(k: Str) {
    && k != [] && (forall i | 0 <= i < |k| :: 48 <= k[i] <= 57)
    && (k[0] == 48 ==> |k| == 1)
    && (|k| < 10 || (|k| == 10 && !Lex(MAX_INDEX, k)))
  }

  /** Numeric order of canonical numerals. */
  predicate IndexLess(a: Str, b: Str) {
    |a| < |b| || (|a| == |b| && Lex(a, b))
  }

  /** Own-key order of an object whose string keys were inserted in code-unit order. */
  predicate KeyBefore(a: Str, b: Str) {
    if IsIndex(a) && IsIndex(b) then IndexLess(a, b)
    else if IsIndex(a) || IsIndex(b) then IsIndex(a)
    else Lex(a, b)
  }

  lemma {:induction false} LexIrreflexive(a: Str)
    ensures !Lex(a, a)
  {
    if a != [] { LexIrreflexive(a[1..]); }
  }

  lemma {:induction false} LexTotal(a: Str, b: Str)
    ensures a == b || Lex(a, b) || Lex(b, a)
  {
    if a != [] && b != [] && a[0] == b[0] {
      LexTotal(a[1..], b[1..]);
      assert a == [a[0]] + a[1..] && b == [b[0]] + b[1..];
    }
  }

  lemma {:induction false} LexTransitive(a: Str, b: Str, c: Str)
    requires Lex(a, b) && Lex(b, c)
    ensures Lex(a, c)
  {
    if a != [] && a[0] == b[0] && b[0] == c[0] { LexTransitive(a[1..], b[1..], c[1..]); }
  }

  lemma KeyIrreflexive(a: Str)
    ensures !KeyBefore(a, a)
  {
    LexIrreflexive(a);
  }

  lemma KeyTotal(a: Str, b: Str)
    ensures a == b || KeyBefore(a, b) || KeyBefore(b, a)
  {
    LexTotal(a, b);
  }

  lemma KeyTransitive(a: Str, b: Str, c: Str)
    requires KeyBefore(a, b) && KeyBefore(b, c)
    ensures KeyBefore(a, c)
  {
    if Lex(a, b) && Lex(b, c) { LexTransitive(a, b, c); }
  }

  // ----- arranging properties -----

  predicate DistinctKeys(props: seq<Prop>) {
    forall i, j | 0 <= i < j < |props| :: props[i].key != props[j].key
  }

  function Insert(p: Prop, props: seq<Prop>, before: (Str, Str) -> bool): seq<Prop> {
    if props == [] || before(p.key, props[0].key) then [p] + props
    else [props[0]] + Insert(p, props[1..], before)
  }

  function Sort(props: seq<Prop>, before: (Str, Str) -> bool): seq<Prop> {
    if props == [] then [] else Insert(props[0], Sort(props[1..], before), before)
  }

  function Keep(props: seq<Prop>, index: bool): seq<Prop> {
    if props == [] then []
    else if IsIndex(props[0].key) == index then [props[0]] + Keep(props[1..], index)
    else Keep(props[1..], index)
  }

  function ByLex(): (Str, Str) -> bool { (a, b) => Lex(a, b) }

  function ByIndex(): (Str, Str) -> bool { (a, b) => IndexLess(a, b) }

  /** Object.fromEntries on distinct keys: index keys in numeric order, the others as given. */
  function FromEntries(props: seq<Prop>): seq<Prop> {
    Sort(Keep(props, true), ByIndex()) + Keep(props, false)
  }

  /** The canonical form: every object rebuilt from its sorted keys. */
  function Canon(v: Value): Value {
    match v
    case Arr(items) => Arr(CanonItems(items))
    case Obj(props) => Obj(FromEntries(Sort(CanonProps(props), ByLex())))
    case _ => v
  }

  function CanonItems(items: seq<Value>): (r: seq<Value>)
    ensures |r| == |items| && forall i | 0 <= i < |items| :: r[i] == Canon(items[i])
  {
    if items == [] then [] else [Canon(items[0])] + CanonItems(items[1..])
  }

  function CanonProps(props: seq<Prop>): (r: seq<Prop>)
    ensures |r| == |props| && forall i | 0 <= i < |props| :: r[i] == Prop(props[i].key, Canon(props[i].value))
  {
    if props == [] then [] else [Prop(props[0].key, Canon(props[0].value))] + CanonProps(props[1..])
  }

  // ----- what an arrangement keeps -----

  ghost predicate Total(before: (Str, Str) -> bool) {
    && (forall a :: !before(a, a))
    && (forall a, b :: a == b || before(a, b) || before(b, a))
    && (forall a, b, c | before(a, b) && before(b, c) :: before(a, c))
  }

  ghost predicate Sorted(props: seq<Prop>, before: (Str, Str) -> bool) {
    forall i, j | 0 <= i < j < |props| :: before(props[i].key, props[j].key)
  }

  function ByKey(): (Str, Str) -> bool { (a, b) => KeyBefore(a, b) }

  lemma OrdersAreTotal()
    ensures Total(ByLex()) && Total(ByIndex()) && Total(ByKey())
  {
    forall a: Str ensures !Lex(a, a) && !KeyBefore(a, a) { KeyIrreflexive(a); LexIrreflexive(a); }
    forall a: Str, b: Str
      ensures (a == b || Lex(a, b) || Lex(b, a)) && (a == b || KeyBefore(a, b) || KeyBefore(b, a))
    {
      LexTotal(a, b);
      KeyTotal(a, b);
    }
    forall a: Str, b: Str, c: Str | Lex(a, b) && Lex(b, c) ensures Lex(a, c) { LexTransitive(a, b, c); }
    forall a: Str, b: Str, c: Str | KeyBefore(a, b) && KeyBefore(b, c) ensures KeyBefore(a, c) { KeyTransitive(a, b, c); }
  }

  lemma {:induction false} InsertKeeps(p: Prop, props: seq<Prop>, before: (Str, Str) -> bool)
    ensures multiset(Insert(p, props, before)) == multiset(props) + multiset{p}
  {
    if props == [] || before(p.key, props[0].key) {
    } else {
      InsertKeeps(p, props[1..], before);
      assert props == [props[0]] + props[1..];
    }
  }

  lemma {:induction false} SortKeeps(props: seq<Prop>, before: (Str, Str) -> bool)
    ensures multiset(Sort(props, before)) == multiset(props)
  {
    if props != [] {
      SortKeeps(props[1..], before);
      InsertKeeps(props[0], Sort(props[1..], before), before);
      assert props == [props[0]] + props[1..];
    }
  }

  lemma {:induction false} InsertSorted(p: Prop, props: seq<Prop>, before: (Str, Str) -> bool)
    requires Total(before) && Sorted(props, before) && forall i | 0 <= i < |props| :: props[i].key != p.key
    ensures Sorted(Insert(p, props, before), before)
  {
    if props == [] || before(p.key, props[0].key) {
    } else {
      var rest := Insert(p, props[1..], before);
      InsertSorted(p, props[1..], before);
      InsertKeeps(p, props[1..], before);
      forall j | 0 <= j < |rest| ensures before(props[0].key, rest[j].key) {
        assert rest[j] in multiset(rest);
        assert rest[j] == p || rest[j] in props[1..];
      }
    }
  }

  lemma {:induction false} SortSorted(props: seq<Prop>, before: (Str, Str) -> bool)
    requires Total(before) && DistinctKeys(props)
    ensures Sorted(Sort(props, before), before)
  {
    if props != [] {
      var rest := Sort(props[1..], before);
      SortSorted(props[1..], before);
      SortKeeps(props[1..], before);
      forall i | 0 <= i < |rest| ensures rest[i].key != props[0].key {
        assert rest[i] in multiset(rest);
        assert rest[i] in props[1..];
      }
      InsertSorted(props[0], rest, before);
    }
  }

  lemma {:induction false} KeepSplits(props: seq<Prop>)
    ensures multiset(Keep(props, true)) + multiset(Keep(props, false)) == multiset(props)
  {
    if props != [] {
      KeepSplits(props[1..]);
      assert props == [props[0]] + props[1..];
    }
  }

  lemma {:induction false} KeepMembers(props: seq<Prop>, index: bool, p: Prop)
    ensures p in Keep(props, index) <==> p in props && IsIndex(p.key) == index
  {
    if props != [] {
      KeepMembers(props[1..], index, p);
      assert props == [props[0]] + props[1..];
    }
  }

  lemma {:induction false} KeepSorted(props: seq<Prop>, index: bool, before: (Str, Str) -> bool)
    requires Sorted(props, before)
    ensures Sorted(Keep(props, index), before)
  {
    if props != [] {
      KeepSorted(props[1..], index, before);
      var rest := Keep(props[1..], index);
      forall j | 0 <= j < |rest| ensures before(props[0].key, rest[j].key) {
        KeepMembers(props[1..], index, rest[j]);
        var k :| 0 <= k < |props[1..]| && props[1..][k] == rest[j];
        assert props[k + 1] == rest[j];
      }
    }
  }

  lemma SortedIsDistinct(props: seq<Prop>, before: (Str, Str) -> bool)
    requires Total(before) && Sorted(props, before)
    ensures DistinctKeys(props)
  {
  }

  /** What the two steps do to the properties of one object. */
  function Arrange(props: seq<Prop>): seq<Prop> {
    FromEntries(Sort(props, ByLex()))
  }

  lemma ArrangeKeeps(props: seq<Prop>)
    ensures multiset(Arrange(props)) == multiset(props)
  {
    var s := Sort(props, ByLex());
    SortKeeps(props, ByLex());
    KeepSplits(s);
    SortKeeps(Keep(s, true), ByIndex());
  }

  /** Rebuilding an object from sorted keys lists them in canonical order. */
  lemma ArrangeSorted(props: seq<Prop>)
    requires DistinctKeys(props)
    ensures Sorted(Arrange(props), ByKey())
  {
    OrdersAreTotal();
    var s := Sort(props, ByLex());
    SortSorted(props, ByLex());
    KeepSorted(s, true, ByLex());
    KeepSorted(s, false, ByLex());
    var low, high := Keep(s, true), Keep(s, false);
    SortedIsDistinct(low, ByLex());
    SortSorted(low, ByIndex());
    SortKeeps(low, ByIndex());
    var idx := Sort(low, ByIndex());
    forall i | 0 <= i < |idx| ensures IsIndex(idx[i].key) {
      assert idx[i] in multiset(idx);
      KeepMembers(s, true, idx[i]);
    }
    forall i | 0 <= i < |high| ensures !IsIndex(high[i].key) { KeepMembers(s, false, high[i]); }
  }

  lemma SameHead(xs: seq<Prop>, ys: seq<Prop>)
    requires Sorted(xs, ByKey()) && Sorted(ys, ByKey()) && xs != [] && ys != []
    requires xs[0] in ys && ys[0] in xs
    ensures xs[0] == ys[0]
  {
    var i :| 0 <= i < |ys| && ys[i] == xs[0];
    var j :| 0 <= j < |xs| && xs[j] == ys[0];
    if i > 0 && j > 0 {
      KeyTransitive(xs[0].key, ys[0].key, xs[0].key);
      KeyIrreflexive(xs[0].key);
    }
  }

  lemma SameTail(xs: seq<Prop>, ys: seq<Prop>)
    requires multiset(xs) == multiset(ys) && xs != [] && ys != [] && xs[0] == ys[0]
    ensures multiset(xs[1..]) == multiset(ys[1..])
  {
    assert xs == [xs[0]] + xs[1..] && ys == [ys[0]] + ys[1..];
    assert multiset(xs[1..]) == multiset(xs) - multiset{xs[0]};
    assert multiset(ys[1..]) == multiset(ys) - multiset{ys[0]};
  }

  /** There is one canonical order of a set of properties. */
  lemma {:induction false} SortedUnique(xs: seq<Prop>, ys: seq<Prop>)
    requires Sorted(xs, ByKey()) && Sorted(ys, ByKey()) && multiset(xs) == multiset(ys)
    ensures xs == ys
  {
    assert |xs| == |multiset(xs)| == |multiset(ys)| == |ys|;
    if xs != [] {
      assert xs[0] in multiset(ys) && ys[0] in multiset(xs);
      SameHead(xs, ys);
      SameTail(xs, ys);
      SortedUnique(xs[1..], ys[1..]);
      assert xs == [xs[0]] + xs[1..] && ys == [ys[0]] + ys[1..];
    }
  }

  // ----- the canonical form -----

  /** No object repeats a key, at any depth. */
  predicate WellFormed(v: Value) {
    match v
    case Arr(items) => forall x | x in items :: WellFormed(x)
    case Obj(props) => DistinctKeys(props) && forall p | p in props :: WellFormed(p.value)
    case _ => true
  }

  /** Equal up to the order of object keys, at every depth. */
  ghost predicate SameUpToOrder(v: Value, w: Value) {
    match v
    case Arr(items) => w.Arr? && |items| == |w.items| && forall i | 0 <= i < |items| :: SameUpToOrder(items[i], w.items[i])
    case Obj(props) => w.Obj? && (forall p | p in props :: HasPartner(p, w.props)) && (forall q | q in w.props :: HasKey(props, q.key))
    case _ => v == w
  }

  ghost predicate HasPartner(p: Prop, props: seq<Prop>) {
    exists q :: q in props && q.key == p.key && SameUpToOrder(p.value, q.value)
  }

  predicate HasKey(props: seq<Prop>, key: Str) {
    exists p :: p in props && p.key == key
  }

  lemma CanonPropsDistinct(props: seq<Prop>)
    requires DistinctKeys(props)
    ensures DistinctKeys(CanonProps(props))
  {
  }

  lemma CanonPropsMember(props: seq<Prop>, p: Prop)
    ensures p in CanonProps(props) <==> exists o :: o in props && p == Prop(o.key, Canon(o.value))
  {
    if p in CanonProps(props) {
      var i :| 0 <= i < |props| && CanonProps(props)[i] == p;
      assert props[i] in props;
    }
    if o :| o in props && p == Prop(o.key, Canon(o.value)) {
      var i :| 0 <= i < |props| && props[i] == o;
      assert CanonProps(props)[i] == p;
    }
  }

  /** Distinct properties with the same members have the same multiset. */
  lemma {:induction false} DistinctMultiset(xs: seq<Prop>)
    requires DistinctKeys(xs)
    ensures forall p :: multiset(xs)[p] == if p in xs then 1 else 0
  {
    if xs != [] {
      DistinctMultiset(xs[1..]);
      assert xs == [xs[0]] + xs[1..];
      assert xs[0] !in xs[1..];
    }
  }

  lemma SameMembersArrange(xs: seq<Prop>, ys: seq<Prop>)
    requires DistinctKeys(xs) && DistinctKeys(ys) && forall p :: p in xs <==> p in ys
    ensures Arrange(xs) == Arrange(ys)
  {
    DistinctMultiset(xs);
    DistinctMultiset(ys);
    assert multiset(xs) == multiset(ys);
    ArrangeKeeps(xs);
    ArrangeKeeps(ys);
    ArrangeSorted(xs);
    ArrangeSorted(ys);
    SortedUnique(Arrange(xs), Arrange(ys));
  }

  lemma SameArrangeMembers(xs: seq<Prop>, ys: seq<Prop>, p: Prop)
    requires Arrange(xs) == Arrange(ys)
    ensures p in xs <==> p in ys
  {
    ArrangeKeeps(xs);
    ArrangeKeeps(ys);
    assert p in xs <==> p in multiset(xs);
    assert p in ys <==> p in multiset(ys);
  }

  /** Two values have the same canonical form exactly when they differ only in key order. */
  lemma {:induction false} CanonEqualIff(v: Value, w: Value)
    requires WellFormed(v) && WellFormed(w)
    ensures Canon(v) == Canon(w) <==> SameUpToOrder(v, w)
    decreases v, 2
  {
    match v
    case Arr(xs) =>
      if w.Arr? { ItemsEqualIff(xs, w.items); }
    case Obj(xs) =>
      if w.Obj? {
        if Canon(v) == Canon(w) { PropsSame(v, w); }
        if SameUpToOrder(v, w) { PropsEqual(v, w); }
      }
    case _ =>
  }

  lemma {:induction false} ItemsEqualIff(xs: seq<Value>, ys: seq<Value>)
    requires (forall x | x in xs :: WellFormed(x)) && (forall y | y in ys :: WellFormed(y))
    ensures CanonItems(xs) == CanonItems(ys) <==> |xs| == |ys| && forall i | 0 <= i < |xs| :: SameUpToOrder(xs[i], ys[i])
    decreases xs, 0
  {
    var a, b := CanonItems(xs), CanonItems(ys);
    if |xs| == |ys| {
      forall i | 0 <= i < |xs| ensures a[i] == b[i] <==> SameUpToOrder(xs[i], ys[i]) {
        CanonEqualIff(xs[i], ys[i]);
      }
    }
  }

  lemma {:induction false} PropsSame(v: Value, w: Value)
    requires v.Obj? && w.Obj? && WellFormed(v) && WellFormed(w) && Canon(v) == Canon(w)
    ensures SameUpToOrder(v, w)
    decreases v, 0
  {
    var a, b := CanonProps(v.props), CanonProps(w.props);
    forall p | p in v.props ensures HasPartner(p, w.props) {
      var c := Prop(p.key, Canon(p.value));
      CanonPropsMember(v.props, c);
      SameArrangeMembers(a, b, c);
      CanonPropsMember(w.props, c);
      var q :| q in w.props && c == Prop(q.key, Canon(q.value));
      CanonEqualIff(p.value, q.value);
    }
    forall q | q in w.props ensures HasKey(v.props, q.key) {
      var c := Prop(q.key, Canon(q.value));
      CanonPropsMember(w.props, c);
      SameArrangeMembers(a, b, c);
      CanonPropsMember(v.props, c);
    }
  }

  lemma {:induction false} Original(props: seq<Prop>, c: Prop) returns (o: Prop)
    requires c in CanonProps(props)
    ensures o in props && c == Prop(o.key, Canon(o.value))
  {
    var i :| 0 <= i < |props| && CanonProps(props)[i] == c;
    o := props[i];
  }

  lemma {:induction false} Image(props: seq<Prop>, o: Prop)
    requires o in props
    ensures Prop(o.key, Canon(o.value)) in CanonProps(props)
  {
    var i :| 0 <= i < |props| && props[i] == o;
    assert CanonProps(props)[i] == Prop(o.key, Canon(o.value));
  }

  lemma {:induction false} Partner(v: Value, w: Value, p: Prop) returns (q: Prop)
    requires v.Obj? && w.Obj? && WellFormed(v) && WellFormed(w) && SameUpToOrder(v, w) && p in v.props
    ensures q in w.props && q.key == p.key && SameUpToOrder(p.value, q.value) && WellFormed(p.value) && WellFormed(q.value)
  {
    assert HasPartner(p, w.props);
    q :| q in w.props && q.key == p.key && SameUpToOrder(p.value, q.value);
  }

  lemma {:induction false} KeyPartner(v: Value, w: Value, q: Prop) returns (p: Prop)
    requires v.Obj? && w.Obj? && SameUpToOrder(v, w) && q in w.props
    ensures p in v.props && p.key == q.key
  {
    assert HasKey(v.props, q.key);
    p :| p in v.props && p.key == q.key;
  }

  lemma SameKeySameProp(props: seq<Prop>, p: Prop, q: Prop)
    requires DistinctKeys(props) && p in props && q in props && p.key == q.key
    ensures p == q
  {
  }

  lemma {:induction false} PartnerForward(v: Value, w: Value, p: Prop) returns (q: Prop)
    requires v.Obj? && w.Obj? && WellFormed(v) && WellFormed(w) && SameUpToOrder(v, w) && p in v.props
    ensures q in w.props && q.key == p.key && Canon(q.value) == Canon(p.value)
    decreases v, 0
  {
    q := Partner(v, w, p);
    CanonEqualIff(p.value, q.value);
  }

  lemma {:induction false} PropsEqual(v: Value, w: Value)
    requires v.Obj? && w.Obj? && WellFormed(v) && WellFormed(w) && SameUpToOrder(v, w)
    ensures Canon(v) == Canon(w)
    decreases v, 1
  {
    var a, b := CanonProps(v.props), CanonProps(w.props);
    CanonPropsDistinct(v.props);
    CanonPropsDistinct(w.props);
    forall c ensures c in a <==> c in b {
      if c in a {
        var p := Original(v.props, c);
        var q := PartnerForward(v, w, p);
        Image(w.props, q);
      }
      if c in b {
        var q := Original(w.props, c);
        var p := KeyPartner(v, w, q);
        var r := PartnerForward(v, w, p);
        SameKeySameProp(w.props, q, r);
        Image(v.props, p);
      }
    }
    SameMembersArrange(a, b);
  }

  /** Canonicalizing keeps the value up to order, and canonicalizing again changes nothing. */
  lemma {:induction false} CanonIdempotent(v: Value)
    requires WellFormed(v)
    ensures WellFormed(Canon(v)) && Canon(Canon(v)) == Canon(v)
  {
    match v
    case Arr(items) =>
      var c := CanonItems(items);
      forall i | 0 <= i < |items| ensures WellFormed(c[i]) && Canon(c[i]) == c[i] { CanonIdempotent(items[i]); }
      assert CanonItems(c) == c;
    case Obj(props) =>
      var c := CanonProps(props);
      CanonPropsDistinct(props);
      ArrangeSorted(c);
      ArrangeKeeps(c);
      var r := Arrange(c);
      forall i | 0 <= i < |r| ensures WellFormed(r[i].value) && Canon(r[i].value) == r[i].value {
        assert r[i] in multiset(r);
        CanonPropsMember(props, r[i]);
        var o :| o in props && r[i] == Prop(o.key, Canon(o.value));
        CanonIdempotent(o.value);
      }
      assert CanonProps(r) == r;
      OrdersAreTotal();
      SortedIsDistinct(r, ByKey());
      ArrangeSorted(r);
      ArrangeKeeps(r);
      SortedUnique(Arrange(r), r);
    case _ =>
  }

  /** Every object, at every depth, lists its keys in canonical order. */
  ghost predicate Arranged(v: Value) {
    match v
    case Arr(items) => forall x | x in items :: Arranged(x)
    case Obj(props) => Sorted(props, ByKey()) && forall p | p in props :: Arranged(p.value)
    case _ => true
  }

  lemma {:induction false} CanonArranged(v: Value)
    requires WellFormed(v)
    ensures Arranged(Canon(v))
  {
    match v
    case Arr(items) =>
      var c := CanonItems(items);
      forall x | x in c ensures Arranged(x) {
        var i :| 0 <= i < |c| && c[i] == x;
        CanonArranged(items[i]);
      }
    case Obj(props) =>
      var c := CanonProps(props);
      CanonPropsDistinct(props);
      ArrangeSorted(c);
      ArrangeKeeps(c);
      forall p | p in Arrange(c) ensures Arranged(p.value) {
        assert p in multiset(Arrange(c));
        CanonPropsMember(props, p);
        var o :| o in props && p == Prop(o.key, Canon(o.value));
        CanonArranged(o.value);
      }
    case _ =>
  }

  /** The canonical form is the arranged value that equals the given one up to key order, and the only one. */
  lemma CanonIff(v: Value, w: Value)
    requires WellFormed(v) && WellFormed(w)
    ensures w == Canon(v) <==> Arranged(w) && SameUpToOrder(w, v)
  {
    CanonArranged(v);
    CanonIdempotent(v);
    CanonEqualIff(Canon(v), v);
    CanonEqualIff(w, v);
    if Arranged(w) { ArrangedIsCanon(w); }
  }

  lemma {:induction false} ArrangedIsCanon(w: Value)
    requires WellFormed(w) && Arranged(w)
    ensures Canon(w) == w
  {
    match w
    case Arr(items) =>
      forall i | 0 <= i < |items| ensures Canon(items[i]) == items[i] { ArrangedIsCanon(items[i]); }
      assert CanonItems(items) == items;
    case Obj(props) =>
      forall i | 0 <= i < |props| ensures Canon(props[i].value) == props[i].value {
        assert props[i] in props;
        ArrangedIsCanon(props[i].value);
      }
      assert CanonProps(props) == props;
      ArrangeSorted(props);
      ArrangeKeeps(props);
      SortedUnique(Arrange(props), props);
    case _ =>
  }
}
