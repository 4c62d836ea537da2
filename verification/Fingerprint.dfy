/**
  The progress fingerprint: four fields of a state, canonicalized and printed,
  and the variant that first compares the plain print with the last fingerprint.
*/
module Fingerprint {
  import opened Prelude
  import opened JsPrint
  import opened Canonical

  const STEP: Str := [115, 116, 101, 112]
  const PERCENT: Str := [112, 101, 114, 99, 101, 110, 116]
  const DETAIL: Str := [100, 101, 116, 97, 105, 108]
  const DATA: Str := [100, 97, 116, 97]

  const FIELDS: seq<Str> := [STEP, PERCENT, DETAIL, DATA]

  /** state[field], when the state has that own property. */
  function Lookup(state: seq<Prop>, key: Str): Option<Value> {
    if state == [] then None
    else if state[0].key == key then Some(state[0].value)
    else Lookup(state[1..], key)
  }

  /** The object built from the first k fields. */
  function Identity(state: seq<Prop>, k: nat): seq<Prop>
    requires k <= |FIELDS|
  {
    if k == 0 then []
    else
      var rest := Identity(state, k - 1);
      match Lookup(state, FIELDS[k - 1])
      case None => rest
      case Some(v) => rest + [Prop(FIELDS[k - 1], v)]
  }

  function Chosen(state: seq<Prop>): seq<Prop> {
    Identity(state, |FIELDS|)
  }

  function FingerprintOf(state: seq<Prop>): Option<Str> {
    if Chosen(state) == [] then None else Some(Print(Canon(Obj(Chosen(state)))))
  }

  /** Plain print first, canonical form only when the plain form moved. */
  function FastFingerprint(state: seq<Prop>, last: Option<Str>): Option<Str> {
    if Chosen(state) == [] then None
    else if last == Some(Print(Obj(Chosen(state)))) then last
    else FingerprintOf(Chosen(state))
  }

  // ----- the code -----

  method BuildIdentity(state: seq<Prop>) returns (identity: seq<Prop>)
    ensures identity == Chosen(state)
  {
    identity := [];
    for k := 0 to |FIELDS|
      invariant identity == Identity(state, k)
    {
      var v := Lookup(state, FIELDS[k]);
      if v.Some? {
        identity := identity + [Prop(FIELDS[k], v.value)];
      }
    }
  }

  method ProgressFingerprint(state: seq<Prop>) returns (fp: Option<Str>)
    ensures fp == FingerprintOf(state)
  {
    var identity := BuildIdentity(state);
    if |identity| == 0 { return None; }
    fp := Some(Print(Canon(Obj(identity))));
  }

  method FingerprintB(state: seq<Prop>, last: Option<Str>) returns (fp: Option<Str>)
    ensures fp == FastFingerprint(state, last)
  {
    var identity := BuildIdentity(state);
    if |identity| == 0 { return None; }
    var plain := Print(Obj(identity));
    if last == Some(plain) { return last; }
    fp := ProgressFingerprint(identity);
  }

  // ----- what the identity holds -----

  lemma FieldsDistinct()
    ensures forall i, j | 0 <= i < j < |FIELDS| :: FIELDS[i] != FIELDS[j]
  {
  }

  lemma {:induction false} IdentityMember(state: seq<Prop>, k: nat, p: Prop)
    requires k <= |FIELDS|
    ensures p in Identity(state, k) <==> p.key in FIELDS[..k] && Lookup(state, p.key) == Some(p.value)
  {
    if k > 0 {
      IdentityMember(state, k - 1, p);
      assert FIELDS[..k] == FIELDS[..k - 1] + [FIELDS[k - 1]];
    }
  }

  lemma ChosenMember(state: seq<Prop>, p: Prop)
    ensures p in Chosen(state) <==> p.key in FIELDS && Lookup(state, p.key) == Some(p.value)
  {
    IdentityMember(state, |FIELDS|, p);
    assert FIELDS[..|FIELDS|] == FIELDS;
  }

  lemma {:induction false} IdentityDistinct(state: seq<Prop>, k: nat)
    requires k <= |FIELDS|
    ensures DistinctKeys(Identity(state, k))
  {
    if k > 0 {
      IdentityDistinct(state, k - 1);
      var rest := Identity(state, k - 1);
      forall i | 0 <= i < |rest| ensures rest[i].key != FIELDS[k - 1] {
        IdentityMember(state, k - 1, rest[i]);
        FieldsDistinct();
      }
    }
  }

  lemma {:induction false} LookupMember(state: seq<Prop>, key: Str)
    ensures match Lookup(state, key)
            case None => forall p | p in state :: p.key != key
            case Some(v) => Prop(key, v) in state
  {
    if state != [] {
      LookupMember(state[1..], key);
      assert state == [state[0]] + state[1..];
    }
  }

  lemma ChosenWellFormed(state: seq<Prop>)
    requires WellFormed(Obj(state))
    ensures WellFormed(Obj(Chosen(state)))
  {
    IdentityDistinct(state, |FIELDS|);
    forall p | p in Chosen(state) ensures WellFormed(p.value) {
      ChosenMember(state, p);
      LookupMember(state, p.key);
    }
  }

  /** Looking a field up in the identity is looking it up in the state. */
  lemma LookupChosen(state: seq<Prop>, key: Str)
    requires key in FIELDS
    ensures Lookup(Chosen(state), key) == Lookup(state, key)
  {
    LookupMember(Chosen(state), key);
    match Lookup(Chosen(state), key)
    case Some(v) => ChosenMember(state, Prop(key, v));
    case None =>
      if Lookup(state, key).Some? { ChosenMember(state, Prop(key, Lookup(state, key).value)); }
  }

  lemma {:induction false} IdentityAgain(state: seq<Prop>, k: nat)
    requires k <= |FIELDS|
    ensures Identity(Chosen(state), k) == Identity(state, k)
  {
    if k > 0 {
      IdentityAgain(state, k - 1);
      LookupChosen(state, FIELDS[k - 1]);
    }
  }

  // ----- the two claims -----

  ghost predicate SameField(s: seq<Prop>, t: seq<Prop>, field: Str) {
    match Lookup(s, field)
    case None => Lookup(t, field).None?
    case Some(v) => Lookup(t, field).Some? && SameUpToOrder(v, Lookup(t, field).value)
  }

  lemma ChosenSameIff(s: seq<Prop>, t: seq<Prop>)
    ensures SameUpToOrder(Obj(Chosen(s)), Obj(Chosen(t))) <==> forall f | f in FIELDS :: SameField(s, t, f)
  {
    var a, b := Chosen(s), Chosen(t);
    if SameUpToOrder(Obj(a), Obj(b)) {
      forall f | f in FIELDS ensures SameField(s, t, f) {
        match Lookup(s, f)
        case Some(v) =>
          ChosenMember(s, Prop(f, v));
          assert HasPartner(Prop(f, v), b);
          var q :| q in b && q.key == f && SameUpToOrder(v, q.value);
          ChosenMember(t, q);
        case None =>
          if Lookup(t, f).Some? {
            ChosenMember(t, Prop(f, Lookup(t, f).value));
            assert HasKey(a, Prop(f, Lookup(t, f).value).key);
            var p :| p in a && p.key == f;
            ChosenMember(s, p);
          }
      }
    }
    if forall f | f in FIELDS :: SameField(s, t, f) {
      forall p | p in a ensures HasPartner(p, b) {
        ChosenMember(s, p);
        assert SameField(s, t, p.key);
        ChosenMember(t, Prop(p.key, Lookup(t, p.key).value));
      }
      forall q | q in b ensures HasKey(a, q.key) {
        ChosenMember(t, q);
        assert SameField(s, t, q.key);
        ChosenMember(s, Prop(q.key, Lookup(s, q.key).value));
      }
    }
  }

  lemma EmptySame(a: seq<Prop>, b: seq<Prop>)
    ensures a == [] && (SameUpToOrder(Obj(a), Obj(b)) || SameUpToOrder(Obj(b), Obj(a))) ==> b == []
  {
    if b != [] {
      assert b[0] in b;
      assert !HasKey([], b[0].key) && !HasPartner(b[0], []);
    }
  }

  /**
    Two states get the same fingerprint exactly when step, percent, detail and
    data agree up to key order at every depth: unrelated fields and key order never
    matter, and no other change is lost.
  */
  lemma FingerprintsEqualIff(s: seq<Prop>, t: seq<Prop>)
    requires WellFormed(Obj(s)) && WellFormed(Obj(t))
    ensures FingerprintOf(s) == FingerprintOf(t) <==> forall f | f in FIELDS :: SameField(s, t, f)
  {
    var a, b := Chosen(s), Chosen(t);
    ChosenSameIff(s, t);
    ChosenWellFormed(s);
    ChosenWellFormed(t);
    CanonEqualIff(Obj(a), Obj(b));
    if a != [] && b != [] && FingerprintOf(s) == FingerprintOf(t) {
      PrintInjective(Canon(Obj(a)), Canon(Obj(b)));
    }
    EmptySame(a, b);
    EmptySame(b, a);
  }

  ghost predicate HasOwn(state: seq<Prop>, word: string) {
    exists i :: 0 <= i < |state| && state[i].key == Units(word)
  }

  /** No fingerprint exactly when the state has none of the four properties. */
  lemma FingerprintNullIff(s: seq<Prop>)
    ensures FingerprintOf(s).None? <==>
            !HasOwn(s, "step") && !HasOwn(s, "percent") && !HasOwn(s, "detail") && !HasOwn(s, "data")
  {
    FieldsSpelled();
    OwnIsFound(s, "step");
    OwnIsFound(s, "percent");
    OwnIsFound(s, "detail");
    OwnIsFound(s, "data");
    var c := Chosen(s);
    if c != [] {
      assert c[0] in c;
      ChosenMember(s, c[0]);
    }
    forall f | f in FIELDS && Lookup(s, f).Some? ensures c != [] {
      ChosenMember(s, Prop(f, Lookup(s, f).value));
    }
    assert STEP in FIELDS && PERCENT in FIELDS && DETAIL in FIELDS && DATA in FIELDS;
    assert forall f | f in FIELDS :: f == STEP || f == PERCENT || f == DETAIL || f == DATA;
  }

  lemma OwnIsFound(s: seq<Prop>, word: string)
    ensures HasOwn(s, word) <==> Lookup(s, Units(word)).Some?
  {
    LookupMember(s, Units(word));
    if i :| 0 <= i < |s| && s[i].key == Units(word) { assert s[i] in s; }
  }

  lemma FieldsSpelled()
    ensures STEP == Units("step") && PERCENT == Units("percent") && DETAIL == Units("detail") && DATA == Units("data")
  {
  }

  /** ... with the four keys spelled out. */
  lemma FingerprintReadsFour(s: seq<Prop>, t: seq<Prop>)
    requires WellFormed(Obj(s)) && WellFormed(Obj(t))
    ensures FingerprintOf(s) == FingerprintOf(t) <==>
            && SameField(s, t, Units("step")) && SameField(s, t, Units("percent"))
            && SameField(s, t, Units("detail")) && SameField(s, t, Units("data"))
  {
    FingerprintsEqualIff(s, t);
    FieldsSpelled();
    assert forall f :: f in FIELDS <==> f == STEP || f == PERCENT || f == DETAIL || f == DATA;
  }

  /** The canonical identity, in terms of the field list. */
  lemma CanonicalFields(s: seq<Prop>, v: Value)
    requires WellFormed(Obj(s)) && v == Canon(Obj(Chosen(s)))
    ensures v.Obj? && Arranged(v) && forall p | p in v.props :: p.key in FIELDS
    ensures forall f | f in FIELDS :: SameField(v.props, s, f)
  {
    ChosenWellFormed(s);
    CanonIdempotent(Obj(Chosen(s)));
    CanonIff(Obj(Chosen(s)), v);
    forall f | f in FIELDS ensures SameField(v.props, s, f) { FieldKept(s, v.props, f); }
    forall p | p in v.props ensures p.key in FIELDS {
      assert HasPartner(p, Chosen(s));
      var q :| q in Chosen(s) && q.key == p.key;
      ChosenMember(s, q);
    }
  }

  lemma FieldIff(f: Str)
    ensures f in FIELDS <==> f in {Units("step"), Units("percent"), Units("detail"), Units("data")}
  {
    FieldsSpelled();
  }

  /**
    Read as JSON, a fingerprint is an arranged object of those of the four properties
    that the state has, each with the state's value up to key order.
  */
  lemma FingerprintReads(s: seq<Prop>)
    requires WellFormed(Obj(s)) && FingerprintOf(s).Some?
    ensures match ReadValue(FingerprintOf(s).value)
            case Fail => false
            case Got(v, rest) =>
              && rest == [] && v.Obj? && Arranged(v)
              && (forall p | p in v.props :: p.key in {Units("step"), Units("percent"), Units("detail"), Units("data")})
              && SameField(v.props, s, Units("step")) && SameField(v.props, s, Units("percent"))
              && SameField(v.props, s, Units("detail")) && SameField(v.props, s, Units("data"))
  {
    var v := Canon(Obj(Chosen(s)));
    PrintRoundTrip(v);
    CanonicalFields(s, v);
    forall p | p in v.props ensures p.key in {Units("step"), Units("percent"), Units("detail"), Units("data")} { FieldIff(p.key); }
    FieldIff(Units("step"));
    FieldIff(Units("percent"));
    FieldIff(Units("detail"));
    FieldIff(Units("data"));
  }

  lemma FieldKept(s: seq<Prop>, c: seq<Prop>, f: Str)
    requires SameUpToOrder(Obj(c), Obj(Chosen(s))) && f in FIELDS
    ensures SameField(c, s, f)
  {
    LookupMember(c, f);
    if Lookup(s, f).Some? { KeyKept(s, c, f); }
    if Lookup(c, f).Some? {
      var v := Lookup(c, f).value;
      assert HasPartner(Prop(f, v), Chosen(s));
      var q :| q in Chosen(s) && q.key == f && SameUpToOrder(v, q.value);
      ChosenMember(s, q);
    }
  }

  lemma KeyKept(s: seq<Prop>, c: seq<Prop>, f: Str)
    requires SameUpToOrder(Obj(c), Obj(Chosen(s))) && f in FIELDS && Lookup(s, f).Some?
    ensures HasKey(c, f)
  {
    var q := Prop(f, Lookup(s, f).value);
    ChosenMember(s, q);
    assert HasKey(c, q.key);
  }

  /** The fast path is taken only on an identity that is its own canonical form. */
  lemma FastPathIsCanonical(s: seq<Prop>, x: seq<Prop>)
    requires WellFormed(Obj(s)) && WellFormed(Obj(x))
    requires FingerprintOf(x) == Some(Print(Obj(Chosen(s))))
    ensures Canon(Obj(Chosen(s))) == Obj(Chosen(s))
  {
    ChosenWellFormed(x);
    CanonIdempotent(Obj(Chosen(x)));
    PrintInjective(Canon(Obj(Chosen(x))), Obj(Chosen(s)));
  }

  /** With a fingerprint (or nothing) to compare against, the fast form is exact. */
  lemma FastIsExact(s: seq<Prop>, x: seq<Prop>, last: Option<Str>)
    requires WellFormed(Obj(s)) && WellFormed(Obj(x)) && (last.None? || last == FingerprintOf(x))
    ensures FastFingerprint(s, last) == FingerprintOf(s)
  {
    IdentityAgain(s, |FIELDS|);
    if Chosen(s) != [] && last == Some(Print(Obj(Chosen(s)))) {
      FastPathIsCanonical(s, x);
    }
  }

  /** With anything else to compare against, it is wrong exactly on the plain text of an identity that is not canonical. */
  lemma FastExactIff(s: seq<Prop>, last: Option<Str>)
    requires WellFormed(Obj(s))
    ensures FastFingerprint(s, last) == FingerprintOf(s) <==>
            Chosen(s) == [] || last != Some(Print(Obj(Chosen(s)))) || Arranged(Obj(Chosen(s)))
  {
    IdentityAgain(s, |FIELDS|);
    if Chosen(s) != [] {
      var v := Obj(Chosen(s));
      ChosenWellFormed(s);
      CanonArranged(v);
      if Arranged(v) { ArrangedIsCanon(v); }
      if Print(v) == Print(Canon(v)) { PrintInjective(v, Canon(v)); }
    }
  }

  /** The fields are listed in descending key order. */
  lemma FieldsDescend(i: nat, j: nat)
    requires i < j < |FIELDS|
    ensures KeyBefore(FIELDS[j], FIELDS[i])
  {
  }

  lemma {:induction false} IdentityDescends(state: seq<Prop>, k: nat, i: nat, j: nat)
    requires k <= |FIELDS| && i < j < |Identity(state, k)|
    ensures KeyBefore(Identity(state, k)[j].key, Identity(state, k)[i].key)
  {
    if j < |Identity(state, k - 1)| {
      IdentityDescends(state, k - 1, i, j);
    } else {
      var p := Identity(state, k - 1)[i];
      IdentityMember(state, k - 1, p);
      var m :| 0 <= m < k - 1 && FIELDS[m] == p.key;
      FieldsDescend(m, k - 1);
    }
  }

  /** ... so the fast path can only ever hit on a state with a single one of them. */
  lemma FastPathHitsOneField(s: seq<Prop>, x: seq<Prop>)
    requires WellFormed(Obj(s)) && WellFormed(Obj(x))
    requires FingerprintOf(x) == Some(Print(Obj(Chosen(s))))
    ensures |Chosen(s)| <= 1
  {
    var a := Chosen(s);
    FastPathIsCanonical(s, x);
    ChosenWellFormed(s);
    CanonPropsDistinct(a);
    ArrangeSorted(CanonProps(a));
    assert Sorted(a, ByKey());
    if |a| > 1 {
      IdentityDescends(s, |FIELDS|, 0, 1);
      assert KeyBefore(a[0].key, a[1].key);
      KeyTransitive(a[0].key, a[1].key, a[0].key);
      KeyIrreflexive(a[0].key);
    }
  }

  lemma SingleCanon(p: Prop)
    ensures Canon(Obj([p])) == Obj([Prop(p.key, Canon(p.value))])
  {
    var q := Prop(p.key, Canon(p.value));
    var r := Arrange([q]);
    assert CanonProps([p]) == [q];
    ArrangeKeeps([q]);
    assert |multiset(r)| == 1 && r[0] in multiset(r);
  }

  /** It hits exactly when the one chosen field is written canonically and the last state agrees with this one. */
  lemma FastPathHitsIff(s: seq<Prop>, x: seq<Prop>)
    requires WellFormed(Obj(s)) && WellFormed(Obj(x)) && Chosen(s) != []
    ensures FingerprintOf(x) == Some(Print(Obj(Chosen(s)))) <==>
            && |Chosen(s)| == 1 && Canon(Chosen(s)[0].value) == Chosen(s)[0].value
            && forall f | f in FIELDS :: SameField(x, s, f)
  {
    var a := Chosen(s);
    FingerprintsEqualIff(x, s);
    if |a| == 1 {
      assert a == [a[0]];
      SingleCanon(a[0]);
    }
    if FingerprintOf(x) == Some(Print(Obj(a))) {
      FastPathIsCanonical(s, x);
      FastPathHitsOneField(s, x);
    }
  }

  predicate AllWellFormed(states: seq<seq<Prop>>) {
    forall i | 0 <= i < |states| :: WellFormed(Obj(states[i]))
  }

  /** What `prev` holds when tick i begins. */
  function Previous(states: seq<seq<Prop>>, i: nat): Option<Str>
    requires i <= |states|
  {
    if i == 0 then None else FingerprintOf(states[i - 1])
  }

  lemma TickIsExact(states: seq<seq<Prop>>, i: nat)
    requires AllWellFormed(states) && i < |states|
    ensures FastFingerprint(states[i], Previous(states, i)) == FingerprintOf(states[i]) == Previous(states, i + 1)
  {
    FastIsExact(states[i], if i == 0 then states[i] else states[i - 1], Previous(states, i));
  }

  /** The canonical fingerprints of the first i states. */
  function Exact(states: seq<seq<Prop>>, i: nat): (r: seq<Option<Str>>)
    requires i <= |states|
    ensures |r| == i
  {
    if i == 0 then [] else Exact(states, i - 1) + [FingerprintOf(states[i - 1])]
  }

  lemma {:induction false} ExactAt(states: seq<seq<Prop>>, i: nat, j: nat)
    requires j < i <= |states|
    ensures Exact(states, i)[j] == FingerprintOf(states[j])
  {
    if j < i - 1 { ExactAt(states, i - 1, j); }
  }

  /** Every tick of the loop that threads the last fingerprint gives the canonical one. */
  method Ticks(states: seq<seq<Prop>>) returns (out: seq<Option<Str>>)
    requires AllWellFormed(states)
    ensures out == Exact(states, |states|)
  {
    out := [];
    var prev := None;
    for i := 0 to |states|
      invariant out == Exact(states, i)
      invariant prev == Previous(states, i)
    {
      TickIsExact(states, i);
      prev := FingerprintB(states[i], prev);
      out := out + [prev];
    }
  }
}
