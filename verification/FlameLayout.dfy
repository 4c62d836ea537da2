/**
  The flamegraph's geometry.  Each node gets a span; its children share it from
  the left in order of falling value, each with a width in proportion to its value.
  Widths are real numbers: the one-decimal formatting of the picture is not modelled.
*/
module FlameLayout {
  import opened Prelude
  import opened FlameTree

  const WIDTH := 1200
  const PAD := 10
  const ROW := 16

  /** Children narrower than this are left out. */
  const CUT: real := 0.2

  datatype Span = Span(path: Path, x: real, w: real)

  /** The width of every node, in pixels. */
  type Widths = map<Path, real>

  ghost predicate Fits(m: Maps, wide: Widths, bound: nat) {
    LinkedMaps(m.value, m.children) && wide.Keys == m.value.Keys &&
    forall p {:trigger p in m.value} | p in m.value :: |p| <= bound
  }

  // ----- children by falling value -----

  predicate AllChildren(m: Maps, p: Path, fs: seq<Frame>) {
    forall f | f in fs :: Child(p, f) in m.value
  }

  function KidValue(m: Maps, p: Path, f: Frame): nat {
    if Child(p, f) in m.value then m.value[Child(p, f)] else 0
  }

  function InsertKid(m: Maps, p: Path, f: Frame, fs: seq<Frame>): seq<Frame> {
    if fs == [] || KidValue(m, p, f) >= KidValue(m, p, fs[0]) then [f] + fs
    else [fs[0]] + InsertKid(m, p, f, fs[1..])
  }

  /** sorted(children, key=-value): stable. */
  function SortKids(m: Maps, p: Path, fs: seq<Frame>): seq<Frame> {
    if fs == [] then [] else InsertKid(m, p, fs[0], SortKids(m, p, fs[1..]))
  }

  function KidsTotal(m: Maps, p: Path, fs: seq<Frame>): nat {
    if fs == [] then 0 else KidValue(m, p, fs[0]) + KidsTotal(m, p, fs[1..])
  }

  function KidWide(wide: Widths, p: Path, f: Frame): real {
    if Child(p, f) in wide then wide[Child(p, f)] else 0.0
  }

  function KidsWide(wide: Widths, p: Path, fs: seq<Frame>): real {
    if fs == [] then 0.0 else KidWide(wide, p, fs[0]) + KidsWide(wide, p, fs[1..])
  }

  lemma {:induction false} InsertKidWide(m: Maps, wide: Widths, p: Path, f: Frame, fs: seq<Frame>)
    ensures KidsWide(wide, p, InsertKid(m, p, f, fs)) == KidWide(wide, p, f) + KidsWide(wide, p, fs)
  {
    if fs == [] || KidValue(m, p, f) >= KidValue(m, p, fs[0]) {
      assert ([f] + fs)[1..] == fs;
    } else {
      InsertKidWide(m, wide, p, f, fs[1..]);
      assert ([fs[0]] + InsertKid(m, p, f, fs[1..]))[1..] == InsertKid(m, p, f, fs[1..]);
    }
  }

  lemma {:induction false} SortKidsWide(m: Maps, wide: Widths, p: Path, fs: seq<Frame>)
    ensures KidsWide(wide, p, SortKids(m, p, fs)) == KidsWide(wide, p, fs)
  {
    if fs != [] {
      SortKidsWide(m, wide, p, fs[1..]);
      InsertKidWide(m, wide, p, fs[0], SortKids(m, p, fs[1..]));
    }
  }

  lemma {:induction false} InsertKidKeeps(m: Maps, p: Path, f: Frame, fs: seq<Frame>)
    ensures multiset(InsertKid(m, p, f, fs)) == multiset{f} + multiset(fs)
  {
    if fs == [] || KidValue(m, p, f) >= KidValue(m, p, fs[0]) {
      assert ([f] + fs)[1..] == fs;
    } else {
      InsertKidKeeps(m, p, f, fs[1..]);
      assert fs == [fs[0]] + fs[1..];
    }
  }

  lemma {:induction false} SortKidsKeeps(m: Maps, p: Path, fs: seq<Frame>)
    ensures multiset(SortKids(m, p, fs)) == multiset(fs)
  {
    if fs != [] {
      SortKidsKeeps(m, p, fs[1..]);
      InsertKidKeeps(m, p, fs[0], SortKids(m, p, fs[1..]));
      assert fs == [fs[0]] + fs[1..];
    }
  }

  lemma SortedMembers(m: Maps, p: Path, fs: seq<Frame>, f: Frame)
    ensures f in SortKids(m, p, fs) <==> f in fs
  {
    SortKidsKeeps(m, p, fs);
    assert f in fs <==> f in multiset(fs);
    assert f in SortKids(m, p, fs) <==> f in multiset(SortKids(m, p, fs));
  }

  /** f was seen before g: it stands before it in the tree's own order. */
  ghost predicate Elder(m: Maps, p: Path, f: Frame, g: Frame) {
    p in m.children && exists i, j :: 0 <= i < j < |m.children[p]| && m.children[p][i] == f && m.children[p][j] == g
  }

  /** The larger child, or of two equal ones the one seen first. */
  ghost predicate Outranks(m: Maps, p: Path, f: Frame, g: Frame) {
    KidValue(m, p, f) > KidValue(m, p, g) || (KidValue(m, p, f) == KidValue(m, p, g) && Elder(m, p, f, g))
  }

  ghost predicate Falling(m: Maps, p: Path, fs: seq<Frame>) {
    forall i, j {:trigger Outranks(m, p, fs[i], fs[j])} | 0 <= i < j < |fs| :: Outranks(m, p, fs[i], fs[j])
  }

  ghost predicate OutranksAll(m: Maps, p: Path, f: Frame, fs: seq<Frame>) {
    forall g {:trigger Outranks(m, p, f, g)} | g in fs :: Outranks(m, p, f, g)
  }

  lemma ConsFalls(m: Maps, p: Path, f: Frame, fs: seq<Frame>)
    requires Falling(m, p, fs) && OutranksAll(m, p, f, fs)
    ensures Falling(m, p, [f] + fs)
  {
    var r := [f] + fs;
    forall i, j | 0 <= i < j < |r| ensures Outranks(m, p, r[i], r[j]) {
      assert r[j] == fs[j - 1];
      if i > 0 { assert Outranks(m, p, fs[i - 1], fs[j - 1]); }
    }
  }

  lemma TailFalling(m: Maps, p: Path, fs: seq<Frame>)
    requires fs != [] && Falling(m, p, fs)
    ensures Falling(m, p, fs[1..]) && OutranksAll(m, p, fs[0], fs[1..])
  {
    var rest := fs[1..];
    forall i, j | 0 <= i < j < |rest| ensures Outranks(m, p, rest[i], rest[j]) { assert Outranks(m, p, fs[i + 1], fs[j + 1]); }
    forall g | g in rest ensures Outranks(m, p, fs[0], g) {
      var j :| 0 <= j < |rest| && rest[j] == g;
      assert Outranks(m, p, fs[0], fs[j + 1]);
    }
  }

  /** A child older than all the others is put before its equals. */
  lemma {:induction false} InsertKidFalls(m: Maps, p: Path, f: Frame, fs: seq<Frame>)
    requires Falling(m, p, fs) && forall g | g in fs :: Elder(m, p, f, g)
    ensures Falling(m, p, InsertKid(m, p, f, fs))
  {
    if fs == [] || KidValue(m, p, f) >= KidValue(m, p, fs[0]) {
      forall g | g in fs ensures Outranks(m, p, f, g) {
        var j :| 0 <= j < |fs| && fs[j] == g;
        if j > 0 { assert Outranks(m, p, fs[0], fs[j]); }
      }
      ConsFalls(m, p, f, fs);
    } else {
      TailFalling(m, p, fs);
      InsertKidFalls(m, p, f, fs[1..]);
      var rest := InsertKid(m, p, f, fs[1..]);
      InsertKidKeeps(m, p, f, fs[1..]);
      forall g | g in rest ensures Outranks(m, p, fs[0], g) {
        assert g in multiset(rest);
        assert g == f || g in fs[1..];
      }
      ConsFalls(m, p, fs[0], rest);
    }
  }

  /** The widest child comes first, and of two equal ones the one seen first. */
  lemma {:induction false} SortKidsFalls(m: Maps, p: Path, k: nat)
    requires p in m.children && k <= |m.children[p]|
    ensures Falling(m, p, SortKids(m, p, m.children[p][k..]))
    decreases |m.children[p]| - k
  {
    var fs := m.children[p][k..];
    if fs != [] {
      var f, rest := fs[0], fs[1..];
      assert rest == m.children[p][k + 1..];
      SortKidsFalls(m, p, k + 1);
      forall g | g in SortKids(m, p, rest) ensures Elder(m, p, f, g) {
        SortedMembers(m, p, rest, g);
        var j :| 0 <= j < |rest| && rest[j] == g;
        assert m.children[p][k] == f && m.children[p][k + 1 + j] == g;
      }
      InsertKidFalls(m, p, f, SortKids(m, p, rest));
    }
  }

  lemma SortedFalls(m: Maps, p: Path)
    requires p in m.children
    ensures Falling(m, p, SortKids(m, p, m.children[p]))
  {
    SortKidsFalls(m, p, 0);
    assert m.children[p][0..] == m.children[p];
  }

  lemma {:induction false} InsertKidDistinct(m: Maps, p: Path, f: Frame, fs: seq<Frame>)
    requires Distinct(fs) && f !in fs
    ensures Distinct(InsertKid(m, p, f, fs))
  {
    if fs != [] && KidValue(m, p, f) < KidValue(m, p, fs[0]) {
      InsertKidDistinct(m, p, f, fs[1..]);
      InsertKidKeeps(m, p, f, fs[1..]);
      var rest := InsertKid(m, p, f, fs[1..]);
      forall j | 0 <= j < |rest| ensures rest[j] != fs[0] {
        assert rest[j] in multiset(rest);
        assert rest[j] == f || rest[j] in fs[1..];
      }
    }
  }

  lemma {:induction false} SortKidsDistinct(m: Maps, p: Path, fs: seq<Frame>)
    requires Distinct(fs)
    ensures Distinct(SortKids(m, p, fs))
  {
    if fs != [] {
      SortKidsDistinct(m, p, fs[1..]);
      SortedMembers(m, p, fs[1..], fs[0]);
      InsertKidDistinct(m, p, fs[0], SortKids(m, p, fs[1..]));
    }
  }

  // ----- children never outgrow their parent -----

  function KidsWeight(stacks: seq<Stack>, p: Path, fs: seq<Frame>): nat {
    if fs == [] then 0 else Weight(stacks, Child(p, fs[0])) + KidsWeight(stacks, p, fs[1..])
  }

  /** What one stack adds to its children's total: its count, if it continues below p in one of them. */
  lemma {:induction false} OneStackWeight(stacks: seq<Stack>, p: Path, fs: seq<Frame>)
    requires stacks != [] && Distinct(fs)
    ensures var last := stacks[|stacks| - 1];
            KidsWeight(stacks, p, fs) == KidsWeight(stacks[..|stacks| - 1], p, fs) +
              if p <= last.frames && |p| < |last.frames| && last.frames[|p|] in fs then last.count else 0
  {
    if fs != [] {
      var last := stacks[|stacks| - 1];
      OneStackWeight(stacks, p, fs[1..]);
      ChildOnPath(p, fs[0], last.frames);
      assert fs == [fs[0]] + fs[1..];
      assert fs[0] !in fs[1..];
    }
  }

  lemma ChildOnPath(p: Path, f: Frame, frames: Path)
    ensures Child(p, f) <= frames <==> p <= frames && |p| < |frames| && frames[|p|] == f
  {
    if Child(p, f) <= frames {
      assert frames[|p|] == Child(p, f)[|p|] && frames[..|p|] == Child(p, f)[..|p|];
    }
  }

  lemma {:induction false} KidsWeightWithin(stacks: seq<Stack>, p: Path, fs: seq<Frame>)
    requires Distinct(fs)
    ensures KidsWeight(stacks, p, fs) <= Weight(stacks, p)
  {
    if stacks == [] {
      NoStacksNoWeight(p, fs);
    } else {
      KidsWeightWithin(stacks[..|stacks| - 1], p, fs);
      OneStackWeight(stacks, p, fs);
    }
  }

  lemma {:induction false} NoStacksNoWeight(p: Path, fs: seq<Frame>)
    ensures KidsWeight([], p, fs) == 0
  {
    if fs != [] { NoStacksNoWeight(p, fs[1..]); }
  }

  lemma {:induction false} KidsTotalIsWeight(m: Maps, stacks: seq<Stack>, p: Path, fs: seq<Frame>)
    requires Counts(m.value, stacks) && AllChildren(m, p, fs)
    ensures KidsTotal(m, p, fs) == KidsWeight(stacks, p, fs)
  {
    if fs != [] { KidsTotalIsWeight(m, stacks, p, fs[1..]); }
  }

  lemma KidsTotalWithin(m: Maps, stacks: seq<Stack>, p: Path)
    requires LinkedMaps(m.value, m.children) && Counts(m.value, stacks) && p in m.value
    ensures KidsTotal(m, p, m.children[p]) <= m.value[p]
  {
    KidsTotalIsWeight(m, stacks, p, m.children[p]);
    KidsWeightWithin(stacks, p, m.children[p]);
  }

  /** The widths of the picture: each node's share of the drawable width. */
  function PictureWidths(m: Maps, scale: real): Widths {
    map p | p in m.value :: Pixels(scale, m.value[p])
  }

  function Pixels(scale: real, n: nat): real {
    scale * (n as real)
  }

  ghost predicate ConservesAt(m: Maps, wide: Widths, p: Path) {
    p in wide && p in m.children ==> wide[p] >= 0.0 && KidsWide(wide, p, m.children[p]) <= wide[p]
  }

  /** No node's children are wider together than the node. */
  ghost predicate Conserves(m: Maps, wide: Widths) {
    forall p :: ConservesAt(m, wide, p)
  }

  lemma Scaled(scale: real, a: nat, b: nat)
    requires scale > 0.0 && a <= b
    ensures 0.0 <= Pixels(scale, a) <= Pixels(scale, b)
  {
    var d := (b as real) - (a as real);
    assert scale * (b as real) == scale * (a as real) + scale * d;
  }

  lemma ScaledSum(scale: real, a: nat, b: nat)
    ensures Pixels(scale, a + b) == Pixels(scale, a) + Pixels(scale, b)
  {
    assert (a + b) as real == (a as real) + (b as real);
  }

  lemma KidPixels(m: Maps, scale: real, p: Path, f: Frame)
    ensures KidWide(PictureWidths(m, scale), p, f) == Pixels(scale, KidValue(m, p, f))
  {
  }

  lemma {:induction false} KidsWideIsTotal(m: Maps, scale: real, p: Path, fs: seq<Frame>)
    ensures KidsWide(PictureWidths(m, scale), p, fs) == Pixels(scale, KidsTotal(m, p, fs))
  {
    if fs != [] {
      KidsWideIsTotal(m, scale, p, fs[1..]);
      KidPixels(m, scale, p, fs[0]);
      ScaledSum(scale, KidValue(m, p, fs[0]), KidsTotal(m, p, fs[1..]));
    }
  }

  lemma PictureConservesAt(m: Maps, stacks: seq<Stack>, scale: real, p: Path)
    requires LinkedMaps(m.value, m.children) && Counts(m.value, stacks) && scale > 0.0 && p in m.value
    ensures 0.0 <= KidsWide(PictureWidths(m, scale), p, m.children[p]) <= Pixels(scale, m.value[p])
  {
    KidsWideIsTotal(m, scale, p, m.children[p]);
    KidsTotalWithin(m, stacks, p);
    Scaled(scale, KidsTotal(m, p, m.children[p]), m.value[p]);
  }

  lemma PictureConserves(m: Maps, stacks: seq<Stack>, scale: real)
    requires LinkedMaps(m.value, m.children) && Counts(m.value, stacks) && scale > 0.0
    ensures Conserves(m, PictureWidths(m, scale))
  {
    var wide := PictureWidths(m, scale);
    forall p ensures ConservesAt(m, wide, p) {
      if p in wide && p in m.children { PictureConservesAt(m, stacks, scale, p); }
    }
  }

  // ----- the layout -----

  ghost function Layout(m: Maps, wide: Widths, bound: nat, p: Path, x: real): seq<Span>
    requires Fits(m, wide, bound) && p in m.value
    decreases bound - |p|, 1, 0
  {
    KidsAreChildren(m, p);
    [Span(p, x, wide[p])] + LayoutKids(m, wide, bound, p, SortKids(m, p, m.children[p]), x)
  }

  lemma KidsAreChildren(m: Maps, p: Path)
    requires LinkedMaps(m.value, m.children) && p in m.value
    ensures AllChildren(m, p, SortKids(m, p, m.children[p]))
  {
    forall f | f in SortKids(m, p, m.children[p]) ensures Child(p, f) in m.value { SortedMembers(m, p, m.children[p], f); }
  }

  ghost function LayoutKids(m: Maps, wide: Widths, bound: nat, p: Path, fs: seq<Frame>, x: real): seq<Span>
    requires Fits(m, wide, bound) && p in m.value && AllChildren(m, p, fs)
    decreases bound - |p|, 0, |fs|
  {
    if fs == [] then []
    else
      var c := Child(p, fs[0]);
      var here := if wide[c] >= CUT then Layout(m, wide, bound, c, x) else [];
      here + LayoutKids(m, wide, bound, p, fs[1..], x + wide[c])
  }

  // ----- where the spans are -----

  ghost predicate Within(spans: seq<Span>, lo: real, hi: real) {
    forall s | s in spans :: lo <= s.x && s.x + s.w <= hi && s.w >= 0.0
  }

  /** A node's spans stay inside its own. */
  lemma {:induction false} LayoutWithin(m: Maps, wide: Widths, bound: nat, p: Path, x: real)
    requires Fits(m, wide, bound) && Conserves(m, wide) && p in m.value
    ensures Within(Layout(m, wide, bound, p, x), x, x + wide[p])
    decreases bound - |p|, 1, 0
  {
    KidsAreChildren(m, p);
    var fs := SortKids(m, p, m.children[p]);
    KidsWithin(m, wide, bound, p, fs, x);
    SortKidsWide(m, wide, p, m.children[p]);
    assert ConservesAt(m, wide, p);
  }

  lemma {:induction false} KidsWideNonneg(m: Maps, wide: Widths, p: Path, fs: seq<Frame>)
    requires Conserves(m, wide) && wide.Keys == m.children.Keys
    ensures KidsWide(wide, p, fs) >= 0.0
  {
    if fs != [] {
      KidsWideNonneg(m, wide, p, fs[1..]);
      assert ConservesAt(m, wide, Child(p, fs[0]));
    }
  }

  lemma WithinJoin(a: seq<Span>, b: seq<Span>, lo: real, mid: real, hi: real)
    requires Within(a, lo, mid) && Within(b, mid, hi) && lo <= mid <= hi
    ensures Within(a + b, lo, hi)
  {
  }

  lemma KidsSplit(m: Maps, wide: Widths, bound: nat, p: Path, fs: seq<Frame>, x: real)
    requires Fits(m, wide, bound) && p in m.value && fs != [] && AllChildren(m, p, fs)
    ensures var c := Child(p, fs[0]);
            && LayoutKids(m, wide, bound, p, fs, x) ==
               DrawChild(m, wide, bound, c, x) + LayoutKids(m, wide, bound, p, fs[1..], x + wide[c])
            && KidsWide(wide, p, fs) == wide[c] + KidsWide(wide, p, fs[1..])
  {
  }

  lemma FirstChild(m: Maps, wide: Widths, bound: nat, p: Path, fs: seq<Frame>)
    requires Fits(m, wide, bound) && Conserves(m, wide) && fs != [] && AllChildren(m, p, fs)
    ensures var c := Child(p, fs[0]); c in m.value && |p| < |c| <= bound && wide[c] >= 0.0
    ensures AllChildren(m, p, fs[1..]) && KidsWide(wide, p, fs[1..]) >= 0.0
  {
    KidsWideNonneg(m, wide, p, fs[1..]);
    assert ConservesAt(m, wide, Child(p, fs[0]));
  }

  lemma {:induction false} KidsWithin(m: Maps, wide: Widths, bound: nat, p: Path, fs: seq<Frame>, x: real)
    requires Fits(m, wide, bound) && Conserves(m, wide) && p in m.value && AllChildren(m, p, fs)
    ensures Within(LayoutKids(m, wide, bound, p, fs, x), x, x + KidsWide(wide, p, fs))
    decreases bound - |p|, 0, |fs|
  {
    if fs != [] {
      var c := Child(p, fs[0]);
      FirstChild(m, wide, bound, p, fs);
      LayoutWithin(m, wide, bound, c, x);
      KidsWithin(m, wide, bound, p, fs[1..], x + wide[c]);
      FirstKidWithin(m, wide, bound, p, fs, x);
    }
  }

  lemma FirstKidWithin(m: Maps, wide: Widths, bound: nat, p: Path, fs: seq<Frame>, x: real)
    requires Fits(m, wide, bound) && p in m.value && fs != [] && AllChildren(m, p, fs)
    requires var c := Child(p, fs[0]);
             && wide[c] >= 0.0 && KidsWide(wide, p, fs[1..]) >= 0.0
             && Within(Layout(m, wide, bound, c, x), x, x + wide[c])
             && Within(LayoutKids(m, wide, bound, p, fs[1..], x + wide[c]), x + wide[c], x + wide[c] + KidsWide(wide, p, fs[1..]))
    ensures Within(LayoutKids(m, wide, bound, p, fs, x), x, x + KidsWide(wide, p, fs))
  {
    var c := Child(p, fs[0]);
    KidsSplit(m, wide, bound, p, fs, x);
    WithinJoin(DrawChild(m, wide, bound, c, x), LayoutKids(m, wide, bound, p, fs[1..], x + wide[c]),
               x, x + wide[c], x + KidsWide(wide, p, fs));
  }

  /** Every span is a node below p, with the width its value calls for. */
  ghost predicate Faithful(m: Maps, wide: Widths, p: Path, spans: seq<Span>) {
    forall s | s in spans :: p <= s.path && s.path in wide && s.w == wide[s.path] && (s.path == p || s.w >= CUT)
  }

  lemma {:induction false} LayoutFaithful(m: Maps, wide: Widths, bound: nat, p: Path, x: real)
    requires Fits(m, wide, bound) && p in m.value
    ensures Faithful(m, wide, p, Layout(m, wide, bound, p, x))
    decreases bound - |p|, 1, 0
  {
    KidsAreChildren(m, p);
    KidsFaithful(m, wide, bound, p, SortKids(m, p, m.children[p]), x);
  }

  lemma {:induction false} KidsFaithful(m: Maps, wide: Widths, bound: nat, p: Path, fs: seq<Frame>, x: real)
    requires Fits(m, wide, bound) && p in m.value && AllChildren(m, p, fs)
    ensures Faithful(m, wide, p, LayoutKids(m, wide, bound, p, fs, x))
    ensures forall s | s in LayoutKids(m, wide, bound, p, fs, x) :: |s.path| > |p| && s.w >= CUT
    decreases bound - |p|, 0, |fs|
  {
    if fs != [] {
      var c := Child(p, fs[0]);
      LayoutFaithful(m, wide, bound, c, x);
      KidsFaithful(m, wide, bound, p, fs[1..], x + wide[c]);
      forall s | s in Layout(m, wide, bound, c, x) ensures p <= s.path && |s.path| > |p| {
        assert s.path[..|c|][..|p|] == s.path[..|p|];
      }
    }
  }

  // ----- each node once, siblings in falling order -----

  /** Two different nodes, and if they are siblings the first outranks the second. */
  ghost predicate InOrder(m: Maps, a: Path, b: Path) {
    a != b && (a != [] && b != [] && Parent(a) == Parent(b) ==> Outranks(m, Parent(a), a[|a| - 1], b[|b| - 1]))
  }

  ghost predicate Ordered(m: Maps, spans: seq<Span>) {
    forall i, j {:trigger InOrder(m, spans[i].path, spans[j].path)} | 0 <= i < j < |spans| :: InOrder(m, spans[i].path, spans[j].path)
  }

  ghost predicate Before(m: Maps, a: seq<Span>, b: seq<Span>) {
    forall s, t {:trigger InOrder(m, s.path, t.path)} | s in a && t in b :: InOrder(m, s.path, t.path)
  }

  lemma OrderedJoin(m: Maps, a: seq<Span>, b: seq<Span>)
    requires Ordered(m, a) && Ordered(m, b) && Before(m, a, b)
    ensures Ordered(m, a + b)
  {
    var ab := a + b;
    forall i, j | 0 <= i < j < |ab| ensures InOrder(m, ab[i].path, ab[j].path) {
      if i < |a| <= j { assert ab[i] in a && ab[j] in b; }
    }
  }

  /** What lies below one child comes in order before what lies below a smaller one. */
  lemma BelowInOrder(m: Maps, p: Path, f: Frame, g: Frame, a: Path, b: Path)
    requires Child(p, f) <= a && p <= b && |b| > |p| && b[|p|] == g && f != g && Outranks(m, p, f, g)
    ensures InOrder(m, a, b)
  {
    assert a[|p|] == f;
    if |a| == |b| == |p| + 1 {
      assert a == Child(p, f) && b == Child(p, g);
      ParentOfChild(p, f);
      ParentOfChild(p, g);
    } else if |a| == |b| {
      assert Parent(a)[|p|] == f && Parent(b)[|p|] == g;
    } else {
      assert |Parent(a)| != |Parent(b)|;
    }
  }

  lemma {:induction false} KidsBelow(m: Maps, wide: Widths, bound: nat, p: Path, fs: seq<Frame>, x: real, s: Span)
    requires Fits(m, wide, bound) && p in m.value && AllChildren(m, p, fs) && s in LayoutKids(m, wide, bound, p, fs, x)
    ensures p <= s.path && |s.path| > |p| && s.path[|p|] in fs
    decreases |fs|
  {
    var c := Child(p, fs[0]);
    if s in LayoutKids(m, wide, bound, p, fs[1..], x + wide[c]) {
      KidsBelow(m, wide, bound, p, fs[1..], x + wide[c], s);
    } else {
      LayoutFaithful(m, wide, bound, c, x);
      assert c <= s.path;
      assert s.path[..|c|][..|p|] == s.path[..|p|];
    }
  }

  lemma {:induction false} LayoutOrdered(m: Maps, wide: Widths, bound: nat, p: Path, x: real)
    requires Fits(m, wide, bound) && p in m.value
    ensures Ordered(m, Layout(m, wide, bound, p, x))
    decreases bound - |p|, 1, 0
  {
    KidsAreChildren(m, p);
    var fs := SortKids(m, p, m.children[p]);
    var kids := LayoutKids(m, wide, bound, p, fs, x);
    SortedFalls(m, p);
    SortKidsDistinct(m, p, m.children[p]);
    KidsOrdered(m, wide, bound, p, fs, x);
    forall s | s in kids ensures InOrder(m, p, s.path) { KidsBelow(m, wide, bound, p, fs, x, s); }
    OrderedJoin(m, [Span(p, x, wide[p])], kids);
  }

  lemma {:induction false} KidsOrdered(m: Maps, wide: Widths, bound: nat, p: Path, fs: seq<Frame>, x: real)
    requires Fits(m, wide, bound) && p in m.value && AllChildren(m, p, fs) && Falling(m, p, fs) && Distinct(fs)
    ensures Ordered(m, LayoutKids(m, wide, bound, p, fs, x))
    decreases bound - |p|, 0, |fs|
  {
    if fs != [] {
      var c := Child(p, fs[0]);
      TailFalls(m, p, fs);
      LayoutOrdered(m, wide, bound, c, x);
      KidsOrdered(m, wide, bound, p, fs[1..], x + wide[c]);
      KidsApart(m, wide, bound, p, fs[0], fs[1..], x, x + wide[c]);
      DrawnOrdered(m, wide, bound, c, x);
      FirstKidOrdered(m, wide, bound, p, fs, x);
    }
  }

  lemma FirstKidOrdered(m: Maps, wide: Widths, bound: nat, p: Path, fs: seq<Frame>, x: real)
    requires Fits(m, wide, bound) && p in m.value && fs != [] && AllChildren(m, p, fs)
    requires var c := Child(p, fs[0]);
             var here, rest := DrawChild(m, wide, bound, c, x), LayoutKids(m, wide, bound, p, fs[1..], x + wide[c]);
             Ordered(m, here) && Ordered(m, rest) && Before(m, here, rest)
    ensures Ordered(m, LayoutKids(m, wide, bound, p, fs, x))
  {
    var c := Child(p, fs[0]);
    KidsSplit(m, wide, bound, p, fs, x);
    OrderedJoin(m, DrawChild(m, wide, bound, c, x), LayoutKids(m, wide, bound, p, fs[1..], x + wide[c]));
  }

  lemma DrawnOrdered(m: Maps, wide: Widths, bound: nat, c: Path, x: real)
    requires Fits(m, wide, bound) && c in m.value && Ordered(m, Layout(m, wide, bound, c, x))
    ensures Ordered(m, DrawChild(m, wide, bound, c, x))
  {
  }

  lemma TailFalls(m: Maps, p: Path, fs: seq<Frame>)
    requires fs != [] && AllChildren(m, p, fs) && Falling(m, p, fs) && Distinct(fs)
    ensures AllChildren(m, p, fs[1..]) && Falling(m, p, fs[1..]) && Distinct(fs[1..]) && Leads(m, p, fs[0], fs[1..])
  {
    TailFalling(m, p, fs);
  }

  /** A child that is none of the others and outranks them all. */
  ghost predicate Leads(m: Maps, p: Path, f: Frame, others: seq<Frame>) {
    f !in others && OutranksAll(m, p, f, others)
  }

  lemma KidsApart(m: Maps, wide: Widths, bound: nat, p: Path, f: Frame, others: seq<Frame>, x: real, y: real)
    requires Fits(m, wide, bound) && p in m.value && Child(p, f) in m.value && AllChildren(m, p, others) && Leads(m, p, f, others)
    ensures Before(m, DrawChild(m, wide, bound, Child(p, f), x), LayoutKids(m, wide, bound, p, others, y))
  {
    var here, rest := DrawChild(m, wide, bound, Child(p, f), x), LayoutKids(m, wide, bound, p, others, y);
    forall a, b | a in here && b in rest ensures InOrder(m, a.path, b.path) {
      DrawnBelow(m, wide, bound, Child(p, f), x, a);
      KidsBelow(m, wide, bound, p, others, y, b);
      BelowInOrder(m, p, f, b.path[|p|], a.path, b.path);
    }
  }

  lemma DrawnBelow(m: Maps, wide: Widths, bound: nat, c: Path, x: real, s: Span)
    requires Fits(m, wide, bound) && c in m.value && s in DrawChild(m, wide, bound, c, x)
    ensures c <= s.path
  {
    LayoutFaithful(m, wide, bound, c, x);
  }

  // ----- rows -----

  /** Two spans of one row: the first ends before the second begins. */
  ghost predicate LeftOf(s: Span, t: Span) {
    |s.path| == |t.path| ==> s.x + s.w <= t.x
  }

  /** Within a row, spans appear from left to right without overlap. */
  ghost predicate RowsInOrder(spans: seq<Span>) {
    forall i, j {:trigger LeftOf(spans[i], spans[j])} | 0 <= i < j < |spans| :: LeftOf(spans[i], spans[j])
  }

  lemma RowsJoin(a: seq<Span>, b: seq<Span>, lo: real, mid: real, hi: real)
    requires RowsInOrder(a) && RowsInOrder(b) && Within(a, lo, mid) && Within(b, mid, hi)
    ensures RowsInOrder(a + b)
  {
    var ab := a + b;
    forall i, j | 0 <= i < j < |ab| ensures LeftOf(ab[i], ab[j]) {
      if j < |a| {
        assert LeftOf(a[i], a[j]);
      } else if |a| <= i {
        assert LeftOf(b[i - |a|], b[j - |a|]);
      } else {
        assert a[i] in a && b[j - |a|] in b;
      }
    }
  }

  lemma {:induction false} LayoutRows(m: Maps, wide: Widths, bound: nat, p: Path, x: real)
    requires Fits(m, wide, bound) && Conserves(m, wide) && p in m.value
    ensures RowsInOrder(Layout(m, wide, bound, p, x))
    decreases bound - |p|, 1, 0
  {
    KidsAreChildren(m, p);
    var fs := SortKids(m, p, m.children[p]);
    var kids := LayoutKids(m, wide, bound, p, fs, x);
    KidsRows(m, wide, bound, p, fs, x);
    KidsFaithful(m, wide, bound, p, fs, x);
    var all := [Span(p, x, wide[p])] + kids;
    forall i, j | 0 <= i < j < |all| ensures LeftOf(all[i], all[j]) {
      assert all[j] in kids;
      if i > 0 { assert LeftOf(kids[i - 1], kids[j - 1]); }
    }
  }

  lemma {:induction false} KidsRows(m: Maps, wide: Widths, bound: nat, p: Path, fs: seq<Frame>, x: real)
    requires Fits(m, wide, bound) && Conserves(m, wide) && p in m.value && AllChildren(m, p, fs)
    ensures RowsInOrder(LayoutKids(m, wide, bound, p, fs, x))
    decreases bound - |p|, 0, |fs|
  {
    if fs != [] {
      var c := Child(p, fs[0]);
      LayoutRows(m, wide, bound, c, x);
      KidsRows(m, wide, bound, p, fs[1..], x + wide[c]);
      FirstKidRows(m, wide, bound, p, fs, x);
    }
  }

  lemma FirstKidRows(m: Maps, wide: Widths, bound: nat, p: Path, fs: seq<Frame>, x: real)
    requires Fits(m, wide, bound) && Conserves(m, wide) && p in m.value && fs != [] && AllChildren(m, p, fs)
    requires var c := Child(p, fs[0]);
             RowsInOrder(Layout(m, wide, bound, c, x)) && RowsInOrder(LayoutKids(m, wide, bound, p, fs[1..], x + wide[c]))
    ensures RowsInOrder(LayoutKids(m, wide, bound, p, fs, x))
  {
    var c := Child(p, fs[0]);
    var mid := x + wide[c];
    LayoutWithin(m, wide, bound, c, x);
    KidsWithin(m, wide, bound, p, fs[1..], mid);
    KidsSplit(m, wide, bound, p, fs, x);
    RowsJoin(DrawChild(m, wide, bound, c, x), LayoutKids(m, wide, bound, p, fs[1..], mid), x, mid, mid + KidsWide(wide, p, fs[1..]));
  }

  // ----- nesting -----

  /** s lies in the span drawn for its parent. */
  ghost predicate Nested(spans: seq<Span>, s: Span)
    requires s.path != []
  {
    exists t :: t in spans && t.path == Parent(s.path) && t.x <= s.x && s.x + s.w <= t.x + t.w
  }

  lemma {:induction false} LayoutNested(m: Maps, wide: Widths, bound: nat, p: Path, x: real, s: Span)
    requires Fits(m, wide, bound) && Conserves(m, wide) && p in m.value
    requires s in Layout(m, wide, bound, p, x) && s.path != p
    ensures s.path != [] && Nested(Layout(m, wide, bound, p, x), s)
    decreases bound - |p|, 1, 0
  {
    KidsAreChildren(m, p);
    var fs := SortKids(m, p, m.children[p]);
    var kids := LayoutKids(m, wide, bound, p, fs, x);
    var all := Layout(m, wide, bound, p, x);
    assert all == [Span(p, x, wide[p])] + kids;
    assert s in kids;
    KidsFaithful(m, wide, bound, p, fs, x);
    KidsNested(m, wide, bound, p, fs, x, s);
    LayoutWithin(m, wide, bound, p, x);
    if Parent(s.path) == p {
      assert all[0] in all && all[0].path == p;
    } else {
      var t :| t in kids && t.path == Parent(s.path) && t.x <= s.x && s.x + s.w <= t.x + t.w;
      assert t in all;
    }
  }

  lemma {:induction false} KidsNested(m: Maps, wide: Widths, bound: nat, p: Path, fs: seq<Frame>, x: real, s: Span)
    requires Fits(m, wide, bound) && Conserves(m, wide) && p in m.value && AllChildren(m, p, fs)
    requires s in LayoutKids(m, wide, bound, p, fs, x)
    ensures s.path != [] && (Parent(s.path) == p || Nested(LayoutKids(m, wide, bound, p, fs, x), s))
    decreases bound - |p|, 0, |fs|
  {
    var c := Child(p, fs[0]);
    var mid := x + wide[c];
    var here := if wide[c] >= CUT then Layout(m, wide, bound, c, x) else [];
    var rest := LayoutKids(m, wide, bound, p, fs[1..], mid);
    assert LayoutKids(m, wide, bound, p, fs, x) == here + rest;
    if s in here {
      if s.path == c {
        ParentOfChild(p, fs[0]);
      } else {
        LayoutNested(m, wide, bound, c, x, s);
        var t :| t in here && t.path == Parent(s.path) && t.x <= s.x && s.x + s.w <= t.x + t.w;
        assert t in here + rest;
      }
    } else {
      KidsNested(m, wide, bound, p, fs[1..], mid, s);
      if Parent(s.path) != p {
        var t :| t in rest && t.path == Parent(s.path) && t.x <= s.x && s.x + s.w <= t.x + t.w;
        assert t in here + rest;
      }
    }
  }

  // ----- no gaps -----

  /** t is the parent of s and starts where s does, or a sibling of s and ends where s starts. */
  ghost predicate Against(t: Span, s: Span)
    requires s.path != []
  {
    || (t.path == Parent(s.path) && t.x == s.x)
    || (t.path != [] && Parent(t.path) == Parent(s.path) && t.x + t.w == s.x)
  }

  ghost predicate Packed(spans: seq<Span>, s: Span)
    requires s.path != []
  {
    exists t :: t in spans && Against(t, s)
  }

  ghost predicate NoSmaller(m: Maps, wide: Widths, a: Path, b: Path) {
    a in m.value && b in m.value && a in wide && b in wide && m.value[a] >= m.value[b] ==> wide[a] >= wide[b]
  }

  /** A larger value is never narrower. */
  ghost predicate Scales(m: Maps, wide: Widths) {
    forall a, b :: NoSmaller(m, wide, a, b)
  }

  lemma PictureScales(m: Maps, scale: real)
    requires scale > 0.0
    ensures Scales(m, PictureWidths(m, scale))
  {
    forall a, b ensures NoSmaller(m, PictureWidths(m, scale), a, b) {
      if a in m.value && b in m.value && m.value[a] >= m.value[b] { Scaled(scale, m.value[b], m.value[a]); }
    }
  }

  /** Each child starts at its parent's left edge or where its larger neighbour ends. */
  lemma {:induction false} LayoutPacked(m: Maps, wide: Widths, bound: nat, p: Path, x: real, s: Span)
    requires Fits(m, wide, bound) && Scales(m, wide) && p in m.value
    requires s in Layout(m, wide, bound, p, x) && s.path != p
    ensures s.path != [] && Packed(Layout(m, wide, bound, p, x), s)
    decreases bound - |p|, 1, 0
  {
    KidsAreChildren(m, p);
    var fs := SortKids(m, p, m.children[p]);
    var kids := LayoutKids(m, wide, bound, p, fs, x);
    var all := Layout(m, wide, bound, p, x);
    assert all == [Span(p, x, wide[p])] + kids;
    assert s in kids;
    SortedFalls(m, p);
    SortKidsDistinct(m, p, m.children[p]);
    KidsPacked(m, wide, bound, p, fs, x, s);
    if Parent(s.path) == p && s.x == x {
      assert all[0] in all && Against(all[0], s);
    } else {
      var t :| t in kids && Against(t, s);
      assert t in all;
    }
  }

  lemma {:induction false} KidsPacked(m: Maps, wide: Widths, bound: nat, p: Path, fs: seq<Frame>, x: real, s: Span)
    requires Fits(m, wide, bound) && Scales(m, wide) && p in m.value
    requires AllChildren(m, p, fs) && Falling(m, p, fs) && Distinct(fs)
    requires s in LayoutKids(m, wide, bound, p, fs, x)
    ensures s.path != [] && ((Parent(s.path) == p && s.x == x) || Packed(LayoutKids(m, wide, bound, p, fs, x), s))
    decreases bound - |p|, 0, |fs|
  {
    var c := Child(p, fs[0]);
    var here, rest := DrawChild(m, wide, bound, c, x), LayoutKids(m, wide, bound, p, fs[1..], x + wide[c]);
    KidsSplit(m, wide, bound, p, fs, x);
    if s in here {
      if s.path == c {
        OwnSpan(m, wide, bound, c, x, s);
        ParentOfChild(p, fs[0]);
      } else {
        LayoutPacked(m, wide, bound, c, x, s);
        var t :| t in here && Against(t, s);
        assert t in here + rest;
      }
    } else {
      TailFalls(m, p, fs);
      KidsPacked(m, wide, bound, p, fs[1..], x + wide[c], s);
      if Parent(s.path) == p && s.x == x + wide[c] {
        FirstIsDrawn(m, wide, bound, p, fs, x, s);
        var t := Span(c, x, wide[c]);
        ParentOfChild(p, fs[0]);
        assert t in here + rest && Against(t, s);
      } else {
        var t :| t in rest && Against(t, s);
        assert t in here + rest;
      }
    }
  }

  /** A node's own span is the one at its left edge. */
  lemma OwnSpan(m: Maps, wide: Widths, bound: nat, c: Path, x: real, s: Span)
    requires Fits(m, wide, bound) && c in m.value && s in Layout(m, wide, bound, c, x) && s.path == c
    ensures s == Span(c, x, wide[c])
  {
    KidsAreChildren(m, c);
    var fs := SortKids(m, c, m.children[c]);
    if s in LayoutKids(m, wide, bound, c, fs, x) { KidsFaithful(m, wide, bound, c, fs, x); }
  }

  /** A child is drawn beside a later, smaller one that is. */
  lemma FirstIsDrawn(m: Maps, wide: Widths, bound: nat, p: Path, fs: seq<Frame>, x: real, s: Span)
    requires Fits(m, wide, bound) && Scales(m, wide) && p in m.value
    requires fs != [] && AllChildren(m, p, fs) && Leads(m, p, fs[0], fs[1..])
    requires s in LayoutKids(m, wide, bound, p, fs[1..], x + wide[Child(p, fs[0])]) && s.path != [] && Parent(s.path) == p
    ensures Span(Child(p, fs[0]), x, wide[Child(p, fs[0])]) in DrawChild(m, wide, bound, Child(p, fs[0]), x)
  {
    var c := Child(p, fs[0]);
    KidsBelow(m, wide, bound, p, fs[1..], x + wide[c], s);
    KidsFaithful(m, wide, bound, p, fs[1..], x + wide[c]);
    assert s.path == Child(p, s.path[|p|]);
    assert Outranks(m, p, fs[0], s.path[|p|]);
    assert NoSmaller(m, wide, c, s.path);
    KidsAreChildren(m, c);
    assert Layout(m, wide, bound, c, x)[0] == Span(c, x, wide[c]);
  }

  // ----- completeness -----

  ghost predicate Drawn(spans: seq<Span>, q: Path) {
    exists s :: s in spans && s.path == q
  }

  lemma {:induction false} PrefixInTree(m: Maps, q: Path, k: nat)
    requires Rooted(m.value) && q in m.value && k <= |q|
    ensures q[..k] in m.value
    decreases |q|
  {
    if k < |q| {
      PrefixInTree(m, Parent(q), k);
      assert Parent(q)[..k] == q[..k];
    } else {
      assert q[..k] == q;
    }
  }

  lemma {:induction false} KidWithinTotal(m: Maps, wide: Widths, p: Path, fs: seq<Frame>, f: Frame)
    requires f in fs
    requires Conserves(m, wide) && wide.Keys == m.children.Keys
    ensures KidWide(wide, p, f) <= KidsWide(wide, p, fs)
  {
    KidsWideNonneg(m, wide, p, fs[1..]);
    assert ConservesAt(m, wide, Child(p, fs[0]));
    if fs[0] != f { KidWithinTotal(m, wide, p, fs[1..], f); }
  }

  lemma ChildNarrower(m: Maps, wide: Widths, p: Path, f: Frame)
    requires LinkedMaps(m.value, m.children) && wide.Keys == m.value.Keys && Conserves(m, wide)
    requires p in wide && Child(p, f) in wide
    ensures wide[Child(p, f)] <= wide[p]
  {
    assert f in m.children[p] && ConservesAt(m, wide, p);
    KidWithinTotal(m, wide, p, m.children[p], f);
  }

  ghost predicate Narrowing(wide: Widths) {
    forall q | q in wide && q != [] :: Parent(q) in wide && wide[q] <= wide[Parent(q)]
  }

  lemma TreeNarrows(m: Maps, wide: Widths)
    requires LinkedMaps(m.value, m.children) && wide.Keys == m.value.Keys && Conserves(m, wide)
    ensures Narrowing(wide)
  {
    forall q | q in wide && q != [] ensures Parent(q) in wide && wide[q] <= wide[Parent(q)] {
      assert q == Child(Parent(q), q[|q| - 1]);
      ChildNarrower(m, wide, Parent(q), q[|q| - 1]);
    }
  }

  /** Widths fall along a path. */
  lemma {:induction false} WidthsFall(wide: Widths, q: Path, k: nat)
    requires Narrowing(wide) && q in wide && k <= |q|
    ensures q[..k] in wide && wide[q] <= wide[q[..k]]
    decreases |q|
  {
    if k < |q| {
      WidthsFall(wide, Parent(q), k);
      assert Parent(q)[..k] == q[..k];
    } else {
      assert q[..k] == q;
    }
  }

  lemma PrefixWider(m: Maps, wide: Widths, q: Path, k: nat)
    requires LinkedMaps(m.value, m.children) && wide.Keys == m.value.Keys && Conserves(m, wide) && q in wide && k <= |q|
    ensures q[..k] in wide && wide[q] <= wide[q[..k]]
  {
    TreeNarrows(m, wide);
    WidthsFall(wide, q, k);
  }

  /** A wide enough node lies below a wide enough child. */
  lemma WideBelow(m: Maps, wide: Widths, p: Path, f: Frame, q: Path)
    requires LinkedMaps(m.value, m.children) && wide.Keys == m.value.Keys && Conserves(m, wide)
    requires q in wide && p <= q && |p| < |q| && q[|p|] == f && wide[q] >= CUT
    ensures Child(p, f) in wide && wide[Child(p, f)] >= CUT && Child(p, f) <= q
  {
    assert q[..|p| + 1] == Child(p, f);
    PrefixWider(m, wide, q, |p| + 1);
  }

  /** Every node wide enough to show is drawn. */
  lemma {:induction false} LayoutComplete(m: Maps, wide: Widths, bound: nat, p: Path, x: real, q: Path)
    requires Fits(m, wide, bound) && Conserves(m, wide) && p in m.value
    requires q in m.value && p <= q && (q == p || wide[q] >= CUT)
    ensures Drawn(Layout(m, wide, bound, p, x), q)
    decreases bound - |p|, 1, 0
  {
    KidsAreChildren(m, p);
    var fs := SortKids(m, p, m.children[p]);
    var all := Layout(m, wide, bound, p, x);
    assert all == [Span(p, x, wide[p])] + LayoutKids(m, wide, bound, p, fs, x);
    if q == p {
      assert all[0] in all;
    } else {
      var f := q[|p|];
      assert q[..|p| + 1] == Child(p, f);
      PrefixInTree(m, q, |p| + 1);
      SortedMembers(m, p, m.children[p], f);
      KidsComplete(m, wide, bound, p, fs, x, q);
      var s :| s in LayoutKids(m, wide, bound, p, fs, x) && s.path == q;
      assert s in all;
    }
  }

  lemma {:induction false} KidsComplete(m: Maps, wide: Widths, bound: nat, p: Path, fs: seq<Frame>, x: real, q: Path)
    requires Fits(m, wide, bound) && Conserves(m, wide) && p in m.value && AllChildren(m, p, fs)
    requires q in m.value && p <= q && |p| < |q| && q[|p|] in fs && wide[q] >= CUT
    ensures Drawn(LayoutKids(m, wide, bound, p, fs, x), q)
    decreases bound - |p|, 0, |fs|
  {
    var c := Child(p, fs[0]);
    var mid := x + wide[c];
    var here := if wide[c] >= CUT then Layout(m, wide, bound, c, x) else [];
    var rest := LayoutKids(m, wide, bound, p, fs[1..], mid);
    assert LayoutKids(m, wide, bound, p, fs, x) == here + rest;
    if q[|p|] == fs[0] {
      WideBelow(m, wide, p, fs[0], q);
      LayoutComplete(m, wide, bound, c, x, q);
      var s :| s in here && s.path == q;
      assert s in here + rest;
    } else {
      KidsComplete(m, wide, bound, p, fs[1..], mid, q);
      var s :| s in rest && s.path == q;
      assert s in here + rest;
    }
  }

  // ----- the drawing code -----

  /** cw = w * child / node is the child's own share of the picture. */
  lemma ShareOfShare(scale: real, node: nat, child: nat)
    requires node > 0
    ensures Pixels(scale, node) * (child as real) / (node as real) == Pixels(scale, child)
  {
    var n, c := node as real, child as real;
    assert Pixels(scale, node) * c == Pixels(scale, child) * n;
    assert Pixels(scale, child) * n / n == Pixels(scale, child);
  }

  ghost function DrawChild(m: Maps, wide: Widths, bound: nat, c: Path, x: real): seq<Span>
    requires Fits(m, wide, bound) && c in m.value
  {
    if wide[c] >= CUT then Layout(m, wide, bound, c, x) else []
  }

  /** Drawing the next child moves it from what is left to what is done. */
  lemma NextChild(m: Maps, wide: Widths, bound: nat, p: Path, kids: seq<Frame>, i: nat, x: real, out: seq<Span>)
    requires Fits(m, wide, bound) && p in m.value && i < |kids| && AllChildren(m, p, kids[i..])
    ensures Child(p, kids[i]) in m.value && AllChildren(m, p, kids[i + 1..])
    ensures var c := Child(p, kids[i]);
            out + LayoutKids(m, wide, bound, p, kids[i..], x) ==
            out + DrawChild(m, wide, bound, c, x) + LayoutKids(m, wide, bound, p, kids[i + 1..], x + wide[c])
  {
    assert kids[i..][0] == kids[i] && kids[i..][1..] == kids[i + 1..];
    assert kids[i] in kids[i..];
    forall f | f in kids[i + 1..] ensures f in kids[i..] {}
    var c := Child(p, kids[i]);
    var here, rest := DrawChild(m, wide, bound, c, x), LayoutKids(m, wide, bound, p, kids[i + 1..], x + wide[c]);
    assert out + (here + rest) == out + here + rest;
  }

  /** Draw a node and everything below it, left to right. */
  method Emit(m: Maps, ghost scale: real, ghost bound: nat, p: Path, x: real, w: real, drawn: seq<Span>) returns (out: seq<Span>)
    requires Fits(m, PictureWidths(m, scale), bound) && p in m.value && m.value[p] > 0
    requires w == Pixels(scale, m.value[p])
    ensures out == drawn + Layout(m, PictureWidths(m, scale), bound, p, x)
    decreases bound - |p|
  {
    ghost var wide := PictureWidths(m, scale);
    ghost var goal := drawn + Layout(m, wide, bound, p, x);
    out := drawn + [Span(p, x, w)];
    var childX := x;
    var kids := SortKids(m, p, m.children[p]);
    KidsAreChildren(m, p);
    assert kids[0..] == kids;
    for i := 0 to |kids|
      invariant AllChildren(m, p, kids[i..])
      invariant out + LayoutKids(m, wide, bound, p, kids[i..], childX) == goal
    {
      NextChild(m, wide, bound, p, kids, i, childX, out);
      out, childX := EmitChild(m, scale, bound, p, kids[i], childX, w, out);
    }
  }

  /** One turn of the loop over the children. */
  method EmitChild(m: Maps, ghost scale: real, ghost bound: nat, p: Path, f: Frame, x: real, w: real, drawn: seq<Span>)
    returns (out: seq<Span>, next: real)
    requires Fits(m, PictureWidths(m, scale), bound) && p in m.value && m.value[p] > 0 && Child(p, f) in m.value
    requires w == Pixels(scale, m.value[p])
    ensures out == drawn + DrawChild(m, PictureWidths(m, scale), bound, Child(p, f), x)
    ensures next == x + PictureWidths(m, scale)[Child(p, f)]
    decreases bound - |p|, 0
  {
    var c := Child(p, f);
    var cw := if m.value[p] > 0 then w * (m.value[c] as real) / (m.value[p] as real) else 0.0;
    ShareOfShare(scale, m.value[p], m.value[c]);
    out := drawn;
    if cw >= CUT {
      assert m.value[c] > 0;
      out := Emit(m, scale, bound, c, x, cw, out);
    }
    next := x + cw;
  }
}
