/** The whole picture: from collapsed stacks to spans on a canvas. */
module Flamegraph {
  import opened FlameTree
  import opened FlameLayout

  /** What is drawn for a node. */
  datatype Rect = Rect(x: real, y: int, w: real, h: int)

  /** max() of no stacks raises, and so does the percentage of an empty total. */
  datatype Picture = NoStacks | NoSamples | Svg(height: int, spans: seq<Span>, rects: seq<Rect>)

  const DRAWABLE: real := (WIDTH - 2 * PAD) as real

  /** A node's exact width: its share of the drawable width. */
  function Share(stacks: seq<Stack>, p: Path): real
    requires Weight(stacks, []) > 0
  {
    DRAWABLE * (Weight(stacks, p) as real) / (Weight(stacks, []) as real)
  }

  function MaxDepth(stacks: seq<Stack>): nat {
    if stacks == [] then 0
    else
      var d, n := MaxDepth(stacks[..|stacks| - 1]), |stacks[|stacks| - 1].frames|;
      if n > d then n else d
  }

  function RowTop(height: int, depth: nat): int {
    height - 24 - depth * ROW
  }

  /** The drawn rectangle leaves a gap, but never vanishes. */
  function RectWidth(s: Span): real {
    if s.w - 0.4 > 0.2 then s.w - 0.4 else 0.2
  }

  function RectOf(height: int, s: Span): Rect {
    Rect(s.x, RowTop(height, |s.path|), RectWidth(s), ROW - 2)
  }

  ghost predicate IsFlamegraph(stacks: seq<Stack>, height: int, spans: seq<Span>)
    requires Weight(stacks, []) > 0
  {
    // every width is the node's exact share, and every node at least 0.2 wide is drawn, with the root
    && (forall s | s in spans :: s.w == Share(stacks, s.path))
    && (forall p :: Drawn(spans, p) <==> Seen(stacks, p) && (p == [] || Share(stacks, p) >= 0.2))
    // the root comes first, from margin to margin
    && spans != [] && spans[0] == Span([], 10.0, 1180.0)
    // each node is drawn once, of two siblings the larger is drawn first, and of two equal ones the one seen first
    && (forall i, j | 0 <= i < j < |spans| :: LargerFirst(stacks, spans[i].path, spans[j].path))
    // rows run from left to right without overlap, and children stay in their parent's span
    && RowsInOrder(spans)
    && (forall s | s in spans && s.path != [] :: Nested(spans, s))
    // a child starts where its parent does or where a sibling ends
    && (forall s | s in spans && s.path != [] :: Packed(spans, s))
    // everything is on the canvas, below the title
    && (forall s | s in spans :: OnCanvas(height, s))
  }

  ghost predicate LargerFirst(stacks: seq<Stack>, a: Path, b: Path) {
    a != b && (a != [] && b != [] && Parent(a) == Parent(b) ==>
                 Weight(stacks, a) > Weight(stacks, b) || (Weight(stacks, a) == Weight(stacks, b) && SeenFirst(stacks, a, b)))
  }

  ghost predicate OnCanvas(height: int, s: Span) {
    && PAD as real <= s.x && s.x + s.w <= (WIDTH - PAD) as real && RectWidth(s) <= s.w
    && 18 < RowTop(height, |s.path|) && RowTop(height, |s.path|) + ROW - 2 <= height
  }

  lemma {:induction false} DepthBounds(stacks: seq<Stack>, p: Path)
    requires Seen(stacks, p)
    ensures |p| <= MaxDepth(stacks)
  {
    if stacks != [] && p != [] {
      var k :| 0 <= k < |stacks| && p <= stacks[k].frames;
      if k < |stacks| - 1 {
        assert stacks[..|stacks| - 1][k] == stacks[k];
        DepthBounds(stacks[..|stacks| - 1], p);
      }
    }
  }

  /** The length of the longest stack. */
  ghost predicate Deepest(stacks: seq<Stack>, d: nat) {
    && (exists k :: 0 <= k < |stacks| && |stacks[k].frames| == d)
    && (forall k | 0 <= k < |stacks| :: |stacks[k].frames| <= d)
  }

  lemma {:induction false} DepthIsDeepest(stacks: seq<Stack>)
    requires stacks != []
    ensures Deepest(stacks, MaxDepth(stacks))
  {
    var n := |stacks| - 1;
    var init := stacks[..n];
    if n > 0 {
      DepthIsDeepest(init);
      var k :| 0 <= k < n && |init[k].frames| == MaxDepth(init);
      assert stacks[k] == init[k];
      forall j | 0 <= j < n ensures |stacks[j].frames| <= MaxDepth(init) { assert init[j] == stacks[j]; }
    }
  }

  lemma PixelsAreShares(total: nat, n: nat)
    requires total > 0
    ensures Pixels(DRAWABLE / (total as real), n) == DRAWABLE * (n as real) / (total as real)
  {
    var t, k := total as real, n as real;
    var q := DRAWABLE / t;
    assert q * t == DRAWABLE;
    assert q * k * t == DRAWABLE * k;
    assert q * k == DRAWABLE * k / t;
  }

  lemma RootIsDrawable(total: nat)
    requires total > 0
    ensures Pixels(DRAWABLE / (total as real), total) == DRAWABLE && DRAWABLE / (total as real) > 0.0
  {
    PixelsAreShares(total, total);
  }

  /** A built tree with the widths of the picture. */
  ghost predicate Scene(m: Maps, wide: Widths, stacks: seq<Stack>) {
    && Fits(m, wide, MaxDepth(stacks)) && Conserves(m, wide) && Counts(m.value, stacks)
    && [] in wide && wide[[]] == DRAWABLE
  }

  lemma PictureIsScene(m: Maps, stacks: seq<Stack>, scale: real)
    requires LinkedMaps(m.value, m.children) && Counts(m.value, stacks) && Weight(stacks, []) > 0
    requires scale == DRAWABLE / (Weight(stacks, []) as real)
    ensures Scene(m, PictureWidths(m, scale), stacks)
  {
    TreeFits(m, stacks, scale);
    RootIsDrawable(Weight(stacks, []));
    PictureConserves(m, stacks, scale);
  }

  lemma WidthIsShare(m: Maps, stacks: seq<Stack>, scale: real, p: Path)
    requires Counts(m.value, stacks) && Weight(stacks, []) > 0 && p in m.value
    requires scale == DRAWABLE / (Weight(stacks, []) as real)
    ensures PictureWidths(m, scale)[p] == Share(stacks, p)
  {
    PixelsAreShares(Weight(stacks, []), Weight(stacks, p));
  }

  /** Spans of the picture: where they are, and how wide. */
  lemma SpanOnCanvas(m: Maps, wide: Widths, stacks: seq<Stack>, s: Span)
    requires Scene(m, wide, stacks) && s in Layout(m, wide, MaxDepth(stacks), [], PAD as real)
    ensures s.path in wide && s.w == wide[s.path] && OnCanvas((MaxDepth(stacks) + 1) * ROW + 40, s)
  {
    LayoutFaithful(m, wide, MaxDepth(stacks), [], PAD as real);
    LayoutWithin(m, wide, MaxDepth(stacks), [], PAD as real);
    DepthBounds(stacks, s.path);
    RowFits(MaxDepth(stacks), |s.path|);
  }

  lemma DrawnIff(m: Maps, wide: Widths, stacks: seq<Stack>, p: Path)
    requires Scene(m, wide, stacks)
    ensures Drawn(Layout(m, wide, MaxDepth(stacks), [], PAD as real), p) <==> p in wide && (p == [] || wide[p] >= CUT)
  {
    var spans := Layout(m, wide, MaxDepth(stacks), [], PAD as real);
    LayoutFaithful(m, wide, MaxDepth(stacks), [], PAD as real);
    if p in wide && (p == [] || wide[p] >= CUT) { LayoutComplete(m, wide, MaxDepth(stacks), [], PAD as real, p); }
  }

  /** The layout of a built tree is the picture. */
  lemma LayoutIsFlamegraph(m: Maps, stacks: seq<Stack>, scale: real)
    requires LinkedMaps(m.value, m.children) && Counts(m.value, stacks) && InSeenOrder(m.children, stacks) && Weight(stacks, []) > 0
    requires scale == DRAWABLE / (Weight(stacks, []) as real)
    ensures Scene(m, PictureWidths(m, scale), stacks)
    ensures IsFlamegraph(stacks, (MaxDepth(stacks) + 1) * ROW + 40,
                         Layout(m, PictureWidths(m, scale), MaxDepth(stacks), [], PAD as real))
  {
    RootIsDrawable(Weight(stacks, []));
    PictureIsScene(m, stacks, scale);
    PictureIsShared(m, stacks, scale);
    SpansAreShares(m, PictureWidths(m, scale), stacks);
    SpansNest(m, PictureWidths(m, scale), MaxDepth(stacks));
    SpansOrdered(m, PictureWidths(m, scale), stacks);
    PictureScales(m, scale);
    SpansPacked(m, PictureWidths(m, scale), MaxDepth(stacks));
  }

  lemma SpansPacked(m: Maps, wide: Widths, bound: nat)
    requires Fits(m, wide, bound) && Scales(m, wide) && [] in m.value
    ensures var spans := Layout(m, wide, bound, [], PAD as real);
            forall s | s in spans && s.path != [] :: Packed(spans, s)
  {
    var spans := Layout(m, wide, bound, [], PAD as real);
    forall s | s in spans && s.path != [] ensures Packed(spans, s) { LayoutPacked(m, wide, bound, [], PAD as real, s); }
  }

  lemma SpansOrdered(m: Maps, wide: Widths, stacks: seq<Stack>)
    requires Scene(m, wide, stacks) && InSeenOrder(m.children, stacks)
    ensures var spans := Layout(m, wide, MaxDepth(stacks), [], PAD as real);
            forall i, j | 0 <= i < j < |spans| :: LargerFirst(stacks, spans[i].path, spans[j].path)
  {
    var spans := Layout(m, wide, MaxDepth(stacks), [], PAD as real);
    LayoutOrdered(m, wide, MaxDepth(stacks), [], PAD as real);
    LayoutFaithful(m, wide, MaxDepth(stacks), [], PAD as real);
    forall i, j | 0 <= i < j < |spans| ensures LargerFirst(stacks, spans[i].path, spans[j].path) {
      assert spans[i] in spans && spans[j] in spans;
      OrderIsLargerFirst(m, stacks, spans[i].path, spans[j].path);
    }
  }

  lemma OrderIsLargerFirst(m: Maps, stacks: seq<Stack>, a: Path, b: Path)
    requires Counts(m.value, stacks) && InSeenOrder(m.children, stacks) && a in m.value && b in m.value && InOrder(m, a, b)
    ensures LargerFirst(stacks, a, b)
  {
    if a != [] { assert Child(Parent(a), a[|a| - 1]) == a; }
    if b != [] { assert Child(Parent(b), b[|b| - 1]) == b; }
  }

  /** The widths are the shares. */
  ghost predicate Shared(wide: Widths, stacks: seq<Stack>) {
    Weight(stacks, []) > 0 && forall p | p in wide :: wide[p] == Share(stacks, p)
  }

  lemma PictureIsShared(m: Maps, stacks: seq<Stack>, scale: real)
    requires Counts(m.value, stacks) && Weight(stacks, []) > 0 && scale == DRAWABLE / (Weight(stacks, []) as real)
    ensures Shared(PictureWidths(m, scale), stacks)
  {
    forall p | p in PictureWidths(m, scale) ensures PictureWidths(m, scale)[p] == Share(stacks, p) { WidthIsShare(m, stacks, scale, p); }
  }

  lemma SpansAreShares(m: Maps, wide: Widths, stacks: seq<Stack>)
    requires Scene(m, wide, stacks) && Shared(wide, stacks)
    ensures var spans := Layout(m, wide, MaxDepth(stacks), [], PAD as real);
            && (forall s | s in spans :: s.w == Share(stacks, s.path) && OnCanvas((MaxDepth(stacks) + 1) * ROW + 40, s))
            && (forall p :: Drawn(spans, p) <==> Seen(stacks, p) && (p == [] || Share(stacks, p) >= CUT))
  {
    var spans := Layout(m, wide, MaxDepth(stacks), [], PAD as real);
    forall s | s in spans ensures s.w == Share(stacks, s.path) && OnCanvas((MaxDepth(stacks) + 1) * ROW + 40, s) {
      SpanIsShare(m, wide, stacks, s);
    }
    forall p ensures Drawn(spans, p) <==> Seen(stacks, p) && (p == [] || Share(stacks, p) >= CUT) {
      DrawnIsShare(m, wide, stacks, p);
    }
  }

  lemma SpanIsShare(m: Maps, wide: Widths, stacks: seq<Stack>, s: Span)
    requires Scene(m, wide, stacks) && Shared(wide, stacks) && s in Layout(m, wide, MaxDepth(stacks), [], PAD as real)
    ensures s.w == Share(stacks, s.path) && OnCanvas((MaxDepth(stacks) + 1) * ROW + 40, s)
  {
    SpanOnCanvas(m, wide, stacks, s);
  }

  lemma DrawnIsShare(m: Maps, wide: Widths, stacks: seq<Stack>, p: Path)
    requires Scene(m, wide, stacks) && Shared(wide, stacks)
    ensures Drawn(Layout(m, wide, MaxDepth(stacks), [], PAD as real), p) <==> Seen(stacks, p) && (p == [] || Share(stacks, p) >= CUT)
  {
    DrawnIff(m, wide, stacks, p);
  }

  lemma SpansNest(m: Maps, wide: Widths, bound: nat)
    requires Fits(m, wide, bound) && Conserves(m, wide) && [] in m.value
    ensures var spans := Layout(m, wide, bound, [], PAD as real);
            RowsInOrder(spans) && forall s | s in spans && s.path != [] :: Nested(spans, s)
  {
    var spans := Layout(m, wide, bound, [], PAD as real);
    LayoutRows(m, wide, bound, [], PAD as real);
    forall s | s in spans && s.path != [] ensures Nested(spans, s) { LayoutNested(m, wide, bound, [], PAD as real, s); }
  }

  lemma TreeFits(m: Maps, stacks: seq<Stack>, scale: real)
    requires LinkedMaps(m.value, m.children) && Counts(m.value, stacks)
    ensures Fits(m, PictureWidths(m, scale), MaxDepth(stacks)) && [] in m.value
  {
    forall p | p in m.value ensures |p| <= MaxDepth(stacks) { DepthBounds(stacks, p); }
  }

  lemma RowFits(bound: nat, depth: nat)
    requires depth <= bound
    ensures var height := (bound + 1) * ROW + 40;
            18 < RowTop(height, depth) && RowTop(height, depth) + ROW - 2 <= height
  {
  }

  /** total and max_depth, as the source's two passes compute them. */
  method Measure(stacks: seq<Stack>) returns (total: nat, maxDepth: nat)
    ensures total == Weight(stacks, []) && maxDepth == MaxDepth(stacks)
  {
    total, maxDepth := 0, 0;
    for k := 0 to |stacks|
      invariant total == Weight(stacks[..k], []) && maxDepth == MaxDepth(stacks[..k])
    {
      assert stacks[..k + 1][..k] == stacks[..k];
      total := total + stacks[k].count;
      if |stacks[k].frames| > maxDepth { maxDepth := |stacks[k].frames|; }
    }
    assert stacks[..|stacks|] == stacks;
  }

  method Draw(m: Maps, stacks: seq<Stack>, total: nat, maxDepth: nat) returns (spans: seq<Span>)
    requires LinkedMaps(m.value, m.children) && Counts(m.value, stacks) && InSeenOrder(m.children, stacks)
    requires total == Weight(stacks, []) > 0 && maxDepth == MaxDepth(stacks)
    ensures IsFlamegraph(stacks, (maxDepth + 1) * ROW + 40, spans)
  {
    ghost var scale := DRAWABLE / (total as real);
    RootReady(m, stacks, scale);
    spans := Emit(m, scale, maxDepth, [], PAD as real, DRAWABLE, []);
    DrawnIsFlamegraph(m, stacks, scale, spans);
  }

  lemma RootReady(m: Maps, stacks: seq<Stack>, scale: real)
    requires LinkedMaps(m.value, m.children) && Counts(m.value, stacks) && Weight(stacks, []) > 0
    requires scale == DRAWABLE / (Weight(stacks, []) as real)
    ensures Fits(m, PictureWidths(m, scale), MaxDepth(stacks))
    ensures [] in m.value && m.value[[]] > 0 && Pixels(scale, m.value[[]]) == DRAWABLE
  {
    TreeFits(m, stacks, scale);
    RootIsDrawable(Weight(stacks, []));
  }

  lemma DrawnIsFlamegraph(m: Maps, stacks: seq<Stack>, scale: real, spans: seq<Span>)
    requires LinkedMaps(m.value, m.children) && Counts(m.value, stacks) && InSeenOrder(m.children, stacks) && Weight(stacks, []) > 0
    requires scale == DRAWABLE / (Weight(stacks, []) as real)
    requires Fits(m, PictureWidths(m, scale), MaxDepth(stacks)) && [] in m.value
    requires spans == [] + Layout(m, PictureWidths(m, scale), MaxDepth(stacks), [], PAD as real)
    ensures IsFlamegraph(stacks, (MaxDepth(stacks) + 1) * ROW + 40, spans)
  {
    assert spans == Layout(m, PictureWidths(m, scale), MaxDepth(stacks), [], PAD as real);
    LayoutIsFlamegraph(m, stacks, scale);
  }

  // ----- the rectangles -----

  /** The rectangles of the spans, in numbers: rows of 16 from 24 above the bottom, a gap of 0.4, never thinner than 0.2. */
  ghost predicate DrawnAs(height: int, spans: seq<Span>, rects: seq<Rect>) {
    |rects| == |spans| &&
    forall i | 0 <= i < |spans| ::
      && rects[i].x == spans[i].x && rects[i].y == height - 24 - 16 * |spans[i].path| && rects[i].h == 14
      && (if spans[i].w > 0.6 then rects[i].w == spans[i].w - 0.4 else rects[i].w == 0.2)
  }

  method DrawRects(height: int, spans: seq<Span>) returns (rects: seq<Rect>)
    ensures DrawnAs(height, spans, rects)
  {
    rects := [];
    for i := 0 to |spans|
      invariant DrawnAs(height, spans[..i], rects)
    {
      rects := rects + [RectOf(height, spans[i])];
    }
    assert spans[..|spans|] == spans;
  }

  /** One lies wholly beside, above or below the other. */
  predicate Apart(a: Rect, b: Rect) {
    || a.x + a.w <= b.x || b.x + b.w <= a.x
    || a.y + a.h <= b.y || b.y + b.h <= a.y
  }

  predicate OnPaper(height: int, a: Rect) {
    10.0 <= a.x && a.x + a.w <= 1190.0 && 18 < a.y && a.y + a.h <= height && 0.2 <= a.w
  }

  /** No two rectangles of a flamegraph overlap, and all are on the canvas, below the title. */
  lemma RectsApart(stacks: seq<Stack>, height: int, spans: seq<Span>, rects: seq<Rect>, i: nat, j: nat)
    requires Weight(stacks, []) > 0 && IsFlamegraph(stacks, height, spans) && DrawnAs(height, spans, rects)
    requires i < j < |rects|
    ensures Apart(rects[i], rects[j]) && OnPaper(height, rects[i]) && OnPaper(height, rects[j])
  {
    assert spans[i] in spans && spans[j] in spans;
    SpanWideEnough(stacks, height, spans, spans[i]);
    SpanWideEnough(stacks, height, spans, spans[j]);
    assert LeftOf(spans[i], spans[j]);
  }

  lemma SpanWideEnough(stacks: seq<Stack>, height: int, spans: seq<Span>, s: Span)
    requires Weight(stacks, []) > 0 && IsFlamegraph(stacks, height, spans) && s in spans
    ensures s.w >= 0.2 && OnCanvas(height, s)
  {
    assert Drawn(spans, s.path);
    RootIsDrawable(Weight(stacks, []));
    PixelsAreShares(Weight(stacks, []), Weight(stacks, []));
  }

  /** In numbers: the canvas is 40 higher than a row of 16 for each level of the deepest stack and one for the root. */
  method WriteFlamegraph(stacks: seq<Stack>) returns (r: Picture)
    ensures r.NoStacks? <==> stacks == []
    ensures r.NoSamples? <==> stacks != [] && Weight(stacks, []) == 0
    ensures r.Svg? ==> exists d: nat :: Deepest(stacks, d) && r.height == (d + 1) * 16 + 40
    ensures r.Svg? ==> IsFlamegraph(stacks, r.height, r.spans) && DrawnAs(r.height, r.spans, r.rects)
  {
    var total, maxDepth := Measure(stacks);
    if |stacks| == 0 { return NoStacks; }
    if total == 0 { return NoSamples; }
    var tree := BuildTree(stacks);
    var spans := Draw(tree.Content(), stacks, total, maxDepth);
    DepthIsDeepest(stacks);
    var height := (maxDepth + 1) * ROW + 40;
    var rects := DrawRects(height, spans);
    r := Svg(height, spans, rects);
  }
}
