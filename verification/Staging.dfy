/**
  Staging the build context at a content-addressed path: each stager copies the
  context into a scratch directory of its own and publishes it with one rename,
  which fails when another stager's copy is already there.
*/
module Staging {
  import opened Prelude
  import opened ContextWalk

  /** What the copy loop looks at, in the order it looks. */
  datatype Item = Item(parts: seq<string>, isDir: bool, isLink: bool, linkTo: string, bytes: seq<nat>)

  datatype Node = Dir | Link(to: string) | File(bytes: seq<nat>)

  /** A directory below the scratch or target root. */
  type Tree = map<seq<string>, Node>

  /** is_dir() is asked first, so a link to a directory is staged as a directory. */
  function NodeOf(item: Item): Node {
    if item.isDir then Dir else if item.isLink then Link(item.linkTo) else File(item.bytes)
  }

  ghost function EntriesOf(items: seq<Item>): seq<Entry> {
    seq(|items|, i requires 0 <= i < |items| => Entry(items[i].parts, items[i].isDir))
  }

  /** mkdir(parents=True, exist_ok=True) on the parent of a path. */
  function WithParents(tree: Tree, parts: seq<string>): Tree {
    var missing := map k | 1 <= k < |parts| && parts[..k] !in tree :: parts[..k] := Dir;
    tree + missing
  }

  function CopyOne(tree: Tree, item: Item): Tree {
    WithParents(tree, item.parts)[item.parts := NodeOf(item)]
  }

  /** The complete copy: every item's path, as its own kind of node, and nothing else. */
  function TreeOf(items: seq<Item>): Tree {
    if items == [] then map[]
    else TreeOf(items[..|items| - 1])[items[|items| - 1].parts := NodeOf(items[|items| - 1])]
  }

  ghost predicate Listed(items: seq<Item>, parts: seq<string>) {
    exists i :: 0 <= i < |items| && items[i].parts == parts
  }

  /** Nothing later in the list has this item's path: no walk lists a path twice, so this is every item. */
  ghost predicate LastWord(items: seq<Item>, i: nat) {
    i < |items| && forall j | i < j < |items| :: items[j].parts != items[i].parts
  }

  /** At the item's path: a directory for what is one, else the link with its target, else the file with its bytes. */
  ghost predicate Stands(tree: Tree, item: Item) {
    item.parts in tree &&
    match tree[item.parts]
    case Dir => item.isDir
    case Link(to) => !item.isDir && item.isLink && to == item.linkTo
    case File(bytes) => !item.isDir && !item.isLink && bytes == item.bytes
  }

  /** A complete copy: a node at every listed path and nowhere else, each what its item calls for. */
  ghost predicate IsCopy(items: seq<Item>, tree: Tree) {
    (forall p :: p in tree <==> Listed(items, p)) && (forall i: nat | LastWord(items, i) :: Stands(tree, items[i]))
  }

  lemma {:induction false} TreeOfKeys(items: seq<Item>, p: seq<string>)
    ensures p in TreeOf(items) <==> Listed(items, p)
  {
    if items != [] {
      var init, last := items[..|items| - 1], items[|items| - 1];
      TreeOfKeys(init, p);
      assert forall i | 0 <= i < |init| :: init[i] == items[i];
      if Listed(items, p) && last.parts != p {
        var i :| 0 <= i < |items| && items[i].parts == p;
        assert init[i].parts == p;
      }
    }
  }

  lemma {:induction false} TreeOfNodes(items: seq<Item>, i: nat)
    requires LastWord(items, i)
    ensures items[i].parts in TreeOf(items) && TreeOf(items)[items[i].parts] == NodeOf(items[i])
  {
    var init := items[..|items| - 1];
    if i < |init| {
      assert LastWord(init, i);
      TreeOfNodes(init, i);
    }
  }

  /** The loop's result is a complete copy, and the only one. */
  lemma CopyIff(items: seq<Item>, tree: Tree)
    ensures IsCopy(items, tree) <==> tree == TreeOf(items)
  {
    forall p ensures p in TreeOf(items) <==> Listed(items, p) { TreeOfKeys(items, p); }
    forall i: nat | LastWord(items, i) ensures items[i].parts in TreeOf(items) && TreeOf(items)[items[i].parts] == NodeOf(items[i]) {
      TreeOfNodes(items, i);
    }
    if IsCopy(items, tree) {
      forall p | p in tree ensures p in TreeOf(items) && tree[p] == TreeOf(items)[p] {
        var i := LastListed(items, p);
      }
      assert tree.Keys == TreeOf(items).Keys;
    }
  }

  lemma {:induction false} LastListed(items: seq<Item>, p: seq<string>) returns (i: nat)
    requires Listed(items, p)
    ensures LastWord(items, i) && items[i].parts == p
  {
    i := |items| - 1;
    if items[i].parts != p {
      var init := items[..i];
      var k :| 0 <= k < |items| && items[k].parts == p;
      assert init[k].parts == p;
      i := LastListed(init, p);
    }
  }

  /** On a listing with parents first, making parents adds nothing. */
  lemma CopyExtends(items: seq<Item>, n: nat)
    requires Listing(EntriesOf(items)) && n < |items|
    ensures CopyOne(TreeOf(items[..n]), items[n]) == TreeOf(items[..n + 1])
  {
    var tree, parts := TreeOf(items[..n]), items[n].parts;
    forall k | 1 <= k < |parts| ensures parts[..k] in tree {
      var j := AncestorListed(EntriesOf(items), n, k);
      assert items[..n][j] == items[j];
      TreeOfKeys(items[..n], parts[..k]);
    }
    assert WithParents(tree, parts) == tree;
    assert items[..n + 1][..n] == items[..n];
  }

  /** The copy loop produces the complete copy. */
  method CopyContext(items: seq<Item>) returns (ctx: Tree)
    requires Listing(EntriesOf(items))
    ensures IsCopy(items, ctx)
  {
    ctx := map[];
    for n := 0 to |items|
      invariant ctx == TreeOf(items[..n])
    {
      CopyExtends(items, n);
      ctx := CopyOne(ctx, items[n]);
    }
    assert items[..|items|] == items;
    CopyIff(items, ctx);
  }

  // ----- concurrent stagers -----

  datatype Stager =
    | Start
    | Copying(n: nat, ctx: Tree)
    | Checking
    | Returned
    | CopyFailed
    | RaceError

  datatype State = State(target: Option<Tree>, stagers: seq<Stager>, published: nat)

  datatype Step = Look(w: nat) | Copy(w: nat) | Fail(w: nat) | Rename(w: nat) | Check(w: nat)

  predicate Enabled(items: seq<Item>, s: State, step: Step) {
    step.w < |s.stagers| &&
    var st := s.stagers[step.w];
    match step
    case Look(_) => st.Start?
    case Copy(_) => st.Copying? && st.n < |items|
    case Fail(_) => st.Copying? && st.n < |items|
    case Rename(_) => st.Copying? && st.n == |items|
    case Check(_) => st.Checking?
  }

  /** os.replace succeeds when there is something to move and no non-empty target in the way. */
  predicate RenameSucceeds(s: State, ctx: Tree) {
    ctx != map[] && (s.target.None? || s.target.value == map[])
  }

  function Apply(items: seq<Item>, s: State, step: Step): State
    requires Enabled(items, s, step)
  {
    var w := step.w;
    match step
    case Look(_) => s.(stagers := s.stagers[w := if s.target.Some? then Returned else Copying(0, map[])])
    case Copy(_) =>
      s.(stagers := s.stagers[w := Copying(s.stagers[w].n + 1, CopyOne(s.stagers[w].ctx, items[s.stagers[w].n]))])
    case Fail(_) => s.(stagers := s.stagers[w := CopyFailed])
    case Rename(_) =>
      if RenameSucceeds(s, s.stagers[w].ctx)
      then State(Some(s.stagers[w].ctx), s.stagers[w := Checking], s.published + 1)
      else s.(stagers := s.stagers[w := Checking])
    case Check(_) => s.(stagers := s.stagers[w := if s.target.Some? then Returned else RaceError])
  }

  ghost predicate IsRun(items: seq<Item>, states: seq<State>, steps: seq<Step>) {
    |states| == |steps| + 1 &&
    forall i | 0 <= i < |steps| :: Enabled(items, states[i], steps[i]) && states[i + 1] == Apply(items, states[i], steps[i])
  }

  /** The target was absent, or staged completely by an earlier run. */
  ghost predicate Initial(items: seq<Item>, s: State) {
    && (s.target.None? || (items != [] && s.target == Some(TreeOf(items)))) && s.published == 0
    && forall w | 0 <= w < |s.stagers| :: s.stagers[w].Start?
  }

  /** A scratch copy is a prefix of the whole, and a stager past its rename has a target to find. */
  ghost predicate GoodStager(items: seq<Item>, s: State, st: Stager) {
    match st
    case Copying(n, ctx) => n <= |items| && ctx == TreeOf(items[..n])
    case Checking => items != [] ==> s.target.Some?
    case Returned => s.target.Some?
    case RaceError => items == []
    case _ => true
  }

  ghost predicate Inv(items: seq<Item>, s: State) {
    && (s.target.None? || (items != [] && s.target == Some(TreeOf(items))))
    && (forall w | 0 <= w < |s.stagers| :: GoodStager(items, s, s.stagers[w]))
    && s.published <= 1 && (s.published == 1 ==> s.target.Some?)
  }

  lemma WholeCopy(items: seq<Item>)
    ensures TreeOf(items[..|items|]) == TreeOf(items) && (TreeOf(items) == map[] <==> items == [])
  {
    assert items[..|items|] == items;
    if items != [] { TreeOfKeys(items, items[0].parts); }
  }

  lemma StepKeepsInv(items: seq<Item>, s: State, step: Step)
    requires Listing(EntriesOf(items)) && Inv(items, s) && Enabled(items, s, step)
    ensures Inv(items, Apply(items, s, step))
    ensures s.target.Some? ==> Apply(items, s, step).target == s.target
  {
    var s' := Apply(items, s, step);
    WholeCopy(items);
    if step.Copy? { CopyExtends(items, s.stagers[step.w].n); }
    forall w | 0 <= w < |s.stagers| ensures GoodStager(items, s', s'.stagers[w]) {
      assert GoodStager(items, s, s.stagers[w]);
      assert GoodStager(items, s, s.stagers[step.w]);
    }
  }

  lemma {:induction false} RunKeepsInv(items: seq<Item>, states: seq<State>, steps: seq<Step>, n: nat)
    requires Listing(EntriesOf(items)) && IsRun(items, states, steps) && Initial(items, states[0]) && n < |states|
    ensures Inv(items, states[n])
  {
    if n > 0 {
      RunKeepsInv(items, states, steps, n - 1);
      StepKeepsInv(items, states[n - 1], steps[n - 1]);
    }
  }

  /**
    In every run over a non-empty source: the target is absent or complete, is
    published at most once, no stager loses the race for good, and a stager that
    returns normally returns a complete copy.
  */
  lemma StagingIsSafe(items: seq<Item>, states: seq<State>, steps: seq<Step>, n: nat, w: nat)
    requires Listing(EntriesOf(items)) && IsRun(items, states, steps) && Initial(items, states[0])
    requires n < |states| && w < |states[n].stagers| && items != []
    ensures states[n].target.None? || IsCopy(items, states[n].target.value)
    ensures states[n].published <= 1 && !states[n].stagers[w].RaceError?
    ensures states[n].stagers[w].Returned? ==> states[n].target.Some?
  {
    RunKeepsInv(items, states, steps, n);
    CopyIff(items, TreeOf(items));
    assert GoodStager(items, states[n], states[n].stagers[w]);
  }

  lemma StepPublishes(items: seq<Item>, s: State, step: Step)
    requires Listing(EntriesOf(items)) && Inv(items, s) && Enabled(items, s, step)
    requires s.target.Some? <==> s.published == 1
    ensures var s' := Apply(items, s, step); s'.target.Some? <==> s'.published == 1
  {
    StepKeepsInv(items, s, step);
    WholeCopy(items);
  }

  /** From an absent target, something is there exactly when one stager has published. */
  lemma {:induction false} PublishedOnce(items: seq<Item>, states: seq<State>, steps: seq<Step>, n: nat)
    requires Listing(EntriesOf(items)) && IsRun(items, states, steps) && Initial(items, states[0]) && n < |states|
    requires states[0].target.None?
    ensures states[n].target.Some? <==> states[n].published == 1
  {
    if n > 0 {
      PublishedOnce(items, states, steps, n - 1);
      RunKeepsInv(items, states, steps, n - 1);
      StepPublishes(items, states[n - 1], steps[n - 1]);
    }
  }

  /** A directory, or a link to one, is published as a directory, any other link as that link, a file with its bytes. */
  lemma NodesPublished(items: seq<Item>, states: seq<State>, steps: seq<Step>, n: nat, i: nat)
    requires Listing(EntriesOf(items)) && IsRun(items, states, steps) && Initial(items, states[0])
    requires n < |states| && states[n].target.Some? && LastWord(items, i)
    ensures items[i].parts in states[n].target.value
    ensures var node := states[n].target.value[items[i].parts];
            && (node == Dir <==> items[i].isDir)
            && (node == Link(items[i].linkTo) <==> items[i].isLink && !items[i].isDir)
            && (node == File(items[i].bytes) <==> !items[i].isLink && !items[i].isDir)
  {
    RunKeepsInv(items, states, steps, n);
    TreeOfNodes(items, i);
  }

  /** Once published, the target never changes. */
  lemma {:induction false} TargetIsStable(items: seq<Item>, states: seq<State>, steps: seq<Step>, i: nat, n: nat)
    requires Listing(EntriesOf(items)) && IsRun(items, states, steps) && Initial(items, states[0])
    requires i <= n < |states| && states[i].target.Some?
    ensures states[n].target == states[i].target
    decreases n
  {
    if i < n {
      TargetIsStable(items, states, steps, i, n - 1);
      RunKeepsInv(items, states, steps, n - 1);
      StepKeepsInv(items, states[n - 1], steps[n - 1]);
    }
  }

  /** With nothing to copy there is no directory to rename: nothing is published and nobody returns. */
  lemma EmptySourceNeverStages(states: seq<State>, steps: seq<Step>, n: nat, w: nat)
    requires IsRun([], states, steps) && Initial([], states[0]) && n < |states| && w < |states[n].stagers|
    ensures states[n].target.None? && !states[n].stagers[w].Returned?
  {
    assert EntriesOf([]) == [];
    RunKeepsInv([], states, steps, n);
    assert GoodStager([], states[n], states[n].stagers[w]);
  }

  // ----- one call -----

  datatype Outcome = Staged(tree: Tree) | StagingRaceError | CopyError

  /** The cache directory: the published target and the scratch directories beside it. */
  class Cache {
    var target: Option<Tree>
    var scratch: map<nat, Tree>

    constructor ()
      ensures target == None && scratch == map[]
    {
      target, scratch := None, map[];
    }

    /**
      stage_context running undisturbed, the copy of item `fails` raising if there
      is one: publishes a complete copy, reuses one, or raises, and leaves no
      scratch behind.
    */
    method StageContext(items: seq<Item>, temp: nat, fails: Option<nat>) returns (r: Outcome)
      requires Listing(EntriesOf(items)) && temp !in scratch
      modifies this
      ensures scratch == old(scratch)
      ensures r.Staged? ==> target == Some(r.tree)
      ensures !r.Staged? ==> target == old(target)
      ensures old(target).Some? ==> r == Staged(old(target).value)
      ensures old(target).None? && r.Staged? ==> IsCopy(items, r.tree)
      ensures old(target).None? ==> (r == CopyError <==> fails.Some? && fails.value < |items|)
      ensures old(target).None? ==> (r == StagingRaceError <==> items == [])
    {
      if target.Some? { return Staged(target.value); }
      ghost var before := scratch;
      scratch := scratch[temp := map[]];
      for n := 0 to |items|
        invariant target == None && temp in scratch && scratch[temp] == TreeOf(items[..n])
        invariant scratch - {temp} == before && (fails.Some? ==> n <= fails.value)
      {
        if fails == Some(n) {
          scratch := scratch - {temp};
          return CopyError;
        }
        CopyExtends(items, n);
        scratch := scratch[temp := CopyOne(scratch[temp], items[n])];
      }
      WholeCopy(items);
      CopyIff(items, TreeOf(items));
      if scratch[temp] != map[] {
        target := Some(scratch[temp]);
      }
      scratch := scratch - {temp};
      r := if target.Some? then Staged(target.value) else StagingRaceError;
    }
  }
}
