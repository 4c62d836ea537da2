/**
  The flamegraph's prefix tree.  A node is named by its path from the root; the
  tree keeps each node's value and its children in first-seen order.
*/
module FlameTree {

  type Frame = string

  type Path = seq<Frame>

  /** A collapsed stack and how often it was sampled. */
  datatype Stack = Stack(frames: Path, count: nat)

  /** Counting equal samples. */
  method Collapse(samples: seq<Path>) returns (collapsed: map<Path, nat>)
    ensures collapsed.Keys == set p | p in samples
    ensures forall p | p in collapsed :: collapsed[p] == multiset(samples)[p] > 0
  {
    collapsed := map[];
    for i := 0 to |samples|
      invariant collapsed.Keys == set p | p in samples[..i]
      invariant forall p | p in collapsed :: collapsed[p] == multiset(samples[..i])[p] > 0
    {
      var s := samples[i];
      assert samples[..i + 1] == samples[..i] + [s];
      assert s !in collapsed ==> s !in samples[..i];
      collapsed := collapsed[s := (if s in collapsed then collapsed[s] else 0) + 1];
    }
    assert samples[..|samples|] == samples;
  }

  /** Total count of the stacks that run through a path. */
  function Weight(stacks: seq<Stack>, p: Path): nat {
    if stacks == [] then 0
    else
      var last := stacks[|stacks| - 1];
      Weight(stacks[..|stacks| - 1], p) + if p <= last.frames then last.count else 0
  }

  /** The paths some stack runs through, and the root. */
  ghost predicate Seen(stacks: seq<Stack>, p: Path) {
    p == [] || exists k :: 0 <= k < |stacks| && p <= stacks[k].frames
  }

  function Child(p: Path, f: Frame): Path {
    p + [f]
  }

  function Parent(p: Path): Path
    requires p != []
  {
    p[..|p| - 1]
  }

  lemma ChildInjective(p: Path, f: Frame, q: Path, g: Frame)
    requires Child(p, f) == Child(q, g)
    ensures p == q && f == g
  {
    assert Child(p, f)[..|p|] == p && Child(q, g)[..|q|] == q;
  }

  lemma ParentOfChild(p: Path, f: Frame)
    ensures Parent(Child(p, f)) == p
  {
  }

  // ----- how the two maps fit together -----

  ghost predicate Agree(value: map<Path, nat>, children: map<Path, seq<Frame>>) {
    children.Keys == value.Keys && forall p, f | p in children :: f in children[p] <==> Child(p, f) in value
  }

  ghost predicate NoRepeats(children: map<Path, seq<Frame>>) {
    forall p, i, j | p in children && 0 <= i < j < |children[p]| :: children[p][i] != children[p][j]
  }

  ghost predicate Rooted(value: map<Path, nat>) {
    [] in value && forall p | p in value && p != [] :: Parent(p) in value
  }

  ghost predicate LinkedMaps(value: map<Path, nat>, children: map<Path, seq<Frame>>) {
    Agree(value, children) && NoRepeats(children) && Rooted(value)
  }

  lemma NewNodeAgrees(value: map<Path, nat>, children: map<Path, seq<Frame>>, node: Path, frame: Frame)
    requires Agree(value, children) && Rooted(value) && node in value && Child(node, frame) !in value
    ensures Agree(value[Child(node, frame) := 0], children[node := children[node] + [frame]][Child(node, frame) := []])
  {
    var child := Child(node, frame);
    var value' := value[child := 0];
    var children' := children[node := children[node] + [frame]][child := []];
    forall p, f | p in children' ensures f in children'[p] <==> Child(p, f) in value' {
      if Child(p, f) == child { ChildInjective(p, f, node, frame); }
      if p == child && Child(p, f) in value {
        ParentOfChild(p, f);
      }
    }
  }

  lemma NewNodeLinks(value: map<Path, nat>, children: map<Path, seq<Frame>>, node: Path, frame: Frame)
    requires LinkedMaps(value, children) && node in value && Child(node, frame) !in value
    ensures LinkedMaps(value[Child(node, frame) := 0], children[node := children[node] + [frame]][Child(node, frame) := []])
  {
    NewNodeAgrees(value, children, node, frame);
    ParentOfChild(node, frame);
  }

  lemma RaiseLinks(value: map<Path, nat>, children: map<Path, seq<Frame>>, p: Path, v: nat)
    requires LinkedMaps(value, children) && p in value
    ensures LinkedMaps(value[p := v], children)
  {
    assert value[p := v].Keys == value.Keys;
  }

  // ----- values -----

  predicate OnPath(frames: Path, i: nat, p: Path)
    requires i <= |frames|
  {
    p <= frames[..i]
  }

  /** Values while a stack is being added: the nodes of its first i frames already have its count. */
  ghost predicate Partial(value: map<Path, nat>, stacks: seq<Stack>, s: Stack, i: nat)
    requires i <= |s.frames|
  {
    && (forall p :: p in value <==> Seen(stacks, p) || OnPath(s.frames, i, p))
    && (forall p | p in value :: value[p] == Weight(stacks, p) + if OnPath(s.frames, i, p) then s.count else 0)
  }

  /** Every node's value is the total count of the stacks that run through it. */
  ghost predicate Counts(value: map<Path, nat>, stacks: seq<Stack>) {
    (forall p :: p in value <==> Seen(stacks, p)) && (forall p | p in value :: value[p] == Weight(stacks, p))
  }

  lemma StartsPartial(value: map<Path, nat>, stacks: seq<Stack>, s: Stack)
    requires Counts(value, stacks)
    ensures [] in value && Partial(value[[] := value[[]] + s.count], stacks, s, 0)
  {
    assert Seen(stacks, []);
    assert s.frames[..0] == [];
  }

  lemma StepPartial(value: map<Path, nat>, stacks: seq<Stack>, s: Stack, i: nat)
    requires i < |s.frames| && Partial(value, stacks, s, i)
    ensures var child := s.frames[..i + 1];
            Partial(value[child := (if child in value then value[child] else 0) + s.count], stacks, s, i + 1)
  {
    var child := s.frames[..i + 1];
    if child !in value { WeightUnseen(stacks, child); }
    forall p: Path ensures OnPath(s.frames, i + 1, p) <==> OnPath(s.frames, i, p) || p == child { PrefixStep(s.frames, i, p); }
    assert !OnPath(s.frames, i, child);
  }

  datatype Maps = Maps(value: map<Path, nat>, children: map<Path, seq<Frame>>)

  /** One frame further down: create the child if it is missing, then add the count to it. */
  function Visit(m: Maps, node: Path, frame: Frame, count: nat): Maps
    requires node in m.children
  {
    var child := Child(node, frame);
    if child in m.value then Maps(m.value[child := m.value[child] + count], m.children)
    else Maps(m.value[child := count], m.children[node := m.children[node] + [frame]][child := []])
  }

  /** The tree part-way through a stack. */
  ghost predicate Walked(m: Maps, stacks: seq<Stack>, s: Stack, i: nat) {
    i <= |s.frames| && LinkedMaps(m.value, m.children) && Partial(m.value, stacks, s, i)
  }

  lemma NodeThere(m: Maps, stacks: seq<Stack>, s: Stack, i: nat)
    requires Walked(m, stacks, s, i)
    ensures s.frames[..i] in m.children
  {
    assert OnPath(s.frames, i, s.frames[..i]);
  }

  lemma VisitLinks(m: Maps, node: Path, frame: Frame, count: nat)
    requires LinkedMaps(m.value, m.children) && node in m.children
    ensures LinkedMaps(Visit(m, node, frame, count).value, Visit(m, node, frame, count).children)
  {
    var child := Child(node, frame);
    if child in m.value {
      RaiseLinks(m.value, m.children, child, m.value[child] + count);
    } else {
      NewNodeLinks(m.value, m.children, node, frame);
      var v, c := m.value[child := 0], m.children[node := m.children[node] + [frame]][child := []];
      RaiseLinks(v, c, child, count);
      assert v[child := count] == m.value[child := count];
    }
  }

  lemma VisitCounts(m: Maps, stacks: seq<Stack>, s: Stack, i: nat)
    requires i < |s.frames| && Partial(m.value, stacks, s, i) && s.frames[..i] in m.children
    ensures Partial(Visit(m, s.frames[..i], s.frames[i], s.count).value, stacks, s, i + 1)
  {
    assert Child(s.frames[..i], s.frames[i]) == s.frames[..i + 1];
    StepPartial(m.value, stacks, s, i);
  }

  lemma VisitWalks(m: Maps, stacks: seq<Stack>, s: Stack, i: nat)
    requires i < |s.frames| && Walked(m, stacks, s, i) && s.frames[..i] in m.children
    ensures Walked(Visit(m, s.frames[..i], s.frames[i], s.count), stacks, s, i + 1)
  {
    VisitLinks(m, s.frames[..i], s.frames[i], s.count);
    VisitCounts(m, stacks, s, i);
  }

  lemma EndsPartial(value: map<Path, nat>, stacks: seq<Stack>, s: Stack)
    requires Partial(value, stacks, s, |s.frames|)
    ensures Counts(value, stacks + [s])
  {
    assert s.frames[..|s.frames|] == s.frames;
    assert (stacks + [s])[..|stacks|] == stacks;
    assert forall p: Path :: OnPath(s.frames, |s.frames|, p) <==> p <= s.frames;
    forall p: Path ensures Seen(stacks + [s], p) <==> Seen(stacks, p) || p <= s.frames { SeenAppend(stacks, s, p); }
  }

  // ----- first-seen order -----

  /** Some stack runs through a while none up to it runs through b. */
  ghost predicate SeenFirst(stacks: seq<Stack>, a: Path, b: Path) {
    exists k :: 0 <= k <= |stacks| && Seen(stacks[..k], a) && !Seen(stacks[..k], b)
  }

  /** Children are listed in the order in which the stacks first reach them. */
  ghost predicate InSeenOrder(children: map<Path, seq<Frame>>, stacks: seq<Stack>) {
    forall p, i, j | p in children && 0 <= i < j < |children[p]| ::
      SeenFirst(stacks, Child(p, children[p][i]), Child(p, children[p][j]))
  }

  lemma SeenFirstStays(stacks: seq<Stack>, s: Stack, a: Path, b: Path)
    requires SeenFirst(stacks, a, b)
    ensures SeenFirst(stacks + [s], a, b)
  {
    var k :| 0 <= k <= |stacks| && Seen(stacks[..k], a) && !Seen(stacks[..k], b);
    assert (stacks + [s])[..k] == stacks[..k];
  }

  lemma SeenOrderStays(children: map<Path, seq<Frame>>, stacks: seq<Stack>, s: Stack)
    requires InSeenOrder(children, stacks)
    ensures InSeenOrder(children, stacks + [s])
  {
    forall p, i, j | p in children && 0 <= i < j < |children[p]|
      ensures SeenFirst(stacks + [s], Child(p, children[p][i]), Child(p, children[p][j]))
    {
      SeenFirstStays(stacks, s, Child(p, children[p][i]), Child(p, children[p][j]));
    }
  }

  lemma NewChildSeenLast(m: Maps, stacks: seq<Stack>, s: Stack, i: nat, f: Frame)
    requires i < |s.frames| && Walked(m, stacks, s, i) && s.frames[..i] in m.children
    requires f in m.children[s.frames[..i]] && Child(s.frames[..i], s.frames[i]) !in m.value
    ensures SeenFirst(stacks + [s], Child(s.frames[..i], f), Child(s.frames[..i], s.frames[i]))
  {
    assert (stacks + [s])[..|stacks|] == stacks;
    assert Child(s.frames[..i], f) in m.value;
  }

  lemma VisitSeen(m: Maps, stacks: seq<Stack>, s: Stack, i: nat)
    requires i < |s.frames| && Walked(m, stacks, s, i) && s.frames[..i] in m.children && InSeenOrder(m.children, stacks + [s])
    ensures InSeenOrder(Visit(m, s.frames[..i], s.frames[i], s.count).children, stacks + [s])
  {
    var node := s.frames[..i];
    var after := Visit(m, node, s.frames[i], s.count).children;
    if Child(node, s.frames[i]) !in m.value {
      forall p, a, b | p in after && 0 <= a < b < |after[p]|
        ensures SeenFirst(stacks + [s], Child(p, after[p][a]), Child(p, after[p][b]))
      {
        if p == node && b == |m.children[node]| { NewChildSeenLast(m, stacks, s, i, after[p][a]); }
      }
    }
  }

  class Tree {
    var value: map<Path, nat>
    var children: map<Path, seq<Frame>>

    function Content(): Maps
      reads this
    {
      Maps(value, children)
    }

    ghost predicate Built(stacks: seq<Stack>)
      reads this
    {
      LinkedMaps(value, children) && Counts(value, stacks) && InSeenOrder(children, stacks)
    }

    constructor ()
      ensures Built([])
    {
      value, children := map[[] := 0], map[[] := []];
    }

    method Descend(node: Path, frame: Frame, count: nat)
      requires node in children
      modifies this
      ensures Content() == Visit(old(Content()), node, frame, count)
    {
      var child := Child(node, frame);
      if child !in value {
        value := value[child := 0];
        children := children[node := children[node] + [frame]][child := []];
      }
      value := value[child := value[child] + count];
    }

    /** One stack: walk down its frames, creating missing nodes and adding its count to each. */
    method Add(s: Stack, ghost stacks: seq<Stack>)
      requires Built(stacks)
      modifies this
      ensures Built(stacks + [s])
    {
      StartsPartial(value, stacks, s);
      RaiseLinks(value, children, [], value[[]] + s.count);
      value := value[[] := value[[]] + s.count];
      SeenOrderStays(children, stacks, s);
      for i := 0 to |s.frames|
        invariant Walked(Content(), stacks, s, i) && InSeenOrder(children, stacks + [s])
      {
        NodeThere(Content(), stacks, s, i);
        VisitSeen(Content(), stacks, s, i);
        VisitWalks(Content(), stacks, s, i);
        Descend(s.frames[..i], s.frames[i], s.count);
      }
      EndsPartial(value, stacks, s);
    }
  }

  /** The tree of a list of stacks. */
  method BuildTree(stacks: seq<Stack>) returns (tree: Tree)
    ensures fresh(tree) && tree.Built(stacks)
  {
    tree := new Tree();
    for k := 0 to |stacks|
      invariant fresh(tree) && tree.Built(stacks[..k])
    {
      tree.Add(stacks[k], stacks[..k]);
      assert stacks[..k + 1] == stacks[..k] + [stacks[k]];
    }
    assert stacks[..|stacks|] == stacks;
  }

  lemma {:induction false} WeightUnseen(stacks: seq<Stack>, p: Path)
    requires !Seen(stacks, p)
    ensures Weight(stacks, p) == 0
  {
    if stacks != [] {
      var k := |stacks| - 1;
      assert !(p <= stacks[k].frames);
      WeightUnseen(stacks[..k], p);
    }
  }

  lemma PrefixStep(frames: Path, i: nat, p: Path)
    requires i < |frames|
    ensures OnPath(frames, i + 1, p) <==> OnPath(frames, i, p) || p == frames[..i + 1]
  {
    if p <= frames[..i + 1] && |p| <= i {
      assert p == frames[..i + 1][..|p|] == frames[..i][..|p|];
    }
  }

  lemma SeenAppend(stacks: seq<Stack>, s: Stack, p: Path)
    ensures Seen(stacks + [s], p) <==> Seen(stacks, p) || p <= s.frames
  {
    var all := stacks + [s];
    if k :| 0 <= k < |stacks| && p <= stacks[k].frames { assert all[k] == stacks[k]; }
    if p <= s.frames { assert all[|stacks|] == s; }
  }
}
