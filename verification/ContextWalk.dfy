/**
  The build-context walk: one pass over a sorted listing that prunes excluded
  directories by remembering their path prefixes.
*/
module ContextWalk {
  import opened Prelude

  /** A listed path, by its components below the root. */
  datatype Entry = Entry(parts: seq<string>, isDir: bool)

  predicate Name(s: string) {
    s != "" && '/' !in s
  }

  predicate Named(parts: seq<string>) {
    parts != [] && forall i | 0 <= i < |parts| :: Name(parts[i])
  }

  /** as_posix() */
  function Join(parts: seq<string>): string {
    if parts == [] then "" else if |parts| == 1 then parts[0] else parts[0] + "/" + Join(parts[1..])
  }

  /** fnmatch.fnmatchcase is a parameter: which paths a pattern matches. */
  type Match = (string, string) -> bool

  predicate MatchesAny(matches: Match, patterns: seq<string>, rel: string) {
    exists i :: 0 <= i < |patterns| && matches(rel, patterns[i])
  }

  /** The declarative rule: the path or one of its ancestors matches a pattern. */
  ghost predicate Excluded(matches: Match, patterns: seq<string>, parts: seq<string>) {
    exists k :: 1 <= k <= |parts| && MatchesAny(matches, patterns, Join(parts[..k]))
  }

  /** The directory a path lies in is among the entries. */
  ghost predicate HasParent(entries: seq<Entry>, parts: seq<string>)
    requires parts != []
  {
    exists j :: 0 <= j < |entries| && entries[j].isDir && entries[j].parts == parts[..|parts| - 1]
  }

  /** Every listed path comes after its parent directory. */
  ghost predicate ParentsFirst(listing: seq<Entry>) {
    forall i | 0 <= i < |listing| && |listing[i].parts| > 1 :: HasParent(listing[..i], listing[i].parts)
  }

  ghost predicate Listing(listing: seq<Entry>) {
    ParentsFirst(listing) && forall i | 0 <= i < |listing| :: Named(listing[i].parts)
  }

  // ----- where parents-first comes from -----

  /** Code-point order of strings. */
  predicate NameBefore(a: string, b: string) {
    b != "" && (a == "" || a[0] < b[0] || (a[0] == b[0] && NameBefore(a[1..], b[1..])))
  }

  /** The order of paths: component by component. */
  predicate PathBefore(a: seq<string>, b: seq<string>) {
    b != [] && (a == [] || NameBefore(a[0], b[0]) || (a[0] == b[0] && PathBefore(a[1..], b[1..])))
  }

  ghost predicate InPathOrder(entries: seq<Entry>) {
    forall i, j | 0 <= i < j < |entries| :: PathBefore(entries[i].parts, entries[j].parts)
  }

  /** sorted(rglob("*")): distinct paths in order, each with its parent directory somewhere in the list. */
  ghost predicate SortedWalk(listing: seq<Entry>) {
    && (forall i | 0 <= i < |listing| :: Named(listing[i].parts))
    && InPathOrder(listing)
    && (forall i | 0 <= i < |listing| && |listing[i].parts| > 1 :: HasParent(listing, listing[i].parts))
  }

  lemma {:induction false} NameIrreflexive(a: string)
    ensures !NameBefore(a, a)
  {
    if a != "" { NameIrreflexive(a[1..]); }
  }

  /** Code-point order: a proper prefix, or the smaller character where the two first differ. */
  lemma {:induction false} NameBeforeIff(a: string, b: string)
    ensures NameBefore(a, b) <==> exists n: nat :: PartAt(a, b, n) && (n == |a| || a[n] < b[n])
  {
    if b != "" {
      if a == "" || a[0] != b[0] {
        PartNow(a, b, 0);
        if n: nat :| PartAt(a, b, n) && (n == |a| || a[n] < b[n]) { PartNow(a, b, n); }
      } else {
        NameBeforeIff(a[1..], b[1..]);
        PartLater(a, b, 0);
        if n: nat :| PartAt(a[1..], b[1..], n) && (n == |a[1..]| || a[1..][n] < b[1..][n]) { PartLater(a, b, n); }
        if n: nat :| PartAt(a, b, n) && (n == |a| || a[n] < b[n]) { PartLater(a, b, n - 1); }
      }
    }
  }

  /** Paths compare by the first component in which they differ. */
  lemma {:induction false} PathBeforeIff(a: seq<string>, b: seq<string>)
    ensures PathBefore(a, b) <==> exists n: nat :: PartAt(a, b, n) && (n == |a| || NameBefore(a[n], b[n]))
  {
    if b != [] {
      if a == [] || a[0] != b[0] {
        PartNow(a, b, 0);
        if n: nat :| PartAt(a, b, n) && (n == |a| || NameBefore(a[n], b[n])) { PartNow(a, b, n); }
      } else {
        NameIrreflexive(a[0]);
        PathBeforeIff(a[1..], b[1..]);
        PartLater(a, b, 0);
        if n: nat :| PartAt(a[1..], b[1..], n) && (n == |a[1..]| || NameBefore(a[1..][n], b[1..][n])) { PartLater(a, b, n); }
        if n: nat :| PartAt(a, b, n) && (n == |a| || NameBefore(a[n], b[n])) { PartLater(a, b, n - 1); }
      }
    }
  }

  /** Nothing sorts before its own ancestors, or itself. */
  lemma {:induction false} AncestorSortsFirst(dir: seq<string>, parts: seq<string>)
    requires dir <= parts
    ensures !PathBefore(parts, dir)
  {
    if dir != [] {
      NameIrreflexive(dir[0]);
      AncestorSortsFirst(dir[1..], parts[1..]);
    }
  }

  /** Sorting puts every parent before its children, and lists no path twice. */
  lemma SortedIsListing(listing: seq<Entry>)
    requires SortedWalk(listing)
    ensures Listing(listing)
    ensures forall i, j | 0 <= i < j < |listing| :: listing[i].parts != listing[j].parts
  {
    forall i | 0 <= i < |listing| && |listing[i].parts| > 1
      ensures HasParent(listing[..i], listing[i].parts)
    {
      var j :| 0 <= j < |listing| && listing[j].isDir && listing[j].parts == listing[i].parts[..|listing[i].parts| - 1];
      AncestorSortsFirst(listing[j].parts, listing[i].parts);
      assert listing[..i][j] == listing[j];
    }
    forall i, j | 0 <= i < j < |listing| ensures listing[i].parts != listing[j].parts {
      AncestorSortsFirst(listing[j].parts, listing[j].parts);
    }
  }

  // ----- the walk -----

  /** The listed paths the rule keeps, in order. */
  ghost function Kept(matches: Match, patterns: seq<string>, listing: seq<Entry>): seq<Entry> {
    if listing == [] then []
    else
      var init, e := listing[..|listing| - 1], listing[|listing| - 1];
      Kept(matches, patterns, init) + if Excluded(matches, patterns, e.parts) then [] else [e]
  }

  // ----- prefixes of strings are prefixes of paths -----

  lemma {:induction false} NoSlashSplit(a: string, u: string, b: string, v: string)
    requires '/' !in a && '/' !in b && a + "/" + u == b + "/" + v
    ensures a == b && u == v
    decreases |a|
  {
    var x, y := a + "/" + u, b + "/" + v;
    if a == [] || b == [] {
      assert x[0] == y[0];
      assert u == x[1..] && v == y[1..];
    } else {
      assert a[0] == x[0] == y[0] == b[0];
      assert x[1..] == a[1..] + "/" + u && y[1..] == b[1..] + "/" + v;
      NoSlashSplit(a[1..], u, b[1..], v);
      assert a == [a[0]] + a[1..] && b == [b[0]] + b[1..];
    }
  }

  /** Joining further components extends the string by a slash and more. */
  lemma {:induction false} JoinExtends(parts: seq<string>, k: nat)
    requires 1 <= k < |parts|
    ensures Join(parts) == Join(parts[..k]) + "/" + Join(parts[k..])
  {
    if k == 1 {
      assert parts[..1] == [parts[0]];
    } else {
      JoinExtends(parts[1..], k - 1);
      assert parts[..k][1..] == parts[1..][..k - 1];
      assert parts[1..][k - 1..] == parts[k..];
      assert Join(parts[..k]) == parts[0] + "/" + Join(parts[1..][..k - 1]);
    }
  }

  /** A string that starts with a directory's path and a slash names something below that directory. */
  lemma {:induction false} PrefixIsAncestor(dir: seq<string>, parts: seq<string>)
    requires Named(dir) && Named(parts) && Join(dir) + "/" <= Join(parts)
    ensures |dir| < |parts| && parts[..|dir|] == dir
  {
    var rest := Join(parts)[|Join(dir)| + 1..];
    Unprefix(Join(dir) + "/", Join(parts));
    if |parts| == 1 {
      SlashInside(dir, parts[0], rest);
    } else if |dir| == 1 {
      NoSlashSplit(dir[0], rest, parts[0], Join(parts[1..]));
      assert parts[..1] == [parts[0]] == dir;
    } else {
      Regroup(dir[0], Join(dir[1..]), rest);
      NoSlashSplit(dir[0], Join(dir[1..]) + "/" + rest, parts[0], Join(parts[1..]));
      PrefixIsAncestor(dir[1..], parts[1..]);
      ConsPrefix(dir, parts);
    }
  }

  lemma Unprefix(front: string, all: string)
    requires front <= all
    ensures all == front + all[|front|..]
  {
  }

  lemma Regroup(a: string, b: string, rest: string)
    ensures (a + "/" + b) + "/" + rest == a + "/" + (b + "/" + rest)
  {
  }

  lemma ConsPrefix(dir: seq<string>, parts: seq<string>)
    requires 1 <= |dir| <= |parts| && dir[0] == parts[0] && parts[1..][..|dir| - 1] == dir[1..]
    ensures parts[..|dir|] == dir
  {
    assert parts[..|dir|] == [parts[0]] + parts[1..][..|dir| - 1];
    assert dir == [dir[0]] + dir[1..];
  }

  lemma SlashInside(dir: seq<string>, name: string, rest: string)
    requires Name(name)
    ensures name != Join(dir) + "/" + rest
  {
    var s := Join(dir) + "/" + rest;
    assert s[|Join(dir)|] == '/';
    assert '/' in s;
  }

  // ----- the pass -----

  /** The remembered prefixes are those of the excluded directories seen so far. */
  ghost predicate Remembered(matches: Match, patterns: seq<string>, seen: seq<Entry>, prefixes: seq<string>) {
    && (forall s | s in prefixes :: exists d :: d in seen && d.isDir && Excluded(matches, patterns, d.parts) && s == Join(d.parts) + "/")
    && (forall d | d in seen && d.isDir && Excluded(matches, patterns, d.parts) :: Join(d.parts) + "/" in prefixes)
  }

  predicate StartsWithAny(prefixes: seq<string>, rel: string) {
    exists i :: 0 <= i < |prefixes| && prefixes[i] <= rel
  }

  lemma ParentListed(listing: seq<Entry>, i: nat) returns (j: nat)
    requires ParentsFirst(listing) && i < |listing| && |listing[i].parts| > 1
    ensures j < i && listing[j].isDir && listing[j].parts == listing[i].parts[..|listing[i].parts| - 1]
  {
    var parts := listing[i].parts;
    assert HasParent(listing[..i], parts);
    j :| 0 <= j < i && listing[..i][j].isDir && listing[..i][j].parts == parts[..|parts| - 1];
  }

  /** Every ancestor of a listed path is a directory listed before it. */
  lemma {:induction false} AncestorListed(listing: seq<Entry>, i: nat, k: nat) returns (j: nat)
    requires ParentsFirst(listing) && i < |listing| && 1 <= k < |listing[i].parts|
    ensures j < i && listing[j].isDir && listing[j].parts == listing[i].parts[..k]
    decreases i
  {
    var parts := listing[i].parts;
    j := ParentListed(listing, i);
    if k < |parts| - 1 {
      var m := AncestorListed(listing, j, k);
      assert parts[..|parts| - 1][..k] == parts[..k];
      j := m;
    }
  }

  /** A descendant of an excluded path is excluded. */
  lemma ExcludedBelow(matches: Match, patterns: seq<string>, dir: seq<string>, parts: seq<string>)
    requires Excluded(matches, patterns, dir) && |dir| <= |parts| && parts[..|dir|] == dir
    ensures Excluded(matches, patterns, parts)
  {
    var k :| 1 <= k <= |dir| && MatchesAny(matches, patterns, Join(dir[..k]));
    assert parts[..k] == dir[..k];
  }

  /** What the pass tests is what the rule says. */
  lemma TestIsRule(matches: Match, patterns: seq<string>, listing: seq<Entry>, i: nat, prefixes: seq<string>)
    requires Listing(listing) && i < |listing| && Remembered(matches, patterns, listing[..i], prefixes)
    ensures var rel := Join(listing[i].parts);
            MatchesAny(matches, patterns, rel) || StartsWithAny(prefixes, rel) <==> Excluded(matches, patterns, listing[i].parts)
  {
    var parts := listing[i].parts;
    var rel := Join(parts);
    if MatchesAny(matches, patterns, rel) {
      assert parts[..|parts|] == parts;
    } else if StartsWithAny(prefixes, rel) {
      PrefixExcludes(matches, patterns, listing, i, prefixes);
    } else if Excluded(matches, patterns, parts) {
      AncestorPrefixes(matches, patterns, listing, i, prefixes);
    }
  }

  lemma PrefixExcludes(matches: Match, patterns: seq<string>, listing: seq<Entry>, i: nat, prefixes: seq<string>)
    requires Listing(listing) && i < |listing| && Remembered(matches, patterns, listing[..i], prefixes)
    requires StartsWithAny(prefixes, Join(listing[i].parts))
    ensures Excluded(matches, patterns, listing[i].parts)
  {
    var n :| 0 <= n < |prefixes| && prefixes[n] <= Join(listing[i].parts);
    assert prefixes[n] in prefixes;
    var d :| d in listing[..i] && d.isDir && Excluded(matches, patterns, d.parts) && prefixes[n] == Join(d.parts) + "/";
    PrefixIsAncestor(d.parts, listing[i].parts);
    ExcludedBelow(matches, patterns, d.parts, listing[i].parts);
  }

  lemma AncestorPrefixes(matches: Match, patterns: seq<string>, listing: seq<Entry>, i: nat, prefixes: seq<string>)
    requires Listing(listing) && i < |listing| && Remembered(matches, patterns, listing[..i], prefixes)
    requires Excluded(matches, patterns, listing[i].parts) && !MatchesAny(matches, patterns, Join(listing[i].parts))
    ensures StartsWithAny(prefixes, Join(listing[i].parts))
  {
    var d := MatchedAncestor(matches, patterns, listing, i);
    var s := Join(d.parts) + "/";
    assert s in prefixes;
    var n :| 0 <= n < |prefixes| && prefixes[n] == s;
  }

  /** The directory a match higher up comes from. */
  lemma MatchedAncestor(matches: Match, patterns: seq<string>, listing: seq<Entry>, i: nat) returns (d: Entry)
    requires ParentsFirst(listing) && i < |listing|
    requires Excluded(matches, patterns, listing[i].parts) && !MatchesAny(matches, patterns, Join(listing[i].parts))
    ensures d in listing[..i] && d.isDir && Excluded(matches, patterns, d.parts)
    ensures Join(d.parts) + "/" <= Join(listing[i].parts)
  {
    var parts := listing[i].parts;
    var k :| 1 <= k <= |parts| && MatchesAny(matches, patterns, Join(parts[..k]));
    assert parts[..|parts|] == parts;
    var j := AncestorListed(listing, i, k);
    d := listing[j];
    assert listing[..i][j] == d;
    MatchExcludes(matches, patterns, d.parts);
    JoinExtends(parts, k);
  }

  lemma MatchExcludes(matches: Match, patterns: seq<string>, parts: seq<string>)
    requires parts != [] && MatchesAny(matches, patterns, Join(parts))
    ensures Excluded(matches, patterns, parts)
  {
    assert parts[..|parts|] == parts;
  }

  lemma {:induction false} RememberedStep(matches: Match, patterns: seq<string>, listing: seq<Entry>, i: nat, prefixes: seq<string>)
    requires i < |listing| && Remembered(matches, patterns, listing[..i], prefixes)
    ensures var e := listing[i];
            Remembered(matches, patterns, listing[..i + 1],
                       if Excluded(matches, patterns, e.parts) && e.isDir then prefixes + [Join(e.parts) + "/"] else prefixes)
  {
    assert listing[..i + 1] == listing[..i] + [listing[i]];
  }

  // ----- the result -----

  lemma {:induction false} KeptMember(matches: Match, patterns: seq<string>, listing: seq<Entry>, e: Entry)
    ensures e in Kept(matches, patterns, listing) <==> e in listing && !Excluded(matches, patterns, e.parts)
  {
    if listing != [] {
      var init, last := listing[..|listing| - 1], listing[|listing| - 1];
      KeptMember(matches, patterns, init, e);
      assert listing == init + [last];
    }
  }

  /** Kept are exactly the listed entries of which no pattern matches the path or the path of an ancestor. */
  lemma KeptIff(matches: Match, patterns: seq<string>, listing: seq<Entry>, e: Entry)
    ensures e in Kept(matches, patterns, listing) <==>
            e in listing && forall k, i | 1 <= k <= |e.parts| && 0 <= i < |patterns| :: !matches(Join(e.parts[..k]), patterns[i])
  {
    KeptMember(matches, patterns, listing, e);
    if k, i :| 1 <= k <= |e.parts| && 0 <= i < |patterns| && matches(Join(e.parts[..k]), patterns[i]) {
      assert MatchesAny(matches, patterns, Join(e.parts[..k]));
    }
  }

  /** ... in the order of the listing. */
  lemma {:induction false} KeptInOrder(matches: Match, patterns: seq<string>, listing: seq<Entry>)
    requires InPathOrder(listing)
    ensures InPathOrder(Kept(matches, patterns, listing))
  {
    if listing != [] {
      var n := |listing| - 1;
      var init, e := listing[..n], listing[n];
      KeptInOrder(matches, patterns, init);
      var kept := Kept(matches, patterns, init);
      forall i | 0 <= i < |kept| ensures PathBefore(kept[i].parts, e.parts) {
        KeptMember(matches, patterns, init, kept[i]);
        assert kept[i] in kept;
        var j :| 0 <= j < n && init[j] == kept[i];
        assert listing[j] == init[j];
      }
    }
  }

  lemma PrefixListing(listing: seq<Entry>, n: nat)
    requires Listing(listing) && n <= |listing|
    ensures Listing(listing[..n])
  {
    forall i | 0 <= i < n && |listing[i].parts| > 1 ensures HasParent(listing[..n][..i], listing[i].parts) {
      assert listing[..n][..i] == listing[..i];
    }
  }

  /** What is kept is again a listing: closed under parent directories, parents first. */
  lemma {:induction false} KeptIsListing(matches: Match, patterns: seq<string>, listing: seq<Entry>)
    requires Listing(listing)
    ensures Listing(Kept(matches, patterns, listing))
  {
    if listing != [] {
      var n := |listing| - 1;
      var init, e := listing[..n], listing[n];
      PrefixListing(listing, n);
      KeptIsListing(matches, patterns, init);
      if Excluded(matches, patterns, e.parts) {
        assert Kept(matches, patterns, listing) == Kept(matches, patterns, init);
      } else {
        if |e.parts| > 1 { ParentIsKept(matches, patterns, listing); }
        AppendListing(Kept(matches, patterns, init), e);
        assert Kept(matches, patterns, listing) == Kept(matches, patterns, init) + [e];
      }
    }
  }

  /** The parent directory of a kept entry is kept before it. */
  lemma ParentIsKept(matches: Match, patterns: seq<string>, listing: seq<Entry>)
    requires Listing(listing) && listing != [] && |listing[|listing| - 1].parts| > 1
    requires !Excluded(matches, patterns, listing[|listing| - 1].parts)
    ensures HasParent(Kept(matches, patterns, listing[..|listing| - 1]), listing[|listing| - 1].parts)
  {
    var n := |listing| - 1;
    var init, parts := listing[..n], listing[n].parts;
    var j := ParentListed(listing, n);
    assert init[j] == listing[j];
    ParentNotExcluded(matches, patterns, listing[j].parts, parts);
    KeptMember(matches, patterns, init, listing[j]);
  }

  lemma ParentNotExcluded(matches: Match, patterns: seq<string>, up: seq<string>, parts: seq<string>)
    requires |parts| > 1 && up == parts[..|parts| - 1] && !Excluded(matches, patterns, parts)
    ensures !Excluded(matches, patterns, up)
  {
    if Excluded(matches, patterns, up) { ExcludedBelow(matches, patterns, up, parts); }
  }

  lemma AppendListing(kept: seq<Entry>, e: Entry)
    requires Listing(kept) && Named(e.parts)
    requires |e.parts| > 1 ==> HasParent(kept, e.parts)
    ensures Listing(kept + [e])
  {
    var all := kept + [e];
    forall i | 0 <= i < |all| && |all[i].parts| > 1 ensures HasParent(all[..i], all[i].parts) {
      assert all[..i] == kept[..i];
      assert kept[..|kept|] == kept;
    }
  }

  /** One turn of the loop, in the rule's terms. */
  lemma NextEntry(matches: Match, patterns: seq<string>, listing: seq<Entry>, i: nat, prefixes: seq<string>)
    requires Listing(listing) && i < |listing| && Remembered(matches, patterns, listing[..i], prefixes)
    ensures var e, rel := listing[i], Join(listing[i].parts);
            var out := MatchesAny(matches, patterns, rel) || StartsWithAny(prefixes, rel);
            && Remembered(matches, patterns, listing[..i + 1], if out && e.isDir then prefixes + [rel + "/"] else prefixes)
            && Kept(matches, patterns, listing[..i + 1]) == Kept(matches, patterns, listing[..i]) + if out then [] else [e]
  {
    TestIsRule(matches, patterns, listing, i, prefixes);
    RememberedStep(matches, patterns, listing, i, prefixes);
    KeptStep(matches, patterns, listing, i);
  }

  lemma KeptStep(matches: Match, patterns: seq<string>, listing: seq<Entry>, i: nat)
    requires i < |listing|
    ensures Kept(matches, patterns, listing[..i + 1]) ==
            Kept(matches, patterns, listing[..i]) + if Excluded(matches, patterns, listing[i].parts) then [] else [listing[i]]
  {
    assert listing[..i + 1][..i] == listing[..i];
  }

  /** The walk: exactly the paths with no ancestor-or-self matching a pattern, in order. */
  method ContextEntries(matches: Match, patterns: seq<string>, listing: seq<Entry>) returns (entries: seq<Entry>)
    requires Listing(listing)
    ensures entries == Kept(matches, patterns, listing) && Listing(entries)
  {
    var prefixes: seq<string> := [];
    entries := [];
    for i := 0 to |listing|
      invariant Remembered(matches, patterns, listing[..i], prefixes)
      invariant entries == Kept(matches, patterns, listing[..i])
    {
      var rel := Join(listing[i].parts);
      NextEntry(matches, patterns, listing, i, prefixes);
      if MatchesAny(matches, patterns, rel) || StartsWithAny(prefixes, rel) {
        if listing[i].isDir {
          prefixes := prefixes + [rel + "/"];
        }
      } else {
        entries := entries + [listing[i]];
      }
    }
    assert listing[..|listing|] == listing;
    KeptIsListing(matches, patterns, listing);
  }
}
