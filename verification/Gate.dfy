/** The benchmark regression gate: merging two runs by bench name. */
module Gate {
  import opened Prelude

  /** A result record; an old baseline may lack the "correct" key. */
  datatype Bench = Bench(name: string, ns: real, correct: Option<bool>)

  datatype Verdict = NEW | MISSING | OK | REGRESSION | IMPROVED | MISMATCH

  datatype Row = Row(name: string, baseline: Option<real>, current: Option<real>, deltaPct: Option<real>, verdict: Verdict)

  /** What the comparison raises: a missing "correct" in the current run, or 1 / 0. */
  datatype Error = MissingCorrect | ZeroThreshold

  datatype Result<+T> = Ok(value: T) | Raise(error: Error)

  datatype Rule = Rule(threshold: real, minDelta: real)

  /** Both runs timed the bench: how do they compare? */
  function Judge(cur: Bench, base: Bench, rule: Rule): Result<Row> {
    var row := Row(cur.name, Some(base.ns), Some(cur.ns), None, MISMATCH);
    if !(base.ns > 0.0 && cur.ns > 0.0) then Ok(row)
    else if cur.correct.None? then Raise(MissingCorrect)
    else if !cur.correct.value || base.correct == Some(false) then Ok(row)
    else
      var ratio, delta := cur.ns / base.ns, cur.ns - base.ns;
      var timed := row.(deltaPct := Some((ratio - 1.0) * 100.0));
      if ratio > rule.threshold && delta > rule.minDelta then Ok(timed.(verdict := REGRESSION))
      else if rule.threshold == 0.0 then Raise(ZeroThreshold)
      else if ratio < 1.0 / rule.threshold && -delta > rule.minDelta then Ok(timed.(verdict := IMPROVED))
      else Ok(timed.(verdict := OK))
  }

  function NewRow(cur: Bench): Row {
    Row(cur.name, None, Some(cur.ns), None, NEW)
  }

  function MissingRow(base: Bench): Row {
    Row(base.name, Some(base.ns), None, None, MISSING)
  }

  predicate Fails(v: Verdict) { v == REGRESSION || v == MISMATCH }

  // ----- dictionaries in insertion order -----

  function Find(dict: seq<Bench>, name: string): Option<Bench> {
    if dict == [] then None else if dict[0].name == name then Some(dict[0]) else Find(dict[1..], name)
  }

  /** dict[name] = b: in place when the key exists, at the end otherwise. */
  function Store(dict: seq<Bench>, b: Bench): seq<Bench> {
    if dict == [] then [b] else if dict[0].name == b.name then [b] + dict[1..] else [dict[0]] + Store(dict[1..], b)
  }

  function Drop(dict: seq<Bench>, name: string): seq<Bench> {
    if dict == [] then [] else if dict[0].name == name then dict[1..] else [dict[0]] + Drop(dict[1..], name)
  }

  function DictOf(results: seq<Bench>): seq<Bench> {
    if results == [] then [] else Store(DictOf(results[..|results| - 1]), results[|results| - 1])
  }

  // ----- the loop as a function -----

  /** The row for one current result, against what is left of the baseline. */
  function RowFor(cur: Bench, dict: seq<Bench>, rule: Rule): Result<Row> {
    match Find(dict, cur.name)
    case None => Ok(NewRow(cur))
    case Some(base) => Judge(cur, base, rule)
  }

  function MissingRows(dict: seq<Bench>): seq<Row> {
    if dict == [] then [] else [MissingRow(dict[0])] + MissingRows(dict[1..])
  }

  function Merge(current: seq<Bench>, dict: seq<Bench>, rule: Rule): Result<seq<Row>> {
    if current == [] then Ok(MissingRows(dict))
    else
      match RowFor(current[0], dict, rule)
      case Raise(e) => Raise(e)
      case Ok(row) =>
        match Merge(current[1..], Drop(dict, current[0].name), rule)
        case Raise(e) => Raise(e)
        case Ok(rest) => Ok([row] + rest)
  }

  predicate AnyFails(rows: seq<Row>) {
    exists i :: 0 <= i < |rows| && Fails(rows[i].verdict)
  }

  /** Rows already emitted, then the rest. */
  function After(rows: seq<Row>, rest: Result<seq<Row>>): Result<seq<Row>> {
    match rest
    case Raise(e) => Raise(e)
    case Ok(more) => Ok(rows + more)
  }

  lemma NextRow(rows: seq<Row>, current: seq<Bench>, i: nat, dict: seq<Bench>, rule: Rule)
    requires i < |current|
    ensures match RowFor(current[i], dict, rule)
            case Raise(e) => Merge(current[i..], dict, rule) == Raise(e)
            case Ok(row) =>
              After(rows, Merge(current[i..], dict, rule)) ==
              After(rows + [row], Merge(current[i + 1..], Drop(dict, current[i].name), rule))
  {
    assert current[i..][0] == current[i] && current[i..][1..] == current[i + 1..];
    match RowFor(current[i], dict, rule)
    case Raise(_) =>
    case Ok(row) =>
      var rest := Merge(current[i + 1..], Drop(dict, current[i].name), rule);
      if rest.Ok? { assert rows + ([row] + rest.value) == rows + [row] + rest.value; }
  }

  method Compare(current: seq<Bench>, baseline: seq<Bench>, rule: Rule) returns (r: Result<(seq<Row>, bool)>)
    ensures match Merge(current, DictOf(baseline), rule)
            case Raise(e) => r == Raise(e)
            case Ok(rows) =>
              && r.Ok? && r.value.0 == rows
              && (r.value.1 <==> exists i :: 0 <= i < |rows| && (rows[i].verdict == REGRESSION || rows[i].verdict == MISMATCH))
  {
    var dict: seq<Bench> := [];
    for k := 0 to |baseline|
      invariant dict == DictOf(baseline[..k])
    {
      assert baseline[..k + 1][..k] == baseline[..k];
      dict := Store(dict, baseline[k]);
    }
    assert baseline[..|baseline|] == baseline;
    var rows: seq<Row> := [];
    var failed := false;
    ghost var goal := Merge(current, dict, rule);
    assert current[0..] == current;
    assert goal.Ok? ==> rows + goal.value == goal.value;
    for i := 0 to |current|
      invariant failed == AnyFails(rows)
      invariant goal == After(rows, Merge(current[i..], dict, rule))
    {
      NextRow(rows, current, i, dict, rule);
      var row := RowFor(current[i], dict, rule);
      if row.Raise? { return Raise(row.error); }
      dict := Drop(dict, current[i].name);
      AppendFails(rows, row.value);
      rows := rows + [row.value];
      if Fails(row.value.verdict) { failed := true; }
    }
    MissingNeverFails(dict);
    JoinFails(rows, MissingRows(dict));
    rows := rows + MissingRows(dict);
    r := Ok((rows, failed));
  }

  lemma AppendFails(rows: seq<Row>, row: Row)
    ensures AnyFails(rows + [row]) <==> AnyFails(rows) || Fails(row.verdict)
  {
    JoinFails(rows, [row]);
    assert AnyFails([row]) <==> Fails(row.verdict) by {
      if Fails(row.verdict) { assert Fails([row][0].verdict); }
    }
  }

  lemma JoinFails(a: seq<Row>, b: seq<Row>)
    ensures AnyFails(a + b) <==> AnyFails(a) || AnyFails(b)
  {
    if i :| 0 <= i < |a| && Fails(a[i].verdict) { assert (a + b)[i] == a[i]; }
    if i :| 0 <= i < |b| && Fails(b[i].verdict) { assert (a + b)[|a| + i] == b[i]; }
  }

  lemma {:induction false} MissingNeverFails(dict: seq<Bench>)
    ensures !AnyFails(MissingRows(dict))
  {
    if dict != [] {
      MissingNeverFails(dict[1..]);
      JoinFails([MissingRow(dict[0])], MissingRows(dict[1..]));
    }
  }

  // ----- runs with unique names -----

  ghost predicate Unique(bs: seq<Bench>) {
    forall i, j | 0 <= i < j < |bs| :: bs[i].name != bs[j].name
  }

  predicate Has(bs: seq<Bench>, name: string) {
    Find(bs, name).Some?
  }

  lemma {:induction false} FindNamed(bs: seq<Bench>, name: string)
    ensures Has(bs, name) <==> exists i :: 0 <= i < |bs| && bs[i].name == name
    ensures Has(bs, name) ==> Find(bs, name).value in bs && Find(bs, name).value.name == name
  {
    if bs != [] {
      FindNamed(bs[1..], name);
      if i :| 0 <= i < |bs| && bs[i].name == name && i > 0 { assert bs[1..][i - 1] == bs[i]; }
    }
  }

  lemma {:induction false} FindAfterDrop(bs: seq<Bench>, name: string, n: string)
    requires Unique(bs)
    ensures Find(Drop(bs, name), n) == if n == name then None else Find(bs, n)
    ensures Unique(Drop(bs, name))
  {
    if bs != [] {
      FindAfterDrop(bs[1..], name, n);
      if bs[0].name == name {
        FindNamed(bs[1..], name);
      } else {
        var d := Drop(bs[1..], name);
        DropMembers(bs[1..], name);
        forall i | 0 <= i < |d| ensures d[i].name != bs[0].name {
          assert d[i] in d;
          var k :| 0 <= k < |bs[1..]| && bs[1..][k] == d[i];
          assert bs[k + 1] == d[i];
        }
      }
    }
  }

  lemma {:induction false} DropMembers(bs: seq<Bench>, name: string)
    ensures forall b | b in Drop(bs, name) :: b in bs
  {
    if bs != [] { DropMembers(bs[1..], name); }
  }

  lemma {:induction false} StoreNew(dict: seq<Bench>, b: Bench)
    requires !Has(dict, b.name)
    ensures Store(dict, b) == dict + [b]
  {
    if dict != [] { StoreNew(dict[1..], b); }
  }

  lemma {:induction false} DictOfUnique(bs: seq<Bench>)
    requires Unique(bs)
    ensures DictOf(bs) == bs
  {
    if bs != [] {
      var n := |bs| - 1;
      DictOfUnique(bs[..n]);
      FindNamed(bs[..n], bs[n].name);
      StoreNew(bs[..n], bs[n]);
    }
  }

  /** What the gate should say about a name, whatever the order of the runs. */
  function Expected(current: seq<Bench>, baseline: seq<Bench>, rule: Rule, n: string): Result<Row>
    requires Has(current, n) || Has(baseline, n)
  {
    match (Find(current, n), Find(baseline, n))
    case (Some(c), Some(b)) => Judge(c, b, rule)
    case (Some(c), None) => Ok(Row(n, None, Some(c.ns), None, NEW))
    case (None, Some(b)) => Ok(Row(n, Some(b.ns), None, None, MISSING))
  }

  ghost predicate Named(rows: seq<Row>, n: string) {
    exists i :: 0 <= i < |rows| && rows[i].name == n
  }

  /** One row per name of either run, each as expected. */
  ghost predicate Covers(rows: seq<Row>, current: seq<Bench>, baseline: seq<Bench>, rule: Rule) {
    && (forall i, j | 0 <= i < j < |rows| :: rows[i].name != rows[j].name)
    && (forall n :: Named(rows, n) <==> Has(current, n) || Has(baseline, n))
    && (forall i | 0 <= i < |rows| ::
          (Has(current, rows[i].name) || Has(baseline, rows[i].name)) &&
          Expected(current, baseline, rule, rows[i].name) == Ok(rows[i]))
  }

  lemma {:induction false} MissingCovers(baseline: seq<Bench>, rule: Rule)
    requires Unique(baseline)
    ensures |MissingRows(baseline)| == |baseline|
    ensures forall i | 0 <= i < |baseline| :: MissingRows(baseline)[i] == MissingRow(baseline[i])
    ensures Covers(MissingRows(baseline), [], baseline, rule)
  {
    MissingAt(baseline);
    var rows := MissingRows(baseline);
    forall n ensures Named(rows, n) <==> Has(baseline, n) {
      FindNamed(baseline, n);
      if i :| 0 <= i < |baseline| && baseline[i].name == n { assert rows[i].name == n; }
    }
    forall i | 0 <= i < |rows| ensures Find(baseline, rows[i].name) == Some(baseline[i]) {
      FindNamed(baseline, baseline[i].name);
    }
  }

  lemma {:induction false} MissingAt(baseline: seq<Bench>)
    ensures |MissingRows(baseline)| == |baseline|
    ensures forall i | 0 <= i < |baseline| :: MissingRows(baseline)[i] == MissingRow(baseline[i])
  {
    if baseline != [] { MissingAt(baseline[1..]); }
  }

  lemma {:induction false} MergeCovers(current: seq<Bench>, baseline: seq<Bench>, rule: Rule)
    requires Unique(current) && Unique(baseline) && Merge(current, baseline, rule).Ok?
    ensures Covers(Merge(current, baseline, rule).value, current, baseline, rule)
  {
    if current == [] {
      MissingCovers(baseline, rule);
    } else {
      var c, rest := current[0], current[1..];
      var left := Drop(baseline, c.name);
      FindAfterDrop(baseline, c.name, c.name);
      MergeCovers(rest, left, rule);
      var row, rows := RowFor(c, baseline, rule).value, Merge(rest, left, rule).value;
      FindNamed(rest, c.name);
      forall n | n != c.name ensures Find(current, n) == Find(rest, n) && Find(left, n) == Find(baseline, n) {
        FindAfterDrop(baseline, c.name, n);
      }
      AddRow(row, rows, c, rest, baseline, left, rule);
    }
  }

  lemma AddRow(row: Row, rows: seq<Row>, c: Bench, rest: seq<Bench>, baseline: seq<Bench>, left: seq<Bench>, rule: Rule)
    requires Covers(rows, rest, left, rule) && RowFor(c, baseline, rule) == Ok(row)
    requires !Has(rest, c.name) && !Has(left, c.name)
    requires forall n | n != c.name :: Find([c] + rest, n) == Find(rest, n) && Find(left, n) == Find(baseline, n)
    ensures Covers([row] + rows, [c] + rest, baseline, rule)
  {
    var all := [row] + rows;
    assert Find([c] + rest, c.name) == Some(c) && row.name == c.name;
    assert !Named(rows, c.name);
    assert forall i | 0 <= i < |rows| :: rows[i].name != c.name;
    assert forall i | 0 < i < |all| :: all[i] == rows[i - 1];
    forall n ensures Named(all, n) <==> Has([c] + rest, n) || Has(baseline, n) {
      if n == c.name {
        assert all[0].name == n;
      } else {
        if Named(rows, n) { var i :| 0 <= i < |rows| && rows[i].name == n; assert all[i + 1].name == n; }
        if Named(all, n) { var i :| 0 <= i < |all| && all[i].name == n; assert rows[i - 1].name == n; }
      }
    }
  }

  // ----- any two runs -----

  /** The last record of a name: the one a dictionary keyed by name ends up with. */
  function LastOf(bs: seq<Bench>, n: string): Option<Bench> {
    if bs == [] then None
    else if bs[|bs| - 1].name == n then Some(bs[|bs| - 1])
    else LastOf(bs[..|bs| - 1], n)
  }

  lemma {:induction false} FindStored(dict: seq<Bench>, b: Bench, n: string)
    ensures Find(Store(dict, b), n) == if n == b.name then Some(b) else Find(dict, n)
  {
    if dict != [] { FindStored(dict[1..], b, n); }
  }

  lemma {:induction false} StoreUnique(dict: seq<Bench>, b: Bench)
    requires Unique(dict)
    ensures Unique(Store(dict, b))
  {
    if dict != [] && dict[0].name != b.name {
      StoreUnique(dict[1..], b);
      var rest := Store(dict[1..], b);
      FindStored(dict[1..], b, dict[0].name);
      FindNamed(dict[1..], dict[0].name);
      FindNamed(rest, dict[0].name);
    }
  }

  lemma {:induction false} DictOfFinds(bs: seq<Bench>, n: string)
    ensures Unique(DictOf(bs)) && Find(DictOf(bs), n) == LastOf(bs, n)
  {
    if bs != [] {
      var init, b := bs[..|bs| - 1], bs[|bs| - 1];
      DictOfFinds(init, n);
      StoreUnique(DictOf(init), b);
      FindStored(DictOf(init), b, n);
    }
  }

  /** What is left of the dictionary when the current names have been popped. */
  function Left(dict: seq<Bench>, current: seq<Bench>): seq<Bench>
    decreases |current|
  {
    if current == [] then dict else Left(Drop(dict, current[0].name), current[1..])
  }

  lemma {:induction false} LeftFinds(dict: seq<Bench>, current: seq<Bench>, n: string)
    requires Unique(dict)
    ensures Unique(Left(dict, current))
    ensures Find(Left(dict, current), n) == if Has(current, n) then None else Find(dict, n)
    decreases |current|
  {
    if current != [] {
      FindAfterDrop(dict, current[0].name, n);
      LeftFinds(Drop(dict, current[0].name), current[1..], n);
    }
  }

  lemma {:induction false} MergeSplits(current: seq<Bench>, dict: seq<Bench>, rule: Rule)
    requires Merge(current, dict, rule).Ok?
    ensures var rows := Merge(current, dict, rule).value;
            |rows| >= |current| && rows[|current|..] == MissingRows(Left(dict, current))
    decreases |current|
  {
    if current == [] {
      assert MissingRows(dict)[0..] == MissingRows(dict);
    } else {
      var left := Drop(dict, current[0].name);
      MergeSplits(current[1..], left, rule);
      DropFirst(RowFor(current[0], dict, rule).value, Merge(current[1..], left, rule).value, |current|);
    }
  }

  lemma DropFirst(row: Row, rest: seq<Row>, k: nat)
    requires 1 <= k <= |rest| + 1
    ensures ([row] + rest)[k..] == rest[k - 1..]
  {
  }

  /** A current result is judged against the baseline's record the first time its name comes up, and is new after that. */
  lemma {:induction false} MergeRowAt(current: seq<Bench>, dict: seq<Bench>, rule: Rule, i: nat)
    requires Unique(dict) && Merge(current, dict, rule).Ok? && i < |current|
    ensures var rows, c := Merge(current, dict, rule).value, current[i];
            && i < |rows|
            && match (if Has(current[..i], c.name) then None else Find(dict, c.name))
               case None => rows[i] == Row(c.name, None, Some(c.ns), None, NEW)
               case Some(b) => Judge(c, b, rule) == Ok(rows[i])
    decreases |current|
  {
    if i > 0 {
      var first, rest := current[0], current[1..];
      var left := Drop(dict, first.name);
      FindAfterDrop(dict, first.name, current[i].name);
      MergeRowAt(rest, left, rule, i - 1);
      assert rest[i - 1] == current[i];
      assert current[..i][1..] == rest[..i - 1];
    }
  }

  /**
    For any two runs, repeated names included: the current results in order, each judged
    against the last baseline record of its name the first time the name comes up and new
    otherwise; then one row for each baseline name the current run does not have.
  */
  lemma CompareRows(current: seq<Bench>, baseline: seq<Bench>, rule: Rule)
    requires Merge(current, DictOf(baseline), rule).Ok?
    ensures var rows := Merge(current, DictOf(baseline), rule).value;
            && |rows| >= |current|
            && (forall i: nat | i < |current| ::
                  match (if Has(current[..i], current[i].name) then None else LastOf(baseline, current[i].name))
                  case None => rows[i] == Row(current[i].name, None, Some(current[i].ns), None, NEW)
                  case Some(b) => Judge(current[i], b, rule) == Ok(rows[i]))
            && (forall i, j | |current| <= i < j < |rows| :: rows[i].name != rows[j].name)
            && (forall i: nat | |current| <= i < |rows| ::
                  Leftover(current, baseline, rows[i]))
            && (forall n | !Has(current, n) && LastOf(baseline, n).Some? :: Named(rows[|current|..], n))
  {
    var dict := DictOf(baseline);
    var rows := Merge(current, dict, rule).value;
    DictOfFinds(baseline, "");
    MergeSplits(current, dict, rule);
    forall i: nat | i < |current|
      ensures match (if Has(current[..i], current[i].name) then None else LastOf(baseline, current[i].name))
              case None => rows[i] == Row(current[i].name, None, Some(current[i].ns), None, NEW)
              case Some(b) => Judge(current[i], b, rule) == Ok(rows[i])
    {
      DictOfFinds(baseline, current[i].name);
      MergeRowAt(current, dict, rule, i);
    }
    LeftoverRows(current, baseline, rule, rows[|current|..]);
    forall i, j | |current| <= i < j < |rows| ensures rows[i].name != rows[j].name {
      assert rows[|current|..][i - |current|] == rows[i] && rows[|current|..][j - |current|] == rows[j];
    }
    forall i: nat | |current| <= i < |rows| ensures Leftover(current, baseline, rows[i]) {
      assert rows[|current|..][i - |current|] == rows[i];
    }
  }

  ghost predicate Leftover(current: seq<Bench>, baseline: seq<Bench>, row: Row) {
    !Has(current, row.name) && LastOf(baseline, row.name).Some? &&
    row == Row(row.name, Some(LastOf(baseline, row.name).value.ns), None, None, MISSING)
  }

  lemma LeftoverRows(current: seq<Bench>, baseline: seq<Bench>, rule: Rule, tail: seq<Row>)
    requires tail == MissingRows(Left(DictOf(baseline), current))
    ensures forall i, j | 0 <= i < j < |tail| :: tail[i].name != tail[j].name
    ensures forall i | 0 <= i < |tail| :: Leftover(current, baseline, tail[i])
    ensures forall n | !Has(current, n) && LastOf(baseline, n).Some? :: Named(tail, n)
  {
    var dict := DictOf(baseline);
    var left := Left(dict, current);
    DictOfFinds(baseline, "");
    LeftFinds(dict, current, "");
    MissingCovers(left, rule);
    forall n ensures Find(left, n) == if Has(current, n) then None else LastOf(baseline, n) {
      DictOfFinds(baseline, n);
      LeftFinds(dict, current, n);
    }
    forall i | 0 <= i < |tail| ensures Leftover(current, baseline, tail[i]) {
      FindNamed(left, tail[i].name);
    }
  }

  // ----- swapping the runs -----

  function Mirror(v: Verdict): Verdict {
    match v
    case NEW => MISSING
    case MISSING => NEW
    case REGRESSION => IMPROVED
    case IMPROVED => REGRESSION
    case _ => v
  }

  ghost predicate Complete(bs: seq<Bench>) {
    forall b | b in bs :: b.correct.Some?
  }

  lemma RatioAbove(x: real, y: real, t: real)
    requires x > 0.0 && y > 0.0
    ensures x / y > t <==> x > t * y
  {
    var q := x / y;
    assert q * y == x;
    if q > t { assert (q - t) * y > 0.0; }
    if q <= t { assert (t - q) * y >= 0.0; }
  }

  lemma RatioBelow(x: real, y: real, t: real)
    requires x > 0.0 && y > 0.0 && t > 0.0
    ensures y / x < 1.0 / t <==> t * y < x
  {
    var q, u := y / x, 1.0 / t;
    assert q * x == y && u * t == 1.0;
    var k := t * x;
    assert k > 0.0;
    assert q * k == t * y && u * k == x by { assert q * (t * x) == t * (q * x); assert u * (t * x) == u * t * x; }
    if q < u { assert (u - q) * k > 0.0; }
    if q >= u { assert (q - u) * k >= 0.0; }
  }

  /** Judging the other way round mirrors the verdict. */
  lemma JudgeMirrors(c: Bench, b: Bench, rule: Rule)
    requires rule.threshold > 0.0 && rule.minDelta >= 0.0 && c.correct.Some? && b.correct.Some? && c.name == b.name
    ensures Judge(c, b, rule).Ok? && Judge(b, c, rule).Ok?
    ensures Judge(b, c, rule).value.verdict == Mirror(Judge(c, b, rule).value.verdict)
  {
    if b.ns > 0.0 && c.ns > 0.0 {
      RatioAbove(c.ns, b.ns, rule.threshold);
      RatioAbove(b.ns, c.ns, rule.threshold);
      RatioBelow(c.ns, b.ns, rule.threshold);
      RatioBelow(b.ns, c.ns, rule.threshold);
    }
  }

  /**
    The row for a bench that both runs timed, in full and without division: both
    timings positive, the current one correct and the baseline not known to be wrong,
    or a mismatch; past the threshold and past the minimum delta, one way or the other;
    and what is raised instead.
  */
  lemma JudgeMeans(c: Bench, b: Bench, rule: Rule)
    ensures var timed := b.ns > 0.0 && c.ns > 0.0;
            var usable := timed && c.correct == Some(true) && b.correct != Some(false);
            var slower := c.ns > rule.threshold * b.ns && c.ns - b.ns > rule.minDelta;
            var faster := rule.threshold > 0.0 && b.ns > rule.threshold * c.ns && b.ns - c.ns > rule.minDelta;
            match Judge(c, b, rule)
            case Raise(MissingCorrect) => timed && c.correct.None?
            case Raise(ZeroThreshold) => usable && rule.threshold == 0.0 && !slower
            case Ok(row) =>
              && (timed ==> c.correct.Some?) && (usable && !slower ==> rule.threshold != 0.0)
              && row.name == c.name && row.baseline == Some(b.ns) && row.current == Some(c.ns)
              && (if usable then row.deltaPct.Some? && row.deltaPct.value * b.ns == 100.0 * (c.ns - b.ns) else row.deltaPct.None?)
              && row.verdict == if !usable then MISMATCH else if slower then REGRESSION else if faster then IMPROVED else OK
  {
    if b.ns > 0.0 && c.ns > 0.0 {
      RatioAbove(c.ns, b.ns, rule.threshold);
      DeltaOfRatio(c.ns, b.ns);
      if rule.threshold > 0.0 { RatioBelow(b.ns, c.ns, rule.threshold); } else { RatioPositive(c.ns, b.ns, rule.threshold); }
    }
  }

  lemma DeltaOfRatio(x: real, y: real)
    requires y > 0.0
    ensures (x / y - 1.0) * 100.0 * y == 100.0 * (x - y)
  {
    var q := x / y;
    assert q * y == x;
    assert (q - 1.0) * 100.0 * y == 100.0 * (q * y - y);
  }

  lemma RatioPositive(x: real, y: real, t: real)
    requires x > 0.0 && y > 0.0 && t <= 0.0
    ensures t != 0.0 ==> x / y >= 1.0 / t
  {
    assert x / y > 0.0;
    if t != 0.0 { assert 1.0 / t < 0.0; }
  }

  lemma {:induction false} MergeOk(current: seq<Bench>, dict: seq<Bench>, rule: Rule)
    requires rule.threshold != 0.0 && Complete(current)
    ensures Merge(current, dict, rule).Ok?
  {
    if current != [] { MergeOk(current[1..], Drop(dict, current[0].name), rule); }
  }

  /**
    For two runs with unique names: one row per name of either run, failure exactly
    when some row is a regression or a mismatch, and swapping the runs mirrors every
    verdict.
  */
  lemma GateIsSymmetric(current: seq<Bench>, baseline: seq<Bench>, rule: Rule)
    requires Unique(current) && Unique(baseline) && Complete(current) && Complete(baseline)
    requires rule.threshold > 0.0 && rule.minDelta >= 0.0
    ensures var there, back := Merge(current, DictOf(baseline), rule), Merge(baseline, DictOf(current), rule);
            && there.Ok? && back.Ok?
            && Covers(there.value, current, baseline, rule) && Covers(back.value, baseline, current, rule)
            && forall i, j | 0 <= i < |there.value| && 0 <= j < |back.value| && there.value[i].name == back.value[j].name ::
                 back.value[j].verdict == Mirror(there.value[i].verdict)
  {
    DictOfUnique(current);
    DictOfUnique(baseline);
    MergeOk(current, baseline, rule);
    MergeOk(baseline, current, rule);
    MergeCovers(current, baseline, rule);
    MergeCovers(baseline, current, rule);
    var rows, back := Merge(current, baseline, rule).value, Merge(baseline, current, rule).value;
    forall i, j | 0 <= i < |rows| && 0 <= j < |back| && rows[i].name == back[j].name
      ensures back[j].verdict == Mirror(rows[i].verdict)
    {
      ExpectedMirrors(current, baseline, rule, rows[i].name);
    }
  }

  lemma ExpectedMirrors(current: seq<Bench>, baseline: seq<Bench>, rule: Rule, n: string)
    requires (Has(current, n) || Has(baseline, n)) && Complete(current) && Complete(baseline)
    requires rule.threshold > 0.0 && rule.minDelta >= 0.0
    ensures var there, back := Expected(current, baseline, rule, n), Expected(baseline, current, rule, n);
            there.Ok? && back.Ok? && back.value.verdict == Mirror(there.value.verdict)
  {
    FindNamed(current, n);
    FindNamed(baseline, n);
    if Has(current, n) && Has(baseline, n) { JudgeMirrors(Find(current, n).value, Find(baseline, n).value, rule); }
  }
}
