/**
  The overdispatch bound is reached, for each text of the statement, each limit and
  each number of workers.  All workers but the last take a snapshot while nothing
  runs and lock rows of their own; the last then fills the quota round by round; and
  after that the others commit.
*/
module OverdispatchPeak {
  import opened Prelude
  import opened Ranking
  import opened Claim
  import opened ClaimSafety
  import opened Rounds
  import opened Overdispatch
  import opened LatestRound

  /** The scene, and the quota it is to overshoot. */
  datatype Plot = Plot(e: Scene, size: nat)

  ghost predicate Fits(cfg: Config, t: Plot) {
    && t.e.actor in cfg && t.size >= 1 && t.e.top >= 1 && (t.e.v.Literal? ==> t.e.top <= LITERAL_TOP)
    && match t.e.identity
       case None => cfg[t.e.actor] == Some(t.size)
       case Some(_) => t.size == 1 && (cfg[t.e.actor].None? || cfg[t.e.actor].value >= 1)
  }

  /** What one round takes of a fresh quota. */
  function Share(t: Plot): nat {
    Min(t.size, t.e.top)
  }

  function RowAt(e: Scene, id: nat, lo: nat, hi: nat): Job {
    if lo <= id < hi then RowJob(e, id).(status := Running, attempt := 1) else RowJob(e, id)
  }

  /** m rows, of which those from lo to hi run. */
  function Table(e: Scene, m: nat, lo: nat, hi: nat): Jobs {
    if m == 0 then map[] else Table(e, m - 1, lo, hi)[m - 1 := RowAt(e, m - 1, lo, hi)]
  }

  lemma {:induction false} TableRows(e: Scene, m: nat, lo: nat, hi: nat)
    ensures forall id: nat :: id in Table(e, m, lo, hi) <==> id < m
    ensures forall id | id in Table(e, m, lo, hi) :: Table(e, m, lo, hi)[id] == RowAt(e, id, lo, hi)
  {
    if m > 0 { TableRows(e, m - 1, lo, hi); }
  }

  lemma TableRuns(e: Scene, m: nat, lo: nat, hi: nat)
    requires lo <= hi <= m
    ensures InFlight(Table(e, m, lo, hi), e.actor) == hi - lo
  {
    var running := RunningOf(Table(e, m, lo, hi), e.actor);
    TableRows(e, m, lo, hi);
    BlockIds(lo, hi - lo);
    forall id: nat ensures id in running <==> id in Block(lo, hi - lo) {}
    assert running == Block(lo, hi - lo);
  }

  lemma TableReady(cfg: Config, t: Plot, m: nat, d: nat, lo: nat, hi: nat)
    requires Fits(cfg, t) && lo <= hi <= m && 1 <= d <= t.e.top && hi - lo + d <= t.size
    ensures Ready(cfg, t.e, Table(t.e, m + d, lo, hi), m, d)
  {
    TableRows(t.e, m + d, lo, hi);
    TableRuns(t.e, m + d, lo, hi);
  }

  // ----- runs -----

  ghost predicate Reaches(cfg: Config, e: Scene, states: seq<State>, steps: seq<Rounds.Step>, n: nat, s: State) {
    && Rounds.IsRun(cfg, states, steps) && AtRest(states[0]) && |states[0].workers| == n && states[|steps|] == s
    && forall i | 0 <= i < |steps| && steps[i].Begin? :: steps[i].v == e.v && steps[i].p == ParamsOf(e)
  }

  ghost predicate Reachable(cfg: Config, e: Scene, n: nat, s: State) {
    exists states, steps :: Reaches(cfg, e, states, steps, n, s)
  }

  lemma StepReaches(cfg: Config, e: Scene, n: nat, s: State, step: Rounds.Step)
    requires Reachable(cfg, e, n, s) && Enabled(s, step) && (step.Begin? ==> step.v == e.v && step.p == ParamsOf(e))
    ensures Reachable(cfg, e, n, Apply(cfg, s, step))
  {
    var states, steps :| Reaches(cfg, e, states, steps, n, s);
    assert Reaches(cfg, e, states + [Apply(cfg, s, step)], steps + [step], n, Apply(cfg, s, step));
  }

  lemma TableGrows(e: Scene, m: nat, lo: nat, hi: nat)
    requires hi <= m
    ensures m !in Table(e, m, lo, hi) && Table(e, m, lo, hi)[m := RowJob(e, m)] == Table(e, m + 1, lo, hi)
  {
    TableRows(e, m, lo, hi);
  }

  lemma {:induction false} EnqueueAll(cfg: Config, e: Scene, n: nat, s: State, m: nat, d: nat, lo: nat, hi: nat)
    requires Reachable(cfg, e, n, s) && s.db == Table(e, m, lo, hi) && hi <= m
    ensures Reachable(cfg, e, n, s.(db := Table(e, m + d, lo, hi)))
    decreases d
  {
    if d > 0 {
      var step := Rounds.Enqueue(m, RowJob(e, m));
      TableGrows(e, m, lo, hi);
      StepReaches(cfg, e, n, s, step);
      EnqueueAll(cfg, e, n, s.(db := Table(e, m + 1, lo, hi)), m + 1, d - 1, lo, hi);
    }
  }

  function With(s: State, k: nat, ph: Phase): State
    requires k < |s.workers|
  {
    s.(workers := s.workers[k := ph])
  }

  lemma WithTwice(s: State, k: nat, a: Phase, b: Phase)
    requires k < |s.workers|
    ensures With(With(s, k, a), k, b) == With(s, k, b) && With(s, k, s.workers[k]) == s
  {
  }

  ghost predicate HeldElsewhere(workers: seq<Phase>, k: nat, id: nat) {
    exists w :: 0 <= w < |workers| && w != k && id in HeldBy(workers[w])
  }

  lemma ElsewhereStays(workers: seq<Phase>, k: nat, ph: Phase, id: nat)
    requires k < |workers|
    ensures HeldElsewhere(workers[k := ph], k, id) <==> HeldElsewhere(workers, k, id)
  {
    if HeldElsewhere(workers, k, id) {
      var w :| 0 <= w < |workers| && w != k && id in HeldBy(workers[w]);
      assert id in HeldBy(workers[k := ph][w]);
    }
  }

  lemma FreeIff(s: State, k: nat, id: nat)
    requires k < |s.workers|
    ensures Free(s, id) <==> id !in HeldBy(s.workers[k]) && !HeldElsewhere(s.workers, k, id)
  {
  }

  /** A row of worker k's own is free to take, any other it tries is taken. */
  ghost predicate Tried(db: Jobs, workers: seq<Phase>, k: nat, own: set<nat>, id: nat) {
    if id in own then id in db && db[id].status == Pending && !HeldElsewhere(workers, k, id)
    else HeldElsewhere(workers, k, id)
  }

  /** Worker k part-way through its locks. */
  ghost predicate Picking(s: State, k: nat, todo: set<nat>, own: set<nat>) {
    && k < |s.workers| && s.workers[k].Locking? && s.workers[k].todo == todo && s.workers[k].held == own - todo
    && forall id | id in todo :: Tried(s.db, s.workers, k, own, id)
  }

  function Picked(ph: Phase, todo: set<nat>, own: set<nat>): Phase
    requires ph.Locking?
  {
    ph.(todo := todo, held := own - todo)
  }

  lemma TryTakes(cfg: Config, s: State, k: nat, todo: set<nat>, own: set<nat>, id: nat)
    requires Picking(s, k, todo, own) && id in todo
    ensures Apply(cfg, s, Try(k, id)) == With(s, k, Picked(s.workers[k], todo - {id}, own))
  {
    FreeIff(s, k, id);
    assert Lockable(s, id) <==> id in own;
    assert own - (todo - {id}) == (own - todo) + (if id in own then {id} else {});
  }

  lemma TryOne(cfg: Config, s: State, k: nat, todo: set<nat>, own: set<nat>, id: nat)
    requires Picking(s, k, todo, own) && id in todo
    ensures var ph := Picked(s.workers[k], todo - {id}, own);
            Apply(cfg, s, Try(k, id)) == With(s, k, ph) && Picking(With(s, k, ph), k, todo - {id}, own)
  {
    var ph := Picked(s.workers[k], todo - {id}, own);
    TryTakes(cfg, s, k, todo, own, id);
    forall x | x in todo - {id} ensures Tried(s.db, s.workers[k := ph], k, own, x) { ElsewhereStays(s.workers, k, ph, x); }
  }

  lemma {:induction false} TryAll(cfg: Config, e: Scene, n: nat, s: State, k: nat, todo: set<nat>, own: set<nat>)
    requires Reachable(cfg, e, n, s) && Picking(s, k, todo, own)
    ensures Reachable(cfg, e, n, With(s, k, Picked(s.workers[k], {}, own)))
    decreases |todo|
  {
    var done := Picked(s.workers[k], {}, own);
    if id :| id in todo {
      var ph := Picked(s.workers[k], todo - {id}, own);
      TryOne(cfg, s, k, todo, own, id);
      StepReaches(cfg, e, n, s, Try(k, id));
      TryAll(cfg, e, n, With(s, k, ph), k, todo - {id}, own);
      WithTwice(s, k, ph, done);
    } else {
      assert todo == {};
      WithTwice(s, k, done, done);
    }
  }

  // ----- one round up to its locks -----

  /** A round that holds the d rows that arrived after m and has not committed. */
  function Holding(e: Scene, m: nat, d: nat, lo: nat, hi: nat): Phase {
    Locking(Table(e, m + d, lo, hi), e.v, ParamsOf(e), {}, Block(m, d))
  }

  /** Every pending row among the first m is held by a worker other than k, and no later row by anyone. */
  ghost predicate AllHeld(db: Jobs, workers: seq<Phase>, k: nat, m: nat) {
    && (forall id | id in db && id < m && db[id].status == Pending :: HeldElsewhere(workers, k, id))
    && (forall id: nat | id >= m :: !HeldElsewhere(workers, k, id))
  }

  lemma BeginTries(cfg: Config, e: Scene, db: Jobs, workers: seq<Phase>, k: nat, m: nat, d: nat, id: nat)
    requires Ready(cfg, e, db, m, d) && AllHeld(db, workers, k, m) && id in TopIds(e.v, db, cfg, ParamsOf(e))
    ensures Tried(db, workers, k, Block(m, d), id)
  {
    BlockIds(m, d);
    TopIdsPending(e.v, db, cfg, ParamsOf(e));
    assert id in db && db[id].status == Pending;
  }

  lemma BeginPicks(cfg: Config, e: Scene, s: State, k: nat, m: nat, d: nat)
    requires Ready(cfg, e, s.db, m, d) && k < |s.workers| && AllHeld(s.db, s.workers, k, m)
    ensures var todo := TopIds(e.v, s.db, cfg, ParamsOf(e));
            Picking(With(s, k, Locking(s.db, e.v, ParamsOf(e), todo, {})), k, todo, Block(m, d))
  {
    var todo, own := TopIds(e.v, s.db, cfg, ParamsOf(e)), Block(m, d);
    var ph := Locking(s.db, e.v, ParamsOf(e), todo, {});
    OwnAreTried(cfg, e, s.db, m, d);
    forall id | id in todo ensures Tried(s.db, s.workers[k := ph], k, own, id) {
      BeginTries(cfg, e, s.db, s.workers, k, m, d, id);
      ElsewhereStays(s.workers, k, ph, id);
    }
  }

  lemma OwnAreTried(cfg: Config, e: Scene, db: Jobs, m: nat, d: nat)
    requires Ready(cfg, e, db, m, d)
    ensures Block(m, d) - TopIds(e.v, db, cfg, ParamsOf(e)) == {}
  {
    BlockIds(m, d);
    forall id | id in Block(m, d) ensures id in TopIds(e.v, db, cfg, ParamsOf(e)) { LatestIsTop(cfg, e, db, m, d, id); }
  }

  lemma LockRound(cfg: Config, e: Scene, n: nat, s: State, k: nat, m: nat, d: nat)
    requires Reachable(cfg, e, n, s) && Ready(cfg, e, s.db, m, d)
    requires k < |s.workers| && s.workers[k].Idle? && AllHeld(s.db, s.workers, k, m)
    ensures Reachable(cfg, e, n, With(s, k, Locking(s.db, e.v, ParamsOf(e), {}, Block(m, d))))
  {
    var todo, own := TopIds(e.v, s.db, cfg, ParamsOf(e)), Block(m, d);
    var ph := Locking(s.db, e.v, ParamsOf(e), todo, {});
    BeginPicks(cfg, e, s, k, m, d);
    StepReaches(cfg, e, n, s, Begin(k, e.v, ParamsOf(e)));
    TryAll(cfg, e, n, With(s, k, ph), k, todo, own);
    assert own - {} == own;
    WithTwice(s, k, ph, Picked(ph, {}, own));
  }

  /** d rows arrive and the next round locks them. */
  lemma ArriveAndLock(cfg: Config, t: Plot, n: nat, s: State, k: nat, m: nat, d: nat, lo: nat, hi: nat)
    requires Fits(cfg, t) && Reachable(cfg, t.e, n, s) && s.db == Table(t.e, m, lo, hi)
    requires lo <= hi <= m && 1 <= d <= t.e.top && hi - lo + d <= t.size
    requires k < |s.workers| && s.workers[k].Idle? && AllHeld(s.db, s.workers, k, m)
    ensures Reachable(cfg, t.e, n, With(s.(db := Table(t.e, m + d, lo, hi)), k, Holding(t.e, m, d, lo, hi)))
  {
    EnqueueAll(cfg, t.e, n, s, m, d, lo, hi);
    TableReady(cfg, t, m, d, lo, hi);
    StillHeld(t.e, s.workers, k, m, d, lo, hi);
    LockRound(cfg, t.e, n, s.(db := Table(t.e, m + d, lo, hi)), k, m, d);
  }

  lemma StillHeld(e: Scene, workers: seq<Phase>, k: nat, m: nat, d: nat, lo: nat, hi: nat)
    requires AllHeld(Table(e, m, lo, hi), workers, k, m)
    ensures AllHeld(Table(e, m + d, lo, hi), workers, k, m)
  {
    TableRows(e, m, lo, hi);
    TableRows(e, m + d, lo, hi);
  }

  /** A round on the latest rows commits all it holds. */
  lemma CommitRound(cfg: Config, e: Scene, n: nat, s: State, k: nat, snap: Jobs, m: nat, d: nat, ties: Ties)
    requires Reachable(cfg, e, n, s) && k < |s.workers| && Ready(cfg, e, snap, m, d)
    requires s.workers[k] == Locking(snap, e.v, ParamsOf(e), {}, Block(m, d))
    ensures Reachable(cfg, e, n, Committed(s, k, Block(m, d)))
  {
    LatestClaimed(cfg, e, snap, m, d, ties);
    StepReaches(cfg, e, n, s, Commit(k, ties));
  }

  lemma OneCommitted(s: State, k: nat, own: set<nat>, db': Jobs)
    requires k < |s.workers| && Update(s.db, own) == db' && own != {}
    ensures Committed(s, k, own) == With(s.(db := db'), k, Marking(own, |own|))
  {
  }

  lemma CommitMoves(cfg: Config, e: Scene, n: nat, s: State, k: nat, snap: Jobs, m: nat, d: nat, db': Jobs, ties: Ties)
    requires Reachable(cfg, e, n, s) && k < |s.workers| && Ready(cfg, e, snap, m, d)
    requires s.workers[k] == Locking(snap, e.v, ParamsOf(e), {}, Block(m, d))
    requires Update(s.db, Block(m, d)) == db' && Block(m, d) != {}
    ensures Reachable(cfg, e, n, With(s.(db := db'), k, Marking(Block(m, d), |Block(m, d)|)))
  {
    CommitRound(cfg, e, n, s, k, snap, m, d, ties);
    OneCommitted(s, k, Block(m, d), db');
  }

  /** The UPDATE on rows of its own widens the running stretch. */
  lemma TableMoves(e: Scene, m: nat, lo: nat, hi: nat, lo': nat, hi': nat, own: set<nat>)
    requires forall id: nat | id < m :: lo' <= id < hi' <==> lo <= id < hi || id in own
    requires forall id | id in own :: !(lo <= id < hi)
    ensures Update(Table(e, m, lo, hi), own) == Table(e, m, lo', hi')
  {
    var db, db' := Table(e, m, lo, hi), Table(e, m, lo', hi');
    TableRows(e, m, lo, hi);
    TableRows(e, m, lo', hi');
    forall id | id in db
      ensures id in db' && db'[id] == if id in own then db[id].(status := Running, attempt := 1) else db[id]
      ensures id in own ==> db[id].status == Pending && db[id].attempt == 0
    {
      assert db[id] == RowAt(e, id, lo, hi) && db'[id] == RowAt(e, id, lo', hi');
    }
    MovedRows(db, db', own);
  }

  lemma MovedRows(db: Jobs, db': Jobs, ids: set<nat>)
    requires db.Keys == db'.Keys
    requires forall id | id in db && id in ids :: db[id].status == Pending && db[id].attempt == 0
    requires forall id | id in db :: db'[id] == if id in ids then db[id].(status := Running, attempt := 1) else db[id]
    ensures Update(db, ids) == db'
  {
  }

  // ----- all but one gather -----

  /** The first of round k's rows. */
  function Base(t: Plot, k: nat): nat {
    if k == 0 then 0 else Base(t, k - 1) + Share(t)
  }

  lemma {:induction false} BaseIsProduct(t: Plot, k: nat)
    ensures Base(t, k) == k * Share(t)
  {
    if k > 0 {
      BaseIsProduct(t, k - 1);
      assert k * Share(t) == (k - 1) * Share(t) + Share(t);
    }
  }

  lemma {:induction false} BasesApart(t: Plot, i: nat, k: nat)
    requires i < k
    ensures Base(t, i) + Share(t) <= Base(t, k)
  {
    if i < k - 1 { BasesApart(t, i, k - 1); }
  }

  lemma {:induction false} BlockOf(t: Plot, k: nat, id: nat) returns (i: nat)
    requires id < Base(t, k)
    ensures i < k && Base(t, i) <= id < Base(t, i) + Share(t)
  {
    if id < Base(t, k - 1) { i := BlockOf(t, k - 1, id); } else { i := k - 1; }
  }

  function Gatherer(t: Plot, i: nat): Phase {
    Holding(t.e, Base(t, i), Share(t), 0, 0)
  }

  /** The first k workers hold rows of their own, the others are idle. */
  ghost predicate Gathering(t: Plot, n: nat, k: nat, workers: seq<Phase>) {
    && |workers| == n && k < n && (forall i | 0 <= i < k :: workers[i] == Gatherer(t, i))
    && (forall i | k <= i < n :: workers[i].Idle?)
  }

  lemma GatheredHold(t: Plot, n: nat, k: nat, w: nat, workers: seq<Phase>, id: nat)
    requires Gathering(t, n, k, workers) && k <= w < n
    ensures HeldElsewhere(workers, w, id) <==> id < Base(t, k)
  {
    if id < Base(t, k) {
      var i := BlockOf(t, k, id);
      BlockIds(Base(t, i), Share(t));
      assert id in HeldBy(workers[i]);
    }
    if HeldElsewhere(workers, w, id) {
      var i :| 0 <= i < |workers| && i != w && id in HeldBy(workers[i]);
      BlockIds(Base(t, i), Share(t));
      BasesApart(t, i, k);
    }
  }

  lemma GatheredAllHeld(t: Plot, n: nat, k: nat, w: nat, workers: seq<Phase>, m: nat, lo: nat, hi: nat)
    requires Gathering(t, n, k, workers) && k <= w < n
    requires m == Base(t, k) || (lo <= Base(t, k) <= m <= hi)
    ensures AllHeld(Table(t.e, m, lo, hi), workers, w, m)
  {
    TableRows(t.e, m, lo, hi);
    forall id: nat ensures HeldElsewhere(workers, w, id) <==> id < Base(t, k) { GatheredHold(t, n, k, w, workers, id); }
  }

  lemma GatherOne(cfg: Config, t: Plot, n: nat, k: nat, s: State) returns (s': State)
    requires Fits(cfg, t) && Reachable(cfg, t.e, n, s) && k + 1 < n
    requires Gathering(t, n, k, s.workers) && s.db == Table(t.e, Base(t, k), 0, 0)
    ensures Reachable(cfg, t.e, n, s') && Gathering(t, n, k + 1, s'.workers) && s'.db == Table(t.e, Base(t, k + 1), 0, 0)
  {
    GatheredAllHeld(t, n, k, k, s.workers, Base(t, k), 0, 0);
    ArriveAndLock(cfg, t, n, s, k, Base(t, k), Share(t), 0, 0);
    s' := With(s.(db := Table(t.e, Base(t, k) + Share(t), 0, 0)), k, Gatherer(t, k));
  }

  lemma {:induction false} GatherAll(cfg: Config, t: Plot, n: nat, k: nat) returns (s: State)
    requires Fits(cfg, t) && k < n
    ensures Reachable(cfg, t.e, n, s) && Gathering(t, n, k, s.workers) && s.db == Table(t.e, Base(t, k), 0, 0)
  {
    if k == 0 {
      s := State(map[], seq(n, _ => Idle), seq(n, _ => 0));
      assert Reaches(cfg, t.e, [s], [], n, s);
    } else {
      s := GatherAll(cfg, t, n, k - 1);
      s := GatherOne(cfg, t, n, k - 1, s);
    }
  }

  // ----- the last one fills the quota -----

  /** The last worker is idle again, and f rows of its rounds run. */
  ghost predicate Filled(t: Plot, n: nat, f: nat, s: State) {
    && n >= 1 && f <= t.size && Gathering(t, n, n - 1, s.workers)
    && var base := Base(t, n - 1); s.db == Table(t.e, base + f, base, base + f)
  }

  lemma FillStarts(t: Plot, n: nat, s: State)
    requires n >= 1 && Gathering(t, n, n - 1, s.workers) && s.db == Table(t.e, Base(t, n - 1), 0, 0)
    ensures Filled(t, n, 0, s)
  {
    var base := Base(t, n - 1);
    TableRows(t.e, base, 0, 0);
    TableRows(t.e, base, base, base);
    assert Table(t.e, base, 0, 0) == Table(t.e, base, base, base);
  }

  lemma DetachOne(cfg: Config, e: Scene, n: nat, s: State, k: nat, own: set<nat>, size: nat)
    requires k < |s.workers| && s.workers[k].Idle? && Reachable(cfg, e, n, With(s, k, Marking(own, size)))
    ensures Reachable(cfg, e, n, s)
  {
    StepReaches(cfg, e, n, With(s, k, Marking(own, size)), Detach(k));
    WithTwice(s, k, Marking(own, size), Idle);
  }

  lemma FillMoves(e: Scene, m: nat, d: nat, lo: nat)
    requires d >= 1 && lo <= m
    ensures Update(Table(e, m + d, lo, m), Block(m, d)) == Table(e, m + d, lo, m + d) && Block(m, d) != {}
  {
    BlockIds(m, d);
    assert m in Block(m, d);
    TableMoves(e, m + d, lo, m, lo, m + d, Block(m, d));
  }

  /** The last worker's round commits, and the worker goes on while its rows run. */
  lemma FillCommits(cfg: Config, t: Plot, n: nat, s: State, m: nat, d: nat, lo: nat, ties: Ties)
    requires Fits(cfg, t) && n >= 1 && |s.workers| == n && s.workers[n - 1].Idle?
    requires lo <= m && 1 <= d <= t.e.top && m - lo + d <= t.size && s.db == Table(t.e, m + d, lo, m)
    requires Reachable(cfg, t.e, n, With(s, n - 1, Holding(t.e, m, d, lo, m)))
    ensures Reachable(cfg, t.e, n, s.(db := Table(t.e, m + d, lo, m + d)))
  {
    var held, own, s2 := Holding(t.e, m, d, lo, m), Block(m, d), s.(db := Table(t.e, m + d, lo, m + d));
    TableReady(cfg, t, m, d, lo, m);
    FillMoves(t.e, m, d, lo);
    CommitMoves(cfg, t.e, n, With(s, n - 1, held), n - 1, Table(t.e, m + d, lo, m), m, d, s2.db, ties);
    WithTwice(s2, n - 1, held, Marking(own, |own|));
    DetachOne(cfg, t.e, n, s2, n - 1, own, |own|);
  }

  lemma FillRound(cfg: Config, t: Plot, n: nat, s: State, m: nat, d: nat, lo: nat, ties: Ties)
    requires Fits(cfg, t) && Reachable(cfg, t.e, n, s) && n >= 1 && |s.workers| == n && s.workers[n - 1].Idle?
    requires lo <= m && 1 <= d <= t.e.top && m - lo + d <= t.size
    requires s.db == Table(t.e, m, lo, m) && AllHeld(s.db, s.workers, n - 1, m)
    ensures Reachable(cfg, t.e, n, s.(db := Table(t.e, m + d, lo, m + d)))
  {
    ArriveAndLock(cfg, t, n, s, n - 1, m, d, lo, m);
    FillCommits(cfg, t, n, s.(db := Table(t.e, m + d, lo, m)), m, d, lo, ties);
  }

  lemma FillOne(cfg: Config, t: Plot, n: nat, f: nat, s: State, ties: Ties) returns (f': nat, s': State)
    requires Fits(cfg, t) && Reachable(cfg, t.e, n, s) && Filled(t, n, f, s) && f < t.size
    ensures f < f' <= t.size && Reachable(cfg, t.e, n, s') && Filled(t, n, f', s')
  {
    var base, d := Base(t, n - 1), Min(Share(t), t.size - f);
    FilledHeld(t, n, f, s);
    FillRound(cfg, t, n, s, base + f, d, base, ties);
    f', s' := f + d, s.(db := Table(t.e, base + f + d, base, base + f + d));
    FilledNext(t, n, f, f', s);
  }

  lemma FilledHeld(t: Plot, n: nat, f: nat, s: State)
    requires Filled(t, n, f, s)
    ensures |s.workers| == n && s.workers[n - 1].Idle? && AllHeld(s.db, s.workers, n - 1, Base(t, n - 1) + f)
  {
    var base := Base(t, n - 1);
    GatheredAllHeld(t, n, n - 1, n - 1, s.workers, base + f, base, base + f);
  }

  lemma FilledNext(t: Plot, n: nat, f: nat, f': nat, s: State)
    requires Filled(t, n, f, s) && f' <= t.size
    ensures var base := Base(t, n - 1); Filled(t, n, f', s.(db := Table(t.e, base + f', base, base + f')))
  {
  }

  lemma {:induction false} FillAll(cfg: Config, t: Plot, n: nat, f: nat, s: State, ties: Ties) returns (s': State)
    requires Fits(cfg, t) && Reachable(cfg, t.e, n, s) && Filled(t, n, f, s)
    ensures Reachable(cfg, t.e, n, s') && Filled(t, n, t.size, s')
    decreases t.size - f
  {
    if f == t.size {
      s' := s;
    } else {
      var f', s1 := FillOne(cfg, t, n, f, s, ties);
      s' := FillAll(cfg, t, n, f', s1, ties);
    }
  }

  // ----- and the others commit -----

  /** The first k workers still hold their rows; everything after those runs. */
  ghost predicate Landing(t: Plot, n: nat, k: nat, s: State) {
    && 1 <= n == |s.workers| && k < n && (forall i | 0 <= i < k :: s.workers[i] == Gatherer(t, i))
    && var m := Base(t, n - 1) + t.size; s.db == Table(t.e, m, Base(t, k), m)
  }

  lemma {:induction false} BasesGrow(t: Plot, i: nat, k: nat)
    requires i <= k
    ensures Base(t, i) <= Base(t, k)
  {
    if i < k { BasesGrow(t, i, k - 1); }
  }

  lemma LandMoves(e: Scene, lo: nat, d: nat, m: nat)
    requires lo + d <= m && d >= 1
    ensures Update(Table(e, m, lo + d, m), Block(lo, d)) == Table(e, m, lo, m) && Block(lo, d) != {}
  {
    BlockIds(lo, d);
    assert lo in Block(lo, d);
    TableMoves(e, m, lo + d, m, lo, m, Block(lo, d));
  }

  lemma LandRound(cfg: Config, t: Plot, n: nat, s: State, k: nat, lo: nat, d: nat, m: nat, ties: Ties)
    requires Fits(cfg, t) && Reachable(cfg, t.e, n, s) && k < |s.workers| && 1 <= d <= t.e.top && d <= t.size && lo + d <= m
    requires s.workers[k] == Holding(t.e, lo, d, 0, 0) && s.db == Table(t.e, m, lo + d, m)
    ensures Reachable(cfg, t.e, n, With(s.(db := Table(t.e, m, lo, m)), k, Marking(Block(lo, d), |Block(lo, d)|)))
  {
    TableReady(cfg, t, lo, d, 0, 0);
    LandMoves(t.e, lo, d, m);
    CommitMoves(cfg, t.e, n, s, k, Table(t.e, lo + d, 0, 0), lo, d, Table(t.e, m, lo, m), ties);
  }

  lemma LandedNext(t: Plot, n: nat, k: nat, s: State, ph: Phase)
    requires Landing(t, n, k + 1, s)
    ensures var m := Base(t, n - 1) + t.size; Landing(t, n, k, With(s.(db := Table(t.e, m, Base(t, k), m)), k, ph))
  {
  }

  lemma LandOne(cfg: Config, t: Plot, n: nat, k: nat, s: State, ties: Ties) returns (s': State)
    requires Fits(cfg, t) && Reachable(cfg, t.e, n, s) && Landing(t, n, k + 1, s)
    ensures Reachable(cfg, t.e, n, s') && Landing(t, n, k, s')
  {
    var lo, d, m := Base(t, k), Share(t), Base(t, n - 1) + t.size;
    BasesGrow(t, k + 1, n - 1);
    LandRound(cfg, t, n, s, k, lo, d, m, ties);
    LandedNext(t, n, k, s, Marking(Block(lo, d), |Block(lo, d)|));
    s' := With(s.(db := Table(t.e, m, lo, m)), k, Marking(Block(lo, d), |Block(lo, d)|));
  }

  lemma {:induction false} LandAll(cfg: Config, t: Plot, n: nat, k: nat, s: State, ties: Ties) returns (s': State)
    requires Fits(cfg, t) && Reachable(cfg, t.e, n, s) && Landing(t, n, k, s)
    ensures Reachable(cfg, t.e, n, s') && Landing(t, n, 0, s')
    decreases k
  {
    if k == 0 {
      s' := s;
    } else {
      var s1 := LandOne(cfg, t, n, k - 1, s, ties);
      s' := LandAll(cfg, t, n, k - 1, s1, ties);
    }
  }

  lemma Everything(cfg: Config, t: Plot, n: nat) returns (s: State)
    requires Fits(cfg, t) && n >= 1
    ensures Reachable(cfg, t.e, n, s) && s.db == Table(t.e, Base(t, n - 1) + t.size, 0, Base(t, n - 1) + t.size)
  {
    var ties := Ties((l: Locked) => 0, (l: Locked) => 0);
    s := GatherAll(cfg, t, n, n - 1);
    FillStarts(t, n, s);
    s := FillAll(cfg, t, n, 0, s, ties);
    s := LandAll(cfg, t, n, n - 1, s, ties);
  }

  lemma AllRun(e: Scene, m: nat, q: Quota)
    requires q.actor == e.actor && (q.OfIdentity? ==> e.identity == Some(q.key))
    ensures Load(Table(e, m, 0, m), q) == m
  {
    TableRows(e, m, 0, m);
    assert RunningUnder(Table(e, m, 0, m), q) == Upto(m);
  }

  /**
    For every text, limit, quota and number of workers some run, all of whose rounds
    use that text and take at most `top` rows, reaches the bound exactly.
  */
  lemma OverdispatchReached(cfg: Config, q: Quota, v: Variant, top: nat, queue: string, n: nat)
    returns (states: seq<State>, steps: seq<Rounds.Step>)
    requires Declared(cfg, q) && Size(q) >= 1 && q.actor in cfg && n >= 1
    requires cfg[q.actor].Some? ==> cfg[q.actor].value >= 1
    requires top >= 1 && (v.Literal? ==> top <= LITERAL_TOP)
    ensures Rounds.IsRun(cfg, states, steps) && AtRest(states[0]) && |states[0].workers| == n
    ensures forall i | 0 <= i < |steps| && steps[i].Begin? :: steps[i].v == v && RoundMax(v, steps[i].p) == top
    ensures Load(states[|steps|].db, q) == Bound(q, top, n)
  {
    var e := Scene(v, q.actor, queue, if q.OfIdentity? then Some(q.key) else None, top);
    var t := Plot(e, Size(q));
    var s := Everything(cfg, t, n);
    states, steps :| Reaches(cfg, e, states, steps, n, s);
    BaseIsProduct(t, n - 1);
    AllRun(e, Base(t, n - 1) + t.size, q);
  }
}
