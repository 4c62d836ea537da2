/**
  N drain loops empty a finite backlog: whatever the interleaving, the loops all
  return, nothing stays pending, and the claimed counts add up to the backlog,
  although a round can come back empty while rows are still pending.
*/
module Drain {
  import opened Prelude
  import opened Ranking
  import opened Claim
  import opened ClaimSafety
  import opened ClaimPriority
  import opened Rounds

  /** What stays fixed while the loops run: the registered actors and the subscribed queues. */
  datatype Setup = Setup(cfg: Config, queues: seq<string>, start: int)

  /** A job some round could claim if nothing else ran: registered, not held at zero, subscribed, due for good. */
  ghost predicate GoodJob(e: Setup, j: Job) {
    && j.actor in e.cfg && (e.cfg[j.actor].None? || e.cfg[j.actor].value >= 1)
    && j.queue in e.queues && j.scheduledAt <= e.start && j.closeBy.None?
  }

  ghost predicate GoodTable(e: Setup, db: Jobs) {
    forall id | id in db :: GoodJob(e, db[id])
  }

  ghost predicate GoodParams(e: Setup, v: Variant, p: Params) {
    && (forall q | q in e.queues :: q in p.queues) && p.now >= e.start
    && p.limit >= 1 && LateralLimit(v, 1, p) >= 1
  }

  // ----- one round on such a table -----

  ghost predicate NothingRuns(db: Jobs) {
    forall id | id in db :: db[id].status != Running
  }

  lemma RoomWhenIdle(e: Setup, v: Variant, db: Jobs, p: Params, j: Job)
    requires NothingRuns(db) && GoodJob(e, j) && GoodParams(e, v, p)
    ensures Residual(db, e.cfg, p.limit, j.actor) >= 1
    ensures LateralLimit(v, Residual(db, e.cfg, p.limit, j.actor), p) >= 1
  {
    assert RunningOf(db, j.actor) == {};
    var residual := Residual(db, e.cfg, p.limit, j.actor);
    assert residual * p.oversample == p.oversample + (residual - 1) * p.oversample;
  }

  /** The window of a pending row's actor is not empty. */
  lemma WindowOffered(e: Setup, v: Variant, db: Jobs, p: Params, id: nat) returns (k: nat)
    requires GoodTable(e, db) && GoodParams(e, v, p) && id in PendingIds(db) && NothingRuns(db)
    ensures k in db && k in Window(v, db, e.cfg, p, db[k].actor, db[k].queue)
  {
    var j := db[id];
    var probe := Probe(db, p.now, j.actor, j.queue);
    assert id in probe;
    PriorityTotal(db, probe);
    RoomWhenIdle(e, v, db, p, j);
    k := FirstRow(probe, ByPriority(db), LateralLimit(v, Residual(db, e.cfg, p.limit, j.actor), p));
  }

  lemma PlanGivesTop(v: Variant, db: Jobs, cfg: Config, p: Params)
    requires Plan(v, db, cfg, p) != {} && TopLimit(v, p) >= 1
    ensures TopIds(v, db, cfg, p) != {}
  {
    TopTotal(db, Plan(v, db, cfg, p));
    var u := FirstRow(Plan(v, db, cfg, p), ByTop(db), TopLimit(v, p));
    assert u.id in TopIds(v, db, cfg, p);
  }

  /** With nothing running, some candidate of every identity stays. */
  lemma CandidateSurvives(db: Jobs, rows: set<Row>, r: Row) returns (d: Row)
    requires NothingRuns(db) && r in rows && forall s | s in rows :: s.id in db
    ensures d in IdentityDedup(db, rows)
  {
    if db[r.id].identity.None? {
      d := r;
    } else {
      d := DedupKeepsSoonest(db, rows, r);
    }
  }

  /** A round that starts with rows pending and none running has something to try. */
  lemma TopIdsOffered(e: Setup, v: Variant, db: Jobs, p: Params)
    requires GoodTable(e, db) && GoodParams(e, v, p) && PendingIds(db) != {} && NothingRuns(db)
    ensures TopIds(v, db, e.cfg, p) != {} && TopIds(v, db, e.cfg, p) <= PendingIds(db)
  {
    var id :| id in PendingIds(db);
    var k := WindowOffered(e, v, db, p, id);
    assert GoodJob(e, db[k]);
    RoomWhenIdle(e, v, db, p, db[k]);
    var slot :| 0 <= slot < |p.queues| && p.queues[slot] == db[k].queue;
    var rows := Candidates(v, db, e.cfg, p);
    assert Row(k, slot) in rows;
    var d := CandidateSurvives(db, rows, Row(k, slot));
    assert WithRank(db, IdentityDedup(db, rows), d) in Plan(v, db, e.cfg, p);
    PlanGivesTop(v, db, e.cfg, p);
    TopIdsPending(v, db, e.cfg, p);
  }

  /** A held row whose actor has room lets the round claim something, if not that row then one before it. */
  lemma RowAdmits(db: Jobs, cfg: Config, limit: nat, ties: Ties, rows: set<Locked>, l: Locked)
    requires l in rows && l.id in db && GateOpen(db, cfg, db[l.id].actor) && limit >= 1
    ensures EligibleIds(db, cfg, limit, ties, rows) != {}
  {
    var admitted := Admitted(db, cfg, ties, rows);
    var mine := LockedOf(db, EligibleCandidates(db, cfg, rows), db[l.id].actor);
    assert l in mine;
    ActorTotal(db, ties, mine);
    var first := FirstRow(mine, ByActor(db, ties), 1);
    assert first in admitted;
    FinalTotal(db, ties, admitted);
    var k := FirstRow(admitted, ByFinal(db, ties), limit);
    assert k.id in EligibleIds(db, cfg, limit, ties, rows);
  }

  /** A round that holds a lock claims something. */
  lemma HeldRoundClaims(e: Setup, v: Variant, db: Jobs, p: Params, held: set<nat>, ties: Ties)
    requires p.limit >= 1 && held != {} && held <= TopIds(v, db, e.cfg, p)
    ensures Claims(v, db, e.cfg, p, held, ties) != {}
  {
    var id :| id in held;
    var t :| t in Top(v, db, e.cfg, p) && t.id == id;
    var rows := LockedRows(Plan(v, db, e.cfg, p), Top(v, db, e.cfg, p), held);
    assert AsLocked(t) in rows;
    PlannedHasRoom(v, db, e.cfg, p, t);
    RowAdmits(db, e.cfg, p.limit, ties, rows, AsLocked(t));
  }

  /** Only rows of actors with room are planned. */
  lemma PlannedHasRoom(v: Variant, db: Jobs, cfg: Config, p: Params, t: Ranked)
    requires t in Plan(v, db, cfg, p)
    ensures t.id in db && GateOpen(db, cfg, db[t.id].actor)
  {
    assert Row(t.id, t.slot) in Candidates(v, db, cfg, p);
  }

  // ----- the invariant -----

  ghost predicate GoodPhase(e: Setup, ph: Phase) {
    ph.Locking? ==>
      && GoodTable(e, ph.snap) && GoodParams(e, ph.v, ph.p)
      && ph.held <= TopIds(ph.v, ph.snap, e.cfg, ph.p)
      && ph.todo <= TopIds(ph.v, ph.snap, e.cfg, ph.p)
  }

  /** This loop will still look at the table, or is about to change it. */
  ghost predicate Alive(s: State, w: nat)
    requires w < |s.workers|
  {
    match s.workers[w]
    case Idle => true
    case Marking(_, _) => true
    case Locking(_, _, _, todo, held) => held != {} || exists id :: id in todo && Lockable(s, id)
    case Done => false
  }

  /** While a row is pending, some loop is alive. */
  ghost predicate Progress(s: State) {
    PendingIds(s.db) != {} ==> exists w :: 0 <= w < |s.workers| && Alive(s, w)
  }

  function SizeOf(ph: Phase): nat {
    if ph.Marking? then ph.size else 0
  }

  /** Rows counted, or about to be, by each loop. */
  function Counted(s: State): seq<nat>
    requires |s.drained| == |s.workers|
  {
    seq(|s.workers|, i requires 0 <= i < |s.workers| => s.drained[i] + SizeOf(s.workers[i]))
  }

  /** The table has only moved forward from where it began. */
  ghost predicate Descends(start: Jobs, db: Jobs) {
    && db.Keys == start.Keys
    && forall id | id in db ::
         db[id] == start[id].(status := db[id].status,
                              attempt := start[id].attempt + if db[id].status == Pending then 0 else 1)
  }

  /** A running row is in some loop's batch. */
  ghost predicate RunningOwned(s: State) {
    forall id | id in s.db && s.db[id].status == Running :: exists w :: 0 <= w < |s.workers| && id in BatchOf(s.workers[w])
  }

  ghost predicate DrainInv(e: Setup, start: Jobs, s: State) {
    && Inv(s) && GoodTable(e, s.db) && Descends(start, s.db) && Progress(s)
    && (forall w | 0 <= w < |s.workers| :: GoodPhase(e, s.workers[w]))
    && RunningOwned(s)
    && Sum(Counted(s)) + |PendingIds(s.db)| == |s.db|
  }

  ghost predicate DrainStep(e: Setup, step: Step) {
    match step
    case Begin(_, v, p) => GoodParams(e, v, p)
    case Restart(_) => false
    case Detach(_) => false
    case Complete(_) => false
    case Enqueue(_, _) => false
    case _ => true
  }

  // ----- progress is kept -----

  lemma BeginKeepsProgress(e: Setup, s: State, w: nat, v: Variant, p: Params)
    requires Inv(s) && GoodTable(e, s.db) && RunningOwned(s) && Enabled(s, Begin(w, v, p)) && GoodParams(e, v, p)
    ensures Progress(Apply(e.cfg, s, Begin(w, v, p)))
  {
    if k :| k in s.db && s.db[k].status == Running {
      RunnerIsAlive(e, s, w, v, p, k);
    } else if PendingIds(s.db) != {} {
      BeginFindsWork(e, s, w, v, p);
    }
  }

  /** Whatever blocks a pending row runs in the batch of a loop that is still going. */
  lemma RunnerIsAlive(e: Setup, s: State, w: nat, v: Variant, p: Params, k: nat)
    requires RunningOwned(s) && Enabled(s, Begin(w, v, p)) && k in s.db && s.db[k].status == Running
    ensures Progress(Apply(e.cfg, s, Begin(w, v, p)))
  {
    var u :| 0 <= u < |s.workers| && k in BatchOf(s.workers[u]);
    assert Alive(Apply(e.cfg, s, Begin(w, v, p)), u);
  }

  lemma BeginFindsWork(e: Setup, s: State, w: nat, v: Variant, p: Params)
    requires Inv(s) && GoodTable(e, s.db) && NothingRuns(s.db) && PendingIds(s.db) != {}
    requires Enabled(s, Begin(w, v, p)) && GoodParams(e, v, p)
    ensures Progress(Apply(e.cfg, s, Begin(w, v, p)))
  {
    var s' := Apply(e.cfg, s, Begin(w, v, p));
    TopIdsOffered(e, v, s.db, p);
    var id :| id in TopIds(v, s.db, e.cfg, p);
    if Free(s', id) {
      assert Lockable(s', id) && Alive(s', w);
    } else {
      var u :| 0 <= u < |s'.workers| && id in HeldBy(s'.workers[u]);
      assert Alive(s', u);
    }
  }

  lemma TryKeepsProgress(e: Setup, s: State, w: nat, id: nat)
    requires Inv(s) && Progress(s) && Enabled(s, Try(w, id))
    ensures Progress(Apply(e.cfg, s, Try(w, id)))
  {
    var s' := Apply(e.cfg, s, Try(w, id));
    if PendingIds(s.db) != {} {
      var u :| 0 <= u < |s.workers| && Alive(s, u);
      if Lockable(s, id) {
        assert Alive(s', w);
      } else {
        assert forall k | 0 <= k < |s.workers| :: HeldBy(s'.workers[k]) == HeldBy(s.workers[k]);
        forall k ensures Lockable(s', k) == Lockable(s, k) {}
        assert Alive(s', u);
      }
    }
  }

  lemma CommitKeepsProgress(e: Setup, s: State, w: nat, ties: Ties)
    requires Inv(s) && Progress(s) && Enabled(s, Commit(w, ties)) && GoodPhase(e, s.workers[w])
    ensures Progress(Apply(e.cfg, s, Commit(w, ties)))
  {
    var s' := Apply(e.cfg, s, Commit(w, ties));
    var ph := s.workers[w];
    ClaimsAreHeld(e.cfg, ph, ties);
    if RoundClaims(e.cfg, ph, ties) != {} {
      assert Alive(s', w);
    } else {
      if ph.held != {} { HeldRoundClaims(e, ph.v, ph.snap, ph.p, ph.held, ties); }
      EmptyCommitKeepsProgress(s, w);
    }
  }

  /** An empty round held nothing, so it was not the one keeping the loops alive. */
  lemma EmptyCommitKeepsProgress(s: State, w: nat)
    requires Progress(s) && w < |s.workers| && s.workers[w].Locking? && s.workers[w].todo == {} && s.workers[w].held == {}
    ensures Progress(Committed(s, w, {}))
  {
    var s' := Committed(s, w, {});
    assert s'.db == s.db;
    if PendingIds(s.db) != {} {
      var u :| 0 <= u < |s.workers| && Alive(s, u);
      assert u != w;
      assert forall k | 0 <= k < |s.workers| :: HeldBy(s'.workers[k]) == HeldBy(s.workers[k]);
      forall k ensures Lockable(s', k) == Lockable(s, k) {}
      assert Alive(s', u);
    }
  }

  lemma MarkKeepsProgress(e: Setup, s: State, w: nat, id: nat)
    requires Progress(s) && Enabled(s, Mark(w, id))
    ensures Progress(Apply(e.cfg, s, Mark(w, id)))
  {
    assert Alive(Apply(e.cfg, s, Mark(w, id)), w);
  }

  lemma NextKeepsProgress(e: Setup, s: State, w: nat)
    requires Progress(s) && Enabled(s, Next(w))
    ensures Progress(Apply(e.cfg, s, Next(w)))
  {
    assert Alive(Apply(e.cfg, s, Next(w)), w);
  }

  lemma StepKeepsProgress(e: Setup, start: Jobs, s: State, step: Step)
    requires DrainInv(e, start, s) && Enabled(s, step) && DrainStep(e, step)
    ensures Progress(Apply(e.cfg, s, step))
  {
    match step
    case Begin(w, v, p) => BeginKeepsProgress(e, s, w, v, p);
    case Try(w, id) => TryKeepsProgress(e, s, w, id);
    case Commit(w, ties) => CommitKeepsProgress(e, s, w, ties);
    case Mark(w, id) => MarkKeepsProgress(e, s, w, id);
    case Next(w) => NextKeepsProgress(e, s, w);
  }

  // ----- counting -----

  lemma UpdateCounts(db: Jobs, claimed: set<nat>)
    requires claimed <= PendingIds(db)
    ensures |Update(db, claimed)| == |db| && |PendingIds(Update(db, claimed))| == |PendingIds(db)| - |claimed|
  {
    var db' := Update(db, claimed);
    assert db'.Keys == db.Keys;
    SizeOfKeys(db', db);
    assert PendingIds(db') == PendingIds(db) - claimed;
    assert PendingIds(db) == PendingIds(db') + claimed;
  }

  lemma CommitCounts(s: State, w: nat, claimed: set<nat>)
    requires |s.drained| == |s.workers| && w < |s.workers| && s.workers[w].Locking? && claimed <= PendingIds(s.db)
    ensures var s' := Committed(s, w, claimed);
            && |s'.drained| == |s'.workers| && |s'.db| == |s.db|
            && |PendingIds(s'.db)| == |PendingIds(s.db)| - |claimed|
            && Sum(Counted(s')) == Sum(Counted(s)) + |claimed|
  {
    var s' := Committed(s, w, claimed);
    UpdateCounts(s.db, claimed);
    assert Counted(s') == Counted(s)[w := Counted(s)[w] + |claimed|];
    SumUpdate(Counted(s), w, Counted(s)[w] + |claimed|);
  }

  lemma SizeOfKeys(a: Jobs, b: Jobs)
    requires a.Keys == b.Keys
    ensures |a| == |b|
  {
    assert |a| == |a.Keys| && |b| == |b.Keys|;
  }

  lemma MarkCounts(e: Setup, s: State, w: nat, id: nat)
    requires Inv(s) && Enabled(s, Mark(w, id))
    ensures var s' := Apply(e.cfg, s, Mark(w, id));
            && |s'.db| == |s.db| && PendingIds(s'.db) == PendingIds(s.db) && Counted(s') == Counted(s)
  {
    var s' := Apply(e.cfg, s, Mark(w, id));
    BatchIsRunning(s, w, id);
    assert s'.db.Keys == s.db.Keys;
    SizeOfKeys(s'.db, s.db);
  }

  lemma OtherStepCounts(e: Setup, s: State, step: Step)
    requires Inv(s) && Enabled(s, step) && (step.Begin? || step.Try? || step.Next?)
    ensures var s' := Apply(e.cfg, s, step);
            && |s'.drained| == |s'.workers| && s'.db == s.db && Counted(s') == Counted(s)
  {
  }

  lemma HeldArePending(s: State, w: nat, ids: set<nat>)
    requires Inv(s) && w < |s.workers| && ids <= HeldBy(s.workers[w])
    ensures ids <= PendingIds(s.db)
  {
    forall id | id in ids ensures id in PendingIds(s.db) { HeldIsPending(s, w, id); }
  }

  // ----- the table -----

  lemma UpdateDescends(e: Setup, start: Jobs, db: Jobs, claimed: set<nat>)
    requires GoodTable(e, db) && Descends(start, db)
    ensures GoodTable(e, Update(db, claimed)) && Descends(start, Update(db, claimed))
  {
  }

  lemma FinishDescends(e: Setup, start: Jobs, db: Jobs, id: nat)
    requires GoodTable(e, db) && Descends(start, db) && id in db && db[id].status == Running
    ensures var db' := db[id := db[id].(status := Finished)]; GoodTable(e, db') && Descends(start, db')
  {
  }

  lemma StepDescends(e: Setup, start: Jobs, s: State, step: Step)
    requires Inv(s) && GoodTable(e, s.db) && Descends(start, s.db) && Enabled(s, step) && DrainStep(e, step)
    ensures GoodTable(e, Apply(e.cfg, s, step).db) && Descends(start, Apply(e.cfg, s, step).db)
  {
    match step
    case Commit(w, ties) => UpdateDescends(e, start, s.db, RoundClaims(e.cfg, s.workers[w], ties));
    case Mark(w, id) =>
      BatchIsRunning(s, w, id);
      FinishDescends(e, start, s.db, id);
    case _ =>
  }

  lemma CommitOwned(s: State, w: nat, claimed: set<nat>)
    requires RunningOwned(s) && w < |s.workers| && s.workers[w].Locking?
    ensures RunningOwned(Committed(s, w, claimed))
  {
    var s' := Committed(s, w, claimed);
    forall id | id in s'.db && s'.db[id].status == Running
      ensures exists u :: 0 <= u < |s'.workers| && id in BatchOf(s'.workers[u])
    {
      if id in claimed {
        assert id in BatchOf(s'.workers[w]);
      } else {
        var u :| 0 <= u < |s.workers| && id in BatchOf(s.workers[u]);
        assert u != w && id in BatchOf(s'.workers[u]);
      }
    }
  }

  /** A step that starts nothing and drops no running row from its batch. */
  lemma QuietOwned(s: State, s': State)
    requires RunningOwned(s) && |s'.workers| == |s.workers|
    requires forall id | id in s'.db && s'.db[id].status == Running ::
               && id in s.db && s.db[id].status == Running
               && forall w | 0 <= w < |s.workers| && id in BatchOf(s.workers[w]) :: id in BatchOf(s'.workers[w])
    ensures RunningOwned(s')
  {
    forall id | id in s'.db && s'.db[id].status == Running
      ensures exists u :: 0 <= u < |s'.workers| && id in BatchOf(s'.workers[u])
    {
      var u :| 0 <= u < |s.workers| && id in BatchOf(s.workers[u]);
      assert id in BatchOf(s'.workers[u]);
    }
  }

  lemma StepOwned(e: Setup, s: State, step: Step)
    requires RunningOwned(s) && Enabled(s, step) && DrainStep(e, step)
    ensures RunningOwned(Apply(e.cfg, s, step))
  {
    if step.Commit? {
      CommitOwned(s, step.w, RoundClaims(e.cfg, s.workers[step.w], step.ties));
    } else {
      QuietOwned(s, Apply(e.cfg, s, step));
    }
  }

  /** The phase a step leaves its worker in. */
  lemma NewPhaseGood(e: Setup, s: State, step: Step)
    requires GoodTable(e, s.db) && Enabled(s, step) && DrainStep(e, step) && GoodPhase(e, s.workers[step.w])
    ensures GoodPhase(e, Apply(e.cfg, s, step).workers[step.w])
  {
  }

  lemma StepGoodPhases(e: Setup, s: State, step: Step)
    requires GoodTable(e, s.db) && Enabled(s, step) && DrainStep(e, step)
    requires forall w | 0 <= w < |s.workers| :: GoodPhase(e, s.workers[w])
    ensures forall w | 0 <= w < |s.workers| :: GoodPhase(e, Apply(e.cfg, s, step).workers[w])
  {
    var s' := Apply(e.cfg, s, step);
    NewPhaseGood(e, s, step);
    forall w | 0 <= w < |s.workers| ensures GoodPhase(e, s'.workers[w]) {
      if w != step.w { assert s'.workers[w] == s.workers[w]; }
    }
  }

  lemma StepKeepsDrainInv(e: Setup, start: Jobs, s: State, step: Step)
    requires DrainInv(e, start, s) && Enabled(s, step) && DrainStep(e, step)
    ensures DrainInv(e, start, Apply(e.cfg, s, step))
  {
    StepKeepsInv(e.cfg, s, step);
    StepKeepsProgress(e, start, s, step);
    StepDescends(e, start, s, step);
    StepOwned(e, s, step);
    StepGoodPhases(e, s, step);
    StepCounts(e, start, s, step);
  }

  lemma StepCounts(e: Setup, start: Jobs, s: State, step: Step)
    requires DrainInv(e, start, s) && Enabled(s, step) && DrainStep(e, step)
    ensures var s' := Apply(e.cfg, s, step);
            |s'.drained| == |s'.workers| && Sum(Counted(s')) + |PendingIds(s'.db)| == |s'.db|
  {
    if step.Commit? {
      ClaimsAreHeld(e.cfg, s.workers[step.w], step.ties);
      HeldArePending(s, step.w, RoundClaims(e.cfg, s.workers[step.w], step.ties));
      CommitCounts(s, step.w, RoundClaims(e.cfg, s.workers[step.w], step.ties));
    } else if step.Mark? {
      MarkCounts(e, s, step.w, step.id);
    } else {
      OtherStepCounts(e, s, step);
    }
  }

  // ----- every run ends, and ends right -----

  ghost predicate Fresh(e: Setup, db: Jobs, n: nat, s: State) {
    && n >= 1 && GoodTable(e, db) && (forall id | id in db :: db[id].status == Pending)
    && s == State(db, seq(n, _ => Idle), seq(n, _ => 0))
  }

  lemma FreshIsGood(e: Setup, db: Jobs, n: nat, s: State)
    requires Fresh(e, db, n, s)
    ensures DrainInv(e, db, s)
  {
    SumZeros(Counted(s));
    assert PendingIds(db) == db.Keys;
    assert Alive(s, 0);
  }

  /** When every loop has returned, every row was claimed once and finished, and the counts add up. */
  lemma AllReturned(e: Setup, start: Jobs, s: State)
    requires DrainInv(e, start, s) && forall w | 0 <= w < |s.workers| :: s.workers[w].Done?
    ensures Sum(s.drained) == |start|
    ensures s.db.Keys == start.Keys
    ensures forall id | id in start :: s.db[id] == start[id].(status := Finished, attempt := start[id].attempt + 1)
  {
    assert PendingIds(s.db) == {};
    assert Counted(s) == s.drained;
    SizeOfKeys(s.db, start);
    forall id | id in start ensures s.db[id].status == Finished {
      assert id !in PendingIds(s.db);
    }
  }

  ghost predicate IsDrain(e: Setup, states: seq<State>, steps: seq<Step>) {
    Rounds.IsRun(e.cfg, states, steps) && forall i | 0 <= i < |steps| :: DrainStep(e, steps[i])
  }

  lemma {:induction false} DrainKeepsInv(e: Setup, db: Jobs, n: nat, states: seq<State>, steps: seq<Step>, i: nat)
    requires IsDrain(e, states, steps) && Fresh(e, db, n, states[0]) && i < |states|
    ensures DrainInv(e, db, states[i])
  {
    if i == 0 {
      FreshIsGood(e, db, n, states[0]);
    } else {
      DrainKeepsInv(e, db, n, states, steps, i - 1);
      StepKeepsDrainInv(e, db, states[i - 1], steps[i - 1]);
    }
  }

  /** The claimed counts of N loops sum exactly to the backlog, in every interleaving. */
  lemma DrainedCountsSum(e: Setup, db: Jobs, n: nat, states: seq<State>, steps: seq<Step>, i: nat)
    requires IsDrain(e, states, steps) && Fresh(e, db, n, states[0]) && i < |states|
    requires forall w | 0 <= w < |states[i].workers| :: states[i].workers[w].Done?
    ensures Sum(states[i].drained) == |db|
    ensures PendingIds(states[i].db) == {}
  {
    DrainKeepsInv(e, db, n, states, steps, i);
    AllReturned(e, db, states[i]);
  }

  // ----- termination -----

  function NotDone(ph: Phase): nat {
    if ph.Done? then 0 else 1
  }

  function LoopsLeft(s: State): seq<nat> {
    seq(|s.workers|, i requires 0 <= i < |s.workers| => NotDone(s.workers[i]))
  }

  /** Work left before the next commit, when no round tries more than `bound` rows. */
  function Weight(ph: Phase, bound: nat): nat {
    match ph
    case Idle => bound + 1
    case Locking(_, _, _, todo, _) => |todo|
    case Marking(batch, _) => bound + 2 + |batch|
    case Done => 0
  }

  function Weights(s: State, bound: nat): seq<nat> {
    seq(|s.workers|, i requires 0 <= i < |s.workers| => Weight(s.workers[i], bound))
  }

  /** Rows pending plus loops running: falls at every commit. */
  function Outer(s: State): nat {
    |PendingIds(s.db)| + Sum(LoopsLeft(s))
  }

  function Inner(s: State, bound: nat): nat {
    Sum(Weights(s, bound))
  }

  lemma CommitFalls(s: State, w: nat, claimed: set<nat>)
    requires |s.drained| == |s.workers| && w < |s.workers| && s.workers[w].Locking? && claimed <= PendingIds(s.db)
    ensures Outer(Committed(s, w, claimed)) < Outer(s)
  {
    var s' := Committed(s, w, claimed);
    CommitCounts(s, w, claimed);
    var left := if claimed == {} then 0 else 1;
    assert LoopsLeft(s') == LoopsLeft(s)[w := left];
    SumUpdate(LoopsLeft(s), w, left);
    if claimed != {} { assert |claimed| > 0; }
  }

  ghost predicate Falls(s: State, s': State, bound: nat) {
    Outer(s') < Outer(s) || (Outer(s') == Outer(s) && Inner(s', bound) < Inner(s, bound))
  }

  lemma LighterFalls(s: State, s': State, w: nat, bound: nat)
    requires w < |s.workers| && |s'.workers| == |s.workers| && s'.workers == s.workers[w := s'.workers[w]]
    requires PendingIds(s'.db) == PendingIds(s.db) && NotDone(s'.workers[w]) == NotDone(s.workers[w])
    requires Weight(s'.workers[w], bound) < Weight(s.workers[w], bound)
    ensures Falls(s, s', bound)
  {
    var after := Weight(s'.workers[w], bound);
    assert Weights(s', bound) == Weights(s, bound)[w := after];
    SumUpdate(Weights(s, bound), w, after);
    assert LoopsLeft(s') == LoopsLeft(s);
  }

  lemma CommitStepFalls(e: Setup, s: State, w: nat, ties: Ties, bound: nat)
    requires Inv(s) && Enabled(s, Commit(w, ties))
    ensures Falls(s, Apply(e.cfg, s, Commit(w, ties)), bound)
  {
    ClaimsAreHeld(e.cfg, s.workers[w], ties);
    HeldArePending(s, w, RoundClaims(e.cfg, s.workers[w], ties));
    CommitFalls(s, w, RoundClaims(e.cfg, s.workers[w], ties));
  }

  lemma OtherStepFalls(e: Setup, s: State, step: Step, bound: nat)
    requires Inv(s) && Enabled(s, step) && (step.Begin? || step.Try? || step.Mark? || step.Next?)
    requires step.Begin? ==> TopLimit(step.v, step.p) <= bound
    ensures Falls(s, Apply(e.cfg, s, step), bound)
  {
    if step.Mark? { MarkCounts(e, s, step.w, step.id); }
    WeightFalls(e, s, step, bound);
    LighterFalls(s, Apply(e.cfg, s, step), step.w, bound);
  }

  /** Every step of a drain falls in the lexicographic order of (Outer, Inner). */
  lemma StepFalls(e: Setup, s: State, step: Step, bound: nat)
    requires Inv(s) && Enabled(s, step) && DrainStep(e, step)
    requires step.Begin? ==> TopLimit(step.v, step.p) <= bound
    ensures Falls(s, Apply(e.cfg, s, step), bound)
  {
    if step.Commit? {
      CommitStepFalls(e, s, step.w, step.ties, bound);
    } else {
      OtherStepFalls(e, s, step, bound);
    }
  }

  lemma StepIsGood(e: Setup, start: Jobs, s: State, step: Step, bound: nat)
    requires DrainInv(e, start, s) && Enabled(s, step) && DrainStep(e, step)
    requires step.Begin? ==> TopLimit(step.v, step.p) <= bound
    ensures DrainInv(e, start, Apply(e.cfg, s, step)) && Falls(s, Apply(e.cfg, s, step), bound)
    ensures |Apply(e.cfg, s, step).workers| == |s.workers|
  {
    StepKeepsDrainInv(e, start, s, step);
    StepFalls(e, s, step, bound);
  }

  lemma WeightFalls(e: Setup, s: State, step: Step, bound: nat)
    requires Enabled(s, step) && (step.Begin? || step.Try? || step.Mark? || step.Next?)
    requires step.Begin? ==> TopLimit(step.v, step.p) <= bound
    ensures Weight(Apply(e.cfg, s, step).workers[step.w], bound) < Weight(s.workers[step.w], bound)
  {
    if step.Begin? { TopIdsBounded(step.v, s.db, e.cfg, step.p); }
  }

  lemma MarkEnabled(s: State, w: nat, id: nat)
    requires Inv(s) && w < |s.workers| && s.workers[w].Marking? && id in s.workers[w].batch
    ensures Enabled(s, Mark(w, id))
  {
    BatchIsRunning(s, w, id);
  }

  /** The parameters of one loop at a later time. */
  function At(e: Setup, limit: nat, oversample: nat, elapsed: nat): Params {
    Params(e.queues, limit, oversample, e.start + elapsed)
  }

  lemma GoodLater(e: Setup, v: Variant, limit: nat, oversample: nat, elapsed: nat)
    requires limit >= 1 && LateralLimit(v, 1, At(e, limit, oversample, 0)) >= 1
    ensures GoodParams(e, v, At(e, limit, oversample, elapsed))
    ensures TopLimit(v, At(e, limit, oversample, elapsed)) == TopLimit(v, At(e, limit, oversample, 0))
  {
  }

  method Poll(c: Cluster, e: Setup, ghost start: Jobs, w: nat, v: Variant, p: Params)
    requires c.cfg == e.cfg && DrainInv(e, start, c.View()) && w < |c.workers| && c.workers[w].Idle?
    requires GoodParams(e, v, p)
    modifies c
    ensures DrainInv(e, start, c.View()) && |c.workers| == old(|c.workers|)
    ensures Falls(old(c.View()), c.View(), TopLimit(v, p))
  {
    StepIsGood(e, start, c.View(), Begin(w, v, p), TopLimit(v, p));
    c.BeginRound(w, v, p);
  }

  method LockOrCommit(c: Cluster, e: Setup, ghost start: Jobs, w: nat, ties: Ties, ghost bound: nat)
    requires c.cfg == e.cfg && DrainInv(e, start, c.View()) && w < |c.workers| && c.workers[w].Locking?
    modifies c
    ensures DrainInv(e, start, c.View()) && |c.workers| == old(|c.workers|)
    ensures Falls(old(c.View()), c.View(), bound)
  {
    if c.workers[w].todo != {} {
      var id :| id in c.workers[w].todo;
      StepIsGood(e, start, c.View(), Try(w, id), bound);
      c.TryLock(w, id);
    } else {
      StepIsGood(e, start, c.View(), Commit(w, ties), bound);
      var claimed := c.CommitRound(w, ties);
    }
  }

  method WorkOff(c: Cluster, e: Setup, ghost start: Jobs, w: nat, ghost bound: nat)
    requires c.cfg == e.cfg && DrainInv(e, start, c.View()) && w < |c.workers| && c.workers[w].Marking?
    modifies c
    ensures DrainInv(e, start, c.View()) && |c.workers| == old(|c.workers|)
    ensures Falls(old(c.View()), c.View(), bound)
  {
    if c.workers[w].batch != {} {
      var id :| id in c.workers[w].batch;
      MarkEnabled(c.View(), w, id);
      StepIsGood(e, start, c.View(), Mark(w, id), bound);
      c.MarkSucceeded(w, id);
    } else {
      StepIsGood(e, start, c.View(), Next(w), bound);
      c.NextRound(w);
    }
  }

  /** asyncio.gather over n drain loops, under an arbitrary scheduler. */
  method DrainAll(e: Setup, db: Jobs, n: nat, v: Variant, limit: nat, oversample: nat) returns (got: seq<nat>, left: Jobs)
    requires n >= 1 && GoodTable(e, db) && forall id | id in db :: db[id].status == Pending
    requires limit >= 1 && LateralLimit(v, 1, At(e, limit, oversample, 0)) >= 1
    ensures |got| == n && Sum(got) == |db|
    ensures left.Keys == db.Keys
    ensures forall id | id in db :: left[id] == db[id].(status := Finished, attempt := db[id].attempt + 1)
  {
    var c := new Cluster(e.cfg, db, n);
    ghost var bound := TopLimit(v, At(e, limit, oversample, 0));
    FreshIsGood(e, db, n, c.View());
    while exists w :: 0 <= w < n && !c.workers[w].Done?
      invariant c.cfg == e.cfg && |c.workers| == n && DrainInv(e, db, c.View())
      decreases Outer(c.View()), Inner(c.View(), bound)
    {
      var w :| 0 <= w < n && !c.workers[w].Done?;
      if c.workers[w].Idle? {
        var elapsed: nat := *;
        GoodLater(e, v, limit, oversample, elapsed);
        Poll(c, e, db, w, v, At(e, limit, oversample, elapsed));
      } else if c.workers[w].Locking? {
        var ties: Ties := *;
        LockOrCommit(c, e, db, w, ties, bound);
      } else {
        WorkOff(c, e, db, w, bound);
      }
    }
    AllReturned(e, db, c.View());
    got, left := c.drained, c.db;
  }
}
