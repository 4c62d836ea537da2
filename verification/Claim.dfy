/**
  One dispatch round of the claim statement: the chain of common table
  expressions from per-actor capacity to the ids the UPDATE moves to running.
  Every stage reads one snapshot of the jobs table; only the set of locked ids
  comes from outside it.
*/
module Claim {
  import opened Prelude
  import opened Ranking

  datatype Status = Pending | Running | Finished

  /** A row of the jobs table: the columns the claim reads or writes. */
  datatype Job = Job(
    actor: string, queue: string, identity: Option<string>,
    priority: int, scheduledAt: int, closeBy: Option<int>,
    status: Status, attempt: nat)

  type Jobs = map<nat, Job>

  /** actor_config: the registered actors, with max_concurrent or NULL. */
  type Config = map<string, Option<int>>

  datatype Params = Params(queues: seq<string>, limit: nat, oversample: nat, now: int)

  /**
    The three texts of the rank-then-lock statement.  They differ in the LIMIT
    of the per-queue lateral and of top_ids:
      - AsWritten: the shared preamble as written, residual * oversample;
      - Rendered: as `_v1_top_ids_sql` renders it, whose substitution replaces the
        whole product by the bare oversample subquery;
      - Literal: with literal_limits=True, 100 and 50.
  */
  datatype Variant = AsWritten | Rendered | Literal

  const LITERAL_LATERAL := 100
  const LITERAL_TOP := 50

  function LateralLimit(v: Variant, residual: nat, p: Params): nat {
    match v
    case AsWritten => residual * p.oversample
    case Rendered => p.oversample
    case Literal => LITERAL_LATERAL
  }

  function TopLimit(v: Variant, p: Params): nat {
    if v.Literal? then LITERAL_TOP else p.limit
  }

  // ----- capacity -----

  function RunningOf(db: Jobs, actor: string): set<nat> {
    set id | id in db && db[id].status == Running && db[id].actor == actor
  }

  function InFlight(db: Jobs, actor: string): nat {
    |RunningOf(db, actor)|
  }

  predicate IdentityRunning(db: Jobs, actor: string, key: string) {
    exists id :: id in db && db[id].status == Running && db[id].actor == actor && db[id].identity == Some(key)
  }

  /** max_concurrent of an actor, NULL when the LEFT JOIN finds no row. */
  function Cap(cfg: Config, actor: string): Option<int> {
    if actor in cfg then cfg[actor] else None
  }

  function Residual(db: Jobs, cfg: Config, limit: nat, actor: string): nat {
    match Cap(cfg, actor)
    case None => limit
    case Some(cap) => if cap > InFlight(db, actor) then cap - InFlight(db, actor) else 0
  }

  // ----- orders -----

  /** priority DESC, scheduled_at */
  predicate Better(x: Job, y: Job) {
    x.priority > y.priority || (x.priority == y.priority && x.scheduledAt < y.scheduledAt)
  }

  /** priority DESC, scheduled_at, id */
  predicate Sooner(db: Jobs, a: nat, b: nat) {
    a in db && b in db && (Better(db[a], db[b]) || (!Better(db[b], db[a]) && a < b))
  }

  function ByPriority(db: Jobs): (nat, nat) -> bool {
    (a: nat, b: nat) => Sooner(db, a, b)
  }

  // ----- candidates -----

  predicate Due(j: Job, now: int) {
    j.status == Pending && j.scheduledAt <= now && (j.closeBy.None? || j.closeBy.value > now)
  }

  function Probe(db: Jobs, now: int, actor: string, queue: string): set<nat> {
    set id | id in db && Due(db[id], now) && db[id].actor == actor && db[id].queue == queue
  }

  /** The lateral: the soonest due rows of one actor in one subscribed queue. */
  function Window(v: Variant, db: Jobs, cfg: Config, p: Params, actor: string, queue: string): set<nat> {
    Limit(Probe(db, p.now, actor, queue), ByPriority(db), LateralLimit(v, Residual(db, cfg, p.limit, actor), p))
  }

  /** A candidate row: a job found through position `slot` of the queue list. */
  datatype Row = Row(id: nat, slot: nat)

  function Candidates(v: Variant, db: Jobs, cfg: Config, p: Params): set<Row> {
    set id, slot | id in db && 0 <= slot < |p.queues| && db[id].actor in cfg &&
                   Residual(db, cfg, p.limit, db[id].actor) > 0 &&
                   id in Window(v, db, cfg, p, db[id].actor, p.queues[slot])
                 :: Row(id, slot)
  }

  // ----- identity_dedup -----

  /** Copies of one row, found through two equal queue names, sort by slot. */
  predicate RowSooner(db: Jobs, x: Row, y: Row) {
    Sooner(db, x.id, y.id) || (x.id == y.id && x.slot < y.slot)
  }

  function ByRow(db: Jobs): (Row, Row) -> bool {
    (x, y) => RowSooner(db, x, y)
  }

  predicate SameIdentity(db: Jobs, a: nat, b: nat) {
    a in db && b in db && db[a].actor == db[b].actor && db[a].identity.Some? && db[a].identity == db[b].identity
  }

  /** DISTINCT ON keeps the soonest row of an identity; null identities all stay. */
  function IdentityDedup(db: Jobs, rows: set<Row>): set<Row> {
    set r | r in rows && r.id in db &&
            (db[r.id].identity.None? ||
             (!IdentityRunning(db, db[r.id].actor, db[r.id].identity.value) &&
              forall s | s in rows && SameIdentity(db, r.id, s.id) :: !RowSooner(db, s, r)))
  }

  // ----- ranked, top_ids -----

  datatype Ranked = Ranked(id: nat, slot: nat, rank: nat)

  function OfActor(db: Jobs, rows: set<Row>, actor: string): set<Row> {
    set r | r in rows && r.id in db && db[r.id].actor == actor
  }

  /** pending_rank: the row's number among its actor's rows. */
  function WithRank(db: Jobs, rows: set<Row>, r: Row): Ranked
    requires r.id in db
  {
    Ranked(r.id, r.slot, RowNumber(OfActor(db, rows, db[r.id].actor), ByRow(db), r))
  }

  function RankedRows(db: Jobs, rows: set<Row>): set<Ranked> {
    set r | r in rows && r.id in db :: WithRank(db, rows, r)
  }

  predicate TopSooner(db: Jobs, x: Ranked, y: Ranked) {
    x.rank < y.rank || (x.rank == y.rank && RowSooner(db, Row(x.id, x.slot), Row(y.id, y.slot)))
  }

  function ByTop(db: Jobs): (Ranked, Ranked) -> bool {
    (x, y) => TopSooner(db, x, y)
  }

  function Plan(v: Variant, db: Jobs, cfg: Config, p: Params): set<Ranked> {
    RankedRows(db, IdentityDedup(db, Candidates(v, db, cfg, p)))
  }

  function Top(v: Variant, db: Jobs, cfg: Config, p: Params): set<Ranked> {
    Limit(Plan(v, db, cfg, p), ByTop(db), TopLimit(v, p))
  }

  /** The ids the statement tries to lock. */
  function TopIds(v: Variant, db: Jobs, cfg: Config, p: Params): set<nat> {
    set t | t in Top(v, db, cfg, p) :: t.id
  }

  // ----- locked -----

  datatype Locked = Locked(id: nat, top: nat, slot: nat, rank: nat)

  /** top_ids joined back to ranked by id, keeping the ids whose row lock was taken. */
  function LockedRows(ranked: set<Ranked>, top: set<Ranked>, held: set<nat>): set<Locked> {
    set t, r | t in top && r in ranked && t.id == r.id && t.id in held :: Locked(r.id, t.slot, r.slot, r.rank)
  }

  // ----- the shared tail: eligible_candidates, eligible -----

  /** How the server happens to break ties in the tail's two orders. */
  datatype Ties = Ties(actor: Locked -> int, final: Locked -> int)

  predicate LexBefore(x: Locked, y: Locked) {
    x.id < y.id || (x.id == y.id && (x.top < y.top || (x.top == y.top &&
      (x.slot < y.slot || (x.slot == y.slot && x.rank < y.rank)))))
  }

  predicate TieBefore(tie: Locked -> int, x: Locked, y: Locked) {
    tie(x) < tie(y) || (tie(x) == tie(y) && LexBefore(x, y))
  }

  /** priority DESC, scheduled_at, then any order */
  predicate ActorSooner(db: Jobs, tie: Locked -> int, x: Locked, y: Locked) {
    x.id in db && y.id in db &&
    (Better(db[x.id], db[y.id]) || (!Better(db[y.id], db[x.id]) && TieBefore(tie, x, y)))
  }

  function ByActor(db: Jobs, ties: Ties): (Locked, Locked) -> bool {
    (x, y) => ActorSooner(db, ties.actor, x, y)
  }

  /** pending_rank, priority DESC, scheduled_at, then any order (fairness_rank is NULL) */
  predicate FinalSooner(db: Jobs, tie: Locked -> int, x: Locked, y: Locked) {
    x.rank < y.rank || (x.rank == y.rank && ActorSooner(db, tie, x, y))
  }

  function ByFinal(db: Jobs, ties: Ties): (Locked, Locked) -> bool {
    (x, y) => FinalSooner(db, ties.final, x, y)
  }

  function LockedOf(db: Jobs, rows: set<Locked>, actor: string): set<Locked> {
    set l | l in rows && l.id in db && db[l.id].actor == actor
  }

  predicate GateOpen(db: Jobs, cfg: Config, actor: string) {
    Cap(cfg, actor).None? || InFlight(db, actor) < Cap(cfg, actor).value
  }

  function EligibleCandidates(db: Jobs, cfg: Config, rows: set<Locked>): set<Locked> {
    set l | l in rows && l.id in db && GateOpen(db, cfg, db[l.id].actor)
  }

  predicate RankFits(db: Jobs, cfg: Config, ties: Ties, rows: set<Locked>, l: Locked)
    requires l.id in db
  {
    var actor := db[l.id].actor;
    Cap(cfg, actor).None? ||
    RowNumber(LockedOf(db, rows, actor), ByActor(db, ties), l) <= Cap(cfg, actor).value - InFlight(db, actor)
  }

  function Admitted(db: Jobs, cfg: Config, ties: Ties, rows: set<Locked>): set<Locked> {
    var ec := EligibleCandidates(db, cfg, rows);
    set l | l in ec && RankFits(db, cfg, ties, ec, l)
  }

  function Eligible(db: Jobs, cfg: Config, limit: nat, ties: Ties, rows: set<Locked>): set<Locked> {
    Limit(Admitted(db, cfg, ties, rows), ByFinal(db, ties), limit)
  }

  function EligibleIds(db: Jobs, cfg: Config, limit: nat, ties: Ties, rows: set<Locked>): set<nat> {
    set l | l in Eligible(db, cfg, limit, ties, rows) :: l.id
  }

  /** The ids one rank-then-lock round claims when it holds the locks on `held`. */
  function Claims(v: Variant, db: Jobs, cfg: Config, p: Params, held: set<nat>, ties: Ties): set<nat> {
    EligibleIds(db, cfg, p.limit, ties, LockedRows(Plan(v, db, cfg, p), Top(v, db, cfg, p), held))
  }

  /** A round nobody contends with: every top id is locked. */
  function Uncontended(v: Variant, db: Jobs, cfg: Config, p: Params, ties: Ties): set<nat> {
    Claims(v, db, cfg, p, TopIds(v, db, cfg, p), ties)
  }

  // ----- the lock-first statement (v2) -----

  function AllDue(db: Jobs, p: Params): set<nat> {
    set id | id in db && Due(db[id], p.now) && db[id].queue in p.queues
  }

  function LockFirstRows(db: Jobs, p: Params, others: set<nat>): set<Locked> {
    var raw := Limit(AllDue(db, p) - others, ByPriority(db), p.limit * p.oversample);
    set id | id in raw :: Locked(id, 0, 0, RowNumber(raw, ByPriority(db), id))
  }

  /** The ids the lock-first statement claims while others hold `others`. */
  function LockFirst(db: Jobs, cfg: Config, p: Params, others: set<nat>, ties: Ties): set<nat> {
    EligibleIds(db, cfg, p.limit, ties, LockFirstRows(db, p, others))
  }

  // ----- the UPDATE -----

  /** SET status = 'running', attempt = attempt + 1 on the claimed rows still pending. */
  function Update(db: Jobs, claimed: set<nat>): Jobs {
    map id | id in db ::
      if id in claimed && db[id].status == Pending
      then db[id].(status := Running, attempt := db[id].attempt + 1)
      else db[id]
  }
}
