/**
  One uncontended round without caps, said without the statement's own stages: the
  rows its WHERE clauses ask for, column by column, taken in turns.  A row's turn is
  its place among the wanted rows of its actor; first turns go before second ones, and
  within a turn the more urgent row goes first.
*/
module RoundRobin {
  import opened Prelude
  import opened Ranking
  import opened Claim
  import opened ClaimSafety
  import opened ClaimPriority
  import opened ClaimFairness
  import opened ClaimVariants

  predicate Asked(j: Job, p: Params) {
    && j.status == Pending && j.scheduledAt <= p.now && (j.closeBy.None? || j.closeBy.value > p.now)
    && j.queue in p.queues
  }

  function AskedIds(db: Jobs, p: Params): set<nat> {
    set id | id in db && Asked(db[id], p)
  }

  /** The rank-then-lock texts look at registered actors only. */
  predicate Wanted(j: Job, cfg: Config, p: Params) {
    Asked(j, p) && j.actor in cfg
  }

  function WantedIds(db: Jobs, cfg: Config, p: Params): set<nat> {
    set id | id in db && Wanted(db[id], cfg, p)
  }

  /** Larger priority, or as large and an earlier schedule. */
  predicate Outranks(x: Job, y: Job) {
    x.priority > y.priority || (x.priority == y.priority && x.scheduledAt < y.scheduledAt)
  }

  /** ... and of two alike the smaller id. */
  predicate Urgent(db: Jobs, a: nat, b: nat) {
    a in db && b in db && (Outranks(db[a], db[b]) || (!Outranks(db[b], db[a]) && a < b))
  }

  function ByUrgency(db: Jobs): (nat, nat) -> bool {
    (a: nat, b: nat) => Urgent(db, a, b)
  }

  /** A row's turn among the rows of a set: one after those of its actor that are more urgent. */
  function Turn(db: Jobs, rows: set<nat>, id: nat): nat
    requires id in db
  {
    |set k | k in IdsOf(db, rows, db[id].actor) && Urgent(db, k, id)| + 1
  }

  predicate GoesFirst(db: Jobs, rows: set<nat>, a: nat, b: nat) {
    a in db && b in db &&
    (Turn(db, rows, a) < Turn(db, rows, b) || (Turn(db, rows, a) == Turn(db, rows, b) && Urgent(db, a, b)))
  }

  function ByTurn(db: Jobs, rows: set<nat>): (nat, nat) -> bool {
    (a: nat, b: nat) => GoesFirst(db, rows, a, b)
  }

  // ----- the columns behind the stages -----

  lemma UrgentIsSooner(db: Jobs, a: nat, b: nat)
    ensures Urgent(db, a, b) <==> Sooner(db, a, b)
  {
  }

  lemma TurnIsRowNumber(db: Jobs, rows: set<nat>, id: nat)
    requires id in db
    ensures Turn(db, rows, id) == RowNumber(IdsOf(db, rows, db[id].actor), ByPriority(db), id)
  {
    var mine := IdsOf(db, rows, db[id].actor);
    forall k | k in mine ensures Urgent(db, k, id) <==> ByPriority(db)(k, id) { UrgentIsSooner(db, k, id); }
    assert (set k | k in mine && Urgent(db, k, id)) == Ahead(mine, ByPriority(db), id);
  }

  /** Every claimed row, whatever the text, the locks and the tie-break, is one the WHERE clauses ask for. */
  lemma ClaimedIsWanted(v: Variant, db: Jobs, cfg: Config, p: Params, held: set<nat>, ties: Ties, id: nat)
    requires id in Claims(v, db, cfg, p, held, ties)
    ensures id in held && id in db && Wanted(db[id], cfg, p)
  {
    ClaimedIsPlanned(v, db, cfg, p, held, ties, id);
  }

  /** ... and so is every row the lock-first text claims, registered or not, and nobody else has it locked. */
  lemma LockFirstIsAsked(db: Jobs, cfg: Config, p: Params, others: set<nat>, ties: Ties, id: nat)
    requires id in LockFirst(db, cfg, p, others, ties)
    ensures id !in others && id in db && Asked(db[id], p)
  {
    var l :| l in Eligible(db, cfg, p.limit, ties, LockFirstRows(db, p, others)) && l.id == id;
    assert l in LockFirstRows(db, p, others);
  }

  /** ... and without caps it claims exactly the `limit` most urgent of them. */
  lemma LockFirstTakesUrgent(db: Jobs, cfg: Config, p: Params, others: set<nat>, ties: Ties)
    requires p.oversample >= 1 && Uncapped(cfg)
    ensures LockFirst(db, cfg, p, others, ties) ==
            Limit(AskedIds(db, p) - others, ByUrgency(db), p.limit)
  {
    assert AskedIds(db, p) == AllDue(db, p);
    var asked := AskedIds(db, p) - others;
    LockFirstClaimsFree(db, cfg, p, others, ties);
    forall x | x in asked ensures Ahead(asked, ByUrgency(db), x) == Ahead(asked, ByPriority(db), x) {
      forall y | y in asked ensures Urgent(db, y, x) <==> Sooner(db, y, x) { UrgentIsSooner(db, y, x); }
    }
  }

  /** Within an actor, capped or not, a wanted job with more priority, or as much and an earlier schedule, is not left behind. */
  lemma UrgentFirst(v: Variant, db: Jobs, cfg: Config, p: Params, ties: Ties, a: nat, b: nat)
    requires NullIdentities(db) && !v.Rendered? && a in Uncontended(v, db, cfg, p, ties)
    requires a in db && b in db && Wanted(db[b], cfg, p) && db[b].actor == db[a].actor
    requires Outranks(db[b], db[a])
    ensures b in Uncontended(v, db, cfg, p, ties)
  {
    ProductWindowRespectsPriority(v, db, cfg, p, ties, db[a].actor);
    assert Claimable(db, p, db[a].actor, b) && Better(db[b], db[a]);
  }

  // ----- contended rounds -----

  /** The final LIMIT prefers the earlier turn, then the larger priority, then the earlier schedule. */
  lemma FinalPrefersUrgent(db: Jobs, cfg: Config, limit: nat, ties: Ties, rows: set<Locked>, l: Locked, k: Locked)
    requires l in Eligible(db, cfg, limit, ties, rows) && k in Admitted(db, cfg, ties, rows) && l.id in db && k.id in db
    requires k.rank < l.rank || (k.rank == l.rank && Outranks(db[k.id], db[l.id]))
    ensures k in Eligible(db, cfg, limit, ties, rows)
  {
    var admitted := Admitted(db, cfg, ties, rows);
    FinalTotal(db, ties, admitted);
    LimitPrefix(admitted, ByFinal(db, ties), limit, l, k);
  }

  /** Rows alike in both may come in either order: that is what the tie-breaks range over. */
  lemma TiesAreFree(db: Jobs, x: Locked, y: Locked) returns (ties: Ties)
    requires x.id in db && y.id in db && x != y && !Outranks(db[x.id], db[y.id]) && !Outranks(db[y.id], db[x.id])
    ensures ByActor(db, ties)(x, y) && (x.rank == y.rank ==> ByFinal(db, ties)(x, y))
  {
    var first := (l: Locked) => if l == x then 0 else 1;
    ties := Ties(first, first);
  }

  /** The capacity gate takes an actor's rows in that order. */
  lemma GatePrefersUrgent(db: Jobs, cfg: Config, ties: Ties, rows: set<Locked>, l: Locked, k: Locked)
    requires l in Admitted(db, cfg, ties, rows) && k in rows && l.id in db && k.id in db
    requires db[k.id].actor == db[l.id].actor && Outranks(db[k.id], db[l.id])
    ensures k in Admitted(db, cfg, ties, rows)
  {
    var ec := EligibleCandidates(db, cfg, rows);
    var mine := LockedOf(db, ec, db[l.id].actor);
    assert k in ec && k in mine && l in mine;
    ActorTotal(db, ties, mine);
    RowNumberMonotone(mine, ByActor(db, ties), k, l);
  }

  /**
    Whatever the text, the caps, the identities, the queue list, the tie-break and the
    locks it was refused: of the rows it did get, a round never takes a job over a more
    urgent one of the same actor.
  */
  lemma HeldUrgentFirst(v: Variant, db: Jobs, cfg: Config, p: Params, held: set<nat>, ties: Ties, a: nat, b: nat)
    requires a in Claims(v, db, cfg, p, held, ties) && b in held && b in TopIds(v, db, cfg, p)
    requires a in db && b in db && db[b].actor == db[a].actor && Outranks(db[b], db[a])
    ensures b in Claims(v, db, cfg, p, held, ties)
  {
    var rows := LockedRows(Plan(v, db, cfg, p), Top(v, db, cfg, p), held);
    var l :| l in Eligible(db, cfg, p.limit, ties, rows) && l.id == a;
    var t :| t in Top(v, db, cfg, p) && t.id == b;
    var k := AsLocked(t);
    assert k in rows;
    LockedRankFirst(v, db, cfg, p, held, k, l);
    GatePrefersUrgent(db, cfg, ties, rows, l, k);
    FinalPrefersUrgent(db, cfg, p.limit, ties, rows, l, k);
  }

  lemma LockedRankFirst(v: Variant, db: Jobs, cfg: Config, p: Params, held: set<nat>, k: Locked, l: Locked)
    requires k in LockedRows(Plan(v, db, cfg, p), Top(v, db, cfg, p), held)
    requires l in LockedRows(Plan(v, db, cfg, p), Top(v, db, cfg, p), held)
    requires k.id in db && l.id in db && db[k.id].actor == db[l.id].actor && Outranks(db[k.id], db[l.id])
    ensures k.rank < l.rank
  {
    var rows := IdentityDedup(db, Candidates(v, db, cfg, p));
    var x, y := Row(k.id, k.slot), Row(l.id, l.slot);
    assert Ranked(k.id, k.slot, k.rank) == WithRank(db, rows, x) && Ranked(l.id, l.slot, l.rank) == WithRank(db, rows, y);
    SoonerRank(db, rows, x, y);
  }

  // ----- the windows lose no early turn -----

  ghost predicate Uncapped(cfg: Config) {
    forall a | a in cfg :: cfg[a].None?
  }

  /** No caps and no identities. */
  ghost predicate Plain(db: Jobs, cfg: Config) {
    NullIdentities(db) && Uncapped(cfg)
  }

  /** The ranking LIMIT within the round's own, and within the window of one queue. */
  predicate Roomy(v: Variant, p: Params) {
    TopLimit(v, p) <= p.limit && TopLimit(v, p) <= LateralLimit(v, p.limit, p)
  }

  lemma WindowedIsWanted(v: Variant, db: Jobs, cfg: Config, p: Params)
    ensures Windowed(v, db, cfg, p) <= WantedIds(db, cfg, p)
  {
  }

  lemma EarlyTurnInWindow(v: Variant, db: Jobs, cfg: Config, p: Params, id: nat)
    requires Plain(db, cfg) && Roomy(v, p) && id in WantedIds(db, cfg, p) && Turn(db, WantedIds(db, cfg, p), id) <= TopLimit(v, p)
    ensures id in Windowed(v, db, cfg, p)
  {
    var mine := IdsOf(db, WantedIds(db, cfg, p), db[id].actor);
    var probe := Probe(db, p.now, db[id].actor, db[id].queue);
    TurnIsRowNumber(db, WantedIds(db, cfg, p), id);
    assert probe <= mine;
    SubsetSize(Ahead(probe, ByPriority(db), id), Ahead(mine, ByPriority(db), id));
    var slot :| 0 <= slot < |p.queues| && p.queues[slot] == db[id].queue;
    assert Row(id, slot) in Candidates(v, db, cfg, p);
  }

  /** pending_rank, counted on ids, when no two of the ranked rows have one id. */
  lemma RankCountsIds(db: Jobs, rows: set<Row>, ids: set<nat>, r: Row)
    requires r in rows && (forall x | x in rows :: x.id in db && x.id in ids)
    requires forall id | id in ids :: exists x | x in rows :: x.id == id
    requires forall x, y | x in rows && y in rows && x.id == y.id :: x == y
    ensures WithRank(db, rows, r).rank == RowNumber(IdsOf(db, ids, db[r.id].actor), ByPriority(db), r.id)
  {
    var mine, own := OfActor(db, rows, db[r.id].actor), IdsOf(db, ids, db[r.id].actor);
    var f := (x: Row) => x.id;
    forall k | k in Ahead(own, ByPriority(db), r.id) ensures exists x | x in Ahead(mine, ByRow(db), r) :: f(x) == k {
      var x :| x in rows && x.id == k;
      assert x in Ahead(mine, ByRow(db), r) && f(x) == k;
    }
    InjectionSize(Ahead(mine, ByRow(db), r), Ahead(own, ByPriority(db), r.id), f);
    SurjectionSize(Ahead(mine, ByRow(db), r), Ahead(own, ByPriority(db), r.id), f);
  }

  lemma CandidateRank(v: Variant, db: Jobs, cfg: Config, p: Params, r: Row)
    requires Distinct(p.queues) && r in Candidates(v, db, cfg, p)
    ensures r.id in db
    ensures WithRank(db, Candidates(v, db, cfg, p), r).rank ==
            RowNumber(IdsOf(db, Windowed(v, db, cfg, p), db[r.id].actor), ByPriority(db), r.id)
  {
    var rows := Candidates(v, db, cfg, p);
    forall x, y | x in rows && y in rows && x.id == y.id ensures x == y { SlotOnce(v, db, cfg, p, x, y); }
    RankCountsIds(db, rows, Windowed(v, db, cfg, p), r);
  }

  lemma SlotOnce(v: Variant, db: Jobs, cfg: Config, p: Params, x: Row, y: Row)
    requires Distinct(p.queues) && x in Candidates(v, db, cfg, p) && y in Candidates(v, db, cfg, p) && x.id == y.id
    ensures x == y
  {
    assert p.queues[x.slot] == db[x.id].queue == p.queues[y.slot];
  }

  /** Up to the limit the rank is the turn, and past the limit it is past it, too. */
  lemma RankIsTurn(v: Variant, db: Jobs, cfg: Config, p: Params, id: nat)
    requires Plain(db, cfg) && Roomy(v, p) && id in Windowed(v, db, cfg, p)
    ensures id in db
    ensures var rank := RowNumber(IdsOf(db, Windowed(v, db, cfg, p), db[id].actor), ByPriority(db), id);
            var turn := Turn(db, WantedIds(db, cfg, p), id);
            if turn <= TopLimit(v, p) then rank == turn else rank > TopLimit(v, p)
  {
    WindowedIsWanted(v, db, cfg, p);
    var mine, seen := IdsOf(db, WantedIds(db, cfg, p), db[id].actor), IdsOf(db, Windowed(v, db, cfg, p), db[id].actor);
    TurnIsRowNumber(db, WantedIds(db, cfg, p), id);
    PriorityTotal(db, mine);
    var n := TopLimit(v, p);
    if Turn(db, WantedIds(db, cfg, p), id) <= n {
      forall k | k in Ahead(mine, ByPriority(db), id) ensures k in seen {
        RowNumberMonotone(mine, ByPriority(db), k, id);
        TurnIsRowNumber(db, WantedIds(db, cfg, p), k);
        EarlyTurnInWindow(v, db, cfg, p, k);
      }
      assert Ahead(seen, ByPriority(db), id) == Ahead(mine, ByPriority(db), id);
    } else {
      DroppedRow(mine, ByPriority(db), n, id);
      forall k | k in Limit(mine, ByPriority(db), n) ensures k in Ahead(seen, ByPriority(db), id) {
        TurnIsRowNumber(db, WantedIds(db, cfg, p), k);
        EarlyTurnInWindow(v, db, cfg, p, k);
      }
      SubsetSize(Limit(mine, ByPriority(db), n), Ahead(seen, ByPriority(db), id));
    }
  }

  // ----- the round -----

  lemma TurnTotal(db: Jobs, rows: set<nat>, s: set<nat>)
    requires s <= db.Keys
    ensures StrictTotal(s, ByTurn(db, rows))
  {
  }

  /** Nothing past the limit-th turn is among the first `limit` rows. */
  lemma FirstRowsAreEarly(db: Jobs, cfg: Config, p: Params, n: nat, id: nat)
    requires id in Limit(WantedIds(db, cfg, p), ByTurn(db, WantedIds(db, cfg, p)), n)
    ensures id in db && Turn(db, WantedIds(db, cfg, p), id) <= n
  {
    var mine := IdsOf(db, WantedIds(db, cfg, p), db[id].actor);
    TurnIsRowNumber(db, WantedIds(db, cfg, p), id);
    PriorityTotal(db, mine);
    forall k | k in Ahead(mine, ByPriority(db), id) ensures k in Ahead(WantedIds(db, cfg, p), ByTurn(db, WantedIds(db, cfg, p)), id) {
      RowNumberMonotone(mine, ByPriority(db), k, id);
      TurnIsRowNumber(db, WantedIds(db, cfg, p), k);
    }
    SubsetSize(Ahead(mine, ByPriority(db), id), Ahead(WantedIds(db, cfg, p), ByTurn(db, WantedIds(db, cfg, p)), id));
  }

  /** The planned rows of rank n or less, and the wanted ids of turn n or less. */
  function EarlyPlan(v: Variant, db: Jobs, cfg: Config, p: Params): set<Ranked> {
    set t | t in Plan(v, db, cfg, p) && t.rank <= TopLimit(v, p)
  }

  function EarlyIds(v: Variant, db: Jobs, cfg: Config, p: Params): set<nat> {
    set id | id in WantedIds(db, cfg, p) && id in db && Turn(db, WantedIds(db, cfg, p), id) <= TopLimit(v, p)
  }

  lemma PlannedTurn(v: Variant, db: Jobs, cfg: Config, p: Params, t: Ranked)
    requires Plain(db, cfg) && Roomy(v, p) && Distinct(p.queues) && t in Plan(v, db, cfg, p)
    ensures t.id in db && t.id in WantedIds(db, cfg, p)
    ensures t.rank <= TopLimit(v, p) <==> Turn(db, WantedIds(db, cfg, p), t.id) <= TopLimit(v, p)
    ensures t.rank <= TopLimit(v, p) ==> t.rank == Turn(db, WantedIds(db, cfg, p), t.id)
  {
    DedupKeepsNull(v, db, cfg, p);
    var r := Row(t.id, t.slot);
    assert r in Candidates(v, db, cfg, p) && t == WithRank(db, Candidates(v, db, cfg, p), r);
    CandidateRank(v, db, cfg, p, r);
    WindowedIsWanted(v, db, cfg, p);
    RankIsTurn(v, db, cfg, p, t.id);
  }

  lemma TurnIsPlanned(v: Variant, db: Jobs, cfg: Config, p: Params, id: nat) returns (t: Ranked)
    requires Plain(db, cfg) && Roomy(v, p) && Distinct(p.queues) && id in EarlyIds(v, db, cfg, p)
    ensures t in EarlyPlan(v, db, cfg, p) && t.id == id
  {
    EarlyTurnInWindow(v, db, cfg, p, id);
    PlanIds(v, db, cfg, p);
    t :| t in Plan(v, db, cfg, p) && t.id == id;
    PlannedTurn(v, db, cfg, p, t);
  }

  lemma EarlyOrder(v: Variant, db: Jobs, cfg: Config, p: Params, x: Ranked, y: Ranked)
    requires Plain(db, cfg) && Roomy(v, p) && Distinct(p.queues)
    requires x in EarlyPlan(v, db, cfg, p) && y in EarlyPlan(v, db, cfg, p)
    ensures x.id in EarlyIds(v, db, cfg, p) && (x.id == y.id ==> x == y)
    ensures TopSooner(db, x, y) <==> GoesFirst(db, WantedIds(db, cfg, p), x.id, y.id)
  {
    PlannedTurn(v, db, cfg, p, x);
    PlannedTurn(v, db, cfg, p, y);
    UrgentIsSooner(db, x.id, y.id);
    if x.id == y.id { OneSlot(v, db, cfg, p, x, y); }
  }

  lemma CutByTurn(db: Jobs, rows: set<nat>, plan: set<Ranked>, ids: set<nat>, n: nat)
    requires forall t | t in plan :: t.id in ids
    requires forall id | id in ids :: exists t | t in plan :: t.id == id
    requires forall x, y | x in plan && y in plan :: x.id == y.id ==> x == y
    requires forall x, y | x in plan && y in plan :: TopSooner(db, x, y) <==> GoesFirst(db, rows, x.id, y.id)
    ensures (set t | t in Limit(plan, ByTop(db), n) :: t.id) == Limit(ids, ByTurn(db, rows), n)
  {
    var f := (t: Ranked) => t.id;
    assert Same(plan, ByTop(db), ids, ByTurn(db, rows), f);
    SameCut(plan, ByTop(db), ids, ByTurn(db, rows), f, n);
  }

  lemma EarlyPlanned(v: Variant, db: Jobs, cfg: Config, p: Params, ids: set<nat>)
    requires Plain(db, cfg) && Roomy(v, p) && Distinct(p.queues) && ids == EarlyIds(v, db, cfg, p)
    ensures forall id | id in ids :: exists t | t in EarlyPlan(v, db, cfg, p) :: t.id == id
  {
    forall id | id in ids ensures exists t | t in EarlyPlan(v, db, cfg, p) :: t.id == id {
      var t := TurnIsPlanned(v, db, cfg, p, id);
    }
  }

  lemma EarlyOrdered(v: Variant, db: Jobs, cfg: Config, p: Params, plan: set<Ranked>, rows: set<nat>)
    requires Plain(db, cfg) && Roomy(v, p) && Distinct(p.queues)
    requires plan == EarlyPlan(v, db, cfg, p) && rows == WantedIds(db, cfg, p)
    ensures forall x, y | x in plan && y in plan :: TopSooner(db, x, y) <==> GoesFirst(db, rows, x.id, y.id)
  {
    forall x, y | x in plan && y in plan ensures TopSooner(db, x, y) <==> GoesFirst(db, rows, x.id, y.id) {
      EarlyOrder(v, db, cfg, p, x, y);
    }
  }

  lemma EarlyOnce(v: Variant, db: Jobs, cfg: Config, p: Params, plan: set<Ranked>, ids: set<nat>)
    requires Plain(db, cfg) && Roomy(v, p) && Distinct(p.queues)
    requires plan == EarlyPlan(v, db, cfg, p) && ids == EarlyIds(v, db, cfg, p)
    ensures forall x | x in plan :: x.id in ids
    ensures forall x, y | x in plan && y in plan :: x.id == y.id ==> x == y
  {
    forall x, y | x in plan && y in plan ensures x.id in ids && (x.id == y.id ==> x == y) { EarlyOrder(v, db, cfg, p, x, y); }
  }

  lemma EarlyCut(v: Variant, db: Jobs, cfg: Config, p: Params, n: nat)
    requires Plain(db, cfg) && Roomy(v, p) && Distinct(p.queues)
    ensures (set t | t in Limit(EarlyPlan(v, db, cfg, p), ByTop(db), n) :: t.id) ==
            Limit(EarlyIds(v, db, cfg, p), ByTurn(db, WantedIds(db, cfg, p)), n)
  {
    EarlyOrdered(v, db, cfg, p, EarlyPlan(v, db, cfg, p), WantedIds(db, cfg, p));
    EarlyOnce(v, db, cfg, p, EarlyPlan(v, db, cfg, p), EarlyIds(v, db, cfg, p));
    EarlyPlanned(v, db, cfg, p, EarlyIds(v, db, cfg, p));
    CutByTurn(db, WantedIds(db, cfg, p), EarlyPlan(v, db, cfg, p), EarlyIds(v, db, cfg, p), n);
  }

  /** top_ids is the first `limit` wanted rows by turn. */
  lemma TopTakesTurns(v: Variant, db: Jobs, cfg: Config, p: Params)
    requires Plain(db, cfg) && Roomy(v, p) && Distinct(p.queues)
    ensures TopIds(v, db, cfg, p) == Limit(WantedIds(db, cfg, p), ByTurn(db, WantedIds(db, cfg, p)), TopLimit(v, p))
  {
    var n := TopLimit(v, p);
    var plan, ids := EarlyPlan(v, db, cfg, p), EarlyIds(v, db, cfg, p);
    TopTotal(db, Plan(v, db, cfg, p));
    forall t | t in Top(v, db, cfg, p) ensures t in plan { TopRankBound(v, db, cfg, p, t); }
    LimitOfWindow(Plan(v, db, cfg, p), plan, ByTop(db), n);
    TurnTotal(db, WantedIds(db, cfg, p), WantedIds(db, cfg, p));
    forall id | id in Limit(WantedIds(db, cfg, p), ByTurn(db, WantedIds(db, cfg, p)), n) ensures id in ids {
      FirstRowsAreEarly(db, cfg, p, n, id);
    }
    LimitOfWindow(WantedIds(db, cfg, p), ids, ByTurn(db, WantedIds(db, cfg, p)), n);
    EarlyCut(v, db, cfg, p, n);
  }

  /** Without caps an uncontended round claims all it holds. */
  lemma AllHeldClaimed(v: Variant, db: Jobs, cfg: Config, p: Params, ties: Ties)
    requires Uncapped(cfg) && Roomy(v, p) && Distinct(p.queues)
    ensures Uncontended(v, db, cfg, p, ties) == TopIds(v, db, cfg, p)
  {
    var all := AllLocked(v, db, cfg, p);
    forall l | l in all ensures l.id in db { LockedInTable(v, db, cfg, p, l); }
    assert Admitted(db, cfg, ties, all) == all;
    FewHeld(v, db, cfg, p, ties);
    FinalTotal(db, ties, all);
    LimitOfFew(all, ByFinal(db, ties), p.limit);
    LockedIds(v, db, cfg, p);
  }

  /**
    The round takes turns: for any number of uncapped actors, null identities, distinct
    queues and no contention it claims exactly the first rows, by turn and urgency, of
    all the rows its WHERE clauses ask for, whatever the windows cut and however the
    server breaks ties.
  */
  lemma RoundTakesTurns(v: Variant, db: Jobs, cfg: Config, p: Params, ties: Ties)
    requires Plain(db, cfg) && Roomy(v, p) && Distinct(p.queues)
    ensures Uncontended(v, db, cfg, p, ties) == Limit(WantedIds(db, cfg, p), ByTurn(db, WantedIds(db, cfg, p)), TopLimit(v, p))
  {
    TopTakesTurns(v, db, cfg, p);
    AllHeldClaimed(v, db, cfg, p, ties);
  }

  /** The preamble's text always has room, and so has the literal one from its own limit on. */
  lemma WrittenTakesTurns(v: Variant, db: Jobs, cfg: Config, p: Params, ties: Ties)
    requires Plain(db, cfg) && Distinct(p.queues)
    requires (v.AsWritten? && p.oversample >= 1) || (v.Literal? && p.limit >= 50)
    ensures Uncontended(v, db, cfg, p, ties) ==
            Limit(WantedIds(db, cfg, p), ByTurn(db, WantedIds(db, cfg, p)), if v.Literal? then 50 else p.limit)
  {
    assert p.limit * p.oversample == p.limit + p.limit * (p.oversample - 1);
    RoundTakesTurns(v, db, cfg, p, ties);
  }

  // ----- identities -----

  /** Two rows of one actor with one identity. */
  predicate Twins(x: Job, y: Job) {
    x.actor == y.actor && x.identity.Some? && x.identity == y.identity
  }

  /** A wanted row whose identity, if it has one, is not running and has no more urgent wanted row. */
  ghost predicate Leading(db: Jobs, cfg: Config, p: Params, id: nat) {
    && id in WantedIds(db, cfg, p) && id in db
    && (forall k | k in db && Twins(db[k], db[id]) :: db[k].status != Running)
    && (forall k | k in WantedIds(db, cfg, p) && k in db && Twins(db[k], db[id]) :: !Urgent(db, k, id))
  }

  ghost function LeadingIds(db: Jobs, cfg: Config, p: Params): set<nat> {
    set id | id in WantedIds(db, cfg, p) && Leading(db, cfg, p, id)
  }

  /** No window cuts anything off. */
  ghost predicate Unclipped(v: Variant, db: Jobs, p: Params) {
    forall actor, queue :: |Probe(db, p.now, actor, queue)| <= LateralLimit(v, p.limit, p)
  }

  lemma CandidateIff(v: Variant, db: Jobs, cfg: Config, p: Params, r: Row)
    requires Uncapped(cfg) && Unclipped(v, db, p) && p.limit > 0
    ensures r in Candidates(v, db, cfg, p) <==>
            r.id in WantedIds(db, cfg, p) && r.slot < |p.queues| && p.queues[r.slot] == db[r.id].queue
  {
    if r.id in WantedIds(db, cfg, p) && r.slot < |p.queues| && p.queues[r.slot] == db[r.id].queue {
      var probe := Probe(db, p.now, db[r.id].actor, db[r.id].queue);
      PriorityTotal(db, probe);
      LimitOfFew(probe, ByPriority(db), LateralLimit(v, p.limit, p));
    }
  }

  lemma SlotOf(v: Variant, db: Jobs, cfg: Config, p: Params, id: nat) returns (r: Row)
    requires Uncapped(cfg) && Unclipped(v, db, p) && p.limit > 0 && id in WantedIds(db, cfg, p)
    ensures r.id == id && r in Candidates(v, db, cfg, p)
  {
    var slot :| 0 <= slot < |p.queues| && p.queues[slot] == db[id].queue;
    r := Row(id, slot);
    CandidateIff(v, db, cfg, p, r);
  }

  lemma DedupIff(v: Variant, db: Jobs, cfg: Config, p: Params, r: Row)
    requires Uncapped(cfg) && Unclipped(v, db, p) && p.limit > 0 && Distinct(p.queues) && r in Candidates(v, db, cfg, p)
    ensures r in IdentityDedup(db, Candidates(v, db, cfg, p)) <==> r.id in LeadingIds(db, cfg, p)
  {
    var rows := Candidates(v, db, cfg, p);
    CandidateIff(v, db, cfg, p, r);
    if r in IdentityDedup(db, rows) {
      forall k | k in WantedIds(db, cfg, p) && k in db && Twins(db[k], db[r.id]) ensures !Urgent(db, k, r.id) {
        var x := SlotOf(v, db, cfg, p, k);
        UrgentIsSooner(db, k, r.id);
      }
    }
    if r.id in LeadingIds(db, cfg, p) && db[r.id].identity.Some? {
      forall x | x in rows && SameIdentity(db, r.id, x.id) ensures !RowSooner(db, x, r) {
        CandidateIff(v, db, cfg, p, x);
        UrgentIsSooner(db, x.id, r.id);
        if x.id == r.id { SlotOnce(v, db, cfg, p, x, r); }
      }
    }
  }

  lemma LeadingPlanned(v: Variant, db: Jobs, cfg: Config, p: Params)
    requires Uncapped(cfg) && Unclipped(v, db, p) && p.limit > 0 && Distinct(p.queues)
    ensures var rows := IdentityDedup(db, Candidates(v, db, cfg, p));
            && (forall x | x in rows :: x.id in db && x.id in LeadingIds(db, cfg, p))
            && (forall id | id in LeadingIds(db, cfg, p) :: exists x | x in rows :: x.id == id)
            && (forall x, y | x in rows && y in rows && x.id == y.id :: x == y)
  {
    var rows := IdentityDedup(db, Candidates(v, db, cfg, p));
    forall x | x in rows ensures x.id in db && x.id in LeadingIds(db, cfg, p) { DedupIff(v, db, cfg, p, x); }
    forall id | id in LeadingIds(db, cfg, p) ensures exists x | x in rows :: x.id == id {
      var x := SlotOf(v, db, cfg, p, id);
      DedupIff(v, db, cfg, p, x);
    }
    forall x, y | x in rows && y in rows && x.id == y.id ensures x == y { SlotOnce(v, db, cfg, p, x, y); }
  }

  lemma LeadingTurn(v: Variant, db: Jobs, cfg: Config, p: Params, t: Ranked)
    requires Uncapped(cfg) && Unclipped(v, db, p) && p.limit > 0 && Distinct(p.queues) && t in Plan(v, db, cfg, p)
    ensures t.id in db && t.id in LeadingIds(db, cfg, p) && t.rank == Turn(db, LeadingIds(db, cfg, p), t.id)
  {
    var rows, ids := IdentityDedup(db, Candidates(v, db, cfg, p)), LeadingIds(db, cfg, p);
    LeadingPlanned(v, db, cfg, p);
    var r := Row(t.id, t.slot);
    assert r in rows && t == WithRank(db, rows, r);
    RankCountsIds(db, rows, ids, r);
    TurnIsRowNumber(db, ids, t.id);
  }

  lemma LeadingOrder(v: Variant, db: Jobs, cfg: Config, p: Params, x: Ranked, y: Ranked)
    requires Uncapped(cfg) && Unclipped(v, db, p) && p.limit > 0 && Distinct(p.queues)
    requires x in Plan(v, db, cfg, p) && y in Plan(v, db, cfg, p)
    ensures x.id in LeadingIds(db, cfg, p) && (x.id == y.id ==> x == y)
    ensures TopSooner(db, x, y) <==> GoesFirst(db, LeadingIds(db, cfg, p), x.id, y.id)
  {
    LeadingTurn(v, db, cfg, p, x);
    LeadingTurn(v, db, cfg, p, y);
    UrgentIsSooner(db, x.id, y.id);
    if x.id == y.id { OneSlot(v, db, cfg, p, x, y); }
  }

  lemma LeadingCut(v: Variant, db: Jobs, cfg: Config, p: Params)
    requires Uncapped(cfg) && Unclipped(v, db, p) && p.limit > 0 && Distinct(p.queues)
    ensures TopIds(v, db, cfg, p) == Limit(LeadingIds(db, cfg, p), ByTurn(db, LeadingIds(db, cfg, p)), TopLimit(v, p))
  {
    var plan, ids := Plan(v, db, cfg, p), LeadingIds(db, cfg, p);
    LeadingPlanned(v, db, cfg, p);
    forall x, y | x in plan && y in plan
      ensures x.id in ids && (x.id == y.id ==> x == y) && (TopSooner(db, x, y) <==> GoesFirst(db, ids, x.id, y.id))
    {
      LeadingOrder(v, db, cfg, p, x, y);
    }
    forall id | id in ids ensures exists t | t in plan :: t.id == id {
      var x :| x in IdentityDedup(db, Candidates(v, db, cfg, p)) && x.id == id;
      assert WithRank(db, IdentityDedup(db, Candidates(v, db, cfg, p)), x) in plan;
    }
    CutByTurn(db, ids, plan, ids, TopLimit(v, p));
  }

  /**
    With identities, when no window cuts anything off: the same turns, taken by the rows
    that lead their identity and whose identity is not running.
  */
  lemma IdentitiesTakeTurns(v: Variant, db: Jobs, cfg: Config, p: Params, ties: Ties)
    requires Uncapped(cfg) && Unclipped(v, db, p) && Roomy(v, p) && Distinct(p.queues)
    ensures Uncontended(v, db, cfg, p, ties) ==
            Limit(LeadingIds(db, cfg, p), ByTurn(db, LeadingIds(db, cfg, p)), TopLimit(v, p))
  {
    AllHeldClaimed(v, db, cfg, p, ties);
    if p.limit > 0 {
      LeadingCut(v, db, cfg, p);
    } else {
      TopIdsBounded(v, db, cfg, p);
      var ids := LeadingIds(db, cfg, p);
      TurnTotal(db, ids, ids);
      LimitSize(ids, ByTurn(db, ids), 0);
    }
  }
}
