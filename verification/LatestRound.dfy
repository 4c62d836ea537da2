/**
  A round on a table of one actor's rows, each more urgent than the one before it:
  whatever else is pending, the latest rows are planned, and when they are what the
  round gets locks on, they are exactly what it claims.
*/
module LatestRound {
  import opened Prelude
  import opened Ranking
  import opened Claim
  import opened ClaimSafety
  import opened ClaimPriority

  /** Which text, whose rows, where, and how many rows a round may take. */
  datatype Scene = Scene(v: Variant, actor: string, queue: string, identity: Option<string>, top: nat)

  function ParamsOf(e: Scene): Params {
    Params([e.queue], e.top, e.top, 0)
  }

  /** Row `id`: the later it arrives, the more urgent. */
  function RowJob(e: Scene, id: nat): Job {
    Job(e.actor, e.queue, e.identity, id, 0, None, Pending, 0)
  }

  ghost predicate IsRow(e: Scene, id: nat, j: Job) {
    j == RowJob(e, id).(status := j.status, attempt := j.attempt)
  }

  /** The ids from lo, `size` of them. */
  function Block(lo: nat, size: nat): set<nat> {
    if size == 0 then {} else Block(lo, size - 1) + {lo + size - 1}
  }

  lemma {:induction false} BlockIds(lo: nat, size: nat)
    ensures |Block(lo, size)| == size && forall id: nat :: id in Block(lo, size) <==> lo <= id < lo + size
  {
    if size > 0 { BlockIds(lo, size - 1); }
  }

  /** m rows in some state, then d pending ones that the limit and the cap have room for. */
  ghost predicate Ready(cfg: Config, e: Scene, db: Jobs, m: nat, d: nat) {
    && (forall id: nat :: id in db <==> id < m + d) && (forall id | id in db :: IsRow(e, id, db[id]))
    && (forall id: nat | m <= id < m + d :: db[id].status == Pending)
    && e.actor in cfg && (cfg[e.actor].None? || InFlight(db, e.actor) + d <= cfg[e.actor].value)
    && 1 <= d <= e.top && (e.v.Literal? ==> e.top <= LITERAL_TOP)
    && (e.identity.Some? ==> d == 1 && forall id | id in db :: db[id].status != Running)
  }

  lemma LaterFirst(e: Scene, db: Jobs, a: nat, b: nat)
    requires a in db && b in db && IsRow(e, a, db[a]) && IsRow(e, b, db[b])
    ensures Sooner(db, a, b) <==> a > b
  {
  }

  /** At most the later rows come before a row. */
  lemma FewAhead(e: Scene, db: Jobs, m: nat, ids: set<nat>, id: nat)
    requires (forall k | k in ids :: k in db && k < m && IsRow(e, k, db[k])) && id in ids
    ensures RowNumber(ids, ByPriority(db), id) <= m - id
  {
    var ahead := Ahead(ids, ByPriority(db), id);
    BlockIds(id + 1, m - id - 1);
    forall k | k in ahead ensures k in Block(id + 1, m - id - 1) { LaterFirst(e, db, k, id); }
    SubsetSize(ahead, Block(id + 1, m - id - 1));
  }

  lemma WindowReaches(cfg: Config, e: Scene, db: Jobs, m: nat, d: nat)
    requires Ready(cfg, e, db, m, d)
    ensures Residual(db, cfg, e.top, e.actor) >= 1
    ensures LateralLimit(e.v, Residual(db, cfg, e.top, e.actor), ParamsOf(e)) >= d
  {
    var residual := Residual(db, cfg, e.top, e.actor);
    assert residual * e.top == e.top + (residual - 1) * e.top;
  }

  lemma LatestInWindow(cfg: Config, e: Scene, db: Jobs, m: nat, d: nat, id: nat)
    requires Ready(cfg, e, db, m, d) && m <= id < m + d
    ensures id in Window(e.v, db, cfg, ParamsOf(e), e.actor, e.queue)
  {
    var probe := Probe(db, 0, e.actor, e.queue);
    WindowReaches(cfg, e, db, m, d);
    assert id in probe;
    FewAhead(e, db, m + d, probe, id);
  }

  lemma LatestIsCandidate(cfg: Config, e: Scene, db: Jobs, m: nat, d: nat, id: nat)
    requires Ready(cfg, e, db, m, d) && m <= id < m + d
    ensures Row(id, 0) in Candidates(e.v, db, cfg, ParamsOf(e))
  {
    LatestInWindow(cfg, e, db, m, d, id);
    WindowReaches(cfg, e, db, m, d);
  }

  lemma LatestSurvives(cfg: Config, e: Scene, db: Jobs, m: nat, d: nat, id: nat)
    requires Ready(cfg, e, db, m, d) && m <= id < m + d
    ensures Row(id, 0) in IdentityDedup(db, Candidates(e.v, db, cfg, ParamsOf(e)))
  {
    LatestIsCandidate(cfg, e, db, m, d, id);
    if e.identity.Some? {
      forall s | s in Candidates(e.v, db, cfg, ParamsOf(e)) ensures !RowSooner(db, s, Row(id, 0)) {
        assert s.id in db;
        LaterFirst(e, db, s.id, id);
      }
    }
  }

  /** In the plan of one actor, what sorts before a row arrived after it. */
  lemma PlannedLater(e: Scene, v: Variant, db: Jobs, cfg: Config, p: Params, x: Ranked, t: Ranked)
    requires Distinct(p.queues) && x in Plan(v, db, cfg, p) && t in Plan(v, db, cfg, p) && TopSooner(db, x, t)
    requires forall id | id in db :: IsRow(e, id, db[id])
    ensures x.id in db && x.id > t.id
  {
    var rows := IdentityDedup(db, Candidates(v, db, cfg, p));
    LaterFirst(e, db, t.id, x.id);
    if x.id == t.id {
      OneSlot(v, db, cfg, p, x, t);
    } else if x.id < t.id {
      SoonerRank(db, rows, Row(t.id, t.slot), Row(x.id, x.slot));
    }
  }

  lemma LatestIsTop(cfg: Config, e: Scene, db: Jobs, m: nat, d: nat, id: nat)
    requires Ready(cfg, e, db, m, d) && m <= id < m + d
    ensures id in TopIds(e.v, db, cfg, ParamsOf(e))
  {
    var plan := Plan(e.v, db, cfg, ParamsOf(e));
    LatestSurvives(cfg, e, db, m, d, id);
    var t := WithRank(db, IdentityDedup(db, Candidates(e.v, db, cfg, ParamsOf(e))), Row(id, 0));
    assert t in plan;
    NumberInPlan(cfg, e, db, m + d, t);
    assert t in Top(e.v, db, cfg, ParamsOf(e));
  }

  lemma NumberInPlan(cfg: Config, e: Scene, db: Jobs, m: nat, t: Ranked)
    requires t in Plan(e.v, db, cfg, ParamsOf(e)) && t.id < m
    requires forall id | id in db :: id < m && IsRow(e, id, db[id])
    ensures RowNumber(Plan(e.v, db, cfg, ParamsOf(e)), ByTop(db), t) <= m - t.id
  {
    var plan := Plan(e.v, db, cfg, ParamsOf(e));
    var ahead := Ahead(plan, ByTop(db), t);
    BlockIds(t.id + 1, m - t.id - 1);
    forall x | x in ahead ensures x.id in Block(t.id + 1, m - t.id - 1) { PlannedLater(e, e.v, db, cfg, ParamsOf(e), x, t); }
    forall x, y | x in ahead && y in ahead && x.id == y.id ensures x == y { OneSlot(e.v, db, cfg, ParamsOf(e), x, y); }
    InjectionSize(ahead, Block(t.id + 1, m - t.id - 1), (x: Ranked) => x.id);
  }

  // ----- what the round claims -----

  lemma OneRowEach(v: Variant, db: Jobs, cfg: Config, p: Params, held: set<nat>)
    requires Distinct(p.queues)
    ensures |LockedRows(Plan(v, db, cfg, p), Top(v, db, cfg, p), held)| <= |held|
  {
    var rows := LockedRows(Plan(v, db, cfg, p), Top(v, db, cfg, p), held);
    forall l, k | l in rows && k in rows && l.id == k.id ensures l == k { SameHeld(v, db, cfg, p, held, l, k); }
    InjectionSize(rows, held, (l: Locked) => l.id);
  }

  lemma SameHeld(v: Variant, db: Jobs, cfg: Config, p: Params, held: set<nat>, l: Locked, k: Locked)
    requires Distinct(p.queues) && l.id == k.id
    requires var rows := LockedRows(Plan(v, db, cfg, p), Top(v, db, cfg, p), held); l in rows && k in rows
    ensures l == k
  {
    var t, r :| t in Top(v, db, cfg, p) && r in Plan(v, db, cfg, p) && l == Locked(r.id, t.slot, r.slot, r.rank) && t.id == r.id;
    var u, s :| u in Top(v, db, cfg, p) && s in Plan(v, db, cfg, p) && k == Locked(s.id, u.slot, s.slot, s.rank) && u.id == s.id;
    OneSlot(v, db, cfg, p, t, u);
    OneSlot(v, db, cfg, p, r, s);
  }

  /** The tail claims all its rows when the limit and every cap have room for them. */
  lemma TailClaimsAll(db: Jobs, cfg: Config, limit: nat, ties: Ties, rows: set<Locked>)
    requires |rows| <= limit
    requires forall l | l in rows :: l.id in db &&
               var cap := Cap(cfg, db[l.id].actor); cap.None? || InFlight(db, db[l.id].actor) + |rows| <= cap.value
    ensures Eligible(db, cfg, limit, ties, rows) == rows
  {
    forall l | l in rows ensures GateOpen(db, cfg, db[l.id].actor) { SubsetSize({l}, rows); }
    assert EligibleCandidates(db, cfg, rows) == rows;
    forall l | l in rows ensures RankFits(db, cfg, ties, rows, l) {
      var mine := LockedOf(db, rows, db[l.id].actor);
      SubsetSize(mine, rows);
      ActorTotal(db, ties, mine);
      LimitOfFew(mine, ByActor(db, ties), |rows|);
    }
    assert Admitted(db, cfg, ties, rows) == rows;
    FinalTotal(db, ties, rows);
    LimitOfFew(rows, ByFinal(db, ties), limit);
  }

  lemma HeldRowsOf(v: Variant, db: Jobs, cfg: Config, p: Params, held: set<nat>)
    requires held <= TopIds(v, db, cfg, p)
    ensures (set l | l in LockedRows(Plan(v, db, cfg, p), Top(v, db, cfg, p), held) :: l.id) == held
  {
    forall id | id in held ensures exists l :: l in LockedRows(Plan(v, db, cfg, p), Top(v, db, cfg, p), held) && l.id == id {
      var t :| t in Top(v, db, cfg, p) && t.id == id;
      assert Locked(t.id, t.slot, t.slot, t.rank) in LockedRows(Plan(v, db, cfg, p), Top(v, db, cfg, p), held);
    }
  }

  /** A round that gets the locks of the latest rows claims exactly those. */
  lemma LatestClaimed(cfg: Config, e: Scene, db: Jobs, m: nat, d: nat, ties: Ties)
    requires Ready(cfg, e, db, m, d)
    ensures Claims(e.v, db, cfg, ParamsOf(e), Block(m, d), ties) == Block(m, d)
  {
    var p, own := ParamsOf(e), Block(m, d);
    var rows := LockedRows(Plan(e.v, db, cfg, p), Top(e.v, db, cfg, p), own);
    BlockIds(m, d);
    forall id | id in own ensures id in TopIds(e.v, db, cfg, p) { LatestIsTop(cfg, e, db, m, d, id); }
    OneRowEach(e.v, db, cfg, p, own);
    TailClaimsAll(db, cfg, p.limit, ties, rows);
    HeldRowsOf(e.v, db, cfg, p, own);
  }
}
