/**
  Priority inside one actor: with null identities and no contention, a claimed
  job leaves no strictly better due job of its actor behind, although each queue
  is only probed through a window, whenever the window is wide enough.
*/
module ClaimPriority {
  import opened Prelude
  import opened Ranking
  import opened Claim
  import opened ClaimSafety

  ghost predicate NullIdentities(db: Jobs) {
    forall id | id in db :: db[id].identity.None?
  }

  /** A job the round could have looked at. */
  predicate Claimable(db: Jobs, p: Params, actor: string, id: nat) {
    id in db && db[id].actor == actor && Due(db[id], p.now) && db[id].queue in p.queues
  }

  ghost predicate RespectsPriority(v: Variant, db: Jobs, cfg: Config, p: Params, ties: Ties, actor: string) {
    forall a, b | a in Uncontended(v, db, cfg, p, ties) && a in db && db[a].actor == actor &&
                  Claimable(db, p, actor, b) && Better(db[b], db[a])
      :: b in Uncontended(v, db, cfg, p, ties)
  }

  function Wide(v: Variant, db: Jobs, cfg: Config, p: Params, actor: string): nat {
    LateralLimit(v, Residual(db, cfg, p.limit, actor), p)
  }

  /** The window admits as many rows as the round can claim for the actor, or none. */
  predicate WideEnough(v: Variant, db: Jobs, cfg: Config, p: Params, actor: string) {
    || Wide(v, db, cfg, p, actor) == 0
    || Wide(v, db, cfg, p, actor) >= TopLimit(v, p)
    || (Cap(cfg, actor).Some? && Wide(v, db, cfg, p, actor) >= Residual(db, cfg, p.limit, actor))
  }

  lemma DedupKeepsNull(v: Variant, db: Jobs, cfg: Config, p: Params)
    requires NullIdentities(db)
    ensures IdentityDedup(db, Candidates(v, db, cfg, p)) == Candidates(v, db, cfg, p)
  {
  }

  /** In one actor's rows, sooner means a smaller rank. */
  lemma SoonerRank(db: Jobs, rows: set<Row>, x: Row, y: Row)
    requires x in rows && y in rows && x.id in db && y.id in db
    requires db[x.id].actor == db[y.id].actor && RowSooner(db, x, y)
    ensures WithRank(db, rows, x).rank < WithRank(db, rows, y).rank
  {
    var mine := OfActor(db, rows, db[x.id].actor);
    RowTotal(db, mine);
    RowNumberMonotone(mine, ByRow(db), x, y);
  }

  /** top_ids is closed under taking a sooner row of the same actor. */
  lemma TopClosed(v: Variant, db: Jobs, cfg: Config, p: Params, x: Row, t: Ranked)
    requires t in Top(v, db, cfg, p) && t.id in db
    requires x in IdentityDedup(db, Candidates(v, db, cfg, p)) && x.id in db
    requires db[x.id].actor == db[t.id].actor && RowSooner(db, x, Row(t.id, t.slot))
    ensures WithRank(db, IdentityDedup(db, Candidates(v, db, cfg, p)), x) in Top(v, db, cfg, p)
  {
    var rows := IdentityDedup(db, Candidates(v, db, cfg, p));
    SoonerRank(db, rows, x, Row(t.id, t.slot));
    TopTotal(db, Plan(v, db, cfg, p));
    LimitPrefix(Plan(v, db, cfg, p), ByTop(db), TopLimit(v, p), t, WithRank(db, rows, x));
  }

  /** A row in top_ids has a pending_rank within the limit. */
  lemma TopRankBound(v: Variant, db: Jobs, cfg: Config, p: Params, t: Ranked)
    requires t in Top(v, db, cfg, p)
    ensures t.rank <= TopLimit(v, p)
  {
    var rows := IdentityDedup(db, Candidates(v, db, cfg, p));
    var r := Row(t.id, t.slot);
    var ahead := Ahead(OfActor(db, rows, db[t.id].actor), ByRow(db), r);
    forall x | x in ahead ensures WithRank(db, rows, x) in Ahead(Plan(v, db, cfg, p), ByTop(db), t) {
      SoonerRank(db, rows, x, r);
    }
    InjectionSize(ahead, Ahead(Plan(v, db, cfg, p), ByTop(db), t),
                  (x: Row) => if x.id in db then WithRank(db, rows, x) else t);
  }

  /** The rows an uncontended round holds. */
  function AllLocked(v: Variant, db: Jobs, cfg: Config, p: Params): set<Locked> {
    LockedRows(Plan(v, db, cfg, p), Top(v, db, cfg, p), TopIds(v, db, cfg, p))
  }

  function AsLocked(w: Ranked): Locked {
    Locked(w.id, w.slot, w.slot, w.rank)
  }

  /** The planned rows that sort before a claimed one by (priority, scheduled_at) are held and sort before it. */
  lemma BetterRowIsAhead(v: Variant, db: Jobs, cfg: Config, p: Params, ties: Ties, x: Row, l: Locked)
    requires NullIdentities(db)
    requires l in EligibleCandidates(db, cfg, AllLocked(v, db, cfg, p))
    requires x in Candidates(v, db, cfg, p) && x.id in db
    requires db[x.id].actor == db[l.id].actor && Better(db[x.id], db[l.id])
    ensures var w := WithRank(db, Candidates(v, db, cfg, p), x);
            && w in Top(v, db, cfg, p) && w.rank < l.rank
            && AsLocked(w) in EligibleCandidates(db, cfg, AllLocked(v, db, cfg, p))
            && ActorSooner(db, ties.actor, AsLocked(w), l)
  {
    var rows := Candidates(v, db, cfg, p);
    DedupKeepsNull(v, db, cfg, p);
    var t :| t in Top(v, db, cfg, p) && t.id == l.id && t.slot == l.top;
    TopClosed(v, db, cfg, p, x, t);
    assert WithRank(db, rows, Row(l.id, l.slot)).rank == l.rank;
    SoonerRank(db, rows, x, Row(l.id, l.slot));
    assert WithRank(db, rows, x) in Plan(v, db, cfg, p);
  }

  /** A full window of rows better than a claimed one exceeds what the round can claim. */
  lemma FullWindow(v: Variant, db: Jobs, cfg: Config, p: Params, ties: Ties, kept: set<nat>, slot: nat, l: Locked)
    requires NullIdentities(db)
    requires l in Admitted(db, cfg, ties, AllLocked(v, db, cfg, p))
    requires WideEnough(v, db, cfg, p, db[l.id].actor) && Wide(v, db, cfg, p, db[l.id].actor) > 0
    requires forall x | x in kept :: x in db && Row(x, slot) in Candidates(v, db, cfg, p) &&
                                     db[x].actor == db[l.id].actor && Better(db[x], db[l.id])
    ensures |kept| < Wide(v, db, cfg, p, db[l.id].actor)
  {
    if Wide(v, db, cfg, p, db[l.id].actor) >= TopLimit(v, p) {
      FullWindowOutranks(v, db, cfg, p, kept, slot, l);
    } else {
      FullWindowFillsRoom(v, db, cfg, p, ties, kept, slot, l);
    }
  }

  /** The rows a window keeps instead of a dropped one are all better than anything the dropped one beats. */
  lemma KeptRowsAreBetter(v: Variant, db: Jobs, cfg: Config, p: Params, b: nat, slot: nat, worse: Job)
    requires b in db && 0 <= slot < |p.queues| && db[b].queue == p.queues[slot] && Due(db[b], p.now)
    requires db[b].actor in cfg && Residual(db, cfg, p.limit, db[b].actor) > 0 && Better(db[b], worse)
    requires b !in Window(v, db, cfg, p, db[b].actor, p.queues[slot])
    ensures var kept := Window(v, db, cfg, p, db[b].actor, p.queues[slot]);
            && |kept| == Wide(v, db, cfg, p, db[b].actor)
            && forall x | x in kept :: x in db && Row(x, slot) in Candidates(v, db, cfg, p) &&
                                       db[x].actor == db[b].actor && Better(db[x], worse)
  {
    var probe := Probe(db, p.now, db[b].actor, p.queues[slot]);
    PriorityTotal(db, probe);
    DroppedRow(probe, ByPriority(db), Wide(v, db, cfg, p, db[b].actor), b);
    forall x | x in Window(v, db, cfg, p, db[b].actor, p.queues[slot]) ensures Better(db[x], worse) {
      assert Sooner(db, x, b);
    }
  }

  /** A wide enough window never cuts off a job better than a claimed one. */
  lemma BetterJobInWindow(v: Variant, db: Jobs, cfg: Config, p: Params, ties: Ties, l: Locked, b: nat, slot: nat)
    requires NullIdentities(db)
    requires l in Admitted(db, cfg, ties, AllLocked(v, db, cfg, p))
    requires WideEnough(v, db, cfg, p, db[l.id].actor)
    requires Claimable(db, p, db[l.id].actor, b) && Better(db[b], db[l.id])
    requires 0 <= slot < |p.queues| && p.queues[slot] == db[b].queue
    ensures b in Window(v, db, cfg, p, db[b].actor, p.queues[slot])
  {
    DedupKeepsNull(v, db, cfg, p);
    assert Row(l.id, l.slot) in Candidates(v, db, cfg, p);
    WindowNotEmpty(v, db, cfg, p, l.id, l.slot);
    if b !in Window(v, db, cfg, p, db[b].actor, p.queues[slot]) {
      KeptRowsAreBetter(v, db, cfg, p, b, slot, db[l.id]);
      FullWindow(v, db, cfg, p, ties, Window(v, db, cfg, p, db[b].actor, p.queues[slot]), slot, l);
    }
  }

  lemma WindowNotEmpty(v: Variant, db: Jobs, cfg: Config, p: Params, id: nat, slot: nat)
    requires Row(id, slot) in Candidates(v, db, cfg, p)
    ensures id in db && db[id].actor in cfg && Residual(db, cfg, p.limit, db[id].actor) > 0 && Wide(v, db, cfg, p, db[id].actor) > 0
  {
  }

  /** So many better rows in one queue push the claimed row out of top_ids ... */
  lemma FullWindowOutranks(v: Variant, db: Jobs, cfg: Config, p: Params, kept: set<nat>, slot: nat, l: Locked)
    requires NullIdentities(db)
    requires l in EligibleCandidates(db, cfg, AllLocked(v, db, cfg, p))
    requires forall x | x in kept :: x in db && Row(x, slot) in Candidates(v, db, cfg, p) &&
                                     db[x].actor == db[l.id].actor && Better(db[x], db[l.id])
    ensures |kept| < TopLimit(v, p)
  {
    var rows := Candidates(v, db, cfg, p);
    DedupKeepsNull(v, db, cfg, p);
    var t :| t in Top(v, db, cfg, p) && t.id == l.id && t.slot == l.top;
    TopRankBound(v, db, cfg, p, t);
    assert t == WithRank(db, rows, Row(t.id, t.slot));
    BetterRowsRank(db, rows, kept, slot, Row(t.id, t.slot));
  }

  lemma BetterRowsRank(db: Jobs, rows: set<Row>, kept: set<nat>, slot: nat, r: Row)
    requires r in rows && r.id in db
    requires forall x | x in kept :: x in db && Row(x, slot) in rows && db[x].actor == db[r.id].actor && Better(db[x], db[r.id])
    ensures |kept| < WithRank(db, rows, r).rank
  {
    InjectionSize(kept, Ahead(OfActor(db, rows, db[r.id].actor), ByRow(db), r), (x: nat) => Row(x, slot));
  }

  /** ... or past the actor's remaining capacity. */
  lemma FullWindowFillsRoom(v: Variant, db: Jobs, cfg: Config, p: Params, ties: Ties, kept: set<nat>, slot: nat, l: Locked)
    requires NullIdentities(db)
    requires l in Admitted(db, cfg, ties, AllLocked(v, db, cfg, p))
    requires Cap(cfg, db[l.id].actor).Some?
    requires forall x | x in kept :: x in db && Row(x, slot) in Candidates(v, db, cfg, p) &&
                                     db[x].actor == db[l.id].actor && Better(db[x], db[l.id])
    ensures |kept| < Residual(db, cfg, p.limit, db[l.id].actor)
  {
    var rows := Candidates(v, db, cfg, p);
    var mine := LockedOf(db, EligibleCandidates(db, cfg, AllLocked(v, db, cfg, p)), db[l.id].actor);
    var ahead := Ahead(mine, ByActor(db, ties), l);
    forall x | x in kept ensures AsLocked(WithRank(db, rows, Row(x, slot))) in ahead {
      BetterRowIsAhead(v, db, cfg, p, ties, Row(x, slot), l);
    }
    HeldRowsCount(db, rows, kept, slot, ahead);
  }

  lemma HeldRowsCount(db: Jobs, rows: set<Row>, kept: set<nat>, slot: nat, ahead: set<Locked>)
    requires forall x | x in kept :: x in db && AsLocked(WithRank(db, rows, Row(x, slot))) in ahead
    ensures |kept| <= |ahead|
  {
    var ids := set k | k in ahead :: k.id;
    ImageSize(ahead, ids);
    forall x | x in kept ensures x in ids {
      assert AsLocked(WithRank(db, rows, Row(x, slot))).id == x;
    }
    SubsetSize(kept, ids);
  }

  lemma BetterRowIsClaimed(v: Variant, db: Jobs, cfg: Config, p: Params, ties: Ties, x: Row, l: Locked)
    requires NullIdentities(db)
    requires l in Eligible(db, cfg, p.limit, ties, AllLocked(v, db, cfg, p))
    requires x.id in db && 0 <= x.slot < |p.queues|
    requires x.id in Window(v, db, cfg, p, db[x.id].actor, p.queues[x.slot])
    requires db[x.id].actor == db[l.id].actor && Better(db[x.id], db[l.id])
    ensures x.id in Uncontended(v, db, cfg, p, ties)
  {
    var all := AllLocked(v, db, cfg, p);
    var ec := EligibleCandidates(db, cfg, all);
    DedupKeepsNull(v, db, cfg, p);
    assert Row(l.id, l.slot) in Candidates(v, db, cfg, p);
    assert x in Candidates(v, db, cfg, p);
    BetterRowIsAhead(v, db, cfg, p, ties, x, l);
    var k := AsLocked(WithRank(db, Candidates(v, db, cfg, p), x));
    var mine := LockedOf(db, ec, db[l.id].actor);
    ActorTotal(db, ties, mine);
    RowNumberMonotone(mine, ByActor(db, ties), k, l);
    assert k in Admitted(db, cfg, ties, all);
    FinalTotal(db, ties, Admitted(db, cfg, ties, all));
    LimitPrefix(Admitted(db, cfg, ties, all), ByFinal(db, ties), p.limit, l, k);
  }

  lemma BetterJobIsClaimed(v: Variant, db: Jobs, cfg: Config, p: Params, ties: Ties, a: nat, b: nat)
    requires NullIdentities(db) && a in db && WideEnough(v, db, cfg, p, db[a].actor)
    requires a in Uncontended(v, db, cfg, p, ties) && Claimable(db, p, db[a].actor, b) && Better(db[b], db[a])
    ensures b in Uncontended(v, db, cfg, p, ties)
  {
    var l :| l in Eligible(db, cfg, p.limit, ties, AllLocked(v, db, cfg, p)) && l.id == a;
    var slot :| 0 <= slot < |p.queues| && p.queues[slot] == db[b].queue;
    BetterJobInWindow(v, db, cfg, p, ties, l, b, slot);
    BetterRowIsClaimed(v, db, cfg, p, ties, Row(b, slot), l);
  }

  /** The main result: a wide enough window loses nothing to the per-queue cut. */
  lemma WideWindowRespectsPriority(v: Variant, db: Jobs, cfg: Config, p: Params, ties: Ties, actor: string)
    requires NullIdentities(db) && WideEnough(v, db, cfg, p, actor)
    ensures RespectsPriority(v, db, cfg, p, ties, actor)
  {
    forall a, b | a in Uncontended(v, db, cfg, p, ties) && a in db && db[a].actor == actor &&
                  Claimable(db, p, actor, b) && Better(db[b], db[a])
      ensures b in Uncontended(v, db, cfg, p, ties)
    {
      BetterJobIsClaimed(v, db, cfg, p, ties, a, b);
    }
  }

  /** The preamble's own window, and the literal one, are always wide enough. */
  lemma ProductWindowRespectsPriority(v: Variant, db: Jobs, cfg: Config, p: Params, ties: Ties, actor: string)
    requires NullIdentities(db) && !v.Rendered?
    ensures RespectsPriority(v, db, cfg, p, ties, actor)
  {
    var r := Residual(db, cfg, p.limit, actor);
    if v.AsWritten? && p.oversample > 0 {
      assert r * p.oversample >= r by { assert r * p.oversample == r + r * (p.oversample - 1); }
    }
    WideWindowRespectsPriority(v, db, cfg, p, ties, actor);
  }

  // ----- what a plan holds -----

  /** With distinct queues a job is planned through one slot only. */
  lemma OneSlot(v: Variant, db: Jobs, cfg: Config, p: Params, x: Ranked, y: Ranked)
    requires Distinct(p.queues) && x in Plan(v, db, cfg, p) && y in Plan(v, db, cfg, p) && x.id == y.id
    ensures x == y
  {
    assert Row(x.id, x.slot) in Candidates(v, db, cfg, p) && Row(y.id, y.slot) in Candidates(v, db, cfg, p);
    assert p.queues[x.slot] == db[x.id].queue == p.queues[y.slot];
  }

  /** ... so an uncontended round holds exactly the rows of top_ids. */
  lemma LockedAreTop(v: Variant, db: Jobs, cfg: Config, p: Params)
    requires Distinct(p.queues)
    ensures AllLocked(v, db, cfg, p) == set t | t in Top(v, db, cfg, p) :: AsLocked(t)
    ensures |AllLocked(v, db, cfg, p)| <= |Top(v, db, cfg, p)|
  {
    forall t, r | t in Top(v, db, cfg, p) && r in Plan(v, db, cfg, p) && t.id == r.id ensures t == r {
      OneSlot(v, db, cfg, p, t, r);
    }
    InjectionSize(AllLocked(v, db, cfg, p), Top(v, db, cfg, p), (l: Locked) => Ranked(l.id, l.slot, l.rank));
  }

  /** A planned row came through the window of its own queue. */
  lemma PlannedInWindow(v: Variant, db: Jobs, cfg: Config, p: Params, t: Ranked)
    requires t in Plan(v, db, cfg, p)
    ensures t.id in db && t.slot < |p.queues| && db[t.id].queue == p.queues[t.slot]
    ensures t.id in Window(v, db, cfg, p, db[t.id].actor, p.queues[t.slot])
  {
    assert Row(t.id, t.slot) in Candidates(v, db, cfg, p);
  }

  /** With distinct queues the plan has no more rows than ids. */
  lemma PlanSize(v: Variant, db: Jobs, cfg: Config, p: Params, ids: set<nat>)
    requires Distinct(p.queues) && forall t | t in Plan(v, db, cfg, p) :: t.id in ids
    ensures |Plan(v, db, cfg, p)| <= |ids|
  {
    var plan := Plan(v, db, cfg, p);
    forall x, y | x in plan && y in plan && x.id == y.id ensures x == y { OneSlot(v, db, cfg, p, x, y); }
    InjectionSize(plan, ids, (t: Ranked) => t.id);
  }

  lemma HeldIsPlanned(v: Variant, db: Jobs, cfg: Config, p: Params, l: Locked)
    requires l in AllLocked(v, db, cfg, p)
    ensures Ranked(l.id, l.slot, l.rank) in Plan(v, db, cfg, p)
  {
  }

  /** A window is closed under taking a sooner row of its queue. */
  lemma SoonerInWindow(v: Variant, db: Jobs, cfg: Config, p: Params, actor: string, queue: string, a: nat, b: nat)
    requires a in Window(v, db, cfg, p, actor, queue) && b in Probe(db, p.now, actor, queue) && Sooner(db, b, a)
    ensures b in Window(v, db, cfg, p, actor, queue)
  {
    var probe := Probe(db, p.now, actor, queue);
    PriorityTotal(db, probe);
    LimitPrefix(probe, ByPriority(db), Wide(v, db, cfg, p, actor), a, b);
  }
}
