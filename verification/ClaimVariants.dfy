/**
  When the rank-then-lock texts and the lock-first text claim the same set, which
  is the contract the depth spike checks for each of its variants.
*/
module ClaimVariants {
  import opened Prelude
  import opened Ranking
  import opened Claim
  import opened ClaimSafety
  import opened ClaimPriority

  /** The probe's state: every job belongs to one registered actor without a cap. */
  ghost predicate OneActor(db: Jobs, cfg: Config, actor: string) {
    actor in cfg && cfg[actor].None? && NullIdentities(db) && forall id | id in db :: db[id].actor == actor
  }

  /** The shared tail on rows ranked by priority, one per id, of uncapped actors: the first `limit` ids. */
  lemma UncappedTail(db: Jobs, cfg: Config, limit: nat, ties: Ties, rows: set<Locked>, ids: set<nat>)
    requires ids == set l | l in rows :: l.id
    requires forall l | l in rows :: l.id in db && Cap(cfg, db[l.id].actor).None?
    requires forall l, k | l in rows && k in rows && l.id == k.id :: l == k
    requires forall l, k | l in rows && k in rows :: l.rank < k.rank <==> Sooner(db, l.id, k.id)
    ensures EligibleIds(db, cfg, limit, ties, rows) == Limit(ids, ByPriority(db), limit)
  {
    assert Admitted(db, cfg, ties, rows) == rows;
    var f := (l: Locked) => l.id;
    forall l, k | l in rows && k in rows ensures FinalSooner(db, ties.final, l, k) <==> Sooner(db, l.id, k.id) {
      if l.rank == k.rank { assert l == k; }
    }
    assert Same(rows, ByFinal(db, ties), ids, ByPriority(db), f);
    SameCut(rows, ByFinal(db, ties), ids, ByPriority(db), f, limit);
  }

  /** The lock-first statement claims the first `limit` due rows nobody else has locked, whoever they belong to. */
  lemma LockFirstClaimsFree(db: Jobs, cfg: Config, p: Params, others: set<nat>, ties: Ties)
    requires p.oversample >= 1
    requires forall id | id in AllDue(db, p) :: Cap(cfg, db[id].actor).None?
    ensures LockFirst(db, cfg, p, others, ties) == Limit(AllDue(db, p) - others, ByPriority(db), p.limit)
  {
    var s := AllDue(db, p) - others;
    assert p.limit * p.oversample >= p.limit by { assert p.limit * p.oversample == p.limit + p.limit * (p.oversample - 1); }
    PriorityTotal(db, s);
    var raw := Limit(s, ByPriority(db), p.limit * p.oversample);
    var rows := LockFirstRows(db, p, others);
    PriorityTotal(db, raw);
    forall l, k | l in rows && k in rows ensures l.rank < k.rank <==> Sooner(db, l.id, k.id) {
      if Sooner(db, l.id, k.id) { RowNumberMonotone(raw, ByPriority(db), l.id, k.id); }
      if Sooner(db, k.id, l.id) { RowNumberMonotone(raw, ByPriority(db), k.id, l.id); }
    }
    assert raw == set l | l in rows :: l.id by {
      forall id | id in raw ensures exists l :: l in rows && l.id == id {
        assert Locked(id, 0, 0, RowNumber(raw, ByPriority(db), id)) in rows;
      }
    }
    UncappedTail(db, cfg, p.limit, ties, rows, raw);
    LimitOfWindow(s, raw, ByPriority(db), p.limit);
  }

  lemma LockFirstClaims(db: Jobs, cfg: Config, p: Params, ties: Ties)
    requires p.oversample >= 1
    requires forall id | id in AllDue(db, p) :: Cap(cfg, db[id].actor).None?
    ensures LockFirst(db, cfg, p, {}, ties) == Limit(AllDue(db, p), ByPriority(db), p.limit)
  {
    LockFirstClaimsFree(db, cfg, p, {}, ties);
    assert AllDue(db, p) - {} == AllDue(db, p);
  }

  /** The ids that survive the per-queue windows. */
  function Windowed(v: Variant, db: Jobs, cfg: Config, p: Params): set<nat> {
    set r | r in Candidates(v, db, cfg, p) :: r.id
  }

  /** For one actor, rank order is priority order. */
  lemma PlanOrder(v: Variant, db: Jobs, cfg: Config, p: Params, actor: string, x: Ranked, y: Ranked)
    requires OneActor(db, cfg, actor) && Distinct(p.queues) && x in Plan(v, db, cfg, p) && y in Plan(v, db, cfg, p)
    ensures x.rank < y.rank <==> Sooner(db, x.id, y.id)
    ensures TopSooner(db, x, y) <==> Sooner(db, x.id, y.id)
  {
    var rows := IdentityDedup(db, Candidates(v, db, cfg, p));
    if x.id == y.id {
      OneSlot(v, db, cfg, p, x, y);
    } else if Sooner(db, x.id, y.id) {
      SoonerRank(db, rows, Row(x.id, x.slot), Row(y.id, y.slot));
    } else {
      SoonerRank(db, rows, Row(y.id, y.slot), Row(x.id, x.slot));
    }
  }

  lemma PlanIds(v: Variant, db: Jobs, cfg: Config, p: Params)
    requires NullIdentities(db)
    ensures forall t | t in Plan(v, db, cfg, p) :: t.id in Windowed(v, db, cfg, p)
    ensures forall id | id in Windowed(v, db, cfg, p) :: exists t | t in Plan(v, db, cfg, p) :: t.id == id
  {
    DedupKeepsNull(v, db, cfg, p);
    forall id | id in Windowed(v, db, cfg, p) ensures exists t | t in Plan(v, db, cfg, p) :: t.id == id {
      var r :| r in Candidates(v, db, cfg, p) && r.id == id;
      assert WithRank(db, Candidates(v, db, cfg, p), r).id == id;
    }
  }

  /** Rows with one id each, ordered like their ids. */
  lemma CutById(db: Jobs, plan: set<Ranked>, ids: set<nat>, n: nat)
    requires forall t | t in plan :: t.id in ids
    requires forall id | id in ids :: exists t | t in plan :: t.id == id
    requires forall x, y | x in plan && y in plan :: x.id == y.id ==> x == y
    requires forall x, y | x in plan && y in plan :: TopSooner(db, x, y) <==> Sooner(db, x.id, y.id)
    ensures (set t | t in Limit(plan, ByTop(db), n) :: t.id) == Limit(ids, ByPriority(db), n)
  {
    var f := (t: Ranked) => t.id;
    assert Same(plan, ByTop(db), ids, ByPriority(db), f);
    SameCut(plan, ByTop(db), ids, ByPriority(db), f, n);
  }

  lemma PlanPair(v: Variant, db: Jobs, cfg: Config, p: Params, actor: string, x: Ranked, y: Ranked)
    requires OneActor(db, cfg, actor) && Distinct(p.queues) && x in Plan(v, db, cfg, p) && y in Plan(v, db, cfg, p)
    ensures (x.id == y.id ==> x == y) && (TopSooner(db, x, y) <==> Sooner(db, x.id, y.id))
  {
    PlanOrder(v, db, cfg, p, actor, x, y);
    if x.id == y.id { OneSlot(v, db, cfg, p, x, y); }
  }

  lemma PlanOrdered(v: Variant, db: Jobs, cfg: Config, p: Params, actor: string)
    requires OneActor(db, cfg, actor) && Distinct(p.queues)
    ensures forall x, y | x in Plan(v, db, cfg, p) && y in Plan(v, db, cfg, p) :: x.id == y.id ==> x == y
    ensures forall x, y | x in Plan(v, db, cfg, p) && y in Plan(v, db, cfg, p) :: TopSooner(db, x, y) <==> Sooner(db, x.id, y.id)
  {
    forall x, y | x in Plan(v, db, cfg, p) && y in Plan(v, db, cfg, p)
      ensures (x.id == y.id ==> x == y) && (TopSooner(db, x, y) <==> Sooner(db, x.id, y.id))
    {
      PlanPair(v, db, cfg, p, actor, x, y);
    }
  }

  lemma TopIdsAreFirst(v: Variant, db: Jobs, cfg: Config, p: Params, actor: string)
    requires OneActor(db, cfg, actor) && Distinct(p.queues)
    ensures TopIds(v, db, cfg, p) == Limit(Windowed(v, db, cfg, p), ByPriority(db), TopLimit(v, p))
  {
    PlanIds(v, db, cfg, p);
    PlanOrdered(v, db, cfg, p, actor);
    CutById(db, Plan(v, db, cfg, p), Windowed(v, db, cfg, p), TopLimit(v, p));
  }

  /** The images of the first n rows are the first n images. */
  lemma SameCut<A(!new)>(s: set<A>, lt: (A, A) -> bool, t: set<nat>, lu: (nat, nat) -> bool, f: A -> nat, n: nat)
    requires Same(s, lt, t, lu, f)
    ensures (set x | x in Limit(s, lt, n) :: f(x)) == Limit(t, lu, n)
  {
    forall x | x in s ensures x in Limit(s, lt, n) <==> f(x) in Limit(t, lu, n) {
      LimitOfSame(s, lt, t, lu, f, n, x);
    }
  }

  lemma LockedOrder(v: Variant, db: Jobs, cfg: Config, p: Params, actor: string, l: Locked, k: Locked)
    requires OneActor(db, cfg, actor) && Distinct(p.queues)
    requires l in AllLocked(v, db, cfg, p) && k in AllLocked(v, db, cfg, p)
    ensures l.id == k.id ==> l == k
    ensures l.rank < k.rank <==> Sooner(db, l.id, k.id)
  {
    LockedAreTop(v, db, cfg, p);
    var t :| t in Top(v, db, cfg, p) && AsLocked(t) == l;
    var u :| u in Top(v, db, cfg, p) && AsLocked(u) == k;
    PlanOrder(v, db, cfg, p, actor, t, u);
    if t.id == u.id { OneSlot(v, db, cfg, p, t, u); }
  }

  lemma LockedIds(v: Variant, db: Jobs, cfg: Config, p: Params)
    ensures TopIds(v, db, cfg, p) == set l | l in AllLocked(v, db, cfg, p) :: l.id
  {
    var all := AllLocked(v, db, cfg, p);
    var ids := set l | l in all :: l.id;
    forall id | id in TopIds(v, db, cfg, p) ensures id in ids {
      var t :| t in Top(v, db, cfg, p) && t.id == id;
      assert AsLocked(t) in all;
    }
    forall id | id in ids ensures id in TopIds(v, db, cfg, p) {
      var l :| l in all && l.id == id;
    }
  }

  lemma LockedInTable(v: Variant, db: Jobs, cfg: Config, p: Params, l: Locked)
    requires l in AllLocked(v, db, cfg, p)
    ensures l.id in db
  {
    assert Ranked(l.id, l.slot, l.rank) in Plan(v, db, cfg, p);
  }

  /** The rank-then-lock statement claims the first rows of what the windows let through, up to its smaller limit. */
  lemma RankThenLockClaims(v: Variant, db: Jobs, cfg: Config, p: Params, ties: Ties, actor: string)
    requires OneActor(db, cfg, actor) && Distinct(p.queues)
    ensures Uncontended(v, db, cfg, p, ties) ==
            Limit(Windowed(v, db, cfg, p), ByPriority(db), Min(TopLimit(v, p), p.limit))
  {
    var rows := AllLocked(v, db, cfg, p);
    var top := TopIds(v, db, cfg, p);
    LockedIds(v, db, cfg, p);
    forall l | l in rows ensures l.id in db { LockedInTable(v, db, cfg, p, l); }
    forall l, k | l in rows && k in rows
      ensures (l.id == k.id ==> l == k) && (l.rank < k.rank <==> Sooner(db, l.id, k.id))
    {
      LockedOrder(v, db, cfg, p, actor, l, k);
    }
    UncappedTail(db, cfg, p.limit, ties, rows, top);
    TopIdsAreFirst(v, db, cfg, p, actor);
    PriorityTotal(db, Windowed(v, db, cfg, p));
    LimitOfLimit(Windowed(v, db, cfg, p), ByPriority(db), TopLimit(v, p), p.limit);
  }

  /** One queue's part of the rows a full look at the backlog would claim. */
  function QueueShare(db: Jobs, p: Params, queue: string): set<nat> {
    set id | id in Limit(AllDue(db, p), ByPriority(db), p.limit) && db[id].queue == queue
  }

  /** The share is a prefix of the queue, so it passes the window exactly when it fits. */
  lemma ShareFitsWindow(db: Jobs, p: Params, actor: string, queue: string, w: nat)
    requires queue in p.queues && forall id | id in db :: db[id].actor == actor
    ensures QueueShare(db, p, queue) <= Limit(Probe(db, p.now, actor, queue), ByPriority(db), w)
            <==> |QueueShare(db, p, queue)| <= w
  {
    var probe := Probe(db, p.now, actor, queue);
    var share := QueueShare(db, p, queue);
    var due := AllDue(db, p);
    PriorityTotal(db, probe);
    PriorityTotal(db, due);
    LimitSize(probe, ByPriority(db), w);
    if |share| <= w {
      forall x | x in share ensures RowNumber(probe, ByPriority(db), x) <= w {
        forall y | y in Ahead(probe, ByPriority(db), x) ensures y in share - {x} {
          LimitPrefix(due, ByPriority(db), p.limit, x, y);
        }
        SubsetSize(Ahead(probe, ByPriority(db), x), share - {x});
      }
    } else if share <= Limit(probe, ByPriority(db), w) {
      SubsetSize(share, Limit(probe, ByPriority(db), w));
    }
  }

  /** What the windows would have to let through. */
  ghost predicate SharesFit(v: Variant, db: Jobs, cfg: Config, p: Params, actor: string) {
    forall q | q in p.queues :: |QueueShare(db, p, q)| <= Wide(v, db, cfg, p, actor)
  }

  lemma WindowedHoldsFirst(v: Variant, db: Jobs, cfg: Config, p: Params, actor: string)
    requires OneActor(db, cfg, actor) && p.limit > 0
    ensures Limit(AllDue(db, p), ByPriority(db), p.limit) <= Windowed(v, db, cfg, p) <==> SharesFit(v, db, cfg, p, actor)
  {
    var first := Limit(AllDue(db, p), ByPriority(db), p.limit);
    var w := Wide(v, db, cfg, p, actor);
    if first <= Windowed(v, db, cfg, p) {
      forall q | q in p.queues ensures |QueueShare(db, p, q)| <= w {
        ShareFitsWindow(db, p, actor, q, w);
        forall x | x in QueueShare(db, p, q) ensures x in Limit(Probe(db, p.now, actor, q), ByPriority(db), w) {
          var r :| r in Candidates(v, db, cfg, p) && r.id == x;
        }
      }
    }
    if SharesFit(v, db, cfg, p, actor) {
      forall x | x in first ensures x in Windowed(v, db, cfg, p) {
        var q := db[x].queue;
        ShareFitsWindow(db, p, actor, q, w);
        assert x in QueueShare(db, p, q);
        var slot :| 0 <= slot < |p.queues| && p.queues[slot] == q;
        assert Row(x, slot) in Candidates(v, db, cfg, p);
      }
    }
  }

  /** The cut that ranks the rows leaves room for everything the final one would take. */
  ghost predicate CutFits(v: Variant, db: Jobs, p: Params) {
    TopLimit(v, p) >= p.limit || |AllDue(db, p)| <= TopLimit(v, p)
  }

  /** A cut of the window that equals the cut of everything drops nothing the window had to hold. */
  lemma AgreeingCutFits<T>(due: set<T>, seen: set<T>, lt: (T, T) -> bool, top: nat, n: nat)
    requires StrictTotal(due, lt) && StrictTotal(seen, lt) && Limit(seen, lt, Min(top, n)) == Limit(due, lt, n)
    ensures Limit(due, lt, n) <= seen && (top >= n || |due| <= top)
  {
    LimitSize(due, lt, n);
    LimitSize(seen, lt, Min(top, n));
  }

  lemma FittingCutAgrees<T>(due: set<T>, seen: set<T>, lt: (T, T) -> bool, top: nat, n: nat)
    requires StrictTotal(due, lt) && Limit(due, lt, n) <= seen <= due && (top >= n || |due| <= top)
    ensures Limit(seen, lt, Min(top, n)) == Limit(due, lt, n)
  {
    if top >= n {
      LimitOfWindow(due, seen, lt, n);
    } else {
      WholeCutAgrees(due, seen, lt, top, n);
    }
  }

  lemma WholeCutAgrees<T>(due: set<T>, seen: set<T>, lt: (T, T) -> bool, top: nat, n: nat)
    requires StrictTotal(due, lt) && Limit(due, lt, n) <= seen <= due && |due| <= top <= n
    ensures Limit(seen, lt, top) == Limit(due, lt, n)
  {
    LimitOfFew(due, lt, n);
    assert seen == due;
    LimitOfFew(due, lt, top);
  }

  /**
    The two designs agree exactly when no subscribed queue holds more of the
    `limit` soonest rows than its window admits, and the ranking cut drops none.
  */
  lemma LockOrderAgreesIff(v: Variant, db: Jobs, cfg: Config, p: Params, ties: Ties, ties': Ties, actor: string)
    requires OneActor(db, cfg, actor) && Distinct(p.queues) && p.oversample >= 1
    ensures Uncontended(v, db, cfg, p, ties) == LockFirst(db, cfg, p, {}, ties')
            <==> SharesFit(v, db, cfg, p, actor) && CutFits(v, db, p)
  {
    var due := AllDue(db, p);
    var seen := Windowed(v, db, cfg, p);
    RankThenLockClaims(v, db, cfg, p, ties, actor);
    LockFirstClaims(db, cfg, p, ties');
    PriorityTotal(db, due);
    WindowedAreDue(v, db, cfg, p);
    PriorityTotal(db, seen);
    if Uncontended(v, db, cfg, p, ties) == LockFirst(db, cfg, p, {}, ties') {
      AgreeingCutFits(due, seen, ByPriority(db), TopLimit(v, p), p.limit);
    }
    if p.limit > 0 {
      WindowedHoldsFirst(v, db, cfg, p, actor);
      if SharesFit(v, db, cfg, p, actor) && CutFits(v, db, p) {
        FittingCutAgrees(due, seen, ByPriority(db), TopLimit(v, p), p.limit);
      }
    } else {
      LimitSize(due, ByPriority(db), 0);
      assert SharesFit(v, db, cfg, p, actor) by {
        forall q | q in p.queues ensures QueueShare(db, p, q) == {} {}
      }
    }
  }

  lemma WindowedAreDue(v: Variant, db: Jobs, cfg: Config, p: Params)
    ensures Windowed(v, db, cfg, p) <= AllDue(db, p)
  {
  }

  /** The preamble's window always fits, and so does the literal one at its own limit. */
  lemma WrittenAgreesWithLockFirst(v: Variant, db: Jobs, cfg: Config, p: Params, ties: Ties, ties': Ties, actor: string)
    requires OneActor(db, cfg, actor) && Distinct(p.queues) && p.oversample >= 1
    requires v.AsWritten? || (v.Literal? && p.limit == LITERAL_TOP)
    ensures Uncontended(v, db, cfg, p, ties) == LockFirst(db, cfg, p, {}, ties')
  {
    WindowReachesLimit(v, db, cfg, p, actor);
    forall q | q in p.queues ensures |QueueShare(db, p, q)| <= Wide(v, db, cfg, p, actor) { ShareWithinLimit(db, p, q); }
    LockOrderAgreesIff(v, db, cfg, p, ties, ties', actor);
  }

  lemma WindowReachesLimit(v: Variant, db: Jobs, cfg: Config, p: Params, actor: string)
    requires Cap(cfg, actor).None? && p.oversample >= 1
    requires v.AsWritten? || (v.Literal? && p.limit == LITERAL_TOP)
    ensures Wide(v, db, cfg, p, actor) >= p.limit
  {
    assert p.limit * p.oversample == p.limit + p.limit * (p.oversample - 1);
  }

  lemma ShareWithinLimit(db: Jobs, p: Params, queue: string)
    ensures |QueueShare(db, p, queue)| <= p.limit
  {
    PriorityTotal(db, AllDue(db, p));
    LimitSize(AllDue(db, p), ByPriority(db), p.limit);
    SubsetSize(QueueShare(db, p, queue), Limit(AllDue(db, p), ByPriority(db), p.limit));
  }

  /** At limit 50 and oversample 2 the literal bounds change nothing when no actor has a cap. */
  lemma LiteralMatchesWritten(db: Jobs, cfg: Config, p: Params, held: set<nat>, ties: Ties)
    requires p.limit == 50 && p.oversample == 2 && forall a | a in cfg :: cfg[a].None?
    ensures Claims(Literal, db, cfg, p, held, ties) == Claims(AsWritten, db, cfg, p, held, ties)
  {
    assert Candidates(Literal, db, cfg, p) == Candidates(AsWritten, db, cfg, p);
  }

  /** As rendered, the statement matches its literal form only when no queue's share outgrows the oversample. */
  lemma LiteralMatchesRenderedIff(db: Jobs, cfg: Config, p: Params, ties: Ties, ties': Ties, actor: string)
    requires OneActor(db, cfg, actor) && Distinct(p.queues) && p.limit == LITERAL_TOP && p.oversample >= 1
    ensures Uncontended(Literal, db, cfg, p, ties) == Uncontended(Rendered, db, cfg, p, ties')
            <==> forall q | q in p.queues :: |QueueShare(db, p, q)| <= p.oversample
  {
    WrittenAgreesWithLockFirst(Literal, db, cfg, p, ties, ties, actor);
    LockOrderAgreesIff(Rendered, db, cfg, p, ties', ties, actor);
  }

  /** The spike's own parameters: one queue, limit 50, oversample 2, a deep backlog. */
  lemma SpikeRound(db: Jobs, cfg: Config, p: Params, ties: Ties, actor: string)
    requires OneActor(db, cfg, actor) && |p.queues| == 1 && p.limit == 50 && p.oversample == 2
    requires |AllDue(db, p)| >= 50
    ensures |LockFirst(db, cfg, p, {}, ties)| == 50
    ensures |Uncontended(Literal, db, cfg, p, ties)| == 50
    ensures |Uncontended(Rendered, db, cfg, p, ties)| == 2
  {
    var due := AllDue(db, p);
    PriorityTotal(db, due);
    LockFirstClaims(db, cfg, p, ties);
    LimitSize(due, ByPriority(db), 50);
    WrittenAgreesWithLockFirst(Literal, db, cfg, p, ties, ties, actor);
    RenderedSpikeRound(db, cfg, p, ties, actor);
  }

  /** In one queue the rendered window admits `oversample` rows, and that is the whole round. */
  lemma RenderedSpikeRound(db: Jobs, cfg: Config, p: Params, ties: Ties, actor: string)
    requires OneActor(db, cfg, actor) && |p.queues| == 1 && p.oversample <= p.limit && p.oversample <= |AllDue(db, p)|
    ensures |Uncontended(Rendered, db, cfg, p, ties)| == p.oversample
  {
    var due := AllDue(db, p);
    var seen := Windowed(Rendered, db, cfg, p);
    RankThenLockClaims(Rendered, db, cfg, p, ties, actor);
    PriorityTotal(db, due);
    LimitSize(due, ByPriority(db), p.oversample);
    OneQueueWindow(db, cfg, p, actor);
    PriorityTotal(db, seen);
    LimitOfFew(seen, ByPriority(db), p.limit);
  }

  lemma OneQueueWindow(db: Jobs, cfg: Config, p: Params, actor: string)
    requires OneActor(db, cfg, actor) && |p.queues| == 1 && p.oversample <= p.limit
    ensures Windowed(Rendered, db, cfg, p) == Limit(AllDue(db, p), ByPriority(db), p.oversample)
  {
    var due := AllDue(db, p);
    assert Probe(db, p.now, actor, p.queues[0]) == due;
    forall x | x in Limit(due, ByPriority(db), p.oversample) ensures x in Windowed(Rendered, db, cfg, p) {
      assert Row(x, 0) in Candidates(Rendered, db, cfg, p);
    }
  }

  // ----- lock-first and identities -----

  /** No two of the ids share an identity. */
  ghost predicate TwinFree(db: Jobs, ids: set<nat>) {
    forall a, b | a in ids && b in ids && SameIdentity(db, a, b) :: a == b
  }

  /** ... and none shares one with a row that is running already. */
  ghost predicate KeepsIdentities(db: Jobs, ids: set<nat>) {
    TwinFree(db, ids) && forall a, b | a in ids && b in db && SameIdentity(db, a, b) :: db[b].status != Running
  }

  /** What every rank-then-lock round does and the lock-first text is said to do after its locks. */
  lemma RankThenLockKeepsIdentities(v: Variant, db: Jobs, cfg: Config, p: Params, held: set<nat>, ties: Ties)
    ensures KeepsIdentities(db, Claims(v, db, cfg, p, held, ties))
  {
    var claims := Claims(v, db, cfg, p, held, ties);
    forall a, b | a in claims && SameIdentity(db, a, b)
      ensures (b in claims ==> a == b) && b in db && db[b].status != Running
    {
      ClaimsOneIdentity(v, db, cfg, p, held, ties, a, b);
    }
  }

  /** On a given backlog of uncapped actors: exactly when the first `limit` due rows happen to keep them. */
  lemma LockFirstKeepsIdentitiesIff(db: Jobs, cfg: Config, p: Params, ties: Ties)
    requires p.oversample >= 1
    requires forall id | id in AllDue(db, p) :: Cap(cfg, db[id].actor).None?
    ensures KeepsIdentities(db, LockFirst(db, cfg, p, {}, ties)) <==>
            KeepsIdentities(db, Limit(AllDue(db, p), ByPriority(db), p.limit))
    ensures TwinFree(db, LockFirst(db, cfg, p, {}, ties)) <==> TwinFree(db, Limit(AllDue(db, p), ByPriority(db), p.limit))
  {
    LockFirstClaims(db, cfg, p, ties);
  }

  /** So it starts twins among the first `limit` due rows, which no rank-then-lock round claims together. */
  lemma LockFirstClaimsTwins(db: Jobs, cfg: Config, p: Params, ties: Ties, a: nat, b: nat)
    requires p.oversample >= 1
    requires forall id | id in AllDue(db, p) :: Cap(cfg, db[id].actor).None?
    requires a != b && {a, b} <= Limit(AllDue(db, p), ByPriority(db), p.limit) && SameIdentity(db, a, b)
    ensures {a, b} <= LockFirst(db, cfg, p, {}, ties)
    ensures forall v, held, ties' :: !({a, b} <= Claims(v, db, cfg, p, held, ties'))
  {
    LockFirstClaims(db, cfg, p, ties);
    forall v, held, ties' ensures !({a, b} <= Claims(v, db, cfg, p, held, ties')) {
      if a in Claims(v, db, cfg, p, held, ties') { ClaimsOneIdentity(v, db, cfg, p, held, ties', a, b); }
    }
  }

  ghost predicate AlwaysTwinFree(cfg: Config, p: Params) {
    forall db: Jobs, others: set<nat>, ties: Ties :: TwinFree(db, LockFirst(db, cfg, p, others, ties))
  }

  ghost predicate AlwaysKeepsIdentities(cfg: Config, p: Params) {
    forall db: Jobs, others: set<nat>, ties: Ties :: KeepsIdentities(db, LockFirst(db, cfg, p, others, ties))
  }

  /** The round cannot claim anything. */
  predicate ClaimsNothing(p: Params) {
    p.limit == 0 || p.oversample == 0 || p.queues == []
  }

  /** The lock-first text never starts two jobs of one identity exactly when it never claims two jobs. */
  lemma LockFirstTwinFreeIff(cfg: Config, p: Params)
    ensures AlwaysTwinFree(cfg, p) <==> p.limit == 1 || ClaimsNothing(p)
  {
    if p.limit == 1 || ClaimsNothing(p) {
      forall db: Jobs, others: set<nat>, ties: Ties ensures TwinFree(db, LockFirst(db, cfg, p, others, ties)) {
        FewClaims(db, cfg, p, others, ties);
      }
    } else {
      var db := TwinsClaimed(cfg, p, Pending);
      var ties := Ties((l: Locked) => 0, (l: Locked) => 0);
      assert !TwinFree(db, LockFirst(db, cfg, p, {}, ties));
    }
  }

  /** It never starts a job beside a running one of its identity exactly when it never claims. */
  lemma LockFirstAlwaysKeepsIdentitiesIff(cfg: Config, p: Params)
    ensures AlwaysKeepsIdentities(cfg, p) <==> ClaimsNothing(p)
  {
    if ClaimsNothing(p) {
      forall db: Jobs, others: set<nat>, ties: Ties ensures KeepsIdentities(db, LockFirst(db, cfg, p, others, ties)) {
        FewClaims(db, cfg, p, others, ties);
      }
    } else {
      var db := TwinsClaimed(cfg, p, Running);
      var ties := Ties((l: Locked) => 0, (l: Locked) => 0);
      assert SameIdentity(db, 0, 1);
      assert !KeepsIdentities(db, LockFirst(db, cfg, p, {}, ties));
    }
  }

  lemma FewClaims(db: Jobs, cfg: Config, p: Params, others: set<nat>, ties: Ties)
    requires p.limit == 1 || ClaimsNothing(p)
    ensures TwinFree(db, LockFirst(db, cfg, p, others, ties))
    ensures ClaimsNothing(p) ==> LockFirst(db, cfg, p, others, ties) == {}
  {
    var claims := LockFirst(db, cfg, p, others, ties);
    if p.limit <= 1 {
      ClaimsWithinLimit(db, cfg, p.limit, ties, LockFirstRows(db, p, others));
      forall a, b | a in claims && b in claims ensures a == b { SubsetSize({a, b}, claims); }
    }
    if p.limit == 0 || p.oversample == 0 {
      assert p.limit * p.oversample == 0;
      PriorityTotal(db, AllDue(db, p) - others);
      LimitSize(AllDue(db, p) - others, ByPriority(db), 0);
    }
  }

  /** A string longer than every one of a finite set. */
  lemma {:induction false} LongerName(names: set<string>) returns (n: nat)
    ensures forall s | s in names :: |s| < n
    decreases |names|
  {
    if names == {} {
      n := 0;
    } else {
      var s :| s in names;
      n := LongerName(names - {s});
      if n <= |s| { n := |s| + 1; }
    }
  }

  /** Two jobs of one identity, the first due, of an actor nobody registered, hence uncapped. */
  function Twins(actor: string, p: Params, second: Status): Jobs
    requires p.queues != []
  {
    map[0 := Job(actor, p.queues[0], Some("k"), 0, p.now, None, Pending, 0),
        1 := Job(actor, p.queues[0], Some("k"), 0, p.now, None, second, 0)]
  }

  lemma TwinsClaimed(cfg: Config, p: Params, second: Status) returns (db: Jobs)
    requires !ClaimsNothing(p) && (second == Running || (second == Pending && p.limit >= 2))
    ensures db.Keys == {0, 1} && SameIdentity(db, 0, 1) && db[1].status == second
    ensures forall ties :: 0 in LockFirst(db, cfg, p, {}, ties) && (second == Pending ==> 1 in LockFirst(db, cfg, p, {}, ties))
  {
    var n := LongerName(cfg.Keys);
    var actor := seq(n, _ => 'x');
    assert actor !in cfg;
    db := Twins(actor, p, second);
    var due := AllDue(db, p);
    assert due == if second == Pending then {0, 1} else {0};
    PriorityTotal(db, due);
    LimitOfFew(due, ByPriority(db), p.limit);
    forall ties ensures 0 in LockFirst(db, cfg, p, {}, ties) && (second == Pending ==> 1 in LockFirst(db, cfg, p, {}, ties)) {
      LockFirstClaims(db, cfg, p, ties);
    }
  }
}
