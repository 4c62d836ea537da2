/** How one uncontended round shares its limit between actors. */
module ClaimFairness {
  import opened Prelude
  import opened Ranking
  import opened Claim
  import opened ClaimSafety
  import opened ClaimPriority

  /** The deduplicated candidates of one actor. */
  function Offered(v: Variant, db: Jobs, cfg: Config, p: Params, actor: string): set<Row> {
    OfActor(db, IdentityDedup(db, Candidates(v, db, cfg, p)), actor)
  }

  /** Those of them that made it into top_ids. */
  function Reached(v: Variant, db: Jobs, cfg: Config, p: Params, actor: string): set<Row> {
    set r | r in Offered(v, db, cfg, p, actor) && r.id in db &&
            WithRank(db, IdentityDedup(db, Candidates(v, db, cfg, p)), r) in Top(v, db, cfg, p)
  }

  function ClaimedOf(v: Variant, db: Jobs, cfg: Config, p: Params, ties: Ties, actor: string): set<nat> {
    IdsOf(db, Uncontended(v, db, cfg, p, ties), actor)
  }

  /** The rows held for an actor are its reached rows. */
  lemma HeldCount(v: Variant, db: Jobs, cfg: Config, p: Params, actor: string)
    requires Distinct(p.queues)
    ensures |LockedOf(db, AllLocked(v, db, cfg, p), actor)| == |Reached(v, db, cfg, p, actor)|
  {
    var rows := IdentityDedup(db, Candidates(v, db, cfg, p));
    var held := LockedOf(db, AllLocked(v, db, cfg, p), actor);
    var reached := Reached(v, db, cfg, p, actor);
    LockedAreTop(v, db, cfg, p);
    var back := (l: Locked) => Row(l.id, l.slot);
    forall l | l in held ensures back(l) in reached {
      var t :| t in Top(v, db, cfg, p) && AsLocked(t) == l;
      assert t == WithRank(db, rows, Row(t.id, t.slot));
    }
    forall r | r in reached ensures exists l | l in held :: back(l) == r {
      var l := AsLocked(WithRank(db, rows, r));
      assert l in held && back(l) == r;
    }
    forall l, k | l in held && k in held && back(l) == back(k) ensures l == k {
      var t :| t in Top(v, db, cfg, p) && AsLocked(t) == l;
      var u :| u in Top(v, db, cfg, p) && AsLocked(u) == k;
      OneSlot(v, db, cfg, p, t, u);
    }
    InjectionSize(held, reached, back);
    SurjectionSize(held, reached, back);
  }

  lemma OneRowPerId(v: Variant, db: Jobs, cfg: Config, p: Params, l: Locked, k: Locked)
    requires Distinct(p.queues) && l in AllLocked(v, db, cfg, p) && k in AllLocked(v, db, cfg, p) && l.id == k.id
    ensures l == k
  {
    LockedAreTop(v, db, cfg, p);
    var t :| t in Top(v, db, cfg, p) && AsLocked(t) == l;
    var u :| u in Top(v, db, cfg, p) && AsLocked(u) == k;
    OneSlot(v, db, cfg, p, t, u);
  }

  /** What an actor is due: its reached rows, cut at its remaining capacity. */
  function DueShare(v: Variant, db: Jobs, cfg: Config, p: Params, actor: string): nat {
    var reached, room := |Reached(v, db, cfg, p, actor)|, Residual(db, cfg, p.limit, actor);
    if Cap(cfg, actor).Some? && room < reached then room else reached
  }

  /** The rows an uncontended round admits before its final LIMIT. */
  function AdmittedRows(v: Variant, db: Jobs, cfg: Config, p: Params, ties: Ties): set<Locked> {
    Admitted(db, cfg, ties, AllLocked(v, db, cfg, p))
  }

  lemma AdmittedShare(v: Variant, db: Jobs, cfg: Config, p: Params, ties: Ties, actor: string)
    requires Distinct(p.queues)
    ensures |LockedOf(db, AdmittedRows(v, db, cfg, p, ties), actor)| == DueShare(v, db, cfg, p, actor)
  {
    HeldCount(v, db, cfg, p, actor);
    GateOpenForHeld(v, db, cfg, p, actor);
    AdmittedCount(db, cfg, p.limit, ties, AllLocked(v, db, cfg, p), actor);
  }

  lemma ClaimedCount(v: Variant, db: Jobs, cfg: Config, p: Params, ties: Ties, actor: string)
    requires Distinct(p.queues)
    ensures |ClaimedOf(v, db, cfg, p, ties, actor)| ==
            |LockedOf(db, Eligible(db, cfg, p.limit, ties, AllLocked(v, db, cfg, p)), actor)|
  {
    var all := AllLocked(v, db, cfg, p);
    forall l, k | l in all && k in all && l.id == k.id ensures l == k {
      OneRowPerId(v, db, cfg, p, l, k);
    }
    CountIds(db, all, Eligible(db, cfg, p.limit, ties, all), actor);
  }

  /** No actor gets more than its share. */
  lemma Share(v: Variant, db: Jobs, cfg: Config, p: Params, ties: Ties, actor: string)
    requires Distinct(p.queues)
    ensures |ClaimedOf(v, db, cfg, p, ties, actor)| <= DueShare(v, db, cfg, p, actor)
    ensures |AdmittedRows(v, db, cfg, p, ties)| <= p.limit ==>
            |ClaimedOf(v, db, cfg, p, ties, actor)| == DueShare(v, db, cfg, p, actor)
  {
    var all := AllLocked(v, db, cfg, p);
    var admitted := AdmittedRows(v, db, cfg, p, ties);
    AdmittedShare(v, db, cfg, p, ties, actor);
    ClaimedCount(v, db, cfg, p, ties, actor);
    SubsetSize(LockedOf(db, Eligible(db, cfg, p.limit, ties, all), actor), LockedOf(db, admitted, actor));
    if |admitted| <= p.limit {
      FinalTotal(db, ties, admitted);
      LimitOfFew(admitted, ByFinal(db, ties), p.limit);
    }
  }

  /** Every actor gets its whole share exactly when the admitted rows fit the limit. */
  lemma SharesIff(v: Variant, db: Jobs, cfg: Config, p: Params, ties: Ties)
    requires Distinct(p.queues)
    ensures (forall actor :: |ClaimedOf(v, db, cfg, p, ties, actor)| == DueShare(v, db, cfg, p, actor))
            <==> |AdmittedRows(v, db, cfg, p, ties)| <= p.limit
  {
    if |AdmittedRows(v, db, cfg, p, ties)| <= p.limit {
      forall actor ensures |ClaimedOf(v, db, cfg, p, ties, actor)| == DueShare(v, db, cfg, p, actor) {
        Share(v, db, cfg, p, ties, actor);
      }
    } else {
      var l := CutRow(v, db, cfg, p, ties);
      ShortChanged(v, db, cfg, p, ties, l);
    }
  }

  lemma CutRow(v: Variant, db: Jobs, cfg: Config, p: Params, ties: Ties) returns (l: Locked)
    requires |AdmittedRows(v, db, cfg, p, ties)| > p.limit
    ensures l in AdmittedRows(v, db, cfg, p, ties) && l !in Eligible(db, cfg, p.limit, ties, AllLocked(v, db, cfg, p))
  {
    var admitted := AdmittedRows(v, db, cfg, p, ties);
    var eligible := Eligible(db, cfg, p.limit, ties, AllLocked(v, db, cfg, p));
    FinalTotal(db, ties, admitted);
    LimitSize(admitted, ByFinal(db, ties), p.limit);
    if admitted <= eligible { SubsetSize(admitted, eligible); }
    l :| l in admitted && l !in eligible;
  }

  /** The actor of a row the final LIMIT cuts gets less than its share. */
  lemma ShortChanged(v: Variant, db: Jobs, cfg: Config, p: Params, ties: Ties, l: Locked)
    requires Distinct(p.queues)
    requires l in AdmittedRows(v, db, cfg, p, ties) && l !in Eligible(db, cfg, p.limit, ties, AllLocked(v, db, cfg, p))
    ensures |ClaimedOf(v, db, cfg, p, ties, db[l.id].actor)| < DueShare(v, db, cfg, p, db[l.id].actor)
  {
    var actor := db[l.id].actor;
    var mine := LockedOf(db, AdmittedRows(v, db, cfg, p, ties), actor);
    var kept := LockedOf(db, Eligible(db, cfg, p.limit, ties, AllLocked(v, db, cfg, p)), actor);
    AdmittedShare(v, db, cfg, p, ties, actor);
    ClaimedCount(v, db, cfg, p, ties, actor);
    SubsetSize(kept, mine);
    assert l in mine && l !in kept;
  }

  lemma CountIds(db: Jobs, all: set<Locked>, rows: set<Locked>, actor: string)
    requires rows <= all && forall l, k | l in all && k in all && l.id == k.id :: l == k
    ensures |IdsOf(db, set l | l in rows :: l.id, actor)| == |LockedOf(db, rows, actor)|
  {
    var mine := LockedOf(db, rows, actor);
    var ids := IdsOf(db, set l | l in rows :: l.id, actor);
    var f := (l: Locked) => l.id;
    forall id | id in ids ensures exists l | l in mine :: f(l) == id {
      var l :| l in rows && l.id == id;
      assert l in mine && f(l) == id;
    }
    InjectionSize(mine, ids, f);
    SurjectionSize(mine, ids, f);
  }

  lemma FewHeld(v: Variant, db: Jobs, cfg: Config, p: Params, ties: Ties)
    requires Distinct(p.queues)
    ensures |AdmittedRows(v, db, cfg, p, ties)| <= |AllLocked(v, db, cfg, p)| <= TopLimit(v, p)
  {
    LockedAreTop(v, db, cfg, p);
    TopTotal(db, Plan(v, db, cfg, p));
    LimitSize(Plan(v, db, cfg, p), ByTop(db), TopLimit(v, p));
    SubsetSize(AdmittedRows(v, db, cfg, p, ties), AllLocked(v, db, cfg, p));
  }

  lemma GateOpenForHeld(v: Variant, db: Jobs, cfg: Config, p: Params, actor: string)
    ensures LockedOf(db, AllLocked(v, db, cfg, p), actor) == {} || GateOpen(db, cfg, actor)
  {
    if l :| l in LockedOf(db, AllLocked(v, db, cfg, p), actor) {
      assert Row(l.id, l.slot) in Candidates(v, db, cfg, p);
    }
  }

  lemma AdmittedOf(db: Jobs, cfg: Config, ties: Ties, rows: set<Locked>, actor: string)
    requires GateOpen(db, cfg, actor)
    ensures LockedOf(db, Admitted(db, cfg, ties, rows), actor) ==
            match Cap(cfg, actor)
            case None => LockedOf(db, rows, actor)
            case Some(cap) => Limit(LockedOf(db, rows, actor), ByActor(db, ties), cap - InFlight(db, actor))
  {
    assert LockedOf(db, EligibleCandidates(db, cfg, rows), actor) == LockedOf(db, rows, actor);
  }

  lemma AdmittedCount(db: Jobs, cfg: Config, limit: nat, ties: Ties, rows: set<Locked>, actor: string)
    requires LockedOf(db, rows, actor) == {} || GateOpen(db, cfg, actor)
    ensures var held := |LockedOf(db, rows, actor)|;
            var room := Residual(db, cfg, limit, actor);
            |LockedOf(db, Admitted(db, cfg, ties, rows), actor)| == if Cap(cfg, actor).Some? && room < held then room else held
  {
    var held := LockedOf(db, rows, actor);
    if held == {} {
      assert LockedOf(db, Admitted(db, cfg, ties, rows), actor) <= held;
    } else {
      AdmittedOf(db, cfg, ties, rows, actor);
      ActorTotal(db, ties, held);
      LimitSize(held, ByActor(db, ties), Residual(db, cfg, limit, actor));
    }
  }

  /** A row of rank k in top_ids brings every row of smaller rank with it. */
  lemma LowerRanksReached(v: Variant, db: Jobs, cfg: Config, p: Params, r: Row, actor: string, k: nat)
    requires r.id in db && r in Reached(v, db, cfg, p, db[r.id].actor)
    requires WithRank(db, IdentityDedup(db, Candidates(v, db, cfg, p)), r).rank > k
    ensures Limit(Offered(v, db, cfg, p, actor), ByRow(db), k) <= Reached(v, db, cfg, p, actor)
  {
    var rows := IdentityDedup(db, Candidates(v, db, cfg, p));
    forall x | x in Limit(Offered(v, db, cfg, p, actor), ByRow(db), k) ensures x in Reached(v, db, cfg, p, actor) {
      TopTotal(db, Plan(v, db, cfg, p));
      LimitPrefix(Plan(v, db, cfg, p), ByTop(db), TopLimit(v, p), WithRank(db, rows, r), WithRank(db, rows, x));
    }
  }

  /** Two actors: the second trails by two or more only with nothing left to offer or no capacity left. */
  ghost predicate Fair(v: Variant, db: Jobs, cfg: Config, p: Params, ties: Ties, a: string, b: string) {
    |ClaimedOf(v, db, cfg, p, ties, b)| < |ClaimedOf(v, db, cfg, p, ties, a)| - 1 ==>
      || |ClaimedOf(v, db, cfg, p, ties, b)| == |Offered(v, db, cfg, p, b)|
      || (Cap(cfg, b).Some? && |ClaimedOf(v, db, cfg, p, ties, b)| == Residual(db, cfg, p.limit, b))
  }

  /** An actor with more than k reached rows pulls k of every other actor's rows into top_ids. */
  lemma ReachedBeyond(v: Variant, db: Jobs, cfg: Config, p: Params, a: string, b: string, k: nat)
    requires |Reached(v, db, cfg, p, a)| > k
    ensures |Reached(v, db, cfg, p, b)| >= k || Reached(v, db, cfg, p, b) == Offered(v, db, cfg, p, b)
  {
    var offered := Offered(v, db, cfg, p, a);
    var reached := Reached(v, db, cfg, p, a);
    RowTotal(db, offered);
    LimitSize(offered, ByRow(db), k);
    assert exists r :: r in reached && r !in Limit(offered, ByRow(db), k) by {
      if reached <= Limit(offered, ByRow(db), k) { SubsetSize(reached, Limit(offered, ByRow(db), k)); }
    }
    var r :| r in reached && r !in Limit(offered, ByRow(db), k);
    LowerRanksReached(v, db, cfg, p, r, b, k);
    var others := Offered(v, db, cfg, p, b);
    RowTotal(db, others);
    LimitSize(others, ByRow(db), k);
    SubsetSize(Limit(others, ByRow(db), k), Reached(v, db, cfg, p, b));
    SubsetSize(Reached(v, db, cfg, p, b), others);
  }

  /** Fairness when the final LIMIT cuts nothing. */
  lemma FairWhenUncut(v: Variant, db: Jobs, cfg: Config, p: Params, ties: Ties, a: string, b: string)
    requires Distinct(p.queues) && |AdmittedRows(v, db, cfg, p, ties)| <= p.limit
    ensures Fair(v, db, cfg, p, ties, a, b)
  {
    Share(v, db, cfg, p, ties, a);
    Share(v, db, cfg, p, ties, b);
    if |ClaimedOf(v, db, cfg, p, ties, b)| < |ClaimedOf(v, db, cfg, p, ties, a)| - 1 {
      ReachedBeyond(v, db, cfg, p, a, b, |ClaimedOf(v, db, cfg, p, ties, a)| - 1);
    }
  }

  /** Among k claimed rows of one actor, one has a pending_rank of k or more. */
  lemma HighRank(v: Variant, db: Jobs, cfg: Config, p: Params, rows: set<Locked>, actor: string, k: nat) returns (l: Locked)
    requires rows <= LockedOf(db, AllLocked(v, db, cfg, p), actor) && |rows| > k
    requires forall x, y | x in rows && y in rows && x.id == y.id :: x == y
    ensures l in rows && l.rank > k
  {
    var offered := Offered(v, db, cfg, p, actor);
    RowTotal(db, offered);
    LimitSize(offered, ByRow(db), k);
    if forall x | x in rows :: x.rank <= k {
      forall x | x in rows ensures Row(x.id, x.slot) in Limit(offered, ByRow(db), k) { LowRank(v, db, cfg, p, actor, k, x); }
      InjectionSize(rows, Limit(offered, ByRow(db), k), (x: Locked) => Row(x.id, x.slot));
    }
    l :| l in rows && l.rank > k;
  }

  lemma LowRank(v: Variant, db: Jobs, cfg: Config, p: Params, actor: string, k: nat, x: Locked)
    requires x in LockedOf(db, AllLocked(v, db, cfg, p), actor) && x.rank <= k
    ensures Row(x.id, x.slot) in Limit(Offered(v, db, cfg, p, actor), ByRow(db), k)
  {
    HeldIsPlanned(v, db, cfg, p, x);
  }

  /** Every held row is admitted. */
  ghost predicate AllAdmitted(v: Variant, db: Jobs, cfg: Config, p: Params, ties: Ties) {
    forall l | l in AllLocked(v, db, cfg, p) :: l in AdmittedRows(v, db, cfg, p, ties)
  }

  /** A row of small rank is claimed beside one of larger rank, if it is admitted. */
  lemma LowerRankClaimed(v: Variant, db: Jobs, cfg: Config, p: Params, ties: Ties, l: Locked, r: Row)
    requires AllAdmitted(v, db, cfg, p, ties)
    requires l in Eligible(db, cfg, p.limit, ties, AllLocked(v, db, cfg, p))
    requires r.id in db && r in Reached(v, db, cfg, p, db[r.id].actor)
    requires WithRank(db, IdentityDedup(db, Candidates(v, db, cfg, p)), r).rank < l.rank
    ensures r.id in ClaimedOf(v, db, cfg, p, ties, db[r.id].actor)
  {
    var k := AsLocked(WithRank(db, IdentityDedup(db, Candidates(v, db, cfg, p)), r));
    var admitted := AdmittedRows(v, db, cfg, p, ties);
    assert k in admitted;
    FinalTotal(db, ties, admitted);
    LimitPrefix(admitted, ByFinal(db, ties), p.limit, l, k);
  }

  lemma OneIdPerRow(v: Variant, db: Jobs, cfg: Config, p: Params, actor: string, x: Row, y: Row)
    requires Distinct(p.queues) && x in Offered(v, db, cfg, p, actor) && y in Offered(v, db, cfg, p, actor) && x.id == y.id
    ensures x == y
  {
    var rows := IdentityDedup(db, Candidates(v, db, cfg, p));
    OneSlot(v, db, cfg, p, WithRank(db, rows, x), WithRank(db, rows, y));
  }

  /** The first rows of an actor, all claimed beside a row of larger rank. */
  lemma FirstRowsClaimed(v: Variant, db: Jobs, cfg: Config, p: Params, ties: Ties, l: Locked, b: string, k: nat)
    requires Distinct(p.queues) && AllAdmitted(v, db, cfg, p, ties)
    requires l in Eligible(db, cfg, p.limit, ties, AllLocked(v, db, cfg, p)) && l.rank > k
    ensures |Limit(Offered(v, db, cfg, p, b), ByRow(db), k)| <= |ClaimedOf(v, db, cfg, p, ties, b)|
  {
    var first := Limit(Offered(v, db, cfg, p, b), ByRow(db), k);
    var r := ReachedRow(v, db, cfg, p, l);
    LowerRanksReached(v, db, cfg, p, r, b, k);
    forall x | x in first ensures x.id in ClaimedOf(v, db, cfg, p, ties, b) {
      LowerRankClaimed(v, db, cfg, p, ties, l, x);
    }
    forall x, y | x in first && y in first && x.id == y.id ensures x == y { OneIdPerRow(v, db, cfg, p, b, x, y); }
    InjectionSize(first, ClaimedOf(v, db, cfg, p, ties, b), (x: Row) => x.id);
  }

  lemma ReachedRow(v: Variant, db: Jobs, cfg: Config, p: Params, l: Locked) returns (r: Row)
    requires Distinct(p.queues) && l in AllLocked(v, db, cfg, p)
    ensures r.id in db && r in Reached(v, db, cfg, p, db[r.id].actor)
    ensures WithRank(db, IdentityDedup(db, Candidates(v, db, cfg, p)), r).rank == l.rank
  {
    LockedAreTop(v, db, cfg, p);
    var t :| t in Top(v, db, cfg, p) && AsLocked(t) == l;
    r := Row(t.id, t.slot);
    assert t == WithRank(db, IdentityDedup(db, Candidates(v, db, cfg, p)), r);
  }

  /** Fairness when every held row is admitted, whatever the final LIMIT cuts. */
  lemma FairWhenAdmitted(v: Variant, db: Jobs, cfg: Config, p: Params, ties: Ties, a: string, b: string)
    requires Distinct(p.queues) && AllAdmitted(v, db, cfg, p, ties)
    ensures Fair(v, db, cfg, p, ties, a, b)
  {
    if |ClaimedOf(v, db, cfg, p, ties, b)| < |ClaimedOf(v, db, cfg, p, ties, a)| - 1 {
      TrailingHasNone(v, db, cfg, p, ties, a, b, |ClaimedOf(v, db, cfg, p, ties, a)| - 1);
    }
  }

  lemma TrailingHasNone(v: Variant, db: Jobs, cfg: Config, p: Params, ties: Ties, a: string, b: string, k: nat)
    requires Distinct(p.queues) && AllAdmitted(v, db, cfg, p, ties)
    requires |ClaimedOf(v, db, cfg, p, ties, b)| < k < |ClaimedOf(v, db, cfg, p, ties, a)|
    ensures |ClaimedOf(v, db, cfg, p, ties, b)| == |Offered(v, db, cfg, p, b)|
  {
    var l := ClaimedHighRank(v, db, cfg, p, ties, a, k);
    FirstRowsClaimed(v, db, cfg, p, ties, l, b, k);
    AllOffered(v, db, cfg, p, ties, b, k);
  }

  lemma ClaimedHighRank(v: Variant, db: Jobs, cfg: Config, p: Params, ties: Ties, a: string, k: nat) returns (l: Locked)
    requires Distinct(p.queues) && |ClaimedOf(v, db, cfg, p, ties, a)| > k
    ensures l in Eligible(db, cfg, p.limit, ties, AllLocked(v, db, cfg, p)) && l.rank > k
  {
    var mine := LockedOf(db, Eligible(db, cfg, p.limit, ties, AllLocked(v, db, cfg, p)), a);
    ClaimedCount(v, db, cfg, p, ties, a);
    forall x, y | x in mine && y in mine && x.id == y.id ensures x == y { OneRowPerId(v, db, cfg, p, x, y); }
    l := HighRank(v, db, cfg, p, mine, a, k);
  }

  lemma AllOffered(v: Variant, db: Jobs, cfg: Config, p: Params, ties: Ties, b: string, k: nat)
    requires Distinct(p.queues) && |ClaimedOf(v, db, cfg, p, ties, b)| < k
    requires |Limit(Offered(v, db, cfg, p, b), ByRow(db), k)| <= |ClaimedOf(v, db, cfg, p, ties, b)|
    ensures |ClaimedOf(v, db, cfg, p, ties, b)| == |Offered(v, db, cfg, p, b)|
  {
    var others := Offered(v, db, cfg, p, b);
    RowTotal(db, others);
    LimitSize(others, ByRow(db), k);
    Share(v, db, cfg, p, ties, b);
    SubsetSize(Reached(v, db, cfg, p, b), others);
  }

  /** The parameters under which no snapshot, configuration or tie-break can be unfair. */
  predicate FairLimit(v: Variant, p: Params) {
    p.limit <= 1 || TopLimit(v, p) <= p.limit + 1
  }

  lemma FairShare(v: Variant, db: Jobs, cfg: Config, p: Params, ties: Ties, a: string, b: string)
    requires Distinct(p.queues) && FairLimit(v, p)
    ensures Fair(v, db, cfg, p, ties, a, b)
  {
    FewHeld(v, db, cfg, p, ties);
    if |AdmittedRows(v, db, cfg, p, ties)| <= p.limit {
      FairWhenUncut(v, db, cfg, p, ties, a, b);
    } else if p.limit <= 1 {
      ClaimsWithinLimit(db, cfg, p.limit, ties, AllLocked(v, db, cfg, p));
      SubsetSize(ClaimedOf(v, db, cfg, p, ties, a), Uncontended(v, db, cfg, p, ties));
    } else {
      SubsetSize(AdmittedRows(v, db, cfg, p, ties), AllLocked(v, db, cfg, p));
      FairWhenAdmitted(v, db, cfg, p, ties, a, b);
    }
  }
}
