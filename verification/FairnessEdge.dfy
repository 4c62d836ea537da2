/**
  Where fairness ends.  Only the literal text plans more rows than it may claim;
  with a limit from 2 to 48 its final LIMIT can cut an actor whose one admitted
  row happens to carry a late rank.  So the limits that are always fair are
  exactly those of ClaimFairness.FairLimit.
*/
module FairnessEdge {
  import opened Prelude
  import opened Ranking
  import opened Claim
  import opened ClaimSafety
  import opened ClaimPriority
  import opened ClaimFairness

  /** Two rows of actor a, two of actor b, one of each other actor. */
  function Who(id: nat): string {
    if id <= 1 then "a" else if id <= 3 then "b" else seq(id, _ => 'x')
  }

  lemma WhoTwice(i: nat, j: nat)
    requires Who(i) == Who(j)
    ensures i == j || (i <= 1 && j <= 1) || (2 <= i <= 3 && 2 <= j <= 3)
  {
    assert |Who(i)| == |Who(j)|;
  }

  function RowJob(p: Params, id: nat): Job
    requires p.queues != []
  {
    Job(Who(id), p.queues[0], None, if 2 <= id <= 3 then 0 else 1, p.now, None, Pending, 0)
  }

  /** n such rows, due, those of b less urgent than the rest. */
  ghost predicate Crowded(db: Jobs, p: Params, n: nat) {
    p.queues != [] && (forall id: nat :: id in db <==> id < n) && forall id | id in db :: db[id] == RowJob(p, id)
  }

  /** Everybody is registered; only b has a cap, of one. */
  ghost predicate Staffed(cfg: Config, n: nat) {
    (forall id | 0 <= id < n :: Who(id) in cfg) && forall s | s in cfg :: cfg[s] == if s == "b" then Some(1) else None
  }

  lemma Exists(p: Params, n: nat) returns (db: Jobs, cfg: Config)
    requires p.queues != []
    ensures Crowded(db, p, n) && Staffed(cfg, n)
  {
    var ids := Upto(n);
    db := map id | id in ids :: RowJob(p, id);
    cfg := map id | id in ids :: Who(id) := if Who(id) == "b" then Some(1) else None;
    forall id | 0 <= id < n ensures Who(id) in cfg { assert id in ids; }
  }

  lemma NothingRuns(db: Jobs, cfg: Config, p: Params, n: nat, actor: string)
    requires Crowded(db, p, n) && Staffed(cfg, n) && p.limit >= 1 && actor in cfg
    ensures InFlight(db, actor) == 0 && Residual(db, cfg, p.limit, actor) == if actor == "b" then 1 else p.limit
  {
    NoneRunning(db, p, n, actor);
  }

  lemma WholeWindow(db: Jobs, cfg: Config, p: Params, n: nat, id: nat)
    requires Crowded(db, p, n) && id < n
    ensures id in Window(Literal, db, cfg, p, Who(id), p.queues[0])
  {
    var probe := Probe(db, p.now, Who(id), p.queues[0]);
    var few := {0, 1, 2, 3, id};
    forall k | k in probe ensures k in few { WhoTwice(k, id); }
    SubsetSize(probe, few);
    PriorityTotal(db, probe);
    LimitOfFew(probe, ByPriority(db), LITERAL_LATERAL);
  }

  function RowsOf(n: nat): set<Row> {
    set id | id in Upto(n) :: Row(id, 0)
  }

  lemma AllAreCandidates(db: Jobs, cfg: Config, p: Params, n: nat)
    requires Crowded(db, p, n) && Staffed(cfg, n) && p.limit >= 1 && Distinct(p.queues)
    ensures IdentityDedup(db, Candidates(Literal, db, cfg, p)) == RowsOf(n)
  {
    forall id: nat, slot: nat ensures Row(id, slot) in Candidates(Literal, db, cfg, p) <==> Row(id, slot) in RowsOf(n) {
      if id < n && slot == 0 {
        WholeWindow(db, cfg, p, n, id);
        NothingRuns(db, cfg, p, n, Who(id));
      }
    }
    assert NullIdentities(db);
    DedupKeepsNull(Literal, db, cfg, p);
  }

  function Planned(db: Jobs, n: nat, id: nat): Ranked
    requires id in db
  {
    WithRank(db, RowsOf(n), Row(id, 0))
  }

  lemma LastRank(db: Jobs, p: Params, n: nat)
    requires Crowded(db, p, n) && 4 <= n
    ensures Planned(db, n, 3).rank == 2
  {
    var rows := OfActor(db, RowsOf(n), "b");
    forall r | r in rows ensures 2 <= r.id <= 3 { WhoTwice(r.id, 3); }
    assert Row(2, 0) in rows && RowSooner(db, Row(2, 0), Row(3, 0));
    forall r | r in Ahead(rows, ByRow(db), Row(3, 0)) ensures r == Row(2, 0) {
      assert r.id != 3 && r.slot == 0;
    }
    assert Ahead(rows, ByRow(db), Row(3, 0)) == {Row(2, 0)};
  }

  lemma OtherRanks(db: Jobs, p: Params, n: nat, id: nat)
    requires Crowded(db, p, n) && id < n && id != 2 && id != 3
    ensures Planned(db, n, id).rank <= 2
  {
    var ahead := Ahead(OfActor(db, RowsOf(n), Who(id)), ByRow(db), Row(id, 0));
    forall r | r in ahead ensures r in {Row(1, 0)} || r in {Row(0, 0)} { WhoTwice(r.id, id); }
    assert Row(id, 0) !in ahead;
    SubsetSize(ahead, {Row(if id == 0 then 1 else 0, 0)});
  }

  /** The held row of an id. */
  function Held(db: Jobs, n: nat, id: nat): Locked
    requires id in db
  {
    AsLocked(Planned(db, n, id))
  }

  /** A plan within its own LIMIT is held row for row. */
  lemma WholePlanHeld(v: Variant, db: Jobs, cfg: Config, p: Params)
    requires Distinct(p.queues) && |Plan(v, db, cfg, p)| <= TopLimit(v, p)
    ensures AllLocked(v, db, cfg, p) == set t | t in Plan(v, db, cfg, p) :: AsLocked(t)
  {
    TopTotal(db, Plan(v, db, cfg, p));
    LimitOfFew(Plan(v, db, cfg, p), ByTop(db), TopLimit(v, p));
    LockedAreTop(v, db, cfg, p);
  }

  lemma PlanIsImage(db: Jobs, n: nat, plan: set<Ranked>)
    requires plan == RankedRows(db, RowsOf(n)) && forall id: nat :: id in db <==> id < n
    ensures (set t | t in plan :: AsLocked(t)) == Image(HeldAt(db, n), Upto(n))
  {
    forall t | t in plan ensures t.id in Upto(n) && AsLocked(t) == HeldAt(db, n)(t.id) {}
    forall id | id in Upto(n) ensures Planned(db, n, id) in plan { assert Row(id, 0) in RowsOf(n); }
  }

  lemma AllAreHeld(db: Jobs, cfg: Config, p: Params, n: nat)
    requires Crowded(db, p, n) && Staffed(cfg, n) && p.limit >= 1 && Distinct(p.queues) && n <= LITERAL_TOP
    ensures AllLocked(Literal, db, cfg, p) == Image(HeldAt(db, n), Upto(n))
  {
    AllAreCandidates(db, cfg, p, n);
    PlanSize(Literal, db, cfg, p, Upto(n));
    WholePlanHeld(Literal, db, cfg, p);
    PlanIsImage(db, n, Plan(Literal, db, cfg, p));
  }

  lemma NoneRunning(db: Jobs, p: Params, n: nat, actor: string)
    requires Crowded(db, p, n)
    ensures InFlight(db, actor) == 0
  {
    assert RunningOf(db, actor) == {};
  }

  function HeldAt(db: Jobs, n: nat): nat -> Locked {
    (id: nat) => if id in db then Held(db, n, id) else Locked(id, 0, 0, 0)
  }

  /** The held rows by id: nobody has a rank above 2, and b's second row has rank 2. */
  ghost predicate Lineup(h: nat -> Locked, n: nat) {
    4 <= n && h(3).rank == 2 && forall id: nat :: h(id).id == id && (id < n && id != 2 && id != 3 ==> h(id).rank <= 2)
  }

  function Image(h: nat -> Locked, ids: set<nat>): set<Locked> {
    set id | id in ids :: h(id)
  }

  lemma ImageSize(h: nat -> Locked, n: nat, ids: set<nat>)
    requires Lineup(h, n)
    ensures |Image(h, ids)| == |ids|
  {
    forall x, y | x in ids && y in ids && h(x) == h(y) ensures x == y { assert h(x).id == x && h(y).id == y; }
    InjectionSize(ids, Image(h, ids), h);
    SurjectionSize(ids, Image(h, ids), h);
  }

  lemma InLine(db: Jobs, p: Params, n: nat)
    requires Crowded(db, p, n) && 4 <= n
    ensures Lineup(HeldAt(db, n), n)
  {
    LastRank(db, p, n);
    forall id: nat | id < n && id != 2 && id != 3 ensures HeldAt(db, n)(id).rank <= 2 { OtherRanks(db, p, n, id); }
  }

  // ----- the tail -----

  /** b's two rows tie, and the server numbers the second first. */
  function Late(): Ties {
    Ties((l: Locked) => if l.id == 3 then 0 else 1, (l: Locked) => 0)
  }

  lemma GatesOpen(db: Jobs, cfg: Config, p: Params, n: nat, rows: set<Locked>)
    requires Crowded(db, p, n) && Staffed(cfg, n) && forall l | l in rows :: l.id < n
    ensures EligibleCandidates(db, cfg, rows) == rows
  {
    forall l | l in rows ensures GateOpen(db, cfg, db[l.id].actor) { NoneRunning(db, p, n, db[l.id].actor); }
  }

  lemma RowsOfB(db: Jobs, p: Params, n: nat, h: nat -> Locked)
    requires Crowded(db, p, n) && Lineup(h, n)
    ensures LockedOf(db, Image(h, Upto(n)), "b") == {h(2), h(3)}
  {
    forall l | l in LockedOf(db, Image(h, Upto(n)), "b") ensures l == h(2) || l == h(3) { WhoTwice(l.id, 3); }
    assert 2 in Upto(n) && 3 in Upto(n);
    assert Who(2) == "b" && Who(3) == "b";
  }

  lemma SecondFirst(db: Jobs, p: Params, n: nat, h: nat -> Locked)
    requires Crowded(db, p, n) && Lineup(h, n)
    ensures RowNumber({h(2), h(3)}, ByActor(db, Late()), h(3)) == 1 && RowNumber({h(2), h(3)}, ByActor(db, Late()), h(2)) == 2
  {
    assert Ahead({h(2), h(3)}, ByActor(db, Late()), h(3)) == {};
    assert Ahead({h(2), h(3)}, ByActor(db, Late()), h(2)) == {h(3)};
  }

  /** Of b's rows only the second is admitted, of the others all. */
  lemma AdmittedIff(db: Jobs, cfg: Config, p: Params, n: nat, h: nat -> Locked, id: nat)
    requires Crowded(db, p, n) && Staffed(cfg, n) && Lineup(h, n) && id < n
    ensures h(id) in Admitted(db, cfg, Late(), Image(h, Upto(n))) <==> id != 2
  {
    GatesOpen(db, cfg, p, n, Image(h, Upto(n)));
    RowsOfB(db, p, n, h);
    SecondFirst(db, p, n, h);
    NoneRunning(db, p, n, Who(id));
    assert Who(id) in cfg;
    if Who(id) == Who(3) { WhoTwice(id, 3); }
  }

  lemma AdmittedAre(db: Jobs, cfg: Config, p: Params, n: nat, h: nat -> Locked)
    requires Crowded(db, p, n) && Staffed(cfg, n) && Lineup(h, n)
    ensures Admitted(db, cfg, Late(), Image(h, Upto(n))) == Image(h, Upto(n) - {2})
  {
    var admitted := Admitted(db, cfg, Late(), Image(h, Upto(n)));
    forall id | id in Upto(n) ensures h(id) in admitted <==> id != 2 { AdmittedIff(db, cfg, p, n, h, id); }
    forall l | l in admitted ensures l in Image(h, Upto(n)) {}
  }

  lemma LastInOrder(db: Jobs, p: Params, n: nat, h: nat -> Locked, id: nat)
    requires Crowded(db, p, n) && Lineup(h, n) && id < n && id != 2 && id != 3
    ensures FinalSooner(db, Late().final, h(id), h(3))
  {
    assert h(id).id == id && h(id).rank <= 2;
  }

  /** The final LIMIT, two below the number of rows, cuts b's one admitted row and nothing else. */
  lemma LastIsCut(db: Jobs, p: Params, n: nat, h: nat -> Locked)
    requires Crowded(db, p, n) && Lineup(h, n) && n == p.limit + 2
    ensures Limit(Image(h, Upto(n) - {2}), ByFinal(db, Late()), p.limit) == Image(h, Upto(n) - {2}) - {h(3)}
  {
    var ids := Upto(n) - {2};
    assert ids + {2} == Upto(n);
    ImageSize(h, n, ids);
    FinalTotal(db, Late(), Image(h, ids));
    forall l | l in Image(h, ids) && l != h(3) ensures ByFinal(db, Late())(l, h(3)) { LastInOrder(db, p, n, h, l.id); }
    assert 3 in ids;
    CutLast(Image(h, ids), ByFinal(db, Late()), p.limit, h(3));
  }

  lemma EligibleAre(db: Jobs, cfg: Config, p: Params, n: nat, h: nat -> Locked)
    requires Crowded(db, p, n) && Staffed(cfg, n) && Lineup(h, n) && n == p.limit + 2
    ensures Eligible(db, cfg, p.limit, Late(), Image(h, Upto(n))) == Image(h, Upto(n) - {2}) - {h(3)}
  {
    AdmittedAre(db, cfg, p, n, h);
    LastIsCut(db, p, n, h);
  }

  lemma ClaimedAre(h: nat -> Locked, n: nat, rows: set<Locked>, ids: set<nat>)
    requires Lineup(h, n) && rows == Image(h, Upto(n) - {2}) - {h(3)} && ids == set l | l in rows :: l.id
    ensures forall id: nat :: id in ids <==> id < n && id != 2 && id != 3
  {
    forall id: nat | id < n && id != 2 && id != 3 ensures id in ids {
      assert id in Upto(n) - {2};
      assert h(id).id == id && h(3).id == 3;
      assert h(id) in rows;
    }
  }

  lemma TailClaims(db: Jobs, cfg: Config, p: Params, n: nat, h: nat -> Locked)
    requires Crowded(db, p, n) && Staffed(cfg, n) && Lineup(h, n) && n == p.limit + 2
    ensures forall id: nat :: id in EligibleIds(db, cfg, p.limit, Late(), Image(h, Upto(n))) <==> id < n && id != 2 && id != 3
  {
    EligibleAre(db, cfg, p, n, h);
    ClaimedAre(h, n, Eligible(db, cfg, p.limit, Late(), Image(h, Upto(n))), EligibleIds(db, cfg, p.limit, Late(), Image(h, Upto(n))));
  }

  lemma NothingForB(db: Jobs, p: Params, n: nat, claims: set<nat>)
    requires Crowded(db, p, n) && 4 <= n && forall id: nat :: id in claims <==> id < n && id != 2 && id != 3
    ensures IdsOf(db, claims, "b") == {} && |IdsOf(db, claims, "a")| >= 2
  {
    forall id: nat | id in claims && id in db ensures db[id].actor != "b" {
      if Who(id) == Who(3) { WhoTwice(id, 3); }
    }
    SubsetSize({0, 1}, IdsOf(db, claims, "a"));
  }

  lemma UnfairRound(db: Jobs, cfg: Config, p: Params)
    requires Distinct(p.queues) && 2 <= p.limit <= LITERAL_TOP - 2
    requires Crowded(db, p, p.limit + 2) && Staffed(cfg, p.limit + 2)
    ensures !Fair(Literal, db, cfg, p, Late(), "a", "b")
  {
    var n := p.limit + 2;
    AllAreHeld(db, cfg, p, n);
    InLine(db, p, n);
    TailClaims(db, cfg, p, n, HeldAt(db, n));
    NothingForB(db, p, n, Uncontended(Literal, db, cfg, p, Late()));
    MoreForB(db, cfg, p, n);
  }

  lemma MoreForB(db: Jobs, cfg: Config, p: Params, n: nat)
    requires Distinct(p.queues) && p.limit >= 1 && 4 <= n && Crowded(db, p, n) && Staffed(cfg, n)
    ensures |Offered(Literal, db, cfg, p, "b")| > 0 && Residual(db, cfg, p.limit, "b") == 1
  {
    AllAreCandidates(db, cfg, p, n);
    assert Row(2, 0) in Offered(Literal, db, cfg, p, "b");
    assert Who(2) in cfg;
    NothingRuns(db, cfg, p, n, "b");
  }

  ghost predicate AlwaysFair(v: Variant, p: Params) {
    forall db: Jobs, cfg: Config, ties: Ties, a: string, b: string :: Fair(v, db, cfg, p, ties, a, b)
  }

  /** Every round is fair, whatever the snapshot, the configuration and the ties, exactly for these limits. */
  lemma AlwaysFairIff(v: Variant, p: Params)
    requires Distinct(p.queues)
    ensures AlwaysFair(v, p) <==> FairLimit(v, p) || p.queues == []
  {
    if FairLimit(v, p) {
      forall db: Jobs, cfg: Config, ties: Ties, a: string, b: string ensures Fair(v, db, cfg, p, ties, a, b) {
        FairShare(v, db, cfg, p, ties, a, b);
      }
    } else if p.queues == [] {
      forall db: Jobs, cfg: Config, ties: Ties, a: string, b: string ensures Fair(v, db, cfg, p, ties, a, b) {
        NoQueuesNoClaims(v, db, cfg, p, ties, a);
      }
    } else {
      var db, cfg := Exists(p, p.limit + 2);
      UnfairRound(db, cfg, p);
    }
  }

  lemma NoQueuesNoClaims(v: Variant, db: Jobs, cfg: Config, p: Params, ties: Ties, a: string)
    requires p.queues == []
    ensures ClaimedOf(v, db, cfg, p, ties, a) == {}
  {
    forall id | id in Uncontended(v, db, cfg, p, ties) ensures false {
      ClaimedIsPlanned(v, db, cfg, p, TopIds(v, db, cfg, p), ties, id);
    }
  }
}
