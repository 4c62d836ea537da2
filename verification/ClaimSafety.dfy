/**
  What one claim round never does, whatever locks it was granted, and what
  therefore holds over every run of serialized rounds, enqueues and completions.
*/
module ClaimSafety {
  import opened Prelude
  import opened Ranking
  import opened Claim

  // ----- the five orders are total -----

  lemma PriorityTotal(db: Jobs, s: set<nat>)
    requires s <= db.Keys
    ensures StrictTotal(s, ByPriority(db))
  {
  }

  lemma RowTotal(db: Jobs, s: set<Row>)
    requires forall r | r in s :: r.id in db
    ensures StrictTotal(s, ByRow(db))
  {
  }

  lemma TopTotal(db: Jobs, s: set<Ranked>)
    requires forall r | r in s :: r.id in db
    ensures StrictTotal(s, ByTop(db))
  {
  }

  lemma ActorTotal(db: Jobs, ties: Ties, s: set<Locked>)
    requires forall l | l in s :: l.id in db
    ensures StrictTotal(s, ByActor(db, ties))
  {
  }

  lemma FinalTotal(db: Jobs, ties: Ties, s: set<Locked>)
    requires forall l | l in s :: l.id in db
    ensures StrictTotal(s, ByFinal(db, ties))
  {
  }

  // ----- one round -----

  lemma {:induction false} ImageSize(rows: set<Locked>, ids: set<nat>)
    requires ids == set l | l in rows :: l.id
    ensures |ids| <= |rows|
    decreases |rows|
  {
    if rows != {} {
      var l :| l in rows;
      var rest := rows - {l};
      var restIds := set k | k in rest :: k.id;
      ImageSize(rest, restIds);
      assert ids == restIds + {l.id};
    }
  }

  /** No round claims more rows than its limit. */
  lemma ClaimsWithinLimit(db: Jobs, cfg: Config, limit: nat, ties: Ties, rows: set<Locked>)
    ensures |EligibleIds(db, cfg, limit, ties, rows)| <= limit
  {
    FinalTotal(db, ties, Admitted(db, cfg, ties, rows));
    LimitSize(Admitted(db, cfg, ties, rows), ByFinal(db, ties), limit);
    ImageSize(Eligible(db, cfg, limit, ties, rows), EligibleIds(db, cfg, limit, ties, rows));
  }

  function PendingIds(db: Jobs): set<nat> {
    set id | id in db && db[id].status == Pending
  }

  /** What a round tries to lock: pending rows, no more than its own LIMIT. */
  lemma TopIdsPending(v: Variant, db: Jobs, cfg: Config, p: Params)
    ensures TopIds(v, db, cfg, p) <= PendingIds(db)
  {
    forall id | id in TopIds(v, db, cfg, p) ensures id in PendingIds(db) {
      var t :| t in Top(v, db, cfg, p) && t.id == id;
      assert Row(t.id, t.slot) in Candidates(v, db, cfg, p);
    }
  }

  lemma TopIdsBounded(v: Variant, db: Jobs, cfg: Config, p: Params)
    ensures |TopIds(v, db, cfg, p)| <= TopLimit(v, p)
  {
    TopTotal(db, Plan(v, db, cfg, p));
    LimitSize(Plan(v, db, cfg, p), ByTop(db), TopLimit(v, p));
    SurjectionSize(Top(v, db, cfg, p), TopIds(v, db, cfg, p), (t: Ranked) => t.id);
  }

  function IdsOf(db: Jobs, ids: set<nat>, actor: string): set<nat> {
    set id | id in ids && id in db && db[id].actor == actor
  }

  /** The claims on a capped actor fit in the room its running rows leave. */
  lemma ClaimsWithinCap(db: Jobs, cfg: Config, limit: nat, ties: Ties, rows: set<Locked>, actor: string)
    requires Cap(cfg, actor).Some?
    ensures var claimed := IdsOf(db, EligibleIds(db, cfg, limit, ties, rows), actor);
            claimed == {} || InFlight(db, actor) + |claimed| <= Cap(cfg, actor).value
  {
    var claimed := IdsOf(db, EligibleIds(db, cfg, limit, ties, rows), actor);
    if claimed != {} {
      var ec := EligibleCandidates(db, cfg, rows);
      var mine := LockedOf(db, ec, actor);
      assert GateOpen(db, cfg, actor);
      var room := Cap(cfg, actor).value - InFlight(db, actor);
      ActorTotal(db, ties, mine);
      LimitSize(mine, ByActor(db, ties), room);
      var kept := set l | l in Eligible(db, cfg, limit, ties, rows) && db[l.id].actor == actor;
      assert kept <= Limit(mine, ByActor(db, ties), room);
      SubsetSize(kept, Limit(mine, ByActor(db, ties), room));
      assert claimed == set l | l in kept :: l.id;
      ImageSize(kept, claimed);
    }
  }

  /** Every claimed id was due, registered, subscribed, planned and held. */
  lemma ClaimedIsPlanned(v: Variant, db: Jobs, cfg: Config, p: Params, held: set<nat>, ties: Ties, id: nat)
    requires id in Claims(v, db, cfg, p, held, ties)
    ensures id in held && id in TopIds(v, db, cfg, p)
    ensures id in db && Due(db[id], p.now) && db[id].actor in cfg && db[id].queue in p.queues
  {
    var l :| l in Eligible(db, cfg, p.limit, ties, LockedRows(Plan(v, db, cfg, p), Top(v, db, cfg, p), held)) && l.id == id;
    var r := Ranked(l.id, l.slot, l.rank);
    assert r in Plan(v, db, cfg, p);
    assert Row(id, l.slot) in Candidates(v, db, cfg, p);
  }

  /** The winning row of an identity is unique, and its identity is not running. */
  lemma ClaimsOneIdentity(v: Variant, db: Jobs, cfg: Config, p: Params, held: set<nat>, ties: Ties, a: nat, b: nat)
    requires a in Claims(v, db, cfg, p, held, ties)
    requires SameIdentity(db, a, b)
    ensures b in Claims(v, db, cfg, p, held, ties) ==> a == b
    ensures db[b].status != Running
  {
    var cand := Candidates(v, db, cfg, p);
    var x := DedupRow(v, db, cfg, p, held, ties, a);
    if b in Claims(v, db, cfg, p, held, ties) {
      var y := DedupRow(v, db, cfg, p, held, ties, b);
      assert !RowSooner(db, x, y) && !RowSooner(db, y, x);
    }
  }

  lemma DedupRow(v: Variant, db: Jobs, cfg: Config, p: Params, held: set<nat>, ties: Ties, id: nat) returns (r: Row)
    requires id in Claims(v, db, cfg, p, held, ties)
    ensures r.id == id && r in IdentityDedup(db, Candidates(v, db, cfg, p))
  {
    var l :| l in Eligible(db, cfg, p.limit, ties, LockedRows(Plan(v, db, cfg, p), Top(v, db, cfg, p), held)) && l.id == id;
    assert Ranked(l.id, l.slot, l.rank) in Plan(v, db, cfg, p);
    r := Row(id, l.slot);
  }

  /** DISTINCT ON drops a row only for one of its own identity that sorts no later, and keeps that one. */
  lemma DedupKeepsSoonest(db: Jobs, rows: set<Row>, r: Row) returns (d: Row)
    requires (forall s | s in rows :: s.id in db) && r in rows
    requires db[r.id].identity.Some? && !IdentityRunning(db, db[r.id].actor, db[r.id].identity.value)
    ensures d in IdentityDedup(db, rows) && SameIdentity(db, r.id, d.id) && (d == r || RowSooner(db, d, r))
  {
    var group := set s | s in rows && SameIdentity(db, r.id, s.id);
    assert r in group;
    RowTotal(db, group);
    d := FirstRow(group, ByRow(db), 1);
    assert Ahead(group, ByRow(db), d) == {};
    forall s | s in rows && SameIdentity(db, d.id, s.id) ensures !RowSooner(db, s, d) {
      assert s in group && s !in Ahead(group, ByRow(db), d);
    }
  }

  // ----- runs of serialized rounds -----

  /** One event in the life of the table, each seeing the one before committed. */
  datatype Event =
    | Round(v: Variant, p: Params, held: set<nat>, ties: Ties)
    | Enqueue(id: nat, job: Job)
    | Complete(id: nat)

  ghost predicate Step(cfg: Config, db: Jobs, e: Event, db': Jobs) {
    match e
    case Round(v, p, held, ties) => db' == Update(db, Claims(v, db, cfg, p, held, ties))
    case Enqueue(id, job) => id !in db && job.status == Pending && db' == db[id := job]
    case Complete(id) => id in db && db[id].status == Running && db' == db[id := db[id].(status := Finished)]
  }

  ghost predicate IsRun(cfg: Config, states: seq<Jobs>, events: seq<Event>) {
    |states| == |events| + 1 &&
    forall i | 0 <= i < |events| :: Step(cfg, states[i], events[i], states[i + 1])
  }

  /** No capped actor over its cap, no identity running twice. */
  ghost predicate Safe(cfg: Config, db: Jobs) {
    && (forall a | a in cfg && cfg[a].Some? :: InFlight(db, a) == 0 || InFlight(db, a) <= cfg[a].value)
    && (forall x, y | x in db && y in db && db[x].status == Running && db[y].status == Running && SameIdentity(db, x, y)
        :: x == y)
  }

  lemma UpdateAddsRunning(db: Jobs, claimed: set<nat>, actor: string)
    requires forall id | id in claimed :: id in db && db[id].status == Pending
    ensures InFlight(Update(db, claimed), actor) == InFlight(db, actor) + |IdsOf(db, claimed, actor)|
  {
    assert RunningOf(Update(db, claimed), actor) == RunningOf(db, actor) + IdsOf(db, claimed, actor);
  }

  lemma RoundKeepsCap(cfg: Config, db: Jobs, v: Variant, p: Params, held: set<nat>, ties: Ties, actor: string)
    requires Cap(cfg, actor).Some?
    requires InFlight(db, actor) == 0 || InFlight(db, actor) <= Cap(cfg, actor).value
    ensures var db' := Update(db, Claims(v, db, cfg, p, held, ties));
            InFlight(db', actor) == 0 || InFlight(db', actor) <= Cap(cfg, actor).value
  {
    var claimed := Claims(v, db, cfg, p, held, ties);
    var rows := LockedRows(Plan(v, db, cfg, p), Top(v, db, cfg, p), held);
    ClaimsWithinCap(db, cfg, p.limit, ties, rows, actor);
    forall id | id in claimed ensures id in db && db[id].status == Pending {
      ClaimedIsPlanned(v, db, cfg, p, held, ties, id);
    }
    UpdateAddsRunning(db, claimed, actor);
  }

  lemma RoundKeepsIdentity(cfg: Config, db: Jobs, v: Variant, p: Params, held: set<nat>, ties: Ties, x: nat, y: nat)
    requires forall a, b | a in db && b in db && db[a].status == Running && db[b].status == Running && SameIdentity(db, a, b)
             :: a == b
    requires x in db && y in db
    requires var db' := Update(db, Claims(v, db, cfg, p, held, ties));
             db'[x].status == Running && db'[y].status == Running && SameIdentity(db', x, y)
    ensures x == y
  {
    var claimed := Claims(v, db, cfg, p, held, ties);
    assert SameIdentity(db, x, y) && SameIdentity(db, y, x);
    if x in claimed {
      ClaimsOneIdentity(v, db, cfg, p, held, ties, x, y);
    } else if y in claimed {
      ClaimsOneIdentity(v, db, cfg, p, held, ties, y, x);
    }
  }

  lemma StepKeepsSafe(cfg: Config, db: Jobs, e: Event, db': Jobs)
    requires Safe(cfg, db) && Step(cfg, db, e, db')
    ensures Safe(cfg, db')
  {
    forall a | a in cfg && cfg[a].Some? ensures InFlight(db', a) == 0 || InFlight(db', a) <= cfg[a].value {
      match e
      case Round(v, p, held, ties) => RoundKeepsCap(cfg, db, v, p, held, ties, a);
      case _ => SubsetSize(RunningOf(db', a), RunningOf(db, a));
    }
    forall x, y | x in db' && y in db' && db'[x].status == Running && db'[y].status == Running && SameIdentity(db', x, y)
      ensures x == y
    {
      match e
      case Round(v, p, held, ties) => RoundKeepsIdentity(cfg, db, v, p, held, ties, x, y);
      case _ => assert SameIdentity(db, x, y);
    }
  }

  function Started(db: Jobs, db': Jobs): set<nat> {
    set id | id in db && id in db' && db[id].status != Running && db'[id].status == Running
  }

  lemma RoundStartsWithinLimit(cfg: Config, db: Jobs, v: Variant, p: Params, held: set<nat>, ties: Ties)
    ensures |Started(db, Update(db, Claims(v, db, cfg, p, held, ties)))| <= p.limit
  {
    var rows := LockedRows(Plan(v, db, cfg, p), Top(v, db, cfg, p), held);
    ClaimsWithinLimit(db, cfg, p.limit, ties, rows);
    SubsetSize(Started(db, Update(db, Claims(v, db, cfg, p, held, ties))), Claims(v, db, cfg, p, held, ties));
  }

  /**
    From a table with nothing running, every reachable table keeps every cap and
    every identity, and no round starts more rows than its limit.
  */
  lemma {:induction false} SerializedRunsAreSafe(cfg: Config, states: seq<Jobs>, events: seq<Event>, i: nat)
    requires IsRun(cfg, states, events) && i < |states|
    requires forall id | id in states[0] :: states[0][id].status != Running
    ensures Safe(cfg, states[i])
    ensures i < |events| && events[i].Round? ==> |Started(states[i], states[i + 1])| <= events[i].p.limit
  {
    if i < |events| && events[i].Round? {
      var e := events[i];
      assert Step(cfg, states[i], e, states[i + 1]);
      RoundStartsWithinLimit(cfg, states[i], e.v, e.p, e.held, e.ties);
    }
    if i == 0 {
      forall a | a in cfg && cfg[a].Some? ensures InFlight(states[0], a) == 0 {
        assert RunningOf(states[0], a) == {};
      }
    } else {
      SerializedRunsAreSafe(cfg, states, events, i - 1);
      StepKeepsSafe(cfg, states[i - 1], events[i - 1], states[i]);
    }
  }
}
