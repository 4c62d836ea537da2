/**
  The rendered statement's window admits `oversample` rows of a queue, whatever the
  limit.  A queue named k times is probed k times, and the join of top_ids back to
  the plan makes k * k rows of each job found there; so a narrow window does no harm
  exactly when oversample * k * k rows already exhaust the limit or the cap.
*/
module NarrowWindow {
  import opened Prelude
  import opened Ranking
  import opened Claim
  import opened ClaimSafety
  import opened ClaimPriority

  function SlotsOf(p: Params, queue: string): set<nat> {
    set i: nat | i < |p.queues| && p.queues[i] == queue
  }

  /** The rows the join makes of some jobs found through some slots: one for each pair of slots. */
  function Joins(ids: set<nat>, slots: set<nat>): set<(nat, (nat, nat))> {
    Pairs(ids, Pairs(slots, slots))
  }

  lemma JoinsSize(ids: set<nat>, slots: set<nat>)
    ensures |Joins(ids, slots)| == |ids| * (|slots| * |slots|)
  {
    PairsSize(slots, slots);
    PairsSize(ids, Pairs(slots, slots));
  }

  lemma SameJoins(ids: set<nat>, other: set<nat>, slots: set<nat>)
    requires |ids| == |other|
    ensures |Joins(ids, slots)| == |Joins(other, slots)|
  {
    JoinsSize(ids, slots);
    JoinsSize(other, slots);
  }

  /** How many rows a full window of one queue puts in front of everything less urgent. */
  function Front(p: Params, queue: string): nat {
    |Joins(Upto(p.oversample), SlotsOf(p, queue))|
  }

  lemma FrontIsProduct(p: Params, queue: string)
    ensures Front(p, queue) == p.oversample * (|SlotsOf(p, queue)| * |SlotsOf(p, queue)|)
  {
    JoinsSize(Upto(p.oversample), SlotsOf(p, queue));
  }

  /** The round still has room behind a full window of this queue, for a job of another. */
  predicate TooNarrow(cfg: Config, p: Params, actor: string, queue: string)
    requires actor in cfg
  {
    && queue in p.queues && (exists i :: 0 <= i < |p.queues| && p.queues[i] != queue) && p.oversample > 0
    && Front(p, queue) < p.limit && (cfg[actor].None? || Front(p, queue) < cfg[actor].value)
  }

  ghost predicate AlwaysRespectsPriority(v: Variant, cfg: Config, p: Params, actor: string) {
    forall db: Jobs, ties: Ties | NullIdentities(db) :: RespectsPriority(v, db, cfg, p, ties, actor)
  }

  // ----- an inversion leaves room behind a full window -----

  /** The row that the join makes of two slots of one job. */
  function Joined(v: Variant, db: Jobs, cfg: Config, p: Params, id: nat, top: nat, slot: nat): Locked
    requires id in db
  {
    Locked(id, top, slot, WithRank(db, Candidates(v, db, cfg, p), Row(id, slot)).rank)
  }

  lemma BetterPairHeld(v: Variant, db: Jobs, cfg: Config, p: Params, ties: Ties, id: nat, top: nat, slot: nat, l: Locked)
    requires NullIdentities(db) && l in EligibleCandidates(db, cfg, AllLocked(v, db, cfg, p)) && id in db
    requires Row(id, top) in Candidates(v, db, cfg, p) && Row(id, slot) in Candidates(v, db, cfg, p)
    requires db[id].actor == db[l.id].actor && Better(db[id], db[l.id])
    ensures var k := Joined(v, db, cfg, p, id, top, slot);
            && k in EligibleCandidates(db, cfg, AllLocked(v, db, cfg, p))
            && ActorSooner(db, ties.actor, k, l) && FinalSooner(db, ties.final, k, l)
  {
    BetterRowIsAhead(v, db, cfg, p, ties, Row(id, top), l);
    BetterRowIsAhead(v, db, cfg, p, ties, Row(id, slot), l);
    JoinedHeld(v, db, cfg, p, id, top, slot);
  }

  lemma JoinedHeld(v: Variant, db: Jobs, cfg: Config, p: Params, id: nat, top: nat, slot: nat)
    requires id in db
    requires WithRank(db, Candidates(v, db, cfg, p), Row(id, top)) in Top(v, db, cfg, p)
    requires WithRank(db, Candidates(v, db, cfg, p), Row(id, slot)) in Top(v, db, cfg, p)
    ensures Joined(v, db, cfg, p, id, top, slot) in AllLocked(v, db, cfg, p)
  {
  }

  lemma BetterPairAdmitted(v: Variant, db: Jobs, cfg: Config, p: Params, ties: Ties, id: nat, top: nat, slot: nat, l: Locked)
    requires NullIdentities(db) && l in Admitted(db, cfg, ties, AllLocked(v, db, cfg, p)) && id in db
    requires Row(id, top) in Candidates(v, db, cfg, p) && Row(id, slot) in Candidates(v, db, cfg, p)
    requires db[id].actor == db[l.id].actor && Better(db[id], db[l.id])
    ensures Joined(v, db, cfg, p, id, top, slot) in Admitted(db, cfg, ties, AllLocked(v, db, cfg, p))
  {
    var mine := LockedOf(db, EligibleCandidates(db, cfg, AllLocked(v, db, cfg, p)), db[l.id].actor);
    BetterPairHeld(v, db, cfg, p, ties, id, top, slot, l);
    ActorTotal(db, ties, mine);
    RowNumberMonotone(mine, ByActor(db, ties), Joined(v, db, cfg, p, id, top, slot), l);
  }

  /** As many rows as jobs kept times pairs of slots. */
  lemma JoinedCount(v: Variant, db: Jobs, cfg: Config, p: Params, kept: set<nat>, slots: set<nat>, ahead: set<Locked>)
    requires forall id, top, slot | id in kept && top in slots && slot in slots ::
               id in db && Joined(v, db, cfg, p, id, top, slot) in ahead
    ensures |Joins(kept, slots)| <= |ahead|
  {
    var triples := Joins(kept, slots);
    var f := (t: (nat, (nat, nat))) => if t.0 in db then Joined(v, db, cfg, p, t.0, t.1.0, t.1.1) else Locked(t.0, t.1.0, t.1.1, 0);
    forall t | t in triples ensures f(t) in ahead {}
    forall t, u | t in triples && u in triples && f(t) == f(u) ensures t == u {}
    InjectionSize(triples, ahead, f);
  }

  ghost predicate FullWindow(v: Variant, db: Jobs, cfg: Config, p: Params, kept: set<nat>, slots: set<nat>, l: Locked) {
    l.id in db && forall id | id in kept :: id in db && db[id].actor == db[l.id].actor && Better(db[id], db[l.id]) &&
                    forall slot | slot in slots :: Row(id, slot) in Candidates(v, db, cfg, p)
  }

  lemma WindowWithinLimit(v: Variant, db: Jobs, cfg: Config, p: Params, ties: Ties, kept: set<nat>, slots: set<nat>, l: Locked)
    requires NullIdentities(db) && l in Eligible(db, cfg, p.limit, ties, AllLocked(v, db, cfg, p))
    requires FullWindow(v, db, cfg, p, kept, slots, l)
    ensures |Joins(kept, slots)| < p.limit
  {
    var ahead := Ahead(Admitted(db, cfg, ties, AllLocked(v, db, cfg, p)), ByFinal(db, ties), l);
    forall id, top, slot | id in kept && top in slots && slot in slots
      ensures id in db && Joined(v, db, cfg, p, id, top, slot) in ahead
    {
      BetterPairHeld(v, db, cfg, p, ties, id, top, slot, l);
      BetterPairAdmitted(v, db, cfg, p, ties, id, top, slot, l);
    }
    JoinedCount(v, db, cfg, p, kept, slots, ahead);
  }

  lemma WindowWithinCap(v: Variant, db: Jobs, cfg: Config, p: Params, ties: Ties, kept: set<nat>, slots: set<nat>, l: Locked)
    requires NullIdentities(db) && l in Admitted(db, cfg, ties, AllLocked(v, db, cfg, p))
    requires FullWindow(v, db, cfg, p, kept, slots, l) && Cap(cfg, db[l.id].actor).Some?
    ensures |Joins(kept, slots)| < Cap(cfg, db[l.id].actor).value
  {
    var mine := LockedOf(db, EligibleCandidates(db, cfg, AllLocked(v, db, cfg, p)), db[l.id].actor);
    var ahead := Ahead(mine, ByActor(db, ties), l);
    forall id, top, slot | id in kept && top in slots && slot in slots
      ensures id in db && Joined(v, db, cfg, p, id, top, slot) in ahead
    {
      BetterPairHeld(v, db, cfg, p, ties, id, top, slot, l);
    }
    JoinedCount(v, db, cfg, p, kept, slots, ahead);
  }

  lemma DroppedByWindow(v: Variant, db: Jobs, cfg: Config, p: Params, ties: Ties, l: Locked, b: nat, slot: nat)
    requires NullIdentities(db) && l in Eligible(db, cfg, p.limit, ties, AllLocked(v, db, cfg, p))
    requires Claimable(db, p, db[l.id].actor, b) && Better(db[b], db[l.id]) && b !in Uncontended(v, db, cfg, p, ties)
    requires slot < |p.queues| && p.queues[slot] == db[b].queue
    ensures b !in Window(v, db, cfg, p, db[b].actor, db[b].queue)
  {
    if b in Window(v, db, cfg, p, db[b].actor, db[b].queue) {
      BetterRowIsClaimed(v, db, cfg, p, ties, Row(b, slot), l);
    }
  }

  /** The window that dropped b is full of better rows, through every slot of its queue. */
  lemma DroppedWindowIsFull(v: Variant, db: Jobs, cfg: Config, p: Params, l: Locked, b: nat)
    requires l.id in db && Claimable(db, p, db[l.id].actor, b) && Better(db[b], db[l.id])
    requires db[b].actor in cfg && Residual(db, cfg, p.limit, db[b].actor) > 0
    requires b !in Window(v, db, cfg, p, db[b].actor, db[b].queue)
    ensures var kept := Window(v, db, cfg, p, db[b].actor, db[b].queue);
            |kept| == Wide(v, db, cfg, p, db[b].actor) && FullWindow(v, db, cfg, p, kept, SlotsOf(p, db[b].queue), l)
  {
    forall slot | slot in SlotsOf(p, db[b].queue)
      ensures forall x | x in Window(v, db, cfg, p, db[b].actor, db[b].queue) :: Row(x, slot) in Candidates(v, db, cfg, p)
    {
      KeptRowsAreBetter(v, db, cfg, p, b, slot, db[l.id]);
    }
    var slot: nat :| slot < |p.queues| && p.queues[slot] == db[b].queue;
    KeptRowsAreBetter(v, db, cfg, p, b, slot, db[l.id]);
  }

  /** A row planned from the queue of a better dropped one would have been dropped first. */
  lemma OtherQueue(v: Variant, db: Jobs, cfg: Config, p: Params, l: Locked, b: nat)
    requires l in AllLocked(v, db, cfg, p) && l.id in db
    requires Claimable(db, p, db[l.id].actor, b) && Better(db[b], db[l.id])
    requires b !in Window(v, db, cfg, p, db[b].actor, db[b].queue)
    ensures l.slot < |p.queues| && p.queues[l.slot] != db[b].queue
    ensures db[l.id].actor in cfg && Residual(db, cfg, p.limit, db[l.id].actor) > 0 && Wide(v, db, cfg, p, db[l.id].actor) > 0
  {
    HeldIsPlanned(v, db, cfg, p, l);
    var t := Ranked(l.id, l.slot, l.rank);
    PlannedInWindow(v, db, cfg, p, t);
    PlannedIsCandidate(v, db, cfg, p, t);
    WindowNotEmpty(v, db, cfg, p, l.id, l.slot);
    if p.queues[l.slot] == db[b].queue { SoonerInWindow(v, db, cfg, p, db[b].actor, db[b].queue, l.id, b); }
  }

  lemma PlannedIsCandidate(v: Variant, db: Jobs, cfg: Config, p: Params, t: Ranked)
    requires t in Plan(v, db, cfg, p)
    ensures Row(t.id, t.slot) in Candidates(v, db, cfg, p)
  {
  }

  lemma InversionLeavesRoom(db: Jobs, cfg: Config, p: Params, ties: Ties, a: nat, b: nat)
    requires NullIdentities(db) && a in db && a in Uncontended(Rendered, db, cfg, p, ties)
    requires Claimable(db, p, db[a].actor, b) && Better(db[b], db[a]) && b !in Uncontended(Rendered, db, cfg, p, ties)
    ensures db[a].actor in cfg && TooNarrow(cfg, p, db[a].actor, db[b].queue)
  {
    var l :| l in Eligible(db, cfg, p.limit, ties, AllLocked(Rendered, db, cfg, p)) && l.id == a;
    InversionAt(db, cfg, p, ties, l, b);
  }

  lemma InversionAt(db: Jobs, cfg: Config, p: Params, ties: Ties, l: Locked, b: nat)
    requires NullIdentities(db) && l in Eligible(db, cfg, p.limit, ties, AllLocked(Rendered, db, cfg, p))
    requires Claimable(db, p, db[l.id].actor, b) && Better(db[b], db[l.id]) && b !in Uncontended(Rendered, db, cfg, p, ties)
    ensures db[l.id].actor in cfg && TooNarrow(cfg, p, db[l.id].actor, db[b].queue)
  {
    var slot: nat :| slot < |p.queues| && p.queues[slot] == db[b].queue;
    DroppedByWindow(Rendered, db, cfg, p, ties, l, b, slot);
    OtherQueue(Rendered, db, cfg, p, l, b);
    DroppedWindowIsFull(Rendered, db, cfg, p, l, b);
    FrontFits(db, cfg, p, ties, l, Window(Rendered, db, cfg, p, db[b].actor, db[b].queue), db[b].queue);
  }

  lemma FrontFits(db: Jobs, cfg: Config, p: Params, ties: Ties, l: Locked, kept: set<nat>, queue: string)
    requires NullIdentities(db) && l in Eligible(db, cfg, p.limit, ties, AllLocked(Rendered, db, cfg, p))
    requires FullWindow(Rendered, db, cfg, p, kept, SlotsOf(p, queue), l) && |kept| == p.oversample
    ensures Front(p, queue) < p.limit
    ensures Cap(cfg, db[l.id].actor).None? || Front(p, queue) < Cap(cfg, db[l.id].actor).value
  {
    SameJoins(kept, Upto(p.oversample), SlotsOf(p, queue));
    WindowWithinLimit(Rendered, db, cfg, p, ties, kept, SlotsOf(p, queue), l);
    if Cap(cfg, db[l.id].actor).Some? { WindowWithinCap(Rendered, db, cfg, p, ties, kept, SlotsOf(p, queue), l); }
  }

  // ----- and where there is room an inversion exists -----

  function PlanBut(v: Variant, db: Jobs, cfg: Config, p: Params, id: nat): set<Ranked> {
    set t | t in Plan(v, db, cfg, p) && t.id != id
  }

  function HeldBut(v: Variant, db: Jobs, cfg: Config, p: Params, id: nat): set<Locked> {
    set l | l in AllLocked(v, db, cfg, p) && l.id != id
  }

  ghost predicate IsPlanned(v: Variant, db: Jobs, cfg: Config, p: Params, id: nat) {
    exists t :: t in Plan(v, db, cfg, p) && t.id == id
  }

  /** A planned job is claimed when the rows of all others leave room for one more. */
  lemma RoomForOne(v: Variant, db: Jobs, cfg: Config, p: Params, ties: Ties, actor: string, id: nat)
    requires IsPlanned(v, db, cfg, p, id) && forall k | k in db :: db[k].actor == actor
    requires |PlanBut(v, db, cfg, p, id)| < TopLimit(v, p) && |HeldBut(v, db, cfg, p, id)| < p.limit
    requires Cap(cfg, actor).None? || InFlight(db, actor) + |HeldBut(v, db, cfg, p, id)| < Cap(cfg, actor).value
    ensures id in Uncontended(v, db, cfg, p, ties)
  {
    var l := HeldToo(v, db, cfg, p, id);
    forall x | x in AllLocked(v, db, cfg, p) ensures x.id in db { HeldIsPlanned(v, db, cfg, p, x); }
    var k := AdmittedToo(db, cfg, ties, actor, id, AllLocked(v, db, cfg, p), HeldBut(v, db, cfg, p, id), l);
    EligibleToo(db, cfg, p.limit, ties, id, AllLocked(v, db, cfg, p), HeldBut(v, db, cfg, p, id), k);
  }

  lemma HeldToo(v: Variant, db: Jobs, cfg: Config, p: Params, id: nat) returns (l: Locked)
    requires IsPlanned(v, db, cfg, p, id) && |PlanBut(v, db, cfg, p, id)| < TopLimit(v, p)
    ensures l in AllLocked(v, db, cfg, p) && l.id == id
  {
    forall t | t in Plan(v, db, cfg, p) ensures t.id in db { PlannedInWindow(v, db, cfg, p, t); }
    var t := TopToo(db, Plan(v, db, cfg, p), PlanBut(v, db, cfg, p, id), id, TopLimit(v, p));
    l := AsLocked(t);
  }

  lemma TopToo(db: Jobs, plan: set<Ranked>, others: set<Ranked>, id: nat, n: nat) returns (t: Ranked)
    requires (forall t | t in plan :: t.id in db) && (exists t :: t in plan && t.id == id)
    requires others == (set t | t in plan && t.id != id) && |others| < n
    ensures t in Limit(plan, ByTop(db), n) && t.id == id
  {
    TopTotal(db, plan);
    var x :| x in plan && x.id == id;
    assert x in plan - others;
    t := FirstOf(plan, ByTop(db), plan - others);
    SubsetSize(Ahead(plan, ByTop(db), t), others);
  }

  lemma AdmittedToo(db: Jobs, cfg: Config, ties: Ties, actor: string, id: nat, all: set<Locked>, held': set<Locked>, l: Locked)
    returns (k: Locked)
    requires forall x | x in all :: x.id in db && db[x.id].actor == actor
    requires l in all && l.id == id && held' == set x | x in all && x.id != id
    requires Cap(cfg, actor).None? || InFlight(db, actor) + |held'| < Cap(cfg, actor).value
    ensures k in Admitted(db, cfg, ties, all) && k.id == id
  {
    assert EligibleCandidates(db, cfg, all) == all && LockedOf(db, all, actor) == all;
    ActorTotal(db, ties, all);
    assert l in all - held';
    k := FirstOf(all, ByActor(db, ties), all - held');
    SubsetSize(Ahead(all, ByActor(db, ties), k), held');
  }

  lemma EligibleToo(db: Jobs, cfg: Config, limit: nat, ties: Ties, id: nat, all: set<Locked>, held': set<Locked>, k: Locked)
    requires held' == (set x | x in all && x.id != id) && |held'| < limit
    requires k in Admitted(db, cfg, ties, all) && k.id == id
    ensures id in EligibleIds(db, cfg, limit, ties, all)
  {
    var admitted := Admitted(db, cfg, ties, all);
    FinalTotal(db, ties, admitted);
    assert k in admitted - held';
    var l := FirstOf(admitted, ByFinal(db, ties), admitted - held');
    SubsetSize(Ahead(admitted, ByFinal(db, ties), l), held');
    assert l in Eligible(db, cfg, limit, ties, all);
  }

  function CrowdJob(p: Params, actor: string, queue: string, other: string, n: nat, id: nat): Job {
    if id <= n then Job(actor, queue, None, 1, p.now, None, Pending, 0) else Job(actor, other, None, 0, p.now, None, Pending, 0)
  }

  /** n + 1 urgent jobs in one queue, one other job in another. */
  ghost predicate Crowd(db: Jobs, p: Params, actor: string, queue: string, other: string, n: nat) {
    (forall id: nat :: id in db <==> id < n + 2) && forall id | id in db :: db[id] == CrowdJob(p, actor, queue, other, n, id)
  }

  lemma CrowdExists(p: Params, actor: string, queue: string, other: string, n: nat) returns (db: Jobs)
    ensures Crowd(db, p, actor, queue, other, n)
  {
    var ids := Upto(n + 2);
    db := map id | id in ids :: CrowdJob(p, actor, queue, other, n, id);
  }

  /** The last urgent job does not fit its window. */
  lemma LastUrgentDropped(db: Jobs, cfg: Config, p: Params, actor: string, queue: string, other: string)
    requires Crowd(db, p, actor, queue, other, p.oversample) && queue != other
    ensures p.oversample !in Window(Rendered, db, cfg, p, actor, queue)
  {
    var n := p.oversample;
    var probe := Probe(db, p.now, actor, queue);
    forall k | k in Upto(n) ensures k in Ahead(probe, ByPriority(db), n) {}
    SubsetSize(Upto(n), Ahead(probe, ByPriority(db), n));
  }

  lemma OtherInWindow(db: Jobs, cfg: Config, p: Params, actor: string, queue: string, other: string)
    requires Crowd(db, p, actor, queue, other, p.oversample) && queue != other && p.oversample > 0
    ensures p.oversample + 1 in Window(Rendered, db, cfg, p, actor, other)
  {
    var n := p.oversample;
    var probe := Probe(db, p.now, actor, other);
    assert probe == {n + 1};
    assert Ahead<nat>(probe, ByPriority(db), n + 1) == {};
  }

  lemma CrowdPlanned(db: Jobs, cfg: Config, p: Params, actor: string, queue: string, other: string, t: Ranked)
    requires Crowd(db, p, actor, queue, other, p.oversample) && queue != other && t in Plan(Rendered, db, cfg, p)
    ensures t.id == p.oversample + 1 || (t.id < p.oversample && t.slot in SlotsOf(p, queue))
  {
    PlannedInWindow(Rendered, db, cfg, p, t);
    LastUrgentDropped(db, cfg, p, actor, queue, other);
  }

  /** A planned row is known by its job and its slot. */
  lemma PlannedOnce(v: Variant, db: Jobs, cfg: Config, p: Params, x: Ranked, y: Ranked)
    requires x in Plan(v, db, cfg, p) && y in Plan(v, db, cfg, p) && x.id == y.id && x.slot == y.slot
    ensures x == y
  {
  }

  lemma CrowdPlanSize(db: Jobs, cfg: Config, p: Params, actor: string, queue: string, other: string)
    requires Crowd(db, p, actor, queue, other, p.oversample) && queue != other
    ensures |PlanBut(Rendered, db, cfg, p, p.oversample + 1)| <= Front(p, queue)
  {
    var plan' := PlanBut(Rendered, db, cfg, p, p.oversample + 1);
    var joins := Joins(Upto(p.oversample), SlotsOf(p, queue));
    forall t | t in plan' ensures (t.id, (t.slot, t.slot)) in joins { CrowdPlanned(db, cfg, p, actor, queue, other, t); }
    forall x, y | x in plan' && y in plan' && (x.id, (x.slot, x.slot)) == (y.id, (y.slot, y.slot)) ensures x == y {
      PlannedOnce(Rendered, db, cfg, p, x, y);
    }
    InjectionSize(plan', joins, (t: Ranked) => (t.id, (t.slot, t.slot)));
  }

  lemma CrowdHeldSize(db: Jobs, cfg: Config, p: Params, actor: string, queue: string, other: string)
    requires Crowd(db, p, actor, queue, other, p.oversample) && queue != other
    ensures |HeldBut(Rendered, db, cfg, p, p.oversample + 1)| <= Front(p, queue)
  {
    var held' := HeldBut(Rendered, db, cfg, p, p.oversample + 1);
    var triples := Joins(Upto(p.oversample), SlotsOf(p, queue));
    forall l | l in held' ensures (l.id, (l.top, l.slot)) in triples { CrowdHeld(db, cfg, p, actor, queue, other, l); }
    forall x, y | x in held' && y in held' && (x.id, (x.top, x.slot)) == (y.id, (y.top, y.slot)) ensures x == y {
      HeldIsPlanned(Rendered, db, cfg, p, x);
      HeldIsPlanned(Rendered, db, cfg, p, y);
      PlannedOnce(Rendered, db, cfg, p, Ranked(x.id, x.slot, x.rank), Ranked(y.id, y.slot, y.rank));
    }
    InjectionSize(held', triples, (l: Locked) => (l.id, (l.top, l.slot)));
  }

  lemma CrowdHeld(db: Jobs, cfg: Config, p: Params, actor: string, queue: string, other: string, l: Locked)
    requires Crowd(db, p, actor, queue, other, p.oversample) && queue != other
    requires l in AllLocked(Rendered, db, cfg, p) && l.id != p.oversample + 1
    ensures l.id < p.oversample && l.top in SlotsOf(p, queue) && l.slot in SlotsOf(p, queue)
  {
    HeldIsPlanned(Rendered, db, cfg, p, l);
    CrowdPlanned(db, cfg, p, actor, queue, other, Ranked(l.id, l.slot, l.rank));
    var t :| t in Top(Rendered, db, cfg, p) && t.id == l.id && t.slot == l.top;
    CrowdPlanned(db, cfg, p, actor, queue, other, t);
  }

  lemma OtherPlanned(db: Jobs, cfg: Config, p: Params, actor: string, queue: string, other: string, slot: nat)
    requires Crowd(db, p, actor, queue, other, p.oversample) && queue != other && p.oversample > 0 && p.limit > 0
    requires actor in cfg && (cfg[actor].None? || cfg[actor].value > 0) && slot < |p.queues| && p.queues[slot] == other
    ensures InFlight(db, actor) == 0 && IsPlanned(Rendered, db, cfg, p, p.oversample + 1)
  {
    var id := p.oversample + 1;
    assert RunningOf(db, actor) == {};
    OtherInWindow(db, cfg, p, actor, queue, other);
    assert Row(id, slot) in Candidates(Rendered, db, cfg, p);
    DedupKeepsNull(Rendered, db, cfg, p);
    assert WithRank(db, Candidates(Rendered, db, cfg, p), Row(id, slot)) in Plan(Rendered, db, cfg, p);
  }

  lemma CrowdRoom(db: Jobs, cfg: Config, p: Params, actor: string, queue: string, other: string)
    requires actor in cfg && TooNarrow(cfg, p, actor, queue) && queue != other && Crowd(db, p, actor, queue, other, p.oversample)
    ensures |PlanBut(Rendered, db, cfg, p, p.oversample + 1)| < p.limit
    ensures |HeldBut(Rendered, db, cfg, p, p.oversample + 1)| < p.limit
    ensures cfg[actor].None? || |HeldBut(Rendered, db, cfg, p, p.oversample + 1)| < cfg[actor].value
  {
    CrowdPlanSize(db, cfg, p, actor, queue, other);
    CrowdHeldSize(db, cfg, p, actor, queue, other);
  }

  lemma CrowdOtherClaimed(db: Jobs, cfg: Config, p: Params, ties: Ties, actor: string, queue: string, other: string, slot: nat)
    requires actor in cfg && TooNarrow(cfg, p, actor, queue) && slot < |p.queues| && p.queues[slot] == other && queue != other
    requires Crowd(db, p, actor, queue, other, p.oversample)
    ensures p.oversample + 1 in Uncontended(Rendered, db, cfg, p, ties)
  {
    CrowdRoom(db, cfg, p, actor, queue, other);
    OtherPlanned(db, cfg, p, actor, queue, other, slot);
    RoomForOne(Rendered, db, cfg, p, ties, actor, p.oversample + 1);
  }

  lemma UrgentNotClaimed(db: Jobs, cfg: Config, p: Params, ties: Ties, actor: string, queue: string, other: string)
    requires Crowd(db, p, actor, queue, other, p.oversample) && queue != other
    ensures p.oversample !in Uncontended(Rendered, db, cfg, p, ties)
  {
    var n := p.oversample;
    if n in Uncontended(Rendered, db, cfg, p, ties) {
      ClaimedIsPlanned(Rendered, db, cfg, p, TopIds(Rendered, db, cfg, p), ties, n);
      var t :| t in Top(Rendered, db, cfg, p) && t.id == n;
      CrowdPlanned(db, cfg, p, actor, queue, other, t);
    }
  }

  lemma CrowdShape(db: Jobs, p: Params, actor: string, queue: string, other: string, n: nat)
    requires Crowd(db, p, actor, queue, other, n) && queue in p.queues
    ensures NullIdentities(db) && n + 1 in db && db[n + 1].actor == actor
    ensures Claimable(db, p, actor, n) && Better(db[n], db[n + 1])
  {
  }

  /** The window holds back the last urgent job and lets the less urgent one through. */
  lemma NarrowWindowInverts(db: Jobs, cfg: Config, p: Params, ties: Ties, actor: string, queue: string, other: string)
    requires actor in cfg && TooNarrow(cfg, p, actor, queue) && other in p.queues && queue != other
    requires Crowd(db, p, actor, queue, other, p.oversample)
    ensures NullIdentities(db) && !RespectsPriority(Rendered, db, cfg, p, ties, actor)
  {
    var slot: nat :| slot < |p.queues| && p.queues[slot] == other;
    CrowdOtherClaimed(db, cfg, p, ties, actor, queue, other, slot);
    UrgentNotClaimed(db, cfg, p, ties, actor, queue, other);
    CrowdShape(db, p, actor, queue, other, p.oversample);
    Inverts(Rendered, db, cfg, p, ties, actor, p.oversample + 1, p.oversample);
  }

  lemma Inverts(v: Variant, db: Jobs, cfg: Config, p: Params, ties: Ties, actor: string, a: nat, b: nat)
    requires a in Uncontended(v, db, cfg, p, ties) && a in db && db[a].actor == actor
    requires Claimable(db, p, actor, b) && Better(db[b], db[a]) && b !in Uncontended(v, db, cfg, p, ties)
    ensures !RespectsPriority(v, db, cfg, p, ties, actor)
  {
  }

  /**
    The rendered statement keeps priority on every backlog of null identities
    exactly when no subscribed queue's window is too narrow.
  */
  lemma RenderedRespectsPriorityIff(cfg: Config, p: Params, actor: string)
    requires actor in cfg
    ensures AlwaysRespectsPriority(Rendered, cfg, p, actor) <==> forall queue | queue in p.queues :: !TooNarrow(cfg, p, actor, queue)
  {
    if queue :| queue in p.queues && TooNarrow(cfg, p, actor, queue) {
      SomeInversion(cfg, p, actor, queue);
    } else {
      forall db: Jobs, ties: Ties | NullIdentities(db) ensures RespectsPriority(Rendered, db, cfg, p, ties, actor) {
        NoInversion(db, cfg, p, ties, actor);
      }
    }
  }

  lemma SomeInversion(cfg: Config, p: Params, actor: string, queue: string)
    requires actor in cfg && TooNarrow(cfg, p, actor, queue)
    ensures !AlwaysRespectsPriority(Rendered, cfg, p, actor)
  {
    var i :| 0 <= i < |p.queues| && p.queues[i] != queue;
    var db := CrowdExists(p, actor, queue, p.queues[i], p.oversample);
    var ties := Ties((l: Locked) => 0, (l: Locked) => 0);
    NarrowWindowInverts(db, cfg, p, ties, actor, queue, p.queues[i]);
    BreaksAlways(Rendered, db, cfg, p, ties, actor);
  }

  lemma BreaksAlways(v: Variant, db: Jobs, cfg: Config, p: Params, ties: Ties, actor: string)
    requires NullIdentities(db) && !RespectsPriority(v, db, cfg, p, ties, actor)
    ensures !AlwaysRespectsPriority(v, cfg, p, actor)
  {
  }

  lemma NoInversion(db: Jobs, cfg: Config, p: Params, ties: Ties, actor: string)
    requires actor in cfg && NullIdentities(db) && forall queue | queue in p.queues :: !TooNarrow(cfg, p, actor, queue)
    ensures RespectsPriority(Rendered, db, cfg, p, ties, actor)
  {
    forall a, b | a in Uncontended(Rendered, db, cfg, p, ties) && a in db && db[a].actor == actor &&
                  Claimable(db, p, actor, b) && Better(db[b], db[a])
      ensures b in Uncontended(Rendered, db, cfg, p, ties)
    {
      if b !in Uncontended(Rendered, db, cfg, p, ties) { InversionLeavesRoom(db, cfg, p, ties, a, b); }
    }
  }

  lemma OneSlotJoins(ids: set<nat>, slot: nat)
    ensures |Joins(ids, {slot})| == |ids|
  {
    JoinsSize(ids, {slot});
    assert |ids| * (1 * 1) == |ids|;
  }

  lemma SlotsDistinct(p: Params, i: nat)
    requires Distinct(p.queues) && i < |p.queues|
    ensures SlotsOf(p, p.queues[i]) == {i}
  {
  }

  lemma DistinctFront(p: Params, i: nat)
    requires Distinct(p.queues) && i < |p.queues|
    ensures Front(p, p.queues[i]) == p.oversample
  {
    SlotsDistinct(p, i);
    OneSlotJoins(Upto(p.oversample), i);
  }

  /** With distinct names: one queue at most, or an oversample that is 0 or reaches the limit or the cap. */
  lemma DistinctQueues(cfg: Config, p: Params, actor: string)
    requires actor in cfg && Distinct(p.queues)
    ensures (forall queue | queue in p.queues :: !TooNarrow(cfg, p, actor, queue)) <==>
            || |p.queues| <= 1 || p.oversample == 0 || p.oversample >= p.limit
            || (cfg[actor].Some? && p.oversample >= cfg[actor].value)
  {
    forall i: nat | i < |p.queues| ensures Front(p, p.queues[i]) == p.oversample { DistinctFront(p, i); }
    if |p.queues| >= 2 { assert p.queues[0] in p.queues && p.queues[1] != p.queues[0]; }
  }
}
