/**
  How far overlapping rounds can overshoot.  The running counts are read in a
  round's snapshot and never again, so rounds that overlap each admit up to what
  their own snapshot leaves free.  A quota is a bound one serialized round keeps:
  an actor's max_concurrent, or one running job per identity.  With n workers the
  most that ever runs is the quota, plus for each other worker what one of its
  rounds can take: the quota again, or the round's limit if that is less.
*/
module Overdispatch {
  import opened Prelude
  import opened Ranking
  import opened Claim
  import ClaimSafety
  import opened Rounds

  datatype Quota =
    | OfActor(actor: string, cap: int)
    | OfIdentity(actor: string, key: string)

  /** The quota is the one the configuration sets. */
  predicate Declared(cfg: Config, q: Quota) {
    q.OfActor? ==> Cap(cfg, q.actor) == Some(q.cap)
  }

  function Size(q: Quota): nat {
    match q
    case OfActor(_, cap) => if cap > 0 then cap else 0
    case OfIdentity(_, _) => 1
  }

  predicate Counts(q: Quota, j: Job) {
    j.actor == q.actor && (q.OfIdentity? ==> j.identity == Some(q.key))
  }

  function RunningUnder(db: Jobs, q: Quota): set<nat> {
    set id | id in db && db[id].status == Running && Counts(q, db[id])
  }

  function Load(db: Jobs, q: Quota): nat {
    |RunningUnder(db, q)|
  }

  /** What a snapshot leaves free. */
  function Room(db: Jobs, q: Quota): nat {
    if Size(q) > Load(db, q) then Size(q) - Load(db, q) else 0
  }

  function IdsUnder(db: Jobs, ids: set<nat>, q: Quota): set<nat> {
    set id | id in ids && id in db && Counts(q, db[id])
  }

  /** The most rows one round can claim. */
  function RoundMax(v: Variant, p: Params): nat {
    Min(TopLimit(v, p), p.limit)
  }

  // ----- one round -----

  lemma ClaimsWithinRound(v: Variant, db: Jobs, cfg: Config, p: Params, held: set<nat>, ties: Ties)
    ensures |Claims(v, db, cfg, p, held, ties)| <= RoundMax(v, p)
  {
    var claims := Claims(v, db, cfg, p, held, ties);
    ClaimSafety.ClaimsWithinLimit(db, cfg, p.limit, ties, LockedRows(Plan(v, db, cfg, p), Top(v, db, cfg, p), held));
    forall id | id in claims ensures id in TopIds(v, db, cfg, p) { ClaimSafety.ClaimedIsPlanned(v, db, cfg, p, held, ties, id); }
    ClaimSafety.TopIdsBounded(v, db, cfg, p);
    SubsetSize(claims, TopIds(v, db, cfg, p));
  }

  lemma ClaimsWithinActor(v: Variant, db: Jobs, cfg: Config, p: Params, held: set<nat>, ties: Ties, q: Quota)
    requires q.OfActor? && Declared(cfg, q)
    ensures |IdsUnder(db, Claims(v, db, cfg, p, held, ties), q)| <= Room(db, q)
  {
    assert IdsUnder(db, Claims(v, db, cfg, p, held, ties), q) == ClaimSafety.IdsOf(db, Claims(v, db, cfg, p, held, ties), q.actor);
    assert RunningUnder(db, q) == RunningOf(db, q.actor);
    ClaimSafety.ClaimsWithinCap(db, cfg, p.limit, ties, LockedRows(Plan(v, db, cfg, p), Top(v, db, cfg, p), held), q.actor);
  }

  lemma FewerUnder(db: Jobs, ids: set<nat>, q: Quota)
    ensures |IdsUnder(db, ids, q)| <= |ids|
  {
    SubsetSize(IdsUnder(db, ids, q), ids);
  }

  /** A round claims no more under a quota than its own snapshot leaves free, and no more than a round can. */
  lemma ClaimsWithinRoom(v: Variant, db: Jobs, cfg: Config, p: Params, held: set<nat>, ties: Ties, q: Quota)
    requires Declared(cfg, q)
    ensures |IdsUnder(db, Claims(v, db, cfg, p, held, ties), q)| <= Min(Room(db, q), RoundMax(v, p))
  {
    ClaimsWithinRound(v, db, cfg, p, held, ties);
    FewerUnder(db, Claims(v, db, cfg, p, held, ties), q);
    if q.OfActor? {
      ClaimsWithinActor(v, db, cfg, p, held, ties, q);
    } else {
      ClaimsOneTwin(v, db, cfg, p, held, ties, q);
    }
  }

  lemma ClaimsOneTwin(v: Variant, db: Jobs, cfg: Config, p: Params, held: set<nat>, ties: Ties, q: Quota)
    requires q.OfIdentity?
    ensures |IdsUnder(db, Claims(v, db, cfg, p, held, ties), q)| <= Room(db, q)
  {
    var twins := IdsUnder(db, Claims(v, db, cfg, p, held, ties), q);
    if a :| a in twins {
      forall b | b in twins ensures b == a { ClaimSafety.ClaimsOneIdentity(v, db, cfg, p, held, ties, a, b); }
      forall b | b in db && Counts(q, db[b]) ensures db[b].status != Running {
        ClaimSafety.ClaimsOneIdentity(v, db, cfg, p, held, ties, a, b);
      }
      assert twins == {a} && RunningUnder(db, q) == {};
    }
  }

  lemma UpdateAddsLoad(db: Jobs, claimed: set<nat>, q: Quota)
    requires forall id | id in claimed :: id in db && db[id].status == Pending
    ensures Load(Update(db, claimed), q) == Load(db, q) + |IdsUnder(db, claimed, q)|
  {
    assert RunningUnder(Update(db, claimed), q) == RunningUnder(db, q) + IdsUnder(db, claimed, q);
    assert RunningUnder(db, q) !! IdsUnder(db, claimed, q);
  }

  // ----- every interleaving -----

  function RoomOf(ph: Phase, q: Quota): nat {
    if ph.Locking? then Min(Room(ph.snap, q), RoundMax(ph.v, ph.p)) else 0
  }

  /** What each round in progress may still claim. */
  function Rooms(s: State, q: Quota): seq<nat> {
    seq(|s.workers|, w requires 0 <= w < |s.workers| => RoomOf(s.workers[w], q))
  }

  /** Running now, plus all that the rounds in progress may still start. */
  function Potential(s: State, q: Quota): nat {
    Load(s.db, q) + Sum(Rooms(s, q))
  }

  /** A row a snapshot shows is still there, with the same actor and identity. */
  ghost predicate SnapAgrees(db: Jobs, snap: Jobs) {
    forall id | id in snap :: id in db && db[id].actor == snap[id].actor && db[id].identity == snap[id].identity
  }

  /** No round can take more than `top` rows of the quota. */
  predicate SmallRound(q: Quota, top: nat, v: Variant, p: Params) {
    Size(q) <= top || RoundMax(v, p) <= top
  }

  /** The bound: the whole quota for one worker, what one round can take for each other. */
  function Bound(q: Quota, top: nat, n: nat): int {
    Size(q) + (n - 1) * Min(Size(q), top)
  }

  ghost predicate QuotaInv(s: State, q: Quota, top: nat) {
    && Inv(s) && Potential(s, q) <= Bound(q, top, |s.workers|)
    && forall w | 0 <= w < |s.workers| && s.workers[w].Locking? ::
         SnapAgrees(s.db, s.workers[w].snap) && SmallRound(q, top, s.workers[w].v, s.workers[w].p)
  }

  lemma {:induction false} SumBound(xs: seq<nat>, top: nat)
    requires forall i | 0 <= i < |xs| :: xs[i] <= top
    ensures Sum(xs) <= |xs| * top
  {
    if xs != [] {
      SumBound(xs[1..], top);
      OneLess(|xs|, top);
    }
  }

  /** A round that begins sees what runs, so with it it fills one quota at most. */
  lemma BeginKeepsPotential(cfg: Config, s: State, w: nat, v: Variant, p: Params, q: Quota, top: nat)
    requires QuotaInv(s, q, top) && Enabled(s, Begin(w, v, p)) && SmallRound(q, top, v, p)
    ensures Potential(Apply(cfg, s, Begin(w, v, p)), q) <= Bound(q, top, |s.workers|)
  {
    var rooms, room := Rooms(s, q), Min(Room(s.db, q), RoundMax(v, p));
    assert Rooms(Apply(cfg, s, Begin(w, v, p)), q) == rooms[w := room];
    SumUpdate(rooms, w, room);
    OthersSum(rooms, w, Min(Size(q), top));
  }

  lemma OthersSum(rooms: seq<nat>, w: nat, most: nat)
    requires w < |rooms| && rooms[w] == 0 && forall i | 0 <= i < |rooms| :: rooms[i] <= most
    ensures Sum(rooms) <= (|rooms| - 1) * most
  {
    SumUpdate(rooms, w, most);
    SumBound(rooms[w := most], most);
    OneLess(|rooms|, most);
  }

  lemma OneLess(n: nat, most: nat)
    ensures n * most == most + (n - 1) * most
  {
  }

  lemma BoundNonneg(q: Quota, top: nat, n: nat)
    ensures Bound(q, top, n) >= 0
  {
    var most := Min(Size(q), top);
    if n >= 1 { assert (n - 1) * most >= 0; }
  }

  lemma CommitKeepsPotential(cfg: Config, s: State, w: nat, ties: Ties, q: Quota)
    requires Declared(cfg, q) && Inv(s) && Enabled(s, Commit(w, ties)) && SnapAgrees(s.db, s.workers[w].snap)
    ensures Potential(Apply(cfg, s, Commit(w, ties)), q) <= Potential(s, q)
  {
    var ph := s.workers[w];
    var claimed := RoundClaims(cfg, ph, ties);
    forall id | id in claimed ensures id in s.db && s.db[id].status == Pending { CommitUpdates(cfg, s, w, ties, id); }
    UpdateAddsLoad(s.db, claimed, q);
    ClaimsWithinRoom(ph.v, ph.snap, cfg, ph.p, ph.held, ties, q);
    SameIds(cfg, s, w, ties, q);
    assert Rooms(Apply(cfg, s, Commit(w, ties)), q) == Rooms(s, q)[w := 0];
    SumUpdate(Rooms(s, q), w, 0);
  }

  lemma SameIds(cfg: Config, s: State, w: nat, ties: Ties, q: Quota)
    requires Enabled(s, Commit(w, ties)) && SnapAgrees(s.db, s.workers[w].snap)
    ensures var ph := s.workers[w];
            IdsUnder(s.db, RoundClaims(cfg, ph, ties), q) == IdsUnder(ph.snap, RoundClaims(cfg, ph, ties), q)
  {
    var ph := s.workers[w];
    forall id | id in RoundClaims(cfg, ph, ties) ensures id in ph.snap {
      ClaimSafety.ClaimedIsPlanned(ph.v, ph.snap, cfg, ph.p, ph.held, ties, id);
    }
  }

  /** Other steps start nothing and open no round. */
  lemma OtherStepsKeepPotential(cfg: Config, s: State, step: Step, q: Quota)
    requires Inv(s) && Enabled(s, step) && !step.Begin? && !step.Commit?
    ensures Potential(Apply(cfg, s, step), q) <= Potential(s, q)
  {
    var s' := Apply(cfg, s, step);
    assert Rooms(s', q) == Rooms(s, q);
    assert RunningUnder(s'.db, q) <= RunningUnder(s.db, q);
    SubsetSize(RunningUnder(s'.db, q), RunningUnder(s.db, q));
  }

  lemma RowsStay(cfg: Config, s: State, step: Step, snap: Jobs)
    requires Inv(s) && Enabled(s, step) && SnapAgrees(s.db, snap)
    ensures SnapAgrees(Apply(cfg, s, step).db, snap)
  {
    forall id | id in snap ensures id in Apply(cfg, s, step).db { RowStep(cfg, s, step, id); }
    forall id | id in snap
      ensures var j := Apply(cfg, s, step).db[id]; j.actor == snap[id].actor && j.identity == snap[id].identity
    {
      RowStep(cfg, s, step, id);
    }
  }

  /** A step that begins a round begins a small one. */
  predicate SmallStep(q: Quota, top: nat, step: Step) {
    step.Begin? ==> SmallRound(q, top, step.v, step.p)
  }

  lemma SnapsStay(cfg: Config, s: State, step: Step, q: Quota, top: nat)
    requires QuotaInv(s, q, top) && Enabled(s, step) && SmallStep(q, top, step)
    ensures var s' := Apply(cfg, s, step);
            forall w | 0 <= w < |s'.workers| && s'.workers[w].Locking? ::
              SnapAgrees(s'.db, s'.workers[w].snap) && SmallRound(q, top, s'.workers[w].v, s'.workers[w].p)
  {
    var s' := Apply(cfg, s, step);
    forall w | 0 <= w < |s'.workers| && s'.workers[w].Locking?
      ensures SnapAgrees(s'.db, s'.workers[w].snap) && SmallRound(q, top, s'.workers[w].v, s'.workers[w].p)
    {
      if s.workers[w].Locking? { RowsStay(cfg, s, step, s.workers[w].snap); }
    }
  }

  lemma StepKeepsQuotaInv(cfg: Config, s: State, step: Step, q: Quota, top: nat)
    requires Declared(cfg, q) && QuotaInv(s, q, top) && Enabled(s, step) && SmallStep(q, top, step)
    ensures QuotaInv(Apply(cfg, s, step), q, top) && |Apply(cfg, s, step).workers| == |s.workers|
  {
    StepKeepsInv(cfg, s, step);
    SnapsStay(cfg, s, step, q, top);
    match step
    case Begin(w, v, p) => BeginKeepsPotential(cfg, s, w, v, p, q, top);
    case Commit(w, ties) => CommitKeepsPotential(cfg, s, w, ties, q);
    case _ => OtherStepsKeepPotential(cfg, s, step, q);
  }

  /** Idle workers over a table where nothing runs. */
  ghost predicate AtRest(s: State) {
    && |s.drained| == |s.workers| && (forall w | 0 <= w < |s.workers| :: s.workers[w].Idle?)
    && forall id | id in s.db :: s.db[id].status != Running
  }

  lemma RestIsQuotaInv(s: State, q: Quota, top: nat)
    requires AtRest(s)
    ensures QuotaInv(s, q, top)
  {
    SumZeros(Rooms(s, q));
    assert RunningUnder(s.db, q) == {};
    BoundNonneg(q, top, |s.workers|);
  }

  lemma {:induction false} RunKeepsQuotaInv(cfg: Config, states: seq<State>, steps: seq<Step>, q: Quota, top: nat, n: nat)
    requires Declared(cfg, q) && IsRun(cfg, states, steps) && AtRest(states[0]) && n < |states|
    requires forall i | 0 <= i < |steps| :: SmallStep(q, top, steps[i])
    ensures QuotaInv(states[n], q, top) && |states[n].workers| == |states[0].workers|
  {
    if n == 0 {
      RestIsQuotaInv(states[0], q, top);
    } else {
      RunKeepsQuotaInv(cfg, states, steps, q, top, n - 1);
      StepKeepsQuotaInv(cfg, states[n - 1], steps[n - 1], q, top);
    }
  }

  /**
    In every interleaving of n workers whose rounds take at most `top` rows, no more
    runs than the quota plus min(quota, top) for each of the n - 1 other workers.
  */
  lemma RoundsBoundLoad(cfg: Config, states: seq<State>, steps: seq<Step>, q: Quota, top: nat, i: nat)
    requires Declared(cfg, q) && IsRun(cfg, states, steps) && AtRest(states[0]) && i < |states|
    requires forall k | 0 <= k < |steps| :: SmallStep(q, top, steps[k])
    ensures Load(states[i].db, q) <= Bound(q, top, |states[0].workers|)
  {
    RunKeepsQuotaInv(cfg, states, steps, q, top, i);
  }

  /**
    Whatever the limits: a capped actor exceeds max_concurrent by at most (n - 1)
    times it, and an identity runs at most once per worker.
  */
  lemma OverdispatchBound(cfg: Config, states: seq<State>, steps: seq<Step>, q: Quota, i: nat)
    requires Declared(cfg, q) && IsRun(cfg, states, steps) && AtRest(states[0]) && i < |states|
    ensures Load(states[i].db, q) <= |states[0].workers| * Size(q)
  {
    RoundsBoundLoad(cfg, states, steps, q, Size(q), i);
    var n := |states[0].workers|;
    assert Size(q) + (n - 1) * Size(q) == n * Size(q);
  }
}
