/**
  Overlapping claim rounds.  A round reads its snapshot, tries the row locks one
  by one (skipping a row that is locked or no longer pending), and commits its
  UPDATE; the worker then writes a terminal status for each row it claimed, or goes
  on to its next round while those rows run.  The steps of different workers
  interleave freely, with each other and with enqueues.
*/
module Rounds {
  import opened Claim
  import opened ClaimSafety

  /** Where one drain loop is. */
  datatype Phase =
    | Idle
    | Locking(snap: Jobs, v: Variant, p: Params, todo: set<nat>, held: set<nat>)
    | Marking(batch: set<nat>, size: nat)
    | Done

  datatype State = State(db: Jobs, workers: seq<Phase>, drained: seq<nat>)

  datatype Step =
    | Begin(w: nat, v: Variant, p: Params)
    | Try(w: nat, id: nat)
    | Commit(w: nat, ties: Ties)
    | Mark(w: nat, id: nat)
    | Next(w: nat)
    | Restart(w: nat)
    | Detach(w: nat)
    | Complete(id: nat)
    | Enqueue(id: nat, job: Job)

  function HeldBy(ph: Phase): set<nat> {
    if ph.Locking? then ph.held else {}
  }

  function BatchOf(ph: Phase): set<nat> {
    if ph.Marking? then ph.batch else {}
  }

  predicate Free(s: State, id: nat) {
    forall w | 0 <= w < |s.workers| :: id !in HeldBy(s.workers[w])
  }

  /** FOR UPDATE SKIP LOCKED, after the status recheck on the current row. */
  predicate Lockable(s: State, id: nat) {
    id in s.db && s.db[id].status == Pending && Free(s, id)
  }

  function RoundClaims(cfg: Config, ph: Phase, ties: Ties): set<nat>
    requires ph.Locking?
  {
    Claims(ph.v, ph.snap, cfg, ph.p, ph.held, ties)
  }

  /** An empty round ends the loop; otherwise the claimed rows are worked off. */
  function Committed(s: State, w: nat, claimed: set<nat>): State
    requires w < |s.workers|
  {
    s.(db := Update(s.db, claimed),
       workers := s.workers[w := if claimed == {} then Done else Marking(claimed, |claimed|)])
  }

  predicate Enabled(s: State, step: Step) {
    match step
    case Begin(w, _, _) => w < |s.workers| && s.workers[w].Idle?
    case Try(w, id) => w < |s.workers| && s.workers[w].Locking? && id in s.workers[w].todo
    case Commit(w, _) => w < |s.workers| && s.workers[w].Locking? && s.workers[w].todo == {}
    case Mark(w, id) => w < |s.workers| && s.workers[w].Marking? && id in s.workers[w].batch && id in s.db
    case Next(w) => w < |s.workers| && w < |s.drained| && s.workers[w].Marking? && s.workers[w].batch == {}
    case Restart(w) => w < |s.workers| && s.workers[w].Done?
    case Detach(w) => w < |s.workers| && s.workers[w].Marking?
    case Complete(id) => id in s.db && s.db[id].status == Running && forall w | 0 <= w < |s.workers| :: id !in BatchOf(s.workers[w])
    case Enqueue(id, job) => id !in s.db && job.status == Pending
  }

  function Apply(cfg: Config, s: State, step: Step): State
    requires Enabled(s, step)
  {
    match step
    case Begin(w, v, p) =>
      s.(workers := s.workers[w := Locking(s.db, v, p, TopIds(v, s.db, cfg, p), {})])
    case Try(w, id) =>
      var ph := s.workers[w];
      var got := if Lockable(s, id) then {id} else {};
      s.(workers := s.workers[w := ph.(todo := ph.todo - {id}, held := ph.held + got)])
    case Commit(w, ties) =>
      Committed(s, w, RoundClaims(cfg, s.workers[w], ties))
    case Mark(w, id) =>
      var ph := s.workers[w];
      s.(db := s.db[id := s.db[id].(status := Finished)],
         workers := s.workers[w := ph.(batch := ph.batch - {id})])
    case Next(w) =>
      s.(workers := s.workers[w := Idle], drained := s.drained[w := s.drained[w] + s.workers[w].size])
    case Restart(w) =>
      s.(workers := s.workers[w := Idle])
    case Detach(w) =>
      s.(workers := s.workers[w := Idle])
    case Complete(id) =>
      s.(db := s.db[id := s.db[id].(status := Finished)])
    case Enqueue(id, job) =>
      s.(db := s.db[id := job])
  }

  ghost predicate IsRun(cfg: Config, states: seq<State>, steps: seq<Step>) {
    |states| == |steps| + 1 &&
    forall i | 0 <= i < |steps| :: Enabled(states[i], steps[i]) && states[i + 1] == Apply(cfg, states[i], steps[i])
  }

  function Sum(xs: seq<nat>): nat {
    if xs == [] then 0 else xs[0] + Sum(xs[1..])
  }

  lemma {:induction false} SumUpdate(xs: seq<nat>, i: nat, v: nat)
    requires i < |xs|
    ensures Sum(xs[i := v]) + xs[i] == Sum(xs) + v
  {
    if i == 0 {
      assert xs[0 := v][1..] == xs[1..];
    } else {
      assert xs[i := v][1..] == xs[1..][i - 1 := v];
      SumUpdate(xs[1..], i - 1, v);
    }
  }

  lemma {:induction false} SumZeros(xs: seq<nat>)
    requires forall i | 0 <= i < |xs| :: xs[i] == 0
    ensures Sum(xs) == 0
  {
    if xs != [] { SumZeros(xs[1..]); }
  }

  // ----- what every interleaving keeps -----

  /** Every held row has the given status, and one holder. */
  ghost predicate Owned(db: Jobs, parts: seq<set<nat>>, status: Status) {
    && (forall w, id | 0 <= w < |parts| && id in parts[w] :: id in db && db[id].status == status)
    && (forall u, w, id | 0 <= u < |parts| && 0 <= w < |parts| && id in parts[u] && id in parts[w] :: u == w)
  }

  function Holds(s: State): seq<set<nat>> {
    seq(|s.workers|, w requires 0 <= w < |s.workers| => HeldBy(s.workers[w]))
  }

  function Batches(s: State): seq<set<nat>> {
    seq(|s.workers|, w requires 0 <= w < |s.workers| => BatchOf(s.workers[w]))
  }

  /** Held rows are pending, claimed rows are running until marked, and both have one owner. */
  ghost predicate Inv(s: State) {
    |s.drained| == |s.workers| && Owned(s.db, Holds(s), Pending) && Owned(s.db, Batches(s), Running)
  }

  lemma HeldIsPending(s: State, w: nat, id: nat)
    requires Inv(s) && w < |s.workers| && id in HeldBy(s.workers[w])
    ensures id in s.db && s.db[id].status == Pending
  {
    assert id in Holds(s)[w];
  }

  lemma BatchIsRunning(s: State, w: nat, id: nat)
    requires Inv(s) && w < |s.workers| && id in BatchOf(s.workers[w])
    ensures id in s.db && s.db[id].status == Running
  {
    assert id in Batches(s)[w];
  }

  lemma ClaimsAreHeld(cfg: Config, ph: Phase, ties: Ties)
    requires ph.Locking?
    ensures RoundClaims(cfg, ph, ties) <= ph.held
  {
    forall id | id in RoundClaims(cfg, ph, ties) ensures id in ph.held {
      ClaimedIsPlanned(ph.v, ph.snap, cfg, ph.p, ph.held, ties, id);
    }
  }

  lemma CommittedRow(s: State, w: nat, claimed: set<nat>, id: nat)
    requires w < |s.workers| && id in claimed && id in s.db && s.db[id].status == Pending
    ensures id in Committed(s, w, claimed).db
    ensures Committed(s, w, claimed).db[id] == s.db[id].(status := Running, attempt := s.db[id].attempt + 1)
  {
  }

  /** The UPDATE's own status check drops nothing: a claimed row is pending and moves to running. */
  lemma CommitUpdates(cfg: Config, s: State, w: nat, ties: Ties, id: nat)
    requires Inv(s) && Enabled(s, Commit(w, ties)) && id in RoundClaims(cfg, s.workers[w], ties)
    ensures id in s.db && s.db[id].status == Pending
    ensures id in Apply(cfg, s, Commit(w, ties)).db
    ensures Apply(cfg, s, Commit(w, ties)).db[id] == s.db[id].(status := Running, attempt := s.db[id].attempt + 1)
  {
    var claimed := RoundClaims(cfg, s.workers[w], ties);
    ClaimsAreHeld(cfg, s.workers[w], ties);
    HeldIsPending(s, w, id);
    CommittedRow(s, w, claimed, id);
  }

  lemma TryKeepsInv(cfg: Config, s: State, w: nat, id: nat)
    requires Inv(s) && Enabled(s, Try(w, id))
    ensures Inv(Apply(cfg, s, Try(w, id)))
  {
    var s' := Apply(cfg, s, Try(w, id));
    var got := if Lockable(s, id) then {id} else {};
    assert Holds(s') == Holds(s)[w := Holds(s)[w] + got];
    assert Batches(s') == Batches(s);
    if Lockable(s, id) {
      assert forall u | 0 <= u < |s.workers| :: id !in Holds(s)[u];
    }
  }

  /** Rows move from held and pending to one batch and running. */
  lemma UpdateOwned(db: Jobs, holds: seq<set<nat>>, batches: seq<set<nat>>, w: nat, claimed: set<nat>)
    requires Owned(db, holds, Pending) && Owned(db, batches, Running)
    requires |holds| == |batches| && w < |holds| && claimed <= holds[w] && batches[w] == {}
    ensures Owned(Update(db, claimed), holds[w := {}], Pending)
    ensures Owned(Update(db, claimed), batches[w := claimed], Running)
  {
  }

  lemma CommitKeepsInv(s: State, w: nat, claimed: set<nat>)
    requires Inv(s) && w < |s.workers| && s.workers[w].Locking? && claimed <= s.workers[w].held
    ensures Inv(Committed(s, w, claimed))
  {
    var s' := Committed(s, w, claimed);
    assert Holds(s') == Holds(s)[w := {}];
    assert Batches(s') == Batches(s)[w := claimed];
    UpdateOwned(s.db, Holds(s), Batches(s), w, claimed);
  }

  lemma MarkKeepsInv(cfg: Config, s: State, w: nat, id: nat)
    requires Inv(s) && Enabled(s, Mark(w, id))
    ensures Inv(Apply(cfg, s, Mark(w, id)))
  {
    var s' := Apply(cfg, s, Mark(w, id));
    assert Holds(s') == Holds(s);
    assert Batches(s') == Batches(s)[w := Batches(s)[w] - {id}];
    assert id in Batches(s)[w];
  }

  lemma QuietKeepsInv(cfg: Config, s: State, step: Step)
    requires Inv(s) && Enabled(s, step) && (step.Begin? || step.Next? || step.Restart?)
    ensures Inv(Apply(cfg, s, step))
  {
    var s' := Apply(cfg, s, step);
    assert Holds(s') == Holds(s) && Batches(s') == Batches(s);
  }

  lemma StepKeepsInv(cfg: Config, s: State, step: Step)
    requires Inv(s) && Enabled(s, step)
    ensures Inv(Apply(cfg, s, step))
  {
    match step
    case Try(w, id) => TryKeepsInv(cfg, s, w, id);
    case Commit(w, ties) =>
      ClaimsAreHeld(cfg, s.workers[w], ties);
      CommitKeepsInv(s, w, RoundClaims(cfg, s.workers[w], ties));
    case Mark(w, id) => MarkKeepsInv(cfg, s, w, id);
    case Enqueue(id, job) =>
      var s' := Apply(cfg, s, step);
      assert Holds(s') == Holds(s) && Batches(s') == Batches(s);
    case Complete(id) =>
      var s' := Apply(cfg, s, step);
      assert Holds(s') == Holds(s) && Batches(s') == Batches(s);
    case Detach(w) =>
      var s' := Apply(cfg, s, step);
      assert Holds(s') == Holds(s) && Batches(s') == Batches(s)[w := {}];
    case Begin(_, _, _) => QuietKeepsInv(cfg, s, step);
    case Next(_) => QuietKeepsInv(cfg, s, step);
    case Restart(_) => QuietKeepsInv(cfg, s, step);
  }

  lemma {:induction false} RunKeepsInv(cfg: Config, states: seq<State>, steps: seq<Step>, n: nat)
    requires IsRun(cfg, states, steps) && n < |states| && Inv(states[0])
    ensures Inv(states[n])
  {
    if n > 0 {
      RunKeepsInv(cfg, states, steps, n - 1);
      StepKeepsInv(cfg, states[n - 1], steps[n - 1]);
    }
  }

  /** In every interleaving no row is locked by two rounds. */
  lemma LocksAreExclusive(cfg: Config, states: seq<State>, steps: seq<Step>, n: nat, u: nat, w: nat, id: nat)
    requires IsRun(cfg, states, steps) && n < |states|
    requires |states[0].drained| == |states[0].workers| && forall k | 0 <= k < |states[0].workers| :: states[0].workers[k].Idle?
    requires u < |states[n].workers| && w < |states[n].workers|
    requires id in HeldBy(states[n].workers[u]) && id in HeldBy(states[n].workers[w])
    ensures u == w
  {
    RunKeepsInv(cfg, states, steps, n);
    assert id in Holds(states[n])[u] && id in Holds(states[n])[w];
  }

  function ClaimedBy(cfg: Config, s: State, step: Step): set<nat> {
    if step.Commit? && Enabled(s, step) then RoundClaims(cfg, s.workers[step.w], step.ties) else {}
  }

  /** How many of the first n steps claimed the row. */
  function TimesClaimed(cfg: Config, states: seq<State>, steps: seq<Step>, id: nat, n: nat): nat
    requires n <= |steps| && n <= |states|
  {
    if n == 0 then 0
    else TimesClaimed(cfg, states, steps, id, n - 1) + (if id in ClaimedBy(cfg, states[n - 1], steps[n - 1]) then 1 else 0)
  }

  /** One step leaves a row alone, claims it while pending, or finishes it while running. */
  lemma RowStep(cfg: Config, s: State, step: Step, id: nat)
    requires Inv(s) && Enabled(s, step) && id in s.db
    ensures var s' := Apply(cfg, s, step);
            && id in s'.db
            && if id in ClaimedBy(cfg, s, step)
               then s.db[id].status == Pending && s'.db[id] == s.db[id].(status := Running, attempt := s.db[id].attempt + 1)
               else s'.db[id] == s.db[id] || (s.db[id].status == Running && s'.db[id] == s.db[id].(status := Finished))
  {
    match step
    case Commit(w, ties) =>
      if id in ClaimedBy(cfg, s, step) { CommitUpdates(cfg, s, w, ties, id); }
    case Mark(w, k) => BatchIsRunning(s, w, k);
    case _ =>
  }

  /** The rows a step finishes: a marked one, or a completed one nobody marks. */
  function FinishedBy(step: Step): set<nat> {
    if step.Mark? || step.Complete? then {step.id} else {}
  }

  /** The whole table after a step: enqueued rows come in as they are, claimed ones run, finished ones end, the rest stays. */
  lemma StepTable(cfg: Config, s: State, step: Step)
    requires Inv(s) && Enabled(s, step)
    ensures var s' := Apply(cfg, s, step);
            && s'.db.Keys == s.db.Keys + (if step.Enqueue? then {step.id} else {})
            && (step.Enqueue? ==> s'.db[step.id] == step.job)
            && forall id | id in s.db ::
                 s'.db[id] == if id in ClaimedBy(cfg, s, step) then s.db[id].(status := Running, attempt := s.db[id].attempt + 1)
                              else if id in FinishedBy(step) then s.db[id].(status := Finished)
                              else s.db[id]
  {
    forall id | id in s.db && id in ClaimedBy(cfg, s, step) ensures s.db[id].status == Pending { RowStep(cfg, s, step, id); }
  }

  /** A loop that has counted its batch, handed it on, or is started again can begin a round. */
  lemma LoopGoesOn(cfg: Config, s: State, step: Step, v: Variant, p: Params)
    requires Enabled(s, step) && (step.Next? || step.Detach? || step.Restart?)
    ensures Enabled(Apply(cfg, s, step), Begin(step.w, v, p))
  {
  }

  /**
    In every interleaving a pending row is claimed at most once, has left pending
    exactly when it was claimed, and carries one more attempt per claim.
  */
  lemma {:induction false} RowClaimedOnce(cfg: Config, states: seq<State>, steps: seq<Step>, id: nat, n: nat)
    requires IsRun(cfg, states, steps) && n <= |steps| && Inv(states[0])
    requires id in states[0].db && states[0].db[id].status == Pending
    ensures id in states[n].db
    ensures var times := TimesClaimed(cfg, states, steps, id, n);
            && times <= 1
            && (times == 1 <==> states[n].db[id].status != Pending)
            && states[n].db[id].attempt == states[0].db[id].attempt + times
  {
    if n > 0 {
      RowClaimedOnce(cfg, states, steps, id, n - 1);
      RunKeepsInv(cfg, states, steps, n - 1);
      RowStep(cfg, states[n - 1], steps[n - 1], id);
    }
  }

  /** The table and the loops, updated in place step by step. */
  class Cluster {
    const cfg: Config
    var db: Jobs
    var workers: seq<Phase>
    var drained: seq<nat>

    ghost function View(): State
      reads this
    {
      State(db, workers, drained)
    }

    constructor (cfg: Config, db: Jobs, n: nat)
      ensures this.cfg == cfg
      ensures View() == State(db, seq(n, _ => Idle), seq(n, _ => 0))
    {
      this.cfg, this.db := cfg, db;
      workers := seq(n, _ => Idle);
      drained := seq(n, _ => 0);
    }

    method BeginRound(w: nat, v: Variant, p: Params)
      requires Enabled(View(), Begin(w, v, p))
      modifies this
      ensures View() == Apply(cfg, old(View()), Begin(w, v, p))
    {
      workers := workers[w := Locking(db, v, p, TopIds(v, db, cfg, p), {})];
    }

    method TryLock(w: nat, id: nat)
      requires Enabled(View(), Try(w, id))
      modifies this
      ensures View() == Apply(cfg, old(View()), Try(w, id))
    {
      var ph := workers[w];
      var got := id in db && db[id].status == Pending;
      for k := 0 to |workers|
        invariant got <==> id in db && db[id].status == Pending && forall j | 0 <= j < k :: id !in HeldBy(workers[j])
        invariant View() == old(View())
      {
        got := got && id !in HeldBy(workers[k]);
      }
      assert got <==> Lockable(View(), id);
      workers := workers[w := ph.(todo := ph.todo - {id}, held := ph.held + if got then {id} else {})];
    }

    method CommitRound(w: nat, ties: Ties) returns (claimed: set<nat>)
      requires Enabled(View(), Commit(w, ties))
      modifies this
      ensures View() == Apply(cfg, old(View()), Commit(w, ties))
      ensures claimed == RoundClaims(cfg, old(View()).workers[w], ties)
    {
      claimed := RoundClaims(cfg, workers[w], ties);
      db := Update(db, claimed);
      workers := workers[w := if claimed == {} then Done else Marking(claimed, |claimed|)];
    }

    method MarkSucceeded(w: nat, id: nat)
      requires Enabled(View(), Mark(w, id))
      modifies this
      ensures View() == Apply(cfg, old(View()), Mark(w, id))
    {
      var ph := workers[w];
      db := db[id := db[id].(status := Finished)];
      workers := workers[w := ph.(batch := ph.batch - {id})];
    }

    method NextRound(w: nat)
      requires Enabled(View(), Next(w))
      modifies this
      ensures View() == Apply(cfg, old(View()), Next(w))
    {
      drained := drained[w := drained[w] + workers[w].size];
      workers := workers[w := Idle];
    }
  }
}
