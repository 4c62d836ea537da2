/**
  Producer slot accounting: one producer sizes its claims by an availability
  figure, awaits the claim, and puts the claimed rows on a bounded queue that
  max_concurrency consumers drain.  Steps between awaits interleave freely, so the
  figure can be stale when the claim returns.
*/
module Slots {

  type JobId = nat

  /** The availability expressions: before the change, after it, and as the shipped loop has it. */
  datatype Sizing = Emptiness | FreeSlots | WithIntents

  datatype Producer =
    | Ready
    | Claiming(limit: nat)
    | Putting(hand: seq<JobId>)

  /**
    A consumer waits; has taken a row off the queue; has marked its claim intent;
    is registered as active and working; or has written the terminal status and
    not yet deregistered.
  */
  datatype Consumer =
    | Waiting
    | Taken(job: JobId)
    | Intent(job: JobId)
    | Working(job: JobId)
    | Written(job: JobId)

  datatype State = State(max: nat, queue: seq<JobId>, producer: Producer, consumers: seq<Consumer>)

  datatype Step =
    | Size
    | Claimed(jobs: seq<JobId>)
    | Put
    | EndRound
    | Take(c: nat)
    | Mark(c: nat)
    | Register(c: nat)
    | Finish(c: nat)
    | Deregister(c: nat)

  predicate Active(k: Consumer) { k.Working? || k.Written? }

  function Count(ks: seq<Consumer>, counts: Consumer -> bool): nat {
    if ks == [] then 0 else (if counts(ks[0]) then 1 else 0) + Count(ks[1..], counts)
  }

  function IsBusy(): Consumer -> bool { (k: Consumer) => !k.Waiting? }
  function IsActive(): Consumer -> bool { (k: Consumer) => Active(k) }
  function IsIntent(): Consumer -> bool { (k: Consumer) => k.Intent? }
  function IsLocked(): Consumer -> bool { (k: Consumer) => k.Taken? || k.Intent? || k.Working? }

  function Available(kind: Sizing, s: State): int {
    match kind
    case Emptiness => s.max - |s.queue|
    case FreeSlots => s.max - |s.queue| - Count(s.consumers, IsActive())
    case WithIntents => s.max - |s.queue| - Count(s.consumers, IsActive()) - Count(s.consumers, IsIntent())
  }

  predicate Enabled(s: State, step: Step) {
    match step
    case Size => s.producer.Ready?
    case Claimed(jobs) => s.producer.Claiming? && |jobs| <= s.producer.limit
    case Put => s.producer.Putting? && s.producer.hand != [] && |s.queue| < s.max
    case EndRound => s.producer.Putting? && s.producer.hand == []
    case Take(c) => c < |s.consumers| && s.consumers[c].Waiting? && s.queue != []
    case Mark(c) => c < |s.consumers| && s.consumers[c].Taken?
    case Register(c) => c < |s.consumers| && s.consumers[c].Intent?
    case Finish(c) => c < |s.consumers| && s.consumers[c].Working?
    case Deregister(c) => c < |s.consumers| && s.consumers[c].Written?
  }

  function Apply(kind: Sizing, s: State, step: Step): State
    requires Enabled(s, step)
  {
    match step
    case Size => if Available(kind, s) <= 0 then s else s.(producer := Claiming(Available(kind, s)))
    case Claimed(jobs) => s.(producer := Putting(jobs))
    case Put => s.(queue := s.queue + [s.producer.hand[0]], producer := Putting(s.producer.hand[1..]))
    case EndRound => s.(producer := Ready)
    case Take(c) => s.(queue := s.queue[1..], consumers := s.consumers[c := Taken(s.queue[0])])
    case Mark(c) => s.(consumers := s.consumers[c := Intent(s.consumers[c].job)])
    case Register(c) => s.(consumers := s.consumers[c := Working(s.consumers[c].job)])
    case Finish(c) => s.(consumers := s.consumers[c := Written(s.consumers[c].job)])
    case Deregister(c) => s.(consumers := s.consumers[c := Waiting])
  }

  ghost predicate IsRun(kind: Sizing, states: seq<State>, steps: seq<Step>) {
    |states| == |steps| + 1 &&
    forall i | 0 <= i < |steps| :: Enabled(states[i], steps[i]) && states[i + 1] == Apply(kind, states[i], steps[i])
  }

  predicate Initial(s: State, max: nat) {
    s == State(max, [], Ready, seq(max, _ => Waiting))
  }

  // ----- counting consumers -----

  lemma {:induction false} CountUpdate(ks: seq<Consumer>, counts: Consumer -> bool, c: nat, k: Consumer)
    requires c < |ks|
    ensures Count(ks[c := k], counts) == Count(ks, counts) - (if counts(ks[c]) then 1 else 0) + (if counts(k) then 1 else 0)
  {
    if c == 0 {
      assert ks[0 := k][1..] == ks[1..];
    } else {
      assert ks[c := k][1..] == ks[1..][c - 1 := k];
      CountUpdate(ks[1..], counts, c - 1, k);
    }
  }

  lemma {:induction false} CountBound(ks: seq<Consumer>, counts: Consumer -> bool)
    ensures Count(ks, counts) <= |ks|
  {
    if ks != [] { CountBound(ks[1..], counts); }
  }

  // ----- what is held -----

  /** Rows the producer is still to put, counting an outstanding claim in full. */
  function Due(p: Producer): nat {
    match p
    case Ready => 0
    case Claiming(limit) => limit
    case Putting(hand) => |hand|
  }

  function InHand(p: Producer): nat {
    if p.Putting? then |p.hand| else 0
  }

  /** Queued, in hand, and in the hands of a consumer. */
  function Held(s: State): nat {
    |s.queue| + InHand(s.producer) + Count(s.consumers, IsBusy())
  }

  /** Rows the database shows as running and locked by this worker. */
  function LockedRows(s: State): nat {
    |s.queue| + InHand(s.producer) + Count(s.consumers, IsLocked())
  }

  /** Held, plus what an outstanding claim may still bring. */
  function Demand(s: State): nat {
    |s.queue| + Due(s.producer) + Count(s.consumers, IsBusy())
  }

  /** Rows the sizing expression does not see. */
  function Hidden(kind: Sizing, s: State): int {
    match kind
    case Emptiness => Count(s.consumers, IsBusy())
    case FreeSlots => Count(s.consumers, IsBusy()) - Count(s.consumers, IsActive())
    case WithIntents => Count(s.consumers, IsBusy()) - Count(s.consumers, IsActive()) - Count(s.consumers, IsIntent())
  }

  lemma {:induction false} LockedWithinHeld(ks: seq<Consumer>)
    ensures Count(ks, IsLocked()) <= Count(ks, IsBusy())
  {
    if ks != [] { LockedWithinHeld(ks[1..]); }
  }

  /** The figure is exact up to the rows it does not see: a claim keeps the bound exactly when there are none. */
  lemma SizeKeepsBoundIff(kind: Sizing, s: State)
    requires Enabled(s, Size) && Available(kind, s) > 0
    ensures Demand(Apply(kind, s, Size)) == s.max + Hidden(kind, s)
    ensures Demand(Apply(kind, s, Size)) <= s.max <==> Hidden(kind, s) <= 0
  {
  }

  /** A claim that comes back full has all of it in hand, so what the figure missed is what the worker holds too many. */
  lemma FullClaimHolds(kind: Sizing, s: State, jobs: seq<JobId>)
    requires Enabled(s, Size) && Available(kind, s) > 0 && |jobs| == Available(kind, s)
    ensures var claiming := Apply(kind, s, Size);
            && Enabled(claiming, Claimed(jobs))
            && Held(Apply(kind, claiming, Claimed(jobs))) == s.max + Hidden(kind, s)
            && (Held(Apply(kind, claiming, Claimed(jobs))) <= s.max <==> Hidden(kind, s) <= 0)
  {
    SizeKeepsBoundIff(kind, s);
  }

  /** No other step adds to what is held. */
  lemma OtherStepsShrink(kind: Sizing, s: State, step: Step)
    requires Enabled(s, step) && (step.Size? ==> Available(kind, s) <= 0)
    ensures Demand(Apply(kind, s, step)) <= Demand(s)
  {
    match step
    case Take(c) => CountUpdate(s.consumers, IsBusy(), c, Taken(s.queue[0]));
    case Mark(c) => CountUpdate(s.consumers, IsBusy(), c, Intent(s.consumers[c].job));
    case Register(c) => CountUpdate(s.consumers, IsBusy(), c, Working(s.consumers[c].job));
    case Finish(c) => CountUpdate(s.consumers, IsBusy(), c, Written(s.consumers[c].job));
    case Deregister(c) => CountUpdate(s.consumers, IsBusy(), c, Waiting);
    case _ =>
  }

  // ----- every run -----

  /** Everything due still fits in the queue. */
  ghost predicate Roomy(s: State) {
    |s.queue| + Due(s.producer) <= s.max && |s.consumers| == s.max
  }

  lemma StepKeepsRoomy(kind: Sizing, s: State, step: Step)
    requires Roomy(s) && Enabled(s, step)
    ensures Roomy(Apply(kind, s, step))
  {
  }

  lemma {:induction false} RunKeepsRoomy(kind: Sizing, states: seq<State>, steps: seq<Step>, max: nat, n: nat)
    requires IsRun(kind, states, steps) && Initial(states[0], max) && n < |states|
    ensures Roomy(states[n]) && states[n].max == max
  {
    if n > 0 {
      RunKeepsRoomy(kind, states, steps, max, n - 1);
      StepKeepsRoomy(kind, states[n - 1], steps[n - 1]);
    }
  }

  /** In every interleaving, under every sizing, a put never blocks. */
  lemma PutNeverBlocks(kind: Sizing, states: seq<State>, steps: seq<Step>, max: nat, n: nat)
    requires IsRun(kind, states, steps) && Initial(states[0], max) && n < |states|
    requires states[n].producer.Putting? && states[n].producer.hand != []
    ensures Enabled(states[n], Put)
  {
    RunKeepsRoomy(kind, states, steps, max, n);
  }

  /** ... and no more than twice max_concurrency rows are held or locked. */
  lemma HeldWithinTwice(kind: Sizing, states: seq<State>, steps: seq<Step>, max: nat, n: nat)
    requires IsRun(kind, states, steps) && Initial(states[0], max) && n < |states|
    ensures LockedRows(states[n]) <= Held(states[n]) <= 2 * max
  {
    RunKeepsRoomy(kind, states, steps, max, n);
    CountBound(states[n].consumers, IsBusy());
    LockedWithinHeld(states[n].consumers);
  }

  /** Every claim is sized while the figure sees every row. */
  ghost predicate SizedInFullView(kind: Sizing, states: seq<State>, steps: seq<Step>)
    requires |steps| <= |states|
  {
    forall i | 0 <= i < |steps| && steps[i].Size? :: Hidden(kind, states[i]) <= 0
  }

  lemma {:induction false} ViewBoundsDemand(kind: Sizing, states: seq<State>, steps: seq<Step>, max: nat, n: nat)
    requires IsRun(kind, states, steps) && Initial(states[0], max) && n < |states| && SizedInFullView(kind, states, steps)
    ensures Demand(states[n]) <= max
  {
    if n == 0 {
      NoneBusy(states[0].consumers);
    } else {
      var s, step := states[n - 1], steps[n - 1];
      ViewBoundsDemand(kind, states, steps, max, n - 1);
      RunKeepsRoomy(kind, states, steps, max, n - 1);
      if step.Size? && Available(kind, s) > 0 { SizeKeepsBoundIff(kind, s); } else { OtherStepsShrink(kind, s, step); }
    }
  }

  lemma {:induction false} NoneBusy(ks: seq<Consumer>)
    requires forall c | 0 <= c < |ks| :: ks[c].Waiting?
    ensures Count(ks, IsBusy()) == 0
  {
    if ks != [] { NoneBusy(ks[1..]); }
  }

  /** A sizing that misses a row, in a state that keeps the bound, breaks it. */
  lemma BlindSizingBreaks(kind: Sizing, s: State)
    requires Enabled(s, Size) && Demand(s) <= s.max && Hidden(kind, s) > 0
    ensures Demand(Apply(kind, s, Size)) > s.max
  {
    assert Available(kind, s) > 0;
    SizeKeepsBoundIff(kind, s);
  }

  /** A run never asks for more than max_concurrency rows exactly when every claim is sized in full view. */
  lemma DemandWithinSlotsIff(kind: Sizing, states: seq<State>, steps: seq<Step>, max: nat)
    requires IsRun(kind, states, steps) && Initial(states[0], max)
    ensures (forall n | 0 <= n < |states| :: Demand(states[n]) <= max) <==> SizedInFullView(kind, states, steps)
  {
    if SizedInFullView(kind, states, steps) {
      forall n | 0 <= n < |states| ensures Demand(states[n]) <= max { ViewBoundsDemand(kind, states, steps, max, n); }
    } else {
      var i :| 0 <= i < |steps| && steps[i].Size? && Hidden(kind, states[i]) > 0;
      RunKeepsRoomy(kind, states, steps, max, i);
      if Demand(states[i]) <= max {
        BlindSizingBreaks(kind, states[i]);
        assert Demand(states[i + 1]) > max;
      }
    }
  }

  /** Then at most max_concurrency rows are ever held or locked. */
  lemma HeldWithinSlots(kind: Sizing, states: seq<State>, steps: seq<Step>, max: nat, n: nat)
    requires IsRun(kind, states, steps) && Initial(states[0], max) && n < |states| && SizedInFullView(kind, states, steps)
    ensures LockedRows(states[n]) <= Held(states[n]) <= max
  {
    ViewBoundsDemand(kind, states, steps, max, n);
    LockedWithinHeld(states[n].consumers);
  }

  /** Every consumer is idle or registered. */
  predicate Settled(s: State) {
    forall c | 0 <= c < |s.consumers| :: s.consumers[c].Waiting? || Active(s.consumers[c])
  }

  /** A consumer that takes and registers a row with nothing in between is never out of the producer's sight. */
  lemma {:induction false} RegisteredAtOnce(ks: seq<Consumer>)
    requires forall c | 0 <= c < |ks| :: ks[c].Waiting? || Active(ks[c])
    ensures Count(ks, IsBusy()) == Count(ks, IsActive())
  {
    if ks != [] { RegisteredAtOnce(ks[1..]); }
  }

  /** So with an atomic take-and-register the free-slots figure keeps the bound. */
  lemma AtomicTakeKeepsBound(states: seq<State>, steps: seq<Step>, max: nat, n: nat)
    requires IsRun(FreeSlots, states, steps) && Initial(states[0], max) && n < |states|
    requires forall i | 0 <= i < |steps| && steps[i].Size? :: Settled(states[i])
    ensures LockedRows(states[n]) <= Held(states[n]) <= max
  {
    forall i | 0 <= i < |steps| && steps[i].Size? ensures Hidden(FreeSlots, states[i]) <= 0 {
      RegisteredAtOnce(states[i].consumers);
    }
    HeldWithinSlots(FreeSlots, states, steps, max, n);
  }

  // ----- which rows go where -----

  function Hand(p: Producer): seq<JobId> {
    if p.Putting? then p.hand else []
  }

  function Holding(id: JobId): Consumer -> bool {
    (k: Consumer) => !k.Waiting? && k.job == id
  }

  /** The rows a step claims, takes off the queue, and lets go of. */
  function Claims(step: Step): seq<JobId> {
    if step.Claimed? then step.jobs else []
  }

  function Takes(s: State, step: Step): seq<JobId>
    requires Enabled(s, step)
  {
    if step.Take? then s.queue[..1] else []
  }

  function Frees(s: State, step: Step): seq<JobId>
    requires Enabled(s, step)
  {
    if step.Deregister? then [s.consumers[step.c].job] else []
  }

  /** The same over the first n steps, in order. */
  ghost function AllClaimed(steps: seq<Step>, n: nat): seq<JobId>
    requires n <= |steps|
  {
    if n == 0 then [] else AllClaimed(steps, n - 1) + Claims(steps[n - 1])
  }

  ghost function AllTaken(kind: Sizing, states: seq<State>, steps: seq<Step>, n: nat): seq<JobId>
    requires IsRun(kind, states, steps) && n <= |steps|
  {
    if n == 0 then [] else AllTaken(kind, states, steps, n - 1) + Takes(states[n - 1], steps[n - 1])
  }

  ghost function AllFreed(kind: Sizing, states: seq<State>, steps: seq<Step>, n: nat): seq<JobId>
    requires IsRun(kind, states, steps) && n <= |steps|
  {
    if n == 0 then [] else AllFreed(kind, states, steps, n - 1) + Frees(states[n - 1], steps[n - 1])
  }

  /** A take hands over the head of the queue; no other step changes which row a consumer holds, except to let it go. */
  lemma StepHandsOver(kind: Sizing, s: State, step: Step, c: nat, id: JobId)
    requires Enabled(s, step) && c < |s.consumers|
    ensures var k, s' := s.consumers[c], Apply(kind, s, step);
            && |s'.consumers| == |s.consumers|
            && if step == Take(c) then s'.consumers[c] == Taken(s.queue[0]) && [s.queue[0]] + s'.queue == s.queue
               else if step == Deregister(c) then s'.consumers[c].Waiting?
               else Holding(id)(s'.consumers[c]) == Holding(id)(k)
  {
  }

  lemma QueueMoves(kind: Sizing, s: State, step: Step)
    requires Enabled(s, step)
    ensures var s' := Apply(kind, s, step);
            s.queue + Hand(s.producer) + Claims(step) == Takes(s, step) + s'.queue + Hand(s'.producer)
  {
  }

  lemma ConsumersMove(kind: Sizing, s: State, step: Step, id: JobId)
    requires Enabled(s, step)
    ensures Count(s.consumers, Holding(id)) + multiset(Takes(s, step))[id] ==
            Count(Apply(kind, s, step).consumers, Holding(id)) + multiset(Frees(s, step))[id]
  {
    if step.Take? || step.Mark? || step.Register? || step.Finish? || step.Deregister? {
      CountUpdate(s.consumers, Holding(id), step.c, Apply(kind, s, step).consumers[step.c]);
    }
  }

  /** In every interleaving rows are taken in the order they were claimed: those taken, queued and in hand, in that order. */
  lemma {:induction false} TakenInOrder(kind: Sizing, states: seq<State>, steps: seq<Step>, max: nat, n: nat)
    requires IsRun(kind, states, steps) && Initial(states[0], max) && n <= |steps|
    ensures AllTaken(kind, states, steps, n) + (states[n].queue + Hand(states[n].producer)) == AllClaimed(steps, n)
  {
    if n > 0 {
      var s, step, s' := states[n - 1], steps[n - 1], states[n];
      TakenInOrder(kind, states, steps, max, n - 1);
      QueueMoves(kind, s, step);
      Reassociate(AllTaken(kind, states, steps, n - 1), s.queue + Hand(s.producer), Claims(step),
                  Takes(s, step), s'.queue, Hand(s'.producer));
    }
  }

  lemma Reassociate(taken: seq<JobId>, due: seq<JobId>, claims: seq<JobId>, takes: seq<JobId>, queue: seq<JobId>, hand: seq<JobId>)
    requires due + claims == takes + queue + hand
    ensures taken + due + claims == taken + takes + (queue + hand)
  {
    assert taken + due + claims == taken + (due + claims);
    assert taken + (takes + queue + hand) == taken + takes + (queue + hand);
  }

  lemma {:induction false} NoneHolds(ks: seq<Consumer>, id: JobId)
    requires forall c | 0 <= c < |ks| :: ks[c].Waiting?
    ensures Count(ks, Holding(id)) == 0
  {
    if ks != [] { NoneHolds(ks[1..], id); }
  }

  /** ... and none is lost or made up: a row taken is with a consumer or has been let go, once for each time it was taken. */
  lemma {:induction false} TakenAreHeldOrFreed(kind: Sizing, states: seq<State>, steps: seq<Step>, max: nat, n: nat, id: JobId)
    requires IsRun(kind, states, steps) && Initial(states[0], max) && n <= |steps|
    ensures multiset(AllTaken(kind, states, steps, n))[id] ==
            Count(states[n].consumers, Holding(id)) + multiset(AllFreed(kind, states, steps, n))[id]
  {
    if n == 0 {
      NoneHolds(states[0].consumers, id);
    } else {
      TakenAreHeldOrFreed(kind, states, steps, max, n - 1, id);
      ConsumersMove(kind, states[n - 1], steps[n - 1], id);
    }
  }

  /** So a row claimed once is in one place: queued, in hand, with one consumer, or let go. */
  lemma ClaimedOnceHeldOnce(kind: Sizing, states: seq<State>, steps: seq<Step>, max: nat, n: nat, id: JobId)
    requires IsRun(kind, states, steps) && Initial(states[0], max) && n <= |steps|
    requires multiset(AllClaimed(steps, n))[id] == 1
    ensures multiset(states[n].queue)[id] + multiset(Hand(states[n].producer))[id] +
            Count(states[n].consumers, Holding(id)) + multiset(AllFreed(kind, states, steps, n))[id] == 1
  {
    TakenInOrder(kind, states, steps, max, n);
    TakenAreHeldOrFreed(kind, states, steps, max, n, id);
  }

  // ----- what the figures count -----

  lemma {:induction false} CountIsSize(ks: seq<Consumer>, counts: Consumer -> bool)
    ensures Count(ks, counts) == |Counted(ks, counts)|
  {
    if ks == [] {
      assert Counted(ks, counts) == {};
    } else {
      CountIsSize(ks[..|ks| - 1], counts);
      CountLast(ks, counts);
      CountedLast(ks, counts);
    }
  }

  function Counted(ks: seq<Consumer>, counts: Consumer -> bool): set<int> {
    set c | 0 <= c < |ks| && counts(ks[c])
  }

  lemma CountedLast(ks: seq<Consumer>, counts: Consumer -> bool)
    requires ks != []
    ensures var n := |ks| - 1;
            |Counted(ks, counts)| == |Counted(ks[..n], counts)| + if counts(ks[n]) then 1 else 0
  {
    var n := |ks| - 1;
    var before := Counted(ks[..n], counts);
    assert n !in before;
    assert Counted(ks, counts) == before + if counts(ks[n]) then {n} else {};
  }

  lemma {:induction false} CountLast(ks: seq<Consumer>, counts: Consumer -> bool)
    requires ks != []
    ensures Count(ks, counts) == Count(ks[..|ks| - 1], counts) + if counts(ks[|ks| - 1]) then 1 else 0
  {
    if |ks| > 1 {
      CountLast(ks[1..], counts);
      assert ks[1..][..|ks| - 2] == ks[..|ks| - 1][1..];
    }
  }

  /** The three figures and the two tallies, by what each consumer is doing. */
  lemma FiguresCount(s: State)
    ensures var active := set c | 0 <= c < |s.consumers| && (s.consumers[c].Working? || s.consumers[c].Written?);
            var intents := set c | 0 <= c < |s.consumers| && s.consumers[c].Intent?;
            && Available(Emptiness, s) == s.max - |s.queue|
            && Available(FreeSlots, s) == s.max - |s.queue| - |active|
            && Available(WithIntents, s) == s.max - |s.queue| - |active| - |intents|
    ensures var busy := set c | 0 <= c < |s.consumers| && !s.consumers[c].Waiting?;
            var unwritten := set c | 0 <= c < |s.consumers| && !s.consumers[c].Waiting? && !s.consumers[c].Written?;
            && Held(s) == |s.queue| + |Hand(s.producer)| + |busy|
            && LockedRows(s) == |s.queue| + |Hand(s.producer)| + |unwritten|
  {
    CountIsSize(s.consumers, IsActive());
    CountIsSize(s.consumers, IsIntent());
    CountIsSize(s.consumers, IsBusy());
    CountIsSize(s.consumers, IsLocked());
    assert Counted(s.consumers, IsActive()) ==
           set c | 0 <= c < |s.consumers| && (s.consumers[c].Working? || s.consumers[c].Written?);
    assert Counted(s.consumers, IsIntent()) ==
           set c | 0 <= c < |s.consumers| && s.consumers[c].Intent?;
    assert Counted(s.consumers, IsBusy()) ==
           set c | 0 <= c < |s.consumers| && !s.consumers[c].Waiting?;
    assert Counted(s.consumers, IsLocked()) ==
           set c | 0 <= c < |s.consumers| && !s.consumers[c].Waiting? && !s.consumers[c].Written?;
  }

  /**
    What each step does to the tallies: a claim locks its rows and a terminal write
    unlocks one; a put uses a place, a take frees one, a registration uses a slot and a
    deregistration frees one.  Nothing else moves them.
  */
  lemma StepMovesFigures(kind: Sizing, s: State, step: Step)
    requires Enabled(s, step)
    ensures var s' := Apply(kind, s, step);
            && LockedRows(s') == LockedRows(s) + |Claims(step)| - (if step.Finish? then 1 else 0)
            && Held(s') == Held(s) + |Claims(step)| - |Frees(s, step)|
            && Available(Emptiness, s') == Available(Emptiness, s) + |Takes(s, step)| - (if step.Put? then 1 else 0)
            && Available(FreeSlots, s') - Available(Emptiness, s') ==
               Available(FreeSlots, s) - Available(Emptiness, s) + |Frees(s, step)| - (if step.Register? then 1 else 0)
            && Available(WithIntents, s') - Available(FreeSlots, s') ==
               Available(WithIntents, s) - Available(FreeSlots, s) + (if step.Register? then 1 else 0) - (if step.Mark? then 1 else 0)
  {
    if step.Take? || step.Mark? || step.Register? || step.Finish? || step.Deregister? {
      var k := Apply(kind, s, step).consumers[step.c];
      CountUpdate(s.consumers, IsBusy(), step.c, k);
      CountUpdate(s.consumers, IsActive(), step.c, k);
      CountUpdate(s.consumers, IsIntent(), step.c, k);
      CountUpdate(s.consumers, IsLocked(), step.c, k);
    }
  }

  // ----- the bounds are attained -----

  /** A run from the start that, when `strict`, sizes claims only in settled states. */
  ghost predicate Path(kind: Sizing, strict: bool, states: seq<State>, steps: seq<Step>, max: nat) {
    IsRun(kind, states, steps) && Initial(states[0], max) &&
    (strict ==> forall i | 0 <= i < |steps| && steps[i].Size? :: Settled(states[i]))
  }

  function Last(states: seq<State>): State
    requires states != []
  {
    states[|states| - 1]
  }

  lemma Extend(kind: Sizing, strict: bool, states: seq<State>, steps: seq<Step>, max: nat, step: Step)
    returns (states': seq<State>, steps': seq<Step>)
    requires Path(kind, strict, states, steps, max) && Enabled(Last(states), step)
    requires strict && step.Size? ==> Settled(Last(states))
    ensures Path(kind, strict, states', steps', max) && Last(states') == Apply(kind, Last(states), step)
  {
    states' := states + [Apply(kind, Last(states), step)];
    steps' := steps + [step];
    assert forall i | 0 <= i < |steps| :: states'[i] == states[i] && steps'[i] == steps[i];
  }

  /** From an idle producer and an empty queue, a claim of everything the figure allows reaches the hand. */
  lemma ClaimFull(kind: Sizing, strict: bool, states: seq<State>, steps: seq<Step>, max: nat)
    returns (states': seq<State>, steps': seq<Step>)
    requires Path(kind, strict, states, steps, max) && Last(states).producer.Ready?
    requires Available(kind, Last(states)) == max > 0 && (strict ==> Settled(Last(states)))
    ensures Path(kind, strict, states', steps', max)
    ensures Last(states') == Last(states).(producer := Putting(seq(max, i => i)))
  {
    states', steps' := Extend(kind, strict, states, steps, max, Size);
    states', steps' := Extend(kind, strict, states', steps', max, Claimed(seq(max, i => i)));
  }

  lemma {:induction false} PutAll(kind: Sizing, strict: bool, states: seq<State>, steps: seq<Step>, max: nat)
    returns (states': seq<State>, steps': seq<Step>)
    requires Path(kind, strict, states, steps, max) && Last(states).producer.Putting?
    requires |Last(states).queue| + |Last(states).producer.hand| <= Last(states).max
    ensures Path(kind, strict, states', steps', max)
    ensures Last(states') == Last(states).(queue := Last(states).queue + Last(states).producer.hand, producer := Ready)
    decreases |Last(states).producer.hand|
  {
    if Last(states).producer.hand == [] {
      states', steps' := Extend(kind, strict, states, steps, max, EndRound);
    } else {
      var hand := Last(states).producer.hand;
      states', steps' := Extend(kind, strict, states, steps, max, Put);
      states', steps' := PutAll(kind, strict, states', steps', max);
      assert Last(states).queue + [hand[0]] + hand[1..] == Last(states).queue + hand;
    }
  }

  /** Every waiting consumer takes a row; when `register`, each goes on to register it. */
  lemma {:induction false} TakeAll(kind: Sizing, strict: bool, states: seq<State>, steps: seq<Step>, max: nat, register: bool, c: nat)
    returns (states': seq<State>, steps': seq<Step>)
    requires Path(kind, strict, states, steps, max) && c <= |Last(states).consumers| == max
    requires |Last(states).queue| == max - c && Last(states).producer.Ready? && Last(states).max == max
    requires forall k | 0 <= k < c :: if register then Last(states).consumers[k].Working? else Last(states).consumers[k].Taken?
    requires forall k | c <= k < max :: Last(states).consumers[k].Waiting?
    ensures Path(kind, strict, states', steps', max)
    ensures Last(states').queue == [] && Last(states').producer.Ready? && Last(states').max == max
    ensures |Last(states').consumers| == max
    ensures forall k | 0 <= k < max ::
              if register then Last(states').consumers[k].Working? else Last(states').consumers[k].Taken?
    decreases max - c
  {
    if c == max {
      states', steps' := states, steps;
    } else {
      states', steps' := Extend(kind, strict, states, steps, max, Take(c));
      if register {
        states', steps' := Extend(kind, strict, states', steps', max, Mark(c));
        states', steps' := Extend(kind, strict, states', steps', max, Register(c));
      }
      states', steps' := TakeAll(kind, strict, states', steps', max, register, c + 1);
    }
  }

  lemma {:induction false} CountAll(ks: seq<Consumer>, counts: Consumer -> bool, all: bool)
    requires forall k | 0 <= k < |ks| :: counts(ks[k]) == all
    ensures Count(ks, counts) == if all then |ks| else 0
  {
    if ks != [] { CountAll(ks[1..], counts, all); }
  }

  /** One full batch with the consumers, a second full batch in hand. */
  lemma TwoBatches(kind: Sizing, strict: bool, max: nat, register: bool) returns (states: seq<State>, steps: seq<Step>)
    requires max > 0 && (strict ==> register) && (register ==> kind.Emptiness?)
    ensures Path(kind, strict, states, steps, max)
    ensures Held(Last(states)) == LockedRows(Last(states)) == 2 * max
  {
    var s := State(max, [], Ready, seq(max, _ => Waiting));
    states, steps := [s], [];
    CountAll(s.consumers, IsActive(), false);
    CountAll(s.consumers, IsIntent(), false);
    states, steps := ClaimFull(kind, strict, states, steps, max);
    states, steps := PutAll(kind, strict, states, steps, max);
    states, steps := TakeAll(kind, strict, states, steps, max, register, 0);
    var full := Last(states);
    if !register {
      CountAll(full.consumers, IsActive(), false);
      CountAll(full.consumers, IsIntent(), false);
    }
    states, steps := ClaimFull(kind, strict, states, steps, max);
    CountAll(full.consumers, IsBusy(), true);
    CountAll(full.consumers, IsLocked(), true);
  }

  /** Sizing by queue emptiness locks twice max_concurrency rows even when every take is registered at once. */
  lemma EmptinessReachesTwice(max: nat) returns (states: seq<State>, steps: seq<Step>)
    requires max > 0
    ensures IsRun(Emptiness, states, steps) && Initial(states[0], max)
    ensures forall i | 0 <= i < |steps| && steps[i].Size? :: Settled(states[i])
    ensures Held(Last(states)) == LockedRows(Last(states)) == 2 * max
  {
    states, steps := TwoBatches(Emptiness, true, max, true);
  }

  /** Between the take and the registration every sizing is blind, and the same peak is reachable. */
  lemma UnsettledReachesTwice(kind: Sizing, max: nat) returns (states: seq<State>, steps: seq<Step>)
    requires max > 0
    ensures IsRun(kind, states, steps) && Initial(states[0], max)
    ensures Held(Last(states)) == LockedRows(Last(states)) == 2 * max
  {
    states, steps := TwoBatches(kind, false, max, false);
  }

  /** The worker's shared objects, updated in place by the producer and consumer tasks. */
  class Worker {
    const max: nat
    var queue: seq<JobId>
    var producer: Producer
    var consumers: seq<Consumer>
    var rounds: nat

    ghost function View(): State
      reads this
    {
      State(max, queue, producer, consumers)
    }

    constructor (max: nat)
      ensures this.max == max && Initial(View(), max) && rounds == 0
    {
      this.max := max;
      queue, producer, rounds := [], Ready, 0;
      consumers := seq(max, _ => Waiting);
    }

    /** The top of the producer loop: size a claim, or wait for a slot. */
    method SizeClaim(kind: Sizing) returns (claiming: bool)
      requires Enabled(View(), Size)
      modifies this`producer
      ensures View() == Apply(kind, old(View()), Size)
      ensures claiming <==> Available(kind, old(View())) > 0
    {
      var active, intents := 0, 0;
      for c := 0 to |consumers|
        invariant active + Count(consumers[c..], IsActive()) == Count(consumers, IsActive())
        invariant intents + Count(consumers[c..], IsIntent()) == Count(consumers, IsIntent())
        invariant View() == old(View())
      {
        assert consumers[c..][1..] == consumers[c + 1..];
        if Active(consumers[c]) { active := active + 1; }
        if consumers[c].Intent? { intents := intents + 1; }
      }
      var available := max - |queue|;
      if !kind.Emptiness? { available := available - active; }
      if kind.WithIntents? { available := available - intents; }
      claiming := available > 0;
      if claiming { producer := Claiming(available); }
    }

    /** dispatch_batch returns: one more round, its rows in hand. */
    method ReceiveClaim(jobs: seq<JobId>)
      requires Enabled(View(), Claimed(jobs))
      modifies this`producer, this`rounds
      ensures View() == Apply(Emptiness, old(View()), Claimed(jobs)) && rounds == old(rounds) + 1
    {
      rounds := rounds + 1;
      producer := Putting(jobs);
    }

    /** The put loop: on a roomy queue it runs to the end without blocking. */
    method PutAllJobs()
      requires Roomy(View()) && producer.Putting?
      modifies this`queue, this`producer
      ensures queue == old(queue) + old(producer.hand) && producer == Ready && Roomy(View())
    {
      ghost var was := queue + producer.hand;
      while producer.hand != []
        invariant producer.Putting? && queue + producer.hand == was && Roomy(View())
        decreases |producer.hand|
      {
        assert Enabled(View(), Put);
        queue, producer := queue + [producer.hand[0]], Putting(producer.hand[1..]);
      }
      producer := Ready;
    }

    /** A consumer's next atomic section. */
    method Advance(c: nat) returns (ghost step: Step)
      requires c < |consumers| && (consumers[c].Waiting? ==> queue != [])
      modifies this`queue, this`consumers
      ensures Enabled(old(View()), step) && View() == Apply(Emptiness, old(View()), step)
    {
      match consumers[c]
      case Waiting =>
        step := Take(c);
        queue, consumers := queue[1..], consumers[c := Taken(queue[0])];
      case Taken(job) =>
        step := Mark(c);
        consumers := consumers[c := Intent(job)];
      case Intent(job) =>
        step := Register(c);
        consumers := consumers[c := Working(job)];
      case Working(job) =>
        step := Finish(c);
        consumers := consumers[c := Written(job)];
      case Written(_) =>
        step := Deregister(c);
        consumers := consumers[c := Waiting];
    }
  }
}
