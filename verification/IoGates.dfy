/**
 Two guards for operations that may never come back: the single permit for
 blocking input and output, and the generation that keeps an abandoned widget
 sync from unlocking a newer one.
 */
module BlockingIoGate {
  import opened Wrappers

  /** What a caller has been told, if anything. */
  datatype Answer = Busy | Finished | TaskFailed | DeadlineExceeded

  /** The semaphore, the operations the pool is running, the callers waiting for them, and the answers given. */
  datatype Gate = Gate(permits: nat, running: set<nat>, waiting: set<nat>, answers: map<nat, Answer>)

  const Open: Gate := Gate(1, {}, {}, map[])

  datatype Step = Call(id: nat) | OperationEnds(id: nat, panicked: bool) | CallerTimesOut(id: nat) | CallerCancelled(id: nat)

  predicate Enabled(g: Gate, step: Step) {
    match step
    case Call(id) => id !in g.running && id !in g.waiting && id !in g.answers
    case OperationEnds(id, _) => id in g.running
    case CallerTimesOut(id) => id in g.waiting
    case CallerCancelled(id) => id in g.waiting
  }

  function Next(g: Gate, step: Step): Gate {
    match step
    case Call(id) =>
      if g.permits == 0 then g.(answers := g.answers[id := Busy])
      else g.(permits := g.permits - 1, running := g.running + {id}, waiting := g.waiting + {id})
    case OperationEnds(id, panicked) =>
      Gate(g.permits + 1, g.running - {id}, g.waiting - {id},
           if id in g.waiting then g.answers[id := if panicked then TaskFailed else Finished] else g.answers)
    case CallerTimesOut(id) => g.(waiting := g.waiting - {id}, answers := g.answers[id := DeadlineExceeded])
    case CallerCancelled(id) => g.(waiting := g.waiting - {id})
  }

  class BlockingIo {
    var permits: nat
    var running: set<nat>
    var waiting: set<nat>
    var answers: map<nat, Answer>

    function State(): Gate
      reads this
    {
      Gate(permits, running, waiting, answers)
    }

    constructor ()
      ensures State() == Open
    {
      permits, running, waiting, answers := 1, {}, {}, map[];
    }

    /** The permit moves into the operation; without one the caller is told at once. */
    method Run(id: nat) returns (started: bool)
      modifies this
      ensures State() == Next(old(State()), Call(id)) && started == (old(permits) > 0)
    {
      started := permits > 0;
      if started {
        permits, running, waiting := permits - 1, running + {id}, waiting + {id};
      } else {
        answers := answers[id := Busy];
      }
    }

    /** The permit is released however the operation ends. */
    method FinishOperation(id: nat, panicked: bool)
      modifies this
      ensures State() == Next(old(State()), OperationEnds(id, panicked))
    {
      if id in waiting {
        answers := answers[id := if panicked then TaskFailed else Finished];
      }
      permits, running, waiting := permits + 1, running - {id}, waiting - {id};
    }

    method GiveUp(id: nat, timedOut: bool)
      modifies this`waiting, this`answers
      ensures State() == Next(old(State()), if timedOut then CallerTimesOut(id) else CallerCancelled(id))
    {
      waiting := waiting - {id};
      if timedOut {
        answers := answers[id := DeadlineExceeded];
      }
    }
  }

  predicate Feasible(g: Gate, steps: seq<Step>)
    decreases |steps|
  {
    steps == [] || (Enabled(g, steps[0]) && Feasible(Next(g, steps[0]), steps[1..]))
  }

  function Run(g: Gate, steps: seq<Step>): Gate
    decreases |steps|
  {
    if steps == [] then g else Run(Next(g, steps[0]), steps[1..])
  }

  predicate Inv(g: Gate) {
    && g.permits + |g.running| == 1
    && g.waiting <= g.running
    && (forall id | id in g.waiting :: id !in g.answers)
  }

  lemma {:induction false} StepKeeps(g: Gate, step: Step)
    requires Inv(g) && Enabled(g, step)
    ensures Inv(Next(g, step))
  {
  }

  lemma {:induction false} GateRunKeeps(g: Gate, steps: seq<Step>)
    requires Inv(g) && Feasible(g, steps)
    ensures Inv(Run(g, steps))
    decreases |steps|
  {
    hide Inv, Next, Enabled;
    if steps != [] {
      StepKeeps(g, steps[0]);
      GateRunKeeps(Next(g, steps[0]), steps[1..]);
    }
  }

  /** However callers time out or are cancelled, free permits and outstanding operations make one: no two
      operations ever overlap, and nobody waits for an operation that is not running. */
  lemma {:induction false} PermitsAndOperations(steps: seq<Step>)
    requires Feasible(Open, steps)
    ensures var g := Run(Open, steps);
            && g.permits + |g.running| == 1 && g.waiting <= g.running
            && forall id, other | id in g.running && other in g.running :: id == other
  {
    GateRunKeeps(Open, steps);
    var g := Run(Open, steps);
    forall id, other | id in g.running && other in g.running ensures id == other {
      assert |g.running - {id}| == |g.running| - 1;
      assert other in g.running - {id} || other == id;
    }
  }

  /** What each caller is told, once and for all: busy at once, the end of its operation if it still
      waits, or that its time is up. */
  lemma {:induction false} ToldOnce(g: Gate, step: Step, id: nat)
    requires Inv(g) && Enabled(g, step)
    ensures Get(Next(g, step).answers, id) ==
            if id in g.answers then Some(g.answers[id])
            else match step {
              case Call(i) => if i == id && g.running != {} then Some(Busy) else None
              case OperationEnds(i, panicked) =>
                if i == id && id in g.waiting then Some(if panicked then TaskFailed else Finished) else None
              case CallerTimesOut(i) => if i == id then Some(DeadlineExceeded) else None
              case CallerCancelled(_) => None
            }
  {
    if g.running == {} {
      assert g.permits == 1;
    }
  }

  /** Who waits and what runs: a call that starts does both until its operation ends; a caller whose time
      is up or who is cancelled waits no longer, but its operation goes on. */
  lemma {:induction false} CallerWaits(g: Gate, step: Step, id: nat)
    requires Inv(g) && Enabled(g, step)
    ensures id in Next(g, step).waiting <==>
            match step {
              case Call(i) => id in g.waiting || (i == id && g.running == {})
              case OperationEnds(i, _) => id in g.waiting && i != id
              case CallerTimesOut(i) => id in g.waiting && i != id
              case CallerCancelled(i) => id in g.waiting && i != id
            }
    ensures id in Next(g, step).running <==>
            match step {
              case Call(i) => id in g.running || (i == id && g.running == {})
              case OperationEnds(i, _) => id in g.running && i != id
              case _ => id in g.running
            }
  {
    if g.running == {} {
      assert g.permits == 1;
    }
  }

  /** A call is turned away exactly while an operation is outstanding, even one whose caller has left;
      and only the end of that operation lets the next call in. */
  lemma {:induction false} BusyIffOutstanding(g: Gate, id: nat, step: Step)
    requires Inv(g) && Enabled(g, Call(id)) && Enabled(g, step)
    ensures Get(Next(g, Call(id)).answers, id) == Some(Busy) <==> g.running != {}
    ensures g.running != {} && Next(g, step).running == {} ==> step.OperationEnds?
  {
    if g.running == {} {
      assert g.permits == 1;
    }
  }
}

module NativeInputSync {
  const WATCHDOG_MS := 500
  const WRAP := 0x1_0000_0000

  /** `Interlocked.Increment` on a 32-bit counter. */
  function Increment(n: int): int {
    if n == 0x7FFF_FFFF then -0x8000_0000 else n + 1
  }

  /** The stored generation after n increments from zero. */
  function Wrapped(n: nat): int {
    (n + 0x8000_0000) % WRAP - 0x8000_0000
  }

  lemma {:induction false} WrappedStep(n: nat)
    ensures Wrapped(n + 1) == Increment(Wrapped(n))
  {
  }

  /** Stored generations tell apart any two counts less than a whole turn apart. */
  lemma {:induction false} WrappedDistinct(n: nat, m: nat)
    requires n <= m < n + WRAP
    ensures Wrapped(n) == Wrapped(m) <==> n == m
  {
  }

  /** The widget's fields, and the syncs in flight: each remembers the generation stored when it began,
      and `count` at that time. */
  datatype InFlight = InFlight(generation: int, began: nat)

  datatype Sync = Sync(syncing: bool, sinceMs: int, generation: int, count: nat, inFlight: set<InFlight>)

  const Quiet: Sync := Sync(false, 0, 0, 0, {})

  datatype Step = Begin(nowMs: int, startMs: int, hasWidget: bool) | Complete(op: InFlight)

  function Age(s: Sync, nowMs: int): int {
    if s.sinceMs <= 0 then 0 else nowMs - s.sinceMs
  }

  /** The watchdog: an operation that has been in flight too long is abandoned. */
  function Abandoned(s: Sync): Sync {
    s.(generation := Increment(s.generation), count := s.count + 1, syncing := false, sinceMs := 0)
  }

  function Started(s: Sync, startMs: int): Sync {
    var generation, count := Increment(s.generation), s.count + 1;
    Sync(true, startMs, generation, count, s.inFlight + {InFlight(generation, count)})
  }

  /** The clock is read on entry and again when the sync starts. */
  function Begun(s: Sync, nowMs: int, startMs: int, hasWidget: bool): Sync {
    if s.syncing && Age(s, nowMs) < WATCHDOG_MS then s
    else
      var t := if s.syncing then Abandoned(s) else s;
      if hasWidget then Started(t, startMs) else t
  }

  function Completed(s: Sync, op: InFlight): Sync {
    var t := s.(inFlight := s.inFlight - {op});
    if op.generation == s.generation then t.(syncing := false, sinceMs := 0) else t
  }

  /** No sync in flight is a whole turn of the counter old. */
  predicate Young(s: Sync) {
    forall op | op in s.inFlight :: s.count + 2 < op.began + WRAP
  }

  predicate Enabled(s: Sync, step: Step) {
    match step
    case Begin(_, _, _) => Young(s)
    case Complete(op) => op in s.inFlight
  }

  function Next(s: Sync, step: Step): Sync {
    match step
    case Begin(nowMs, startMs, hasWidget) => Begun(s, nowMs, startMs, hasWidget)
    case Complete(op) => Completed(s, op)
  }

  class Widget {
    var syncing: bool
    var sinceMs: int
    var generation: int
    ghost var count: nat
    ghost var inFlight: set<InFlight>

    ghost function State(): Sync
      reads this
    {
      Sync(syncing, sinceMs, generation, count, inFlight)
    }

    constructor ()
      ensures State() == Quiet
    {
      syncing, sinceMs, generation, count, inFlight := false, 0, 0, 0, {};
    }

    /** Up to the first wait; what it returns is the generation the operation keeps. */
    method BeginSync(nowMs: int, startMs: int, hasWidget: bool) returns (started: bool, syncGeneration: int)
      modifies this
      ensures State() == Begun(old(State()), nowMs, startMs, hasWidget)
      ensures started ==> InFlight(syncGeneration, count) in inFlight && syncGeneration == generation
      ensures !started ==> inFlight == old(inFlight)
    {
      started, syncGeneration := false, 0;
      if syncing {
        var age := if sinceMs <= 0 then 0 else nowMs - sinceMs;
        if age < WATCHDOG_MS {
          return;
        }
        generation, count := Increment(generation), count + 1;
        syncing, sinceMs := false, 0;
      }
      if !hasWidget {
        return;
      }
      syncing, sinceMs := true, startMs;
      generation, count := Increment(generation), count + 1;
      started, syncGeneration := true, generation;
      inFlight := inFlight + {InFlight(generation, count)};
    }

    /** The `finally` block of the operation that kept `syncGeneration`. */
    method EndSync(syncGeneration: int, ghost began: nat)
      modifies this
      ensures State() == Completed(old(State()), InFlight(syncGeneration, began))
    {
      inFlight := inFlight - {InFlight(syncGeneration, began)};
      if syncGeneration == generation {
        syncing, sinceMs := false, 0;
      }
    }
  }

  predicate Feasible(s: Sync, steps: seq<Step>)
    decreases |steps|
  {
    steps == [] || (Enabled(s, steps[0]) && Feasible(Next(s, steps[0]), steps[1..]))
  }

  function Run(s: Sync, steps: seq<Step>): Sync
    decreases |steps|
  {
    if steps == [] then s else Run(Next(s, steps[0]), steps[1..])
  }

  predicate IsCurrent(s: Sync, op: InFlight) {
    op in s.inFlight && op.began == s.count
  }

  /** The flag is set exactly while the sync begun last, and not abandoned, is in flight. */
  ghost predicate Inv(s: Sync) {
    && s.generation == Wrapped(s.count)
    && (forall op | op in s.inFlight :: op.generation == Wrapped(op.began) && op.began <= s.count < op.began + WRAP)
    && (forall op, other | op in s.inFlight && other in s.inFlight && op.began == other.began :: op == other)
    && (s.syncing <==> exists op :: IsCurrent(s, op))
  }

  lemma {:induction false} BeginKeeps(s: Sync, nowMs: int, startMs: int, hasWidget: bool)
    requires Inv(s) && Young(s)
    ensures Inv(Begun(s, nowMs, startMs, hasWidget))
  {
    if !(s.syncing && Age(s, nowMs) < WATCHDOG_MS) {
      var t := if s.syncing then Abandoned(s) else s;
      WrappedStep(s.count);
      WrappedStep(t.count);
      assert !t.syncing && t.generation == Wrapped(t.count);
      assert forall op :: IsCurrent(t, op) ==> op.began == t.count;
      assert !exists op :: IsCurrent(t, op);
      if hasWidget {
        var u := Started(t, startMs);
        assert IsCurrent(u, InFlight(u.generation, u.count));
      }
    }
  }

  lemma {:induction false} CompleteKeeps(s: Sync, op: InFlight)
    requires Inv(s) && op in s.inFlight
    ensures Inv(Completed(s, op))
    ensures op.generation == s.generation <==> IsCurrent(s, op)
  {
    WrappedDistinct(op.began, s.count);
    var t := Completed(s, op);
    if op.began != s.count && s.syncing {
      var c :| IsCurrent(s, c);
      assert IsCurrent(t, c);
    }
    assert forall other :: IsCurrent(t, other) ==> IsCurrent(s, other) && other != op;
  }

  lemma {:induction false} StepKeeps(s: Sync, step: Step)
    requires Inv(s) && Enabled(s, step)
    ensures Inv(Next(s, step))
  {
    match step
    case Begin(nowMs, startMs, hasWidget) => BeginKeeps(s, nowMs, startMs, hasWidget);
    case Complete(op) => CompleteKeeps(s, op);
  }

  lemma {:induction false} RunKeeps(s: Sync, steps: seq<Step>)
    requires Inv(s) && Feasible(s, steps)
    ensures Inv(Run(s, steps))
    decreases |steps|
  {
    hide Inv, Next, Enabled;
    if steps != [] {
      StepKeeps(s, steps[0]);
      RunKeeps(Next(s, steps[0]), steps[1..]);
    }
  }

  /** In every run the flag is set exactly while an operation of the stored generation is in flight, and
      there is at most one such operation. */
  lemma {:induction false} FlagMeansInFlight(steps: seq<Step>)
    requires Feasible(Quiet, steps)
    ensures var s := Run(Quiet, steps);
            && (s.syncing <==> exists op :: op in s.inFlight && op.generation == s.generation)
            && forall op, other | op in s.inFlight && other in s.inFlight && op.generation == other.generation == s.generation ::
                 op == other
  {
    RunKeeps(Quiet, steps);
    var s := Run(Quiet, steps);
    forall op | op in s.inFlight ensures op.generation == s.generation <==> IsCurrent(s, op) {
      WrappedDistinct(op.began, s.count);
    }
  }

  /** The completion of the operation of the stored generation clears the flag and its time. */
  lemma {:induction false} CompletionClears(s: Sync, op: InFlight)
    ensures var t := Completed(s, op);
            && op !in t.inFlight && t.generation == s.generation && t.count == s.count
            && (t.syncing, t.sinceMs) == if op.generation == s.generation then (false, 0) else (s.syncing, s.sinceMs)
  {
  }

  /** The completion of an abandoned sync unlocks nothing. */
  lemma {:induction false} AbandonedUnlocksNothing(s: Sync, op: InFlight)
    requires Inv(s) && op in s.inFlight && op.began != s.count
    ensures Completed(s, op) == s.(inFlight := s.inFlight - {op})
  {
    WrappedDistinct(op.began, s.count);
  }

  /** The clock decides about a sync that has not completed: one begun less than half a second ago is left
      alone, an older one is abandoned and, if there is a widget, a new one begins. */
  lemma {:induction false} WatchdogDecides(s: Sync, nowMs: int, startMs: int, hasWidget: bool)
    requires s.syncing
    ensures var t := Begun(s, nowMs, startMs, hasWidget);
            if s.sinceMs <= 0 || nowMs - s.sinceMs < 500 then t == s
            else if hasWidget then
              t.syncing && t.sinceMs == startMs && t.count == s.count + 2 && t.inFlight == s.inFlight + {InFlight(t.generation, t.count)}
            else !t.syncing && t.sinceMs == 0 && t.count == s.count + 1 && t.inFlight == s.inFlight
  {
  }

  /** Without one a sync begins exactly when there is a widget. */
  lemma {:induction false} IdleBegins(s: Sync, nowMs: int, startMs: int, hasWidget: bool)
    requires !s.syncing
    ensures var t := Begun(s, nowMs, startMs, hasWidget);
            if hasWidget then
              t.syncing && t.sinceMs == startMs && t.count == s.count + 1 && t.inFlight == s.inFlight + {InFlight(t.generation, t.count)}
            else t == s
  {
  }
}
