/**
 The flight recorder: the last records kept in memory, and a bounded queue to a
 writer thread that must never make the producer wait.
 */
module FlightRecorder {
  import opened Wrappers

  const MAX_FLIGHT_RECORDS := 2048

  datatype FlightRecord = FlightRecord(atMs: nat, category: string, detail: string)

  /** The writer's channel, the record it is appending, what it has appended, and how many it never got.
      Without a running thread the channel is closed. */
  datatype Channel = Channel(
    capacity: nat, running: bool, queue: seq<FlightRecord>, inHand: Option<FlightRecord>, written: seq<FlightRecord>, dropped: nat)

  function Enqueued(c: Channel, r: FlightRecord): Channel {
    if c.running && |c.queue| < c.capacity then c.(queue := c.queue + [r]) else c.(dropped := c.dropped + 1)
  }

  function Remembered(memory: seq<FlightRecord>, r: FlightRecord): seq<FlightRecord> {
    Last(memory + [r], MAX_FLIGHT_RECORDS)
  }

  function Last(s: seq<FlightRecord>, n: nat): (last: seq<FlightRecord>)
    ensures |last| <= n
  {
    if |s| <= n then s else s[|s| - n..]
  }

  class PersistentFlightWriter {
    const capacity: nat
    const running: bool
    var queue: seq<FlightRecord>
    var inHand: Option<FlightRecord>
    var written: seq<FlightRecord>
    var dropped: nat

    function State(): Channel
      reads this
    {
      Channel(capacity, running, queue, inHand, written, dropped)
    }

    /** `running` is whether the thread could be created. */
    constructor (capacity: nat, running: bool)
      ensures State() == Channel(capacity, running, [], None, [], 0)
    {
      this.capacity, this.running := capacity, running;
      queue, inHand, written, dropped := [], None, [], 0;
    }

    method Enqueue(record: FlightRecord)
      modifies this`queue, this`dropped
      ensures State() == Enqueued(old(State()), record)
    {
      if running && |queue| < capacity {
        queue := queue + [record];
      } else {
        dropped := dropped + 1;
      }
    }

    /** `receiver.recv()` */
    method Receive()
      requires running && inHand.None? && queue != []
      modifies this`queue, this`inHand
      ensures State() == old(State()).(queue := old(queue)[1..], inHand := Some(old(queue)[0]))
    {
      inHand, queue := Some(queue[0]), queue[1..];
    }

    method Append()
      requires inHand.Some?
      modifies this`written, this`inHand
      ensures State() == old(State()).(written := old(written) + [old(inHand).value], inHand := None)
    {
      written, inHand := written + [inHand.value], None;
    }
  }

  class Recorder {
    var records: seq<FlightRecord>

    constructor ()
      ensures records == []
    {
      records := [];
    }

    method RecordWithWriter(record: FlightRecord, writer: PersistentFlightWriter)
      requires |records| <= MAX_FLIGHT_RECORDS
      modifies this, writer`queue, writer`dropped
      ensures records == Remembered(old(records), record)
      ensures writer.State() == Enqueued(old(writer.State()), record)
    {
      writer.Enqueue(record);
      records := records + [record];
      ghost var all := records;
      while |records| > MAX_FLIGHT_RECORDS
        invariant records == Last(all, if |records| > MAX_FLIGHT_RECORDS then |records| else MAX_FLIGHT_RECORDS)
        invariant |records| <= |all| <= MAX_FLIGHT_RECORDS + 1
        invariant writer.State() == Enqueued(old(writer.State()), record)
      {
        records := records[1..];
      }
    }
  }

  // ---------- runs ----------

  /** Everything ever recorded, with what has become of it. */
  datatype Flight = Flight(made: seq<FlightRecord>, memory: seq<FlightRecord>, channel: Channel)

  datatype Step = Made(record: FlightRecord) | Received | Appended

  predicate Enabled(f: Flight, step: Step) {
    match step
    case Made(_) => true
    case Received => f.channel.running && f.channel.inHand.None? && f.channel.queue != []
    case Appended => f.channel.inHand.Some?
  }

  function Next(f: Flight, step: Step): Flight
    requires Enabled(f, step)
  {
    var c := f.channel;
    match step
    case Made(r) => Flight(f.made + [r], Remembered(f.memory, r), Enqueued(c, r))
    case Received => f.(channel := c.(queue := c.queue[1..], inHand := Some(c.queue[0])))
    case Appended => f.(channel := c.(written := c.written + [c.inHand.value], inHand := None))
  }

  predicate Feasible(f: Flight, steps: seq<Step>)
    decreases |steps|
  {
    steps == [] || (Enabled(f, steps[0]) && Feasible(Next(f, steps[0]), steps[1..]))
  }

  function Run(f: Flight, steps: seq<Step>): Flight
    requires Feasible(f, steps)
    decreases |steps|
  {
    if steps == [] then f else Run(Next(f, steps[0]), steps[1..])
  }

  function Start(capacity: nat, running: bool): Flight {
    Flight([], [], Channel(capacity, running, [], None, [], 0))
  }

  /** What the writer has or will have appended, in order. */
  function Passed(c: Channel): seq<FlightRecord> {
    c.written + (if c.inHand.Some? then [c.inHand.value] else []) + c.queue
  }

  /** `part` keeps the order of `whole`, leaving some out. */
  predicate Subsequence(part: seq<FlightRecord>, whole: seq<FlightRecord>) {
    if part == [] then true
    else if whole == [] then false
    else if part[|part| - 1] == whole[|whole| - 1] && Subsequence(part[..|part| - 1], whole[..|whole| - 1]) then true
    else Subsequence(part, whole[..|whole| - 1])
  }

  predicate Inv(f: Flight) {
    && |f.made| == |Passed(f.channel)| + f.channel.dropped
    && Subsequence(Passed(f.channel), f.made)
    && f.memory == Last(f.made, MAX_FLIGHT_RECORDS)
    && |f.channel.queue| <= f.channel.capacity
  }

  lemma {:induction false} SubsequenceGrows(part: seq<FlightRecord>, whole: seq<FlightRecord>, r: FlightRecord)
    requires Subsequence(part, whole)
    ensures Subsequence(part, whole + [r]) && Subsequence(part + [r], whole + [r])
  {
    assert (whole + [r])[..|whole|] == whole && (part + [r])[..|part|] == part;
  }

  /** The elements of a subsequence stand in the whole, in order. */
  lemma {:induction false} SubsequenceStands(part: seq<FlightRecord>, whole: seq<FlightRecord>) returns (at: seq<nat>)
    requires Subsequence(part, whole)
    ensures |at| == |part| && (forall i | 0 <= i < |at| :: at[i] < |whole| && whole[at[i]] == part[i])
    ensures forall i, j | 0 <= i < j < |at| :: at[i] < at[j]
    decreases |whole|
  {
    if part == [] {
      at := [];
    } else {
      var rest, last := whole[..|whole| - 1], |whole| - 1;
      if part[|part| - 1] == whole[last] && Subsequence(part[..|part| - 1], rest) {
        at := SubsequenceStands(part[..|part| - 1], rest);
        at := at + [last];
      } else {
        at := SubsequenceStands(part, rest);
      }
    }
  }

  lemma {:induction false} MadeKeeps(f: Flight, r: FlightRecord)
    requires Inv(f)
    ensures Inv(Next(f, Made(r)))
  {
    hide Last;
    var c, next := f.channel, Next(f, Made(r)).channel;
    SubsequenceGrows(Passed(c), f.made, r);
    hide Subsequence;
    assert Passed(next) == if c.running && |c.queue| < c.capacity then Passed(c) + [r] else Passed(c);
    hide Passed;
    LastGrows(f.made, r);
  }

  /** What memory keeps of the last records and a new one are the last records with it. */
  lemma {:induction false} LastGrows(made: seq<FlightRecord>, r: FlightRecord)
    ensures Remembered(Last(made, MAX_FLIGHT_RECORDS), r) == Last(made + [r], MAX_FLIGHT_RECORDS)
  {
  }

  lemma {:induction false} WriterKeeps(f: Flight, step: Step)
    requires Inv(f) && Enabled(f, step) && !step.Made?
    ensures Inv(Next(f, step)) && Passed(Next(f, step).channel) == Passed(f.channel)
  {
    hide Subsequence, Last;
    var c, next := f.channel, Next(f, step).channel;
    assert Passed(next) == Passed(c) by {
      if step.Received? {
        assert c.queue == [c.queue[0]] + c.queue[1..];
      }
    }
  }

  lemma {:induction false} StepKeeps(f: Flight, step: Step)
    requires Inv(f) && Enabled(f, step)
    ensures Inv(Next(f, step))
    ensures step.Made? || Passed(Next(f, step).channel) == Passed(f.channel)
  {
    hide Inv, Next, Passed;
    match step
    case Made(r) => MadeKeeps(f, r);
    case _ => WriterKeeps(f, step);
  }

  lemma {:induction false} RunKeeps(f: Flight, steps: seq<Step>)
    requires Inv(f) && Feasible(f, steps)
    ensures Inv(Run(f, steps))
    decreases |steps|
  {
    hide Inv, Next, Enabled;
    if steps != [] {
      StepKeeps(f, steps[0]);
      RunKeeps(Next(f, steps[0]), steps[1..]);
    }
  }

  /** At every moment each record made is written, queued, being written or counted as dropped; what is
      or will be written is the records made, in order, without the dropped ones; and memory holds
      exactly the last 2048. */
  lemma {:induction false} NothingIsUnaccounted(capacity: nat, running: bool, steps: seq<Step>)
    requires Feasible(Start(capacity, running), steps)
    ensures var f := Run(Start(capacity, running), steps);
            && |f.made| == |f.channel.written| + (if f.channel.inHand.Some? then 1 else 0) + |f.channel.queue| + f.channel.dropped
            && Subsequence(Passed(f.channel), f.made)
            && |f.memory| == (if |f.made| < 2048 then |f.made| else 2048) && f.memory == f.made[|f.made| - |f.memory|..]
            && |f.channel.queue| <= capacity
  {
    hide Subsequence, Run, Feasible;
    CapacityStays(Start(capacity, running), steps);
    assert Inv(Start(capacity, running)) by { EmptyHolds(capacity, running); }
    RunKeeps(Start(capacity, running), steps);
  }

  lemma {:induction false} EmptyHolds(capacity: nat, running: bool)
    ensures Inv(Start(capacity, running))
  {
  }

  lemma {:induction false} CapacityStays(f: Flight, steps: seq<Step>)
    requires Feasible(f, steps)
    ensures Run(f, steps).channel.capacity == f.channel.capacity
    decreases |steps|
  {
    if steps != [] {
      CapacityStays(Next(f, steps[0]), steps[1..]);
    }
  }

  lemma {:induction false} RoomMeansPassed(f: Flight, r: FlightRecord)
    requires f.channel.running && |f.channel.queue| < f.channel.capacity
    ensures Passed(Next(f, Made(r)).channel) == Passed(f.channel) + [r]
    ensures Next(f, Made(r)).channel.dropped == f.channel.dropped
  {
  }

  /** Whenever a record is made, the thread is running and its queue has room. */
  predicate AlwaysRoom(f: Flight, steps: seq<Step>)
    requires Feasible(f, steps)
    decreases |steps|
  {
    steps == [] ||
    (&& (steps[0].Made? ==> f.channel.running && |f.channel.queue| < f.channel.capacity)
     && AlwaysRoom(Next(f, steps[0]), steps[1..]))
  }

  lemma {:induction false} RoomOverRun(f: Flight, steps: seq<Step>)
    requires Inv(f) && Feasible(f, steps)
    ensures Run(f, steps).channel.dropped >= f.channel.dropped
    ensures Run(f, steps).channel.dropped == f.channel.dropped <==> AlwaysRoom(f, steps)
    ensures Passed(f.channel) == f.made && AlwaysRoom(f, steps) ==> Passed(Run(f, steps).channel) == Run(f, steps).made
    decreases |steps|
  {
    hide Inv, Subsequence, Passed;
    if steps != [] {
      StepKeeps(f, steps[0]);
      if steps[0].Made? && f.channel.running && |f.channel.queue| < f.channel.capacity {
        RoomMeansPassed(f, steps[0].record);
      }
      RoomOverRun(Next(f, steps[0]), steps[1..]);
    }
  }

  /** Nothing is dropped in a run if and only if the queue has room whenever a record is made; then
      everything made is passed, in order. */
  lemma {:induction false} NothingDroppedIffRoom(capacity: nat, running: bool, steps: seq<Step>)
    requires Feasible(Start(capacity, running), steps)
    ensures var f := Run(Start(capacity, running), steps);
            && (f.channel.dropped == 0 <==> AlwaysRoom(Start(capacity, running), steps))
            && (f.channel.dropped == 0 ==> Passed(f.channel) == f.made)
  {
    hide Run, Feasible, AlwaysRoom;
    EmptyHolds(capacity, running);
    RoomOverRun(Start(capacity, running), steps);
  }
}
