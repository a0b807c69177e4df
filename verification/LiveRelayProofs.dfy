/** What holds over every run of the relay's side of the live-delta protocol. */
module LiveRelayProofs {
  import opened Wrappers
  import opened Json
  import opened DeltaReceiver
  import opened DeltaLaws
  import opened DeltaSender
  import opened DeltaEffect
  import opened DeltaRoundTrip
  import opened LiveRelay
  import opened AgentStream

  /** Every state each stream has ever published, in order: stream id to S1, S2, ... */
  type History = map<string, seq<Json>>

  predicate HistoryOk(h: History) {
    forall id | id in h :: Objects(h[id])
  }

  predicate Objects(states: seq<Json>) {
    forall i | 0 <= i < |states| :: states[i].Obj?
  }

  /** Frame k of any sender: it carries S_k, or operations that take S_(k-1) to S_k if they are accepted. */
  predicate FrameOf(states: seq<Json>, frame: Frame) {
    match frame
    case Full(n, state) => 1 <= n <= |states| && state == states[n - 1]
    case Delta(n, ops) => 2 <= n <= |states| && ApplyOps(states[n - 2], ops) in [None, Some(states[n - 1])]
  }

  predicate Genuine(h: History, payload: Payload, uuid: UuidParser) {
    match ValidatedFrame(payload, uuid)
    case Valid(id, frame) => id in h && FrameOf(h[id], frame)
    case _ => true
  }

  /** Frame k of the Agent: S_k, or the operations it builds for the change from S_(k-1). */
  predicate AgentFrameOf(states: seq<Json>, frame: Frame) {
    match frame
    case Full(n, state) => 1 <= n <= |states| && state == states[n - 1]
    case Delta(n, ops) =>
      2 <= n <= |states| && ops == DiffOps(states[n - 2], states[n - 1], []) && |ops| <= MAX_LIVE_DELTA_OPS
  }

  predicate AgentGenuine(h: History, payload: Payload, uuid: UuidParser) {
    match ValidatedFrame(payload, uuid)
    case Valid(id, frame) => id in h && AgentFrameOf(h[id], frame)
    case _ => true
  }

  // ---------- frames ----------

  /** The relay accepts the Agent's frame as exactly the frame that was meant, and only within its limits. */
  lemma {:induction false} FrameRoundTrip(previous: Option<Json>, state: Json, streamId: string, n: nat, uuid: UuidParser)
    requires state.Obj? && |streamId| <= 64 && uuid(streamId) == Some(streamId)
    ensures ValidatedFrame(LiveGameDeltaFrame(previous, state, streamId, n), uuid) ==
            match previous
            case None => if n >= 1 then Valid(streamId, Full(n, state)) else Invalid
            case Some(base) =>
              if n >= 2 && |DiffOps(base, state, [])| <= MAX_LIVE_DELTA_OPS
              then Valid(streamId, Delta(n, DiffOps(base, state, []))) else Invalid
  {
    hide DiffOps, Lookup;
  }

  // ---------- the stored state ----------

  predicate StoredFaithful(stored: Stored, states: seq<Json>) {
    1 <= stored.seqNo <= |states| && stored.state == states[stored.seqNo - 1]
  }

  predicate Faithful(s: RelayState, h: History) {
    forall id | id in s.streams :: id in h && StoredFaithful(s.streams[id], h[id])
  }

  lemma {:induction false} ReadyIsFaithful(stored: Option<Stored>, states: seq<Json>, id: string, frame: Frame)
    requires FrameOf(states, frame)
    requires stored.Some? ==> StoredFaithful(stored.value, states)
    ensures var p := Decide(stored, id, frame);
            p.Ready? ==> p.streamId == id && StoredFaithful(Stored(p.seqNo, p.state), states)
  {
    hide ApplyOps;
  }

  lemma {:induction false} CommitFaithful(s: RelayState, h: History, id: string, n: nat, state: Json)
    requires Faithful(s, h) && id in h && StoredFaithful(Stored(n, state), h[id])
    ensures Faithful(Commit(s, id, n, state), h)
  {
    hide StoredFaithful;
  }

  lemma {:induction false} UpdateStreams(s: RelayState, payload: Payload, eventId: Option<string>, handled: bool, uuid: UuidParser)
    ensures var p := Prepare(s, payload, uuid);
            Update(s, payload, eventId, handled, uuid).streams ==
            if p.Ready? && handled then Commit(s, p.streamId, p.seqNo, p.state).streams else s.streams
  {
    hide Prepare;
  }

  lemma {:induction false} StepFaithful(s: RelayState, h: History, e: Event, uuid: UuidParser)
    requires Faithful(s, h)
    requires e.Deliver? ==> Genuine(h, e.payload, uuid)
    ensures Faithful(StepRelay(s, e, uuid), h)
  {
    if e.Deliver? {
      hide Decide, ValidatedFrame, StoredFaithful, FrameOf, Update;
      var v := ValidatedFrame(e.payload, uuid);
      UpdateStreams(s, e.payload, e.eventId, e.handled, uuid);
      if v.Valid? {
        ReadyIsFaithful(StoredFor(s, v.streamId), h[v.streamId], v.streamId, v.frame);
        var p := Prepare(s, e.payload, uuid);
        if p.Ready? {
          CommitFaithful(s, h, p.streamId, p.seqNo, p.state);
        }
      }
    }
  }

  ghost predicate SenderRun(h: History, events: seq<Event>, uuid: UuidParser) {
    forall i | 0 <= i < |events| && events[i].Deliver? :: Genuine(h, events[i].payload, uuid)
  }

  /** For any sender: however frames are lost, repeated, reordered, refused or outlive their base, what
      the relay has stored for a stream at sequence k is the sender's k-th state, exactly. */
  lemma {:induction false} StoredIsSenderState(s: RelayState, h: History, events: seq<Event>, uuid: UuidParser)
    requires Faithful(s, h) && SenderRun(h, events, uuid)
    ensures Faithful(Run(s, events, uuid), h)
    decreases |events|
  {
    if events != [] {
      StepFaithful(s, h, events[0], uuid);
      var rest := events[1..];
      assert forall i | 0 <= i < |rest| :: rest[i] == events[i + 1];
      StoredIsSenderState(StepRelay(s, events[0], uuid), h, rest, uuid);
    }
  }

  // ---------- progress and acknowledgements ----------

  lemma {:induction false} ReadyIsObject(s: RelayState, payload: Payload, uuid: UuidParser)
    ensures var p := Prepare(s, payload, uuid);
            p.Ready? ==>
              && p.seqNo > 0 && p.state.Obj?
              && (StoredFor(s, p.streamId).Some? ==> p.seqNo > StoredFor(s, p.streamId).value.seqNo)
  {
    hide Step;
    var v := ValidatedFrame(payload, uuid);
    if v.Valid? && v.frame.Delta? && StoredFor(s, v.streamId).Some? {
      var base := StoredFor(s, v.streamId).value;
      if ApplyOps(base.state, v.frame.ops).Some? {
        RootStaysObject(base.state, v.frame.ops, |v.frame.ops|);
        assert v.frame.ops[..|v.frame.ops|] == v.frame.ops;
      }
    }
  }

  /** Without expiry the stored sequence never goes back, and a sequence number is committed at most once. */
  lemma {:induction false} CommitsIncrease(s: RelayState, events: seq<Event>, id: string, uuid: UuidParser)
    requires StoredFor(s, id).Some? && StateExpires(id) !in events
    ensures var before, after := StoredFor(s, id), StoredFor(Run(s, events, uuid), id);
            && after.Some? && after.value.seqNo >= before.value.seqNo
            && (after.value.seqNo == before.value.seqNo ==> after == before)
    decreases |events|
  {
    if events != [] {
      hide Prepare;
      var e := events[0];
      assert e in events && forall x | x in events[1..] :: x in events;
      if e.Deliver? {
        ReadyIsObject(s, e.payload, uuid);
        UpdateStreams(s, e.payload, e.eventId, e.handled, uuid);
      }
      CommitsIncrease(StepRelay(s, e, uuid), events[1..], id, uuid);
    }
  }

  /** A step only adds messages: these are the ones it added. */
  function Added(s: RelayState, e: Event, uuid: UuidParser): seq<Message>
    requires |StepRelay(s, e, uuid).outbox| >= |s.outbox|
  {
    StepRelay(s, e, uuid).outbox[|s.outbox|..]
  }

  lemma {:induction false} OutboxGrows(s: RelayState, e: Event, uuid: UuidParser)
    ensures s.outbox <= StepRelay(s, e, uuid).outbox
    ensures |StepRelay(s, e, uuid).outbox| <= |s.outbox| + 1
  {
    hide Prepare;
  }

  /** The one message an update may add, by the relay's decision. */
  lemma {:induction false} AddedBy(s: RelayState, payload: Payload, eventId: Option<string>, handled: bool, m: Message, uuid: UuidParser)
    requires |Update(s, payload, eventId, handled, uuid).outbox| >= |s.outbox|
    requires m in Added(s, Deliver(payload, eventId, handled), uuid)
    ensures var p := Prepare(s, payload, uuid);
            match m
            case EventAck(id) => eventId == Some(id) && (p.Duplicate? || ((p.LegacyReady? || p.Ready?) && handled))
            case LiveDeltaResend(id, from, to) => p == Gap(id, from, to) && id !in s.blocks
            case LiveDeltaResync(_) => p.Rejected? || p.Resync?
  {
    hide Prepare;
  }

  lemma {:induction false} PrepareCases(s: RelayState, payload: Payload, uuid: UuidParser)
    ensures var v, p := ValidatedFrame(payload, uuid), Prepare(s, payload, uuid);
            && (p.LegacyReady? <==> v.LegacyFrame?)
            && (p.Duplicate? || p.Gap? || p.Ready? ==> v.Valid? && p == Decide(StoredFor(s, v.streamId), v.streamId, v.frame))
  {
    hide ValidatedFrame, ApplyOps, Crashes;
  }

  /** A delta-protocol frame is acknowledged only once its sequence number is covered by the stored state. */
  lemma {:induction false} AckMeansStored(s: RelayState, payload: Payload, eventId: Option<string>, handled: bool, m: string, uuid: UuidParser)
    requires |Update(s, payload, eventId, handled, uuid).outbox| >= |s.outbox|
    requires EventAck(m) in Added(s, Deliver(payload, eventId, handled), uuid)
    ensures eventId == Some(m)
    ensures var v := ValidatedFrame(payload, uuid);
            var after := Update(s, payload, eventId, handled, uuid);
            v.Valid? ==> v.streamId in after.streams && v.frame.seqNo <= after.streams[v.streamId].seqNo
  {
    AddedBy(s, payload, eventId, handled, EventAck(m), uuid);
    PrepareCases(s, payload, uuid);
    UpdateStreams(s, payload, eventId, handled, uuid);
    hide ValidatedFrame, ApplyOps, Crashes, Prepare, Update;
  }

  /** A frame the API refuses is neither committed nor acknowledged, and the same frame is ready
      again; if the API then accepts it, exactly its state is committed and it is acknowledged. */
  lemma {:induction false} RefusedIsRetried(s: RelayState, payload: Payload, eventId: string, id: string, n: nat, state: Json, uuid: UuidParser)
    requires Prepare(s, payload, uuid) == Ready(id, n, state)
    ensures var refused := Update(s, payload, Some(eventId), false, uuid);
            && refused.streams == s.streams && refused.outbox == s.outbox && refused.blocks == s.blocks[id := n]
            && Prepare(refused, payload, uuid) == Ready(id, n, state)
            && var retried := Update(refused, payload, Some(eventId), true, uuid);
            && retried.streams == s.streams[id := Stored(n, state)] && id !in retried.blocks
            && retried.outbox == s.outbox + [EventAck(eventId)]
  {
    hide Decide, ValidatedFrame;
  }

  // ---------- gaps and the API block ----------

  /** A gap request asks for at least two frames, from the one after the stored state (or the first)
      up to the frame that revealed the gap, and is never sent while the stream is blocked. */
  lemma {:induction false} GapRequestRange(s: RelayState, e: Event, id: string, from: nat, to: nat, uuid: UuidParser)
    requires |StepRelay(s, e, uuid).outbox| >= |s.outbox|
    requires LiveDeltaResend(id, from, to) in Added(s, e, uuid)
    ensures id !in s.blocks && 1 <= from < to
    ensures from == if StoredFor(s, id).Some? then StoredFor(s, id).value.seqNo + 1 else 1
    ensures StoredFor(s, id).None? ==> to <= MAX_REPLAY_FROM_START
    ensures e.Deliver? && ValidatedFrame(e.payload, uuid).Valid?
    ensures var v := ValidatedFrame(e.payload, uuid); v.streamId == id && v.frame.Delta? && v.frame.seqNo == to
    ensures StepRelay(s, e, uuid).streams == s.streams && StepRelay(s, e, uuid).blocks == s.blocks
  {
    assert e.Deliver?;
    AddedBy(s, e.payload, e.eventId, e.handled, LiveDeltaResend(id, from, to), uuid);
    PrepareCases(s, e.payload, uuid);
    hide ValidatedFrame, ApplyOps, Crashes, Prepare;
  }

  predicate BlockAhead(s: RelayState) {
    forall id | id in s.blocks && StoredFor(s, id).Some? :: s.blocks[id] > StoredFor(s, id).value.seqNo
  }

  /** An API-block marker is always ahead of the stored state, whatever happens in whatever order. */
  lemma {:induction false} BlockStaysAhead(s: RelayState, events: seq<Event>, uuid: UuidParser)
    requires BlockAhead(s)
    ensures BlockAhead(Run(s, events, uuid))
    decreases |events|
  {
    if events != [] {
      BlockStep(s, events[0], uuid);
      BlockStaysAhead(StepRelay(s, events[0], uuid), events[1..], uuid);
    }
  }

  lemma {:induction false} BlockStep(s: RelayState, e: Event, uuid: UuidParser)
    requires BlockAhead(s)
    ensures BlockAhead(StepRelay(s, e, uuid))
  {
    hide Prepare;
    var next := StepRelay(s, e, uuid);
    if e.Deliver? {
      ReadyIsObject(s, e.payload, uuid);
    }
    forall id | id in next.blocks && StoredFor(next, id).Some? ensures next.blocks[id] > StoredFor(next, id).value.seqNo {
      assert StoredFor(next, id) == StoredFor(s, id);
    }
  }

  // ---------- repairing a gap ----------

  function Deliveries(sent: seq<AgentEvent>): seq<Event> {
    seq(|sent|, i requires 0 <= i < |sent| => Deliver(sent[i].payload, Some(sent[i].eventId), true))
  }

  function AcksOf(sent: seq<AgentEvent>): seq<Message> {
    seq(|sent|, i requires 0 <= i < |sent| => EventAck(sent[i].eventId))
  }

  /** The frame the Agent built for S_n of this stream: full for the first, a delta afterwards. */
  predicate BuiltFor(e: AgentEvent, states: seq<Json>, id: string, n: nat) {
    && 1 <= n <= |states|
    && e.payload == LiveGameDeltaFrame(if n == 1 then None else Some(states[n - 2]), states[n - 1], id, n)
  }

  /** The relay reads a built frame as that frame of the history, or not at all. */
  lemma {:induction false} BuiltValidates(e: AgentEvent, states: seq<Json>, id: string, n: nat, uuid: UuidParser)
    requires BuiltFor(e, states, id, n) && |id| <= 64 && uuid(id) == Some(id)
    requires Objects(states)
    ensures var v := ValidatedFrame(e.payload, uuid);
            v.Invalid? || (v.Valid? && v.streamId == id && v.frame.seqNo == n && AgentFrameOf(states, v.frame) && (v.frame.Full? <==> n == 1))
  {
    hide LiveGameDeltaFrame, ValidatedFrame, DiffOps;
    FrameRoundTrip(if n == 1 then None else Some(states[n - 2]), states[n - 1], id, n, uuid);
  }

  /** The n-th delta is short enough and lands. */
  predicate Deliverable(states: seq<Json>, n: nat)
    requires n <= |states|
  {
    n >= 2 ==>
      && Lands(states[n - 2], states[n - 1], states[n - 2], [])
      && |DiffOps(states[n - 2], states[n - 1], [])| <= MAX_LIVE_DELTA_OPS
  }

  /** What the relay holds for the stream is what it should before the n-th frame. */
  predicate HoldsBefore(s: RelayState, states: seq<Json>, id: string, n: nat)
    requires 1 <= n <= |states| + 1
  {
    if n == 1 then id !in s.streams else id in s.streams && s.streams[id] == Stored(n - 1, states[n - 2])
  }

  /** A delta on its own base, with the API accepting: what is committed is what its operations make. */
  lemma {:induction false} DeltaCommits(s: RelayState, e: AgentEvent, states: seq<Json>, id: string, n: nat, uuid: UuidParser)
    requires |id| <= 64 && uuid(id) == Some(id) && Objects(states)
    requires n >= 2 && BuiltFor(e, states, id, n) && HoldsBefore(s, states, id, n)
    ensures var ops := DiffOps(states[n - 2], states[n - 1], []);
            var got := ApplyOps(states[n - 2], ops);
            var after := Update(s, e.payload, Some(e.eventId), true, uuid);
            if |ops| <= MAX_LIVE_DELTA_OPS && got.Some? then
              after == Acked(Commit(s, id, n, got.value), Some(e.eventId))
            else after.streams == s.streams
  {
    hide DiffOps, ApplyOps, Crashes, LiveGameDeltaFrame, ValidatedFrame;
    FrameRoundTrip(Some(states[n - 2]), states[n - 1], id, n, uuid);
  }

  lemma {:induction false} FirstFrameCommits(s: RelayState, e: AgentEvent, states: seq<Json>, id: string, uuid: UuidParser)
    requires |id| <= 64 && uuid(id) == Some(id) && Objects(states)
    requires BuiltFor(e, states, id, 1) && id !in s.streams
    ensures Update(s, e.payload, Some(e.eventId), true, uuid) == Acked(Commit(s, id, 1, states[0]), Some(e.eventId))
  {
    hide LiveGameDeltaFrame, ValidatedFrame, ApplyOps, Crashes, DiffOps;
    FrameRoundTrip(None, states[0], id, 1, uuid);
  }

  /** With the frame before it stored and the API accepting, the next frame commits its state if and
      only if it is deliverable; then it also clears the block and is acknowledged. */
  lemma {:induction false} NextFrameCommits(s: RelayState, e: AgentEvent, states: seq<Json>, id: string, n: nat, uuid: UuidParser)
    requires |id| <= 64 && uuid(id) == Some(id) && Objects(states)
    requires BuiltFor(e, states, id, n) && HoldsBefore(s, states, id, n)
    ensures var after := Update(s, e.payload, Some(e.eventId), true, uuid);
            && (Deliverable(states, n) <==> after.streams == s.streams[id := Stored(n, states[n - 1])])
            && (Deliverable(states, n) ==> after == Acked(Commit(s, id, n, states[n - 1]), Some(e.eventId)))
  {
    assert n <= |states|;
    hide DiffOps, ApplyOps, Update, BuiltFor, Lands;
    if n == 1 {
      FirstFrameCommits(s, e, states, id, uuid);
    } else {
      DeltaCommits(s, e, states, id, n, uuid);
      ReproducesIffLands(states[n - 2], states[n - 1]);
      var ops, after := DiffOps(states[n - 2], states[n - 1], []), Update(s, e.payload, Some(e.eventId), true, uuid);
      var got := if |ops| <= MAX_LIVE_DELTA_OPS then ApplyOps(states[n - 2], ops) else None;
      CommittedIff(s, after, id, n, got, states[n - 1], e.eventId);
    }
  }

  lemma {:induction false} CommittedIff(s: RelayState, after: RelayState, id: string, n: nat, got: Option<Json>, want: Json, eventId: string)
    requires id in s.streams && s.streams[id].seqNo != n
    requires match got
             case Some(v) => after == Acked(Commit(s, id, n, v), Some(eventId))
             case None => after.streams == s.streams
    ensures after.streams == s.streams[id := Stored(n, want)] <==> got == Some(want)
  {
    assert s.streams[id := Stored(n, want)][id].seqNo == n;
  }

  function NextMissing(s: RelayState, id: string): nat {
    if StoredFor(s, id).Some? then StoredFor(s, id).value.seqNo + 1 else 1
  }

  /** What the relay can decide about a frame the Agent built. */
  lemma {:induction false} BuiltIsDecided(s: RelayState, e: AgentEvent, states: seq<Json>, id: string, n: nat, uuid: UuidParser)
    requires |id| <= 64 && uuid(id) == Some(id) && BuiltFor(e, states, id, n) && Objects(states)
    ensures match Prepare(s, e.payload, uuid)
            case Gap(sid, from, to) => sid == id && from == NextMissing(s, id) && to == n
            case Resync(sid) => sid == id
            case Rejected => true
            case Duplicate => true
            case Ready(_, _, _) => true
            case _ => false
  {
    hide DiffOps, ApplyOps, Crashes, ValidatedFrame, BuiltFor, Named, LiveGameDeltaFrame, Decide;
    BuiltValidates(e, states, id, n, uuid);
    var v := ValidatedFrame(e.payload, uuid);
    if v.Valid? {
      if v.frame.Delta? {
        DiffNamed(states[n - 2], states[n - 1], []);
        NamedDecided(StoredFor(s, id), id, n, v.frame.ops);
      } else {
        assert Decide(StoredFor(s, id), id, v.frame) in [Duplicate, Ready(id, n, v.frame.state)] by {
          FullDecided(StoredFor(s, id), id, n, v.frame.state);
        }
      }
    }
  }

  lemma {:induction false} FullDecided(stored: Option<Stored>, id: string, n: nat, state: Json)
    ensures Decide(stored, id, Full(n, state)) in [Duplicate, Ready(id, n, state)]
  {
  }

  lemma {:induction false} NamedDecided(stored: Option<Stored>, id: string, n: nat, ops: seq<Json>)
    requires Named(ops)
    ensures match Decide(stored, id, Delta(n, ops))
            case Gap(sid, from, to) => sid == id && from == (if stored.Some? then stored.value.seqNo + 1 else 1) && to == n
            case Resync(sid) => sid == id
            case p => p.Rejected? || p.Duplicate? || p.Ready?
  {
    hide ApplyOps, Crashes, Named;
    if stored.Some? {
      NamedNeverCrashes(stored.value.state, ops);
    }
  }

  /** A frame the Agent built is never dropped in silence: unless its stream is blocked, it is
      answered by exactly one message, whatever is stored. */
  lemma {:induction false} FrameIsAnswered(s: RelayState, e: AgentEvent, states: seq<Json>, id: string, n: nat, uuid: UuidParser)
    requires |id| <= 64 && uuid(id) == Some(id) && BuiltFor(e, states, id, n) && Objects(states)
    ensures var after := Update(s, e.payload, Some(e.eventId), true, uuid);
            if Prepare(s, e.payload, uuid).Gap? && id in s.blocks then after == s
            else
              && |after.outbox| == |s.outbox| + 1 && after.outbox[..|s.outbox|] == s.outbox
              && after.outbox[|s.outbox|] in
                   [EventAck(e.eventId), LiveDeltaResync(id), LiveDeltaResend(id, NextMissing(s, id), n)]
  {
    BuiltIsDecided(s, e, states, id, n, uuid);
    assert e.payload["stream_id"] == Str(id);
    hide Prepare, NextMissing, BuiltFor, LiveGameDeltaFrame;
  }

  /** `sent` are the Agent's frames from number `from` on. */
  predicate AllBuilt(sent: seq<AgentEvent>, states: seq<Json>, id: string, from: nat)
    requires from >= 1 && from - 1 + |sent| <= |states|
  {
    forall i | 0 <= i < |sent| :: BuiltAt(sent[i], states, id, from, i)
  }

  predicate BuiltAt(e: AgentEvent, states: seq<Json>, id: string, from: nat, i: nat)
    requires from + i <= |states|
  {
    BuiltFor(e, states, id, from + i)
  }

  predicate AllDeliverable(states: seq<Json>, from: nat, to: nat)
    requires to <= |states|
  {
    forall n | from <= n <= to :: Deliverable(states, n)
  }

  /** Delivered in order with the API accepting, each of the frames commits its state. */
  predicate EachCommits(s: RelayState, sent: seq<AgentEvent>, states: seq<Json>, id: string, from: nat, uuid: UuidParser)
    requires from >= 1 && from - 1 + |sent| <= |states|
    decreases |sent|
  {
    sent == [] ||
    (var next := Update(s, sent[0].payload, Some(sent[0].eventId), true, uuid);
     && next.streams == s.streams[id := Stored(from, states[from - 1])]
     && EachCommits(next, sent[1..], states, id, from + 1, uuid))
  }

  /** Replaying a requested range in order, with the API accepting, commits every state of it if and only
      if every frame is deliverable. */
  lemma {:induction false} EachCommitsIff(s: RelayState, sent: seq<AgentEvent>, states: seq<Json>, id: string, from: nat, uuid: UuidParser)
    requires |id| <= 64 && uuid(id) == Some(id) && from >= 1 && from - 1 + |sent| <= |states| && Objects(states)
    requires AllBuilt(sent, states, id, from) && HoldsBefore(s, states, id, from)
    ensures EachCommits(s, sent, states, id, from, uuid) <==> AllDeliverable(states, from, from + |sent| - 1)
    decreases |sent|
  {
    hide Update, BuiltFor, Deliverable, AllBuilt;
    if sent != [] {
      RestBuilt(sent, states, id, from);
      NextFrameCommits(s, sent[0], states, id, from, uuid);
      RestDeliverable(states, from, from + |sent| - 1);
      var next := Update(s, sent[0].payload, Some(sent[0].eventId), true, uuid);
      if next.streams == s.streams[id := Stored(from, states[from - 1])] {
        EachCommitsIff(next, sent[1..], states, id, from + 1, uuid);
      }
    }
  }

  lemma {:induction false} RestDeliverable(states: seq<Json>, from: nat, to: nat)
    requires from <= to <= |states|
    ensures AllDeliverable(states, from, to) <==> Deliverable(states, from) && AllDeliverable(states, from + 1, to)
  {
    hide Deliverable;
  }

  /** It then brings the relay to the end of the range and acknowledges every frame. */
  lemma {:induction false} ReplayCatchesUp(s: RelayState, sent: seq<AgentEvent>, states: seq<Json>, id: string, from: nat, uuid: UuidParser)
    requires |id| <= 64 && uuid(id) == Some(id) && from >= 1 && from - 1 + |sent| <= |states| && Objects(states)
    requires AllBuilt(sent, states, id, from) && HoldsBefore(s, states, id, from)
    requires AllDeliverable(states, from, from + |sent| - 1)
    requires sent != []
    ensures var after := Run(s, Deliveries(sent), uuid);
            && after.streams == s.streams[id := Stored(from + |sent| - 1, states[from + |sent| - 2])]
            && after.blocks == s.blocks - {id}
            && after.outbox == s.outbox + AcksOf(sent)
    decreases |sent|
  {
    hide Update, BuiltFor, Deliverable, AllBuilt, AcksOf;
    var e, rest := sent[0], sent[1..];
    RestBuilt(sent, states, id, from);
    RestDeliverable(states, from, from + |sent| - 1);
    NextFrameCommits(s, e, states, id, from, uuid);
    var next := Update(s, e.payload, Some(e.eventId), true, uuid);
    DeliveriesStep(s, sent, uuid);
    AcksStep(sent);
    if rest == [] {
      assert Deliveries(rest) == [] && AcksOf(rest) == [] by { NoneSent(); }
      assert s.outbox + ([EventAck(e.eventId)] + []) == s.outbox + [EventAck(e.eventId)];
    } else {
      ReplayCatchesUp(next, rest, states, id, from + 1, uuid);
      assert (s.outbox + [EventAck(e.eventId)]) + AcksOf(rest) == s.outbox + ([EventAck(e.eventId)] + AcksOf(rest));
    }
  }

  lemma {:induction false} NoneSent()
    ensures AcksOf([]) == [] && Deliveries([]) == []
  {
  }

  lemma {:induction false} AcksStep(sent: seq<AgentEvent>)
    requires sent != []
    ensures AcksOf(sent) == [EventAck(sent[0].eventId)] + AcksOf(sent[1..])
  {
  }

  lemma {:induction false} DeliveriesStep(s: RelayState, sent: seq<AgentEvent>, uuid: UuidParser)
    requires sent != []
    ensures Run(s, Deliveries(sent), uuid) ==
            Run(Update(s, sent[0].payload, Some(sent[0].eventId), true, uuid), Deliveries(sent[1..]), uuid)
  {
    hide Update;
    assert Deliveries(sent)[0] == Deliver(sent[0].payload, Some(sent[0].eventId), true);
    assert Deliveries(sent)[1..] == Deliveries(sent[1..]);
  }

  lemma {:induction false} RestBuilt(sent: seq<AgentEvent>, states: seq<Json>, id: string, from: nat)
    requires sent != [] && from >= 1 && from - 1 + |sent| <= |states| && AllBuilt(sent, states, id, from)
    ensures BuiltFor(sent[0], states, id, from)
    ensures AllBuilt(sent[1..], states, id, from + 1)
  {
    hide BuiltFor;
    var rest := sent[1..];
    assert BuiltAt(sent[0], states, id, from, 0);
    forall i | 0 <= i < |rest| ensures BuiltAt(rest[i], states, id, from + 1, i) {
      assert BuiltAt(sent[i + 1], states, id, from, i + 1);
    }
  }
}
