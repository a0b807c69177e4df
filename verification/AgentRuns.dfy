/**
 When the relay holds only states of the Agent: the exact condition on the
 states an Agent publishes, over every run that delivers its frames.
 */
module AgentRuns {
  import opened Wrappers
  import opened Json
  import opened DeltaReceiver
  import opened DeltaSender
  import opened DeltaEffect
  import opened DeltaRoundTrip
  import opened LiveRelay
  import opened LiveRelayProofs
  import opened AgentStream

  /** The relay does not take the delta: it has too many operations, or one of them is refused. */
  predicate Refused(prev: Json, next: Json) {
    |DiffOps(prev, next, [])| > MAX_LIVE_DELTA_OPS || ApplyOps(prev, DiffOps(prev, next, [])).None?
  }

  /** The n-th change lands, or its delta is refused. */
  predicate HarmlessAt(states: seq<Json>, n: nat)
    requires 2 <= n <= |states|
  {
    Lands(states[n - 2], states[n - 1], states[n - 2], []) || Refused(states[n - 2], states[n - 1])
  }

  predicate AllHarmless(states: seq<Json>) {
    forall n | 2 <= n <= |states| :: HarmlessAt(states, n)
  }

  predicate HarmlessHistory(h: History) {
    forall id | id in h :: AllHarmless(h[id])
  }

  ghost predicate StreamIdsOk(h: History, uuid: UuidParser) {
    forall id | id in h :: uuid(id) == Some(id) && |id| <= 64
  }

  /** A harmless change is never reproduced wrongly, and only a harmless one. */
  lemma {:induction false} HarmlessIff(states: seq<Json>, n: nat)
    requires Objects(states) && 2 <= n <= |states|
    ensures var ops := DiffOps(states[n - 2], states[n - 1], []);
            HarmlessAt(states, n) <==>
            |ops| > MAX_LIVE_DELTA_OPS || ApplyOps(states[n - 2], ops) in [None, Some(states[n - 1])]
  {
    hide DiffOps, ApplyOps, Lands;
    ReproducesIffLands(states[n - 2], states[n - 1]);
  }

  /** With the Agent's inventories, a change is harmless exactly when its items are kept or its delta is refused. */
  lemma {:induction false} ShapedHarmlessIff(states: seq<Json>, n: nat)
    requires Objects(states) && 2 <= n <= |states|
    requires Shaped(states[n - 2], [], false) && Shaped(states[n - 1], [], false)
    ensures HarmlessAt(states, n) <==> Kept(states[n - 2], states[n - 1], []) || Refused(states[n - 2], states[n - 1])
  {
    hide DiffOps, ApplyOps, Lands, Kept, Shaped;
    HarmlessIff(states, n);
    AcceptedRightIffKept(states[n - 2], states[n - 1]);
  }

  /** States with string item names only are harmless. */
  lemma {:induction false} NamedHarmless(states: seq<Json>)
    requires Objects(states) && forall i | 0 <= i < |states| :: Shaped(states[i], [], true)
    ensures AllHarmless(states)
  {
    hide DiffOps, ApplyOps, Lands, Shaped, HarmlessAt;
    forall n | 2 <= n <= |states| ensures HarmlessAt(states, n) {
      ShapedDeltaNeverWrong(states[n - 2], states[n - 1]);
      HarmlessIff(states, n);
    }
  }

  // ---------- full frames of any state, deltas of the Agent ----------

  lemma {:induction false} AgentIsSender(h: History, payload: Payload, uuid: UuidParser)
    requires HistoryOk(h) && AgentGenuine(h, payload, uuid)
    requires var v := ValidatedFrame(payload, uuid); v.Valid? && v.frame.Delta? ==> HarmlessAt(h[v.streamId], v.frame.seqNo)
    ensures Genuine(h, payload, uuid)
  {
    hide DiffOps, ApplyOps, HarmlessAt, ValidatedFrame, Objects;
    var v := ValidatedFrame(payload, uuid);
    if v.Valid? && v.frame.Delta? {
      assert Objects(h[v.streamId]);
      HarmlessIff(h[v.streamId], v.frame.seqNo);
    }
  }

  ghost predicate AgentRun(h: History, events: seq<Event>, uuid: UuidParser) {
    forall i | 0 <= i < |events| && events[i].Deliver? :: AgentGenuine(h, events[i].payload, uuid)
  }

  /** When every change is harmless, the relay stores only states of the Agent. */
  lemma {:induction false} StoredIsAgentState(s: RelayState, h: History, events: seq<Event>, uuid: UuidParser)
    requires HistoryOk(h) && HarmlessHistory(h) && Faithful(s, h) && AgentRun(h, events, uuid)
    ensures Faithful(Run(s, events, uuid), h)
  {
    hide Faithful, Run, HistoryOk, Genuine, AllHarmless, HarmlessAt;
    forall i | 0 <= i < |events| && events[i].Deliver? ensures Genuine(h, events[i].payload, uuid) {
      var v := ValidatedFrame(events[i].payload, uuid);
      assert AgentGenuine(h, events[i].payload, uuid);
      if v.Valid? && v.frame.Delta? {
        HarmlessInHistory(h, v.streamId, v.frame.seqNo);
      }
      AgentIsSender(h, events[i].payload, uuid);
    }
    StoredIsSenderState(s, h, events, uuid);
  }

  lemma {:induction false} HarmlessInHistory(h: History, id: string, n: nat)
    requires HarmlessHistory(h) && id in h && 2 <= n <= |h[id]|
    ensures HarmlessAt(h[id], n)
  {
  }

  ghost predicate EveryRunFaithful(h: History, uuid: UuidParser) {
    forall events | AgentRun(h, events, uuid) :: Faithful(Run(Fresh, events, uuid), h)
  }

  function FrameEvent(states: seq<Json>, id: string, n: nat): AgentEvent
    requires 1 <= n <= |states|
  {
    AgentEvent("", LiveGameDeltaFrame(if n == 1 then None else Some(states[n - 2]), states[n - 1], id, n), None)
  }

  /** A delta that is neither refused nor lands, on its own base: the relay commits a wrong state. */
  lemma {:induction false} HarmfulCommit(s: RelayState, e: AgentEvent, states: seq<Json>, id: string, n: nat, uuid: UuidParser)
    requires |id| <= 64 && uuid(id) == Some(id) && Objects(states) && 2 <= n <= |states| && !HarmlessAt(states, n)
    requires BuiltFor(e, states, id, n) && id in s.streams && s.streams[id] == Stored(n - 1, states[n - 2])
    ensures var after := Update(s, e.payload, Some(e.eventId), true, uuid);
            id in after.streams && !StoredFaithful(after.streams[id], states)
  {
    hide DiffOps, ApplyOps, Lands, BuiltFor, Update, HarmlessAt;
    HarmlessIff(states, n);
    DeltaCommits(s, e, states, id, n, uuid);
  }

  lemma {:induction false} TwoEvents(s: RelayState, a: Event, b: Event, uuid: UuidParser)
    ensures Run(s, [a, b], uuid) == StepRelay(StepRelay(s, a, uuid), b, uuid)
  {
    hide StepRelay;
    assert [a, b][1..] == [b] && [b][1..] == [];
    var t := StepRelay(s, a, uuid);
    assert Run(t, [b], uuid) == Run(StepRelay(t, b, uuid), [], uuid);
  }

  lemma {:induction false} FullCommits(s: RelayState, payload: Payload, state: Json, id: string, n: nat, uuid: UuidParser)
    requires ValidatedFrame(payload, uuid) == Valid(id, Full(n, state)) && id !in s.streams
    ensures forall eventId :: Update(s, payload, eventId, true, uuid) == Acked(Commit(s, id, n, state), eventId)
  {
    hide ValidatedFrame, ApplyOps, Crashes;
  }

  lemma {:induction false} FullOfHistory(h: History, id: string, n: nat, uuid: UuidParser)
    requires HistoryOk(h) && StreamIdsOk(h, uuid) && id in h && 1 <= n <= |h[id]|
    ensures var full := LiveGameDeltaFrame(None, h[id][n - 1], id, n);
            ValidatedFrame(full, uuid) == Valid(id, Full(n, h[id][n - 1])) && AgentGenuine(h, full, uuid)
  {
    hide LiveGameDeltaFrame, ValidatedFrame, DiffOps;
    assert Objects(h[id]);
    FrameRoundTrip(None, h[id][n - 1], id, n, uuid);
  }

  lemma {:induction false} FrameOfHistory(h: History, e: AgentEvent, id: string, n: nat, uuid: UuidParser)
    requires HistoryOk(h) && StreamIdsOk(h, uuid) && id in h && BuiltFor(e, h[id], id, n)
    ensures AgentGenuine(h, e.payload, uuid)
  {
    hide Objects, BuiltFor, ValidatedFrame, AgentFrameOf, LiveGameDeltaFrame;
    assert Objects(h[id]);
    BuiltValidates(e, h[id], id, n, uuid);
  }

  function Accepted(e: AgentEvent): Event {
    Deliver(e.payload, Some(e.eventId), true)
  }

  function FullEvent(states: seq<Json>, id: string, n: nat): AgentEvent
    requires 1 <= n <= |states|
  {
    AgentEvent("", LiveGameDeltaFrame(None, states[n - 1], id, n), None)
  }

  lemma {:induction false} FrameEventBuilt(states: seq<Json>, id: string, n: nat)
    requires 1 <= n <= |states|
    ensures BuiltFor(FrameEvent(states, id, n), states, id, n)
  {
    hide LiveGameDeltaFrame;
  }

  lemma {:induction false} HarmfulPair(states: seq<Json>, id: string, n: nat, uuid: UuidParser)
    requires |id| <= 64 && uuid(id) == Some(id) && Objects(states) && 2 <= n <= |states| && !HarmlessAt(states, n)
    ensures var after := Run(Fresh, [Accepted(FullEvent(states, id, n - 1)), Accepted(FrameEvent(states, id, n))], uuid);
            id in after.streams && !StoredFaithful(after.streams[id], states)
  {
    hide LiveGameDeltaFrame, ValidatedFrame, HarmlessAt, StoredFaithful, BuiltFor, Update, Run, FrameEvent;
    var full, e := FullEvent(states, id, n - 1), FrameEvent(states, id, n);
    FrameEventBuilt(states, id, n);
    FrameRoundTrip(None, states[n - 2], id, n - 1, uuid);
    FullCommits(Fresh, full.payload, states[n - 2], id, n - 1, uuid);
    HarmfulCommit(Update(Fresh, full.payload, Some(""), true, uuid), e, states, id, n, uuid);
    TwoEvents(Fresh, Accepted(full), Accepted(e), uuid);
  }

  /** A state sent in full and then a change that is not harmless: the relay stores a wrong state. */
  lemma {:induction false} HarmfulRun(h: History, id: string, n: nat, uuid: UuidParser) returns (events: seq<Event>)
    requires HistoryOk(h) && StreamIdsOk(h, uuid) && id in h && 2 <= n <= |h[id]| && !HarmlessAt(h[id], n)
    ensures AgentRun(h, events, uuid) && !Faithful(Run(Fresh, events, uuid), h)
  {
    hide LiveGameDeltaFrame, ValidatedFrame, HarmlessAt, AgentGenuine, StoredFaithful, Objects, BuiltFor, Run, FrameEvent;
    events := [Accepted(FullEvent(h[id], id, n - 1)), Accepted(FrameEvent(h[id], id, n))];
    FrameEventBuilt(h[id], id, n);
    FullOfHistory(h, id, n - 1, uuid);
    FrameOfHistory(h, FrameEvent(h[id], id, n), id, n, uuid);
    HarmfulPair(h[id], id, n, uuid);
  }

  /** Over runs that deliver full frames of any states and the Agent's deltas, in any order, with loss,
      repetition, refusal and expiry: every run stores only the Agent's states if and only if every
      change of every stream lands or is refused. */
  lemma {:induction false} EveryRunFaithfulIff(h: History, uuid: UuidParser)
    requires HistoryOk(h) && StreamIdsOk(h, uuid)
    ensures EveryRunFaithful(h, uuid) <==> HarmlessHistory(h)
  {
    hide Faithful, Run, AgentRun, HistoryOk, StreamIdsOk, HarmlessAt;
    if HarmlessHistory(h) {
      assert Faithful(Fresh, h) by { FreshFaithful(h); }
      forall events | AgentRun(h, events, uuid) ensures Faithful(Run(Fresh, events, uuid), h) {
        StoredIsAgentState(Fresh, h, events, uuid);
      }
    } else {
      var id :| id in h && !AllHarmless(h[id]);
      var n :| 2 <= n <= |h[id]| && !HarmlessAt(h[id], n);
      var events := HarmfulRun(h, id, n, uuid);
    }
  }

  lemma {:induction false} FreshFaithful(h: History)
    ensures Faithful(Fresh, h)
  {
  }

  // ---------- only what the Agent sends ----------

  /** The frame the Agent sent for the n-th state of the stream: full for the first, a delta afterwards. */
  ghost predicate SentAs(h: History, payload: Payload, id: string, n: nat) {
    id in h && 1 <= n <= |h[id]| && payload == FrameEvent(h[id], id, n).payload
  }

  ghost predicate SentRun(h: History, events: seq<Event>) {
    forall i | 0 <= i < |events| && events[i].Deliver? :: exists id, n :: SentAs(h, events[i].payload, id, n)
  }

  predicate ReachesTo(states: seq<Json>, n: nat)
    requires n <= |states|
  {
    AllDeliverable(states, 1, n)
  }

  /** The relay holds states of the Agent, and only such as are reached change by change. */
  ghost predicate Reached(s: RelayState, h: History) {
    forall id | id in s.streams ::
      id in h && StoredFaithful(s.streams[id], h[id]) && ReachesTo(h[id], s.streams[id].seqNo)
  }

  /** The first change of the stream that cannot be delivered, if there is one, is refused. */
  predicate StopsAtRefusal(states: seq<Json>) {
    forall n | 2 <= n <= |states| :: ReachesTo(states, n - 1) ==> HarmlessAt(states, n)
  }

  predicate HistoryStops(h: History) {
    forall id | id in h :: StopsAtRefusal(h[id])
  }

  lemma {:induction false} OneFurther(states: seq<Json>, n: nat)
    requires 1 <= n <= |states| && ReachesTo(states, n - 1) && Deliverable(states, n)
    ensures ReachesTo(states, n)
  {
    hide Deliverable;
  }

  lemma {:induction false} ReadyReached(stored: Option<Stored>, states: seq<Json>, id: string, frame: Frame)
    requires Objects(states) && StopsAtRefusal(states) && AgentFrameOf(states, frame) && (frame.Full? ==> frame.seqNo == 1)
    requires stored.Some? ==> StoredFaithful(stored.value, states) && ReachesTo(states, stored.value.seqNo)
    ensures var p := Decide(stored, id, frame);
            p.Ready? ==> p.streamId == id && StoredFaithful(Stored(p.seqNo, p.state), states) && ReachesTo(states, p.seqNo)
  {
    hide ApplyOps, DiffOps, Lands, Crashes, HarmlessAt, AllDeliverable;
    var p := Decide(stored, id, frame);
    if p.Ready? {
      var n := p.seqNo;
      if frame.Full? {
        FirstReached(states);
      } else {
        HarmlessIff(states, n);
        ReproducesIffLands(states[n - 2], states[n - 1]);
        OneFurther(states, n);
      }
    }
  }

  lemma {:induction false} FirstReached(states: seq<Json>)
    requires states != []
    ensures ReachesTo(states, 1)
  {
    hide Lands;
  }

  lemma {:induction false} CommitReached(s: RelayState, h: History, id: string, n: nat, state: Json)
    requires Reached(s, h) && id in h && StoredFaithful(Stored(n, state), h[id]) && ReachesTo(h[id], n)
    ensures Reached(Commit(s, id, n, state), h)
  {
    hide ReachesTo;
  }

  lemma {:induction false} SentValidates(h: History, payload: Payload, id: string, n: nat, uuid: UuidParser)
    requires HistoryOk(h) && StreamIdsOk(h, uuid) && SentAs(h, payload, id, n)
    ensures id in h
    ensures var v := ValidatedFrame(payload, uuid);
            v.Invalid? || (v.Valid? && v.streamId == id && AgentFrameOf(h[id], v.frame) && (v.frame.Full? ==> v.frame.seqNo == 1))
  {
    hide BuiltFor, ValidatedFrame, AgentFrameOf, LiveGameDeltaFrame, FrameEvent, Objects;
    assert Objects(h[id]);
    FrameEventBuilt(h[id], id, n);
    BuiltValidates(FrameEvent(h[id], id, n), h[id], id, n, uuid);
  }

  lemma {:induction false} SameStreams(a: RelayState, b: RelayState, h: History)
    requires Reached(a, h) && a.streams == b.streams
    ensures Reached(b, h)
  {
  }

  lemma {:induction false} PreparedReached(s: RelayState, h: History, payload: Payload, id: string, n: nat, uuid: UuidParser)
    requires HistoryOk(h) && StreamIdsOk(h, uuid) && HistoryStops(h) && Reached(s, h) && SentAs(h, payload, id, n)
    ensures var p := Prepare(s, payload, uuid);
            p.Ready? ==> Reached(Commit(s, p.streamId, p.seqNo, p.state), h)
  {
    hide Decide, ValidatedFrame, StoredFaithful, AgentFrameOf, Commit, ReachesTo, SentAs, StopsAtRefusal, Objects, StreamIdsOk;
    SentValidates(h, payload, id, n, uuid);
    var v := ValidatedFrame(payload, uuid);
    if v.Valid? {
      assert Objects(h[id]) && StopsAtRefusal(h[id]);
      ReadyReached(StoredFor(s, id), h[id], id, v.frame);
      var p := Prepare(s, payload, uuid);
      if p.Ready? {
        CommitReached(s, h, id, p.seqNo, p.state);
      }
    }
  }

  lemma {:induction false} SentStep(s: RelayState, h: History, e: Event, uuid: UuidParser)
    requires HistoryOk(h) && StreamIdsOk(h, uuid) && HistoryStops(h) && Reached(s, h)
    requires e.Deliver? ==> exists id, n :: SentAs(h, e.payload, id, n)
    ensures Reached(StepRelay(s, e, uuid), h)
  {
    if e.Deliver? {
      hide Reached, SentAs, HistoryOk, StreamIdsOk, HistoryStops, Prepare, Update, Commit;
      var id, n :| SentAs(h, e.payload, id, n);
      PreparedReached(s, h, e.payload, id, n, uuid);
      UpdateStreams(s, e.payload, e.eventId, e.handled, uuid);
      var p, after := Prepare(s, e.payload, uuid), Update(s, e.payload, e.eventId, e.handled, uuid);
      SameStreams(if p.Ready? && e.handled then Commit(s, p.streamId, p.seqNo, p.state) else s, after, h);
    }
  }

  lemma {:induction false} SentRunReached(s: RelayState, h: History, events: seq<Event>, uuid: UuidParser)
    requires HistoryOk(h) && StreamIdsOk(h, uuid) && HistoryStops(h) && Reached(s, h) && SentRun(h, events)
    ensures Reached(Run(s, events, uuid), h)
    decreases |events|
  {
    hide Reached, HistoryOk, StreamIdsOk, HistoryStops, SentAs, StepRelay;
    if events != [] {
      SentStep(s, h, events[0], uuid);
      var rest := events[1..];
      assert forall i | 0 <= i < |rest| :: rest[i] == events[i + 1];
      SentRunReached(StepRelay(s, events[0], uuid), h, rest, uuid);
    }
  }

  lemma {:induction false} RunJoin(s: RelayState, xs: seq<Event>, ys: seq<Event>, uuid: UuidParser)
    ensures Run(s, xs + ys, uuid) == Run(Run(s, xs, uuid), ys, uuid)
    decreases |xs|
  {
    hide StepRelay;
    if xs == [] {
      assert xs + ys == ys;
    } else {
      assert (xs + ys)[0] == xs[0] && (xs + ys)[1..] == xs[1..] + ys;
      RunJoin(StepRelay(s, xs[0], uuid), xs[1..], ys, uuid);
    }
  }

  function FirstFrames(states: seq<Json>, id: string, count: nat): seq<AgentEvent>
    requires count <= |states|
  {
    seq(count, i requires 0 <= i < count => FrameEvent(states, id, i + 1))
  }

  /** Delivering the frames up to a change that is neither refused nor lands stores a wrong state. */
  lemma {:induction false} WrongStop(states: seq<Json>, id: string, n: nat, uuid: UuidParser)
    requires |id| <= 64 && uuid(id) == Some(id) && Objects(states)
    requires 2 <= n <= |states| && ReachesTo(states, n - 1) && !HarmlessAt(states, n)
    ensures var after := Run(Fresh, Deliveries(FirstFrames(states, id, n - 1)) + [Accepted(FrameEvent(states, id, n))], uuid);
            id in after.streams && !StoredFaithful(after.streams[id], states)
  {
    hide Objects, BuiltFor, Update, HarmlessAt, StoredFaithful, FrameEvent, Deliverable;
    var sent, e := FirstFrames(states, id, n - 1), FrameEvent(states, id, n);
    forall i | 0 <= i < |sent| ensures BuiltAt(sent[i], states, id, 1, i) {
      FrameEventBuilt(states, id, i + 1);
    }
    ReplayCatchesUp(Fresh, sent, states, id, 1, uuid);
    FrameEventBuilt(states, id, n);
    var mid := Run(Fresh, Deliveries(sent), uuid);
    HarmfulCommit(mid, e, states, id, n, uuid);
    RunJoin(Fresh, Deliveries(sent), [Accepted(e)], uuid);
    assert Run(mid, [Accepted(e)], uuid) == Run(StepRelay(mid, Accepted(e), uuid), [], uuid);
  }

  /** For what the Agent actually sends: in every run, with loss, repetition, reordering, refusal and expiry,
      the relay stores only the Agent's states if and only if, in every stream, the first change
      that does not land, if there is one, is refused. */
  lemma {:induction false} SentRunsFaithfulIff(h: History, uuid: UuidParser)
    requires HistoryOk(h) && StreamIdsOk(h, uuid)
    ensures (forall events | SentRun(h, events) :: Faithful(Run(Fresh, events, uuid), h)) <==> HistoryStops(h)
  {
    hide Run, SentRun, HistoryOk, StreamIdsOk, HarmlessAt, ReachesTo, StoredFaithful;
    if HistoryStops(h) {
      forall events | SentRun(h, events) ensures Faithful(Run(Fresh, events, uuid), h) {
        SentRunReached(Fresh, h, events, uuid);
      }
    } else {
      var id :| id in h && !StopsAtRefusal(h[id]);
      var n :| 2 <= n <= |h[id]| && ReachesTo(h[id], n - 1) && !HarmlessAt(h[id], n);
      IdOk(h, id, uuid);
      WrongStop(h[id], id, n, uuid);
      AllSent(h, id, n);
    }
  }

  lemma {:induction false} IdOk(h: History, id: string, uuid: UuidParser)
    requires HistoryOk(h) && StreamIdsOk(h, uuid) && id in h
    ensures |id| <= 64 && uuid(id) == Some(id) && Objects(h[id])
  {
  }

  lemma {:induction false} AllSent(h: History, id: string, n: nat)
    requires id in h && 1 <= n <= |h[id]|
    ensures SentRun(h, Deliveries(FirstFrames(h[id], id, n - 1)) + [Accepted(FrameEvent(h[id], id, n))])
  {
    hide FrameEvent;
    var sent, e := FirstFrames(h[id], id, n - 1), FrameEvent(h[id], id, n);
    var events := Deliveries(sent) + [Accepted(e)];
    forall i | 0 <= i < |events| && events[i].Deliver? ensures exists j, k :: SentAs(h, events[i].payload, j, k) {
      assert i < n - 1 ==> events[i].payload == sent[i].payload;
      assert SentAs(h, events[i].payload, id, i + 1);
    }
  }
}
