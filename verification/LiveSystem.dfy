/**
 Agent, network and relay together: the Agent publishes states and keeps
 unacknowledged frames, the network may lose, repeat and reorder frames and
 acknowledgements, the API may refuse, and Redis keys may expire.  The buffer
 is shared with end-of-game events, which can push frames out.
 */
module LiveSystem {
  import opened Wrappers
  import opened Json
  import opened DeltaReceiver
  import opened DeltaSender
  import opened DeltaEffect
  import opened LiveRelay
  import opened AgentStream
  import opened LiveRelayProofs
  import opened AgentRuns

  /** `high` is the greatest sequence number ever committed per stream; `lost` the frames the Agent
      gave up itself: too large to send, pushed out of a full buffer, or dropped for a resync;
      `others` the ids of the durable events that are not frames. */
  datatype System = System(
    cursor: Cursor,
    history: History,
    pending: seq<AgentEvent>,
    sent: set<AgentEvent>,
    others: set<string>,
    lost: set<LiveTag>,
    relay: RelayState,
    high: map<string, nat>)

  const Start: System := System(Idle, map[], [], {}, {}, {}, Fresh, map[])

  datatype Step =
    | Observe(fingerprint: string, state: Json, freshId: string, eventId: string, tooLarge: bool)
    | TrackOther(eventId: string, payload: Payload)
    | Arrive(event: AgentEvent, handled: bool)
    | AckArrives(ackedId: string)
    | OtherAckArrives(ackedId: string)
    | DropForResync(streamId: string)
    | ForgetGame
    | StateKeyExpires(key: string)
    | BlockKeyExpires(key: string)

  predicate NewEventId(s: System, eventId: string) {
    eventId !in s.others && forall e | e in s.sent :: e.eventId != eventId
  }

  ghost predicate Enabled(s: System, step: Step, uuid: UuidParser) {
    match step
    case Observe(_, state, freshId, eventId, _) =>
      && state.Obj? && NewEventId(s, eventId)
      && freshId !in s.history && |freshId| <= 64 && uuid(freshId) == Some(freshId)
    case TrackOther(eventId, _) => NewEventId(s, eventId)
    case OtherAckArrives(id) => id in s.others
    case Arrive(event, _) => event in s.sent
    case AckArrives(id) => EventAck(id) in s.relay.outbox
    case _ => true
  }

  function TagsOf(events: seq<AgentEvent>, streamId: string): set<LiveTag> {
    set e | e in events && OfStream(e, streamId) :: e.live.value
  }

  function Published(s: System, cursor: Cursor, state: Json): System
    requires cursor.streamId.Some?
  {
    var id := cursor.streamId.value;
    s.(cursor := cursor,
       history := s.history[id := (if id in s.history then s.history[id] else []) + [state]])
  }

  function Overflow(pending: seq<AgentEvent>): set<LiveTag> {
    if |pending| >= MAX_DURABLE_REPLAY_EVENTS && pending[0].live.Some? then {pending[0].live.value} else {}
  }

  function High(s: System, relay: RelayState, id: string): nat {
    var before := if id in s.high then s.high[id] else 0;
    if id in relay.streams && relay.streams[id].seqNo > before then relay.streams[id].seqNo else before
  }

  ghost function Next(s: System, step: Step, uuid: UuidParser): System
    requires Enabled(s, step, uuid)
  {
    match step
    case Observe(fingerprint, state, freshId, eventId, tooLarge) =>
      var (cursor, message) := PushChanged(s.cursor, true, fingerprint, state, freshId);
      if message.None? then s
      else
        var tag := LiveTag(cursor.streamId.value, cursor.seqNo);
        var e := AgentEvent(eventId, message.value, Some(tag));
        var p := Published(s, cursor, state);
        if tooLarge then p.(lost := s.lost + {tag})
        else p.(pending := Track(s.pending, e), sent := s.sent + {e}, lost := s.lost + Overflow(s.pending))
    case TrackOther(eventId, payload) =>
      s.(pending := Track(s.pending, AgentEvent(eventId, payload, None)), others := s.others + {eventId},
         lost := s.lost + Overflow(s.pending))
    case OtherAckArrives(id) => s.(pending := Ack(s.pending, id))
    case Arrive(e, handled) =>
      var relay := Update(s.relay, e.payload, Some(e.eventId), handled, uuid);
      s.(relay := relay, high := map id | id in s.high.Keys + relay.streams.Keys :: High(s, relay, id))
    case AckArrives(id) => s.(pending := Ack(s.pending, id))
    case DropForResync(id) =>
      s.(pending := DropLiveStream(s.pending, id), lost := s.lost + TagsOf(s.pending, id), cursor := Idle)
    case ForgetGame => s.(cursor := Idle)
    case StateKeyExpires(id) => s.(relay := StepRelay(s.relay, StateExpires(id), uuid))
    case BlockKeyExpires(id) => s.(relay := StepRelay(s.relay, BlockExpires(id), uuid))
  }

  ghost predicate Feasible(s: System, steps: seq<Step>, uuid: UuidParser)
    decreases |steps|
  {
    steps == [] || (Enabled(s, steps[0], uuid) && Feasible(Next(s, steps[0], uuid), steps[1..], uuid))
  }

  ghost function RunAll(s: System, steps: seq<Step>, uuid: UuidParser): System
    requires Feasible(s, steps, uuid)
    decreases |steps|
  {
    if steps == [] then s else RunAll(Next(s, steps[0], uuid), steps[1..], uuid)
  }

  // ---------- invariant ----------

  ghost predicate Covered(high: map<string, nat>, tag: LiveTag) {
    tag.streamId in high && tag.seqNo <= high[tag.streamId]
  }

  ghost predicate CursorFits(c: Cursor, h: History) {
    && CursorOk(c, true)
    && (c.streamId.Some? ==>
          && c.streamId.value in h && |h[c.streamId.value]| == c.seqNo
          && c.previous == Some(h[c.streamId.value][c.seqNo - 1]))
  }

  ghost predicate EventOk(e: AgentEvent, h: History, uuid: UuidParser) {
    && e.live.Some? && e.live.value.streamId in h
    && uuid(e.live.value.streamId) == Some(e.live.value.streamId) && |e.live.value.streamId| <= 64
    && BuiltFor(e, h[e.live.value.streamId], e.live.value.streamId, e.live.value.seqNo)
  }

  ghost predicate SentOk(sent: set<AgentEvent>, h: History, uuid: UuidParser) {
    && (forall e | e in sent :: EventOk(e, h, uuid))
    && (forall e, f | e in sent && f in sent && e.eventId == f.eventId :: e == f)
  }

  /** The buffer holds frames that were sent, in order, and other events. */
  ghost predicate PendingOk(pending: seq<AgentEvent>, sent: set<AgentEvent>, others: set<string>) {
    Ordered(pending) && forall e | e in pending :: e in sent || (e.live.None? && e.eventId in others)
  }

  ghost predicate OthersOk(sent: set<AgentEvent>, others: set<string>) {
    forall e | e in sent :: e.eventId !in others
  }

  /** What is stored is numbered within the stream; and as long as the first change of the stream that
      does not land is refused, it is the Agent's state. */
  ghost predicate Tracks(stored: Stored, states: seq<Json>) {
    && 1 <= stored.seqNo <= |states|
    && (StopsAtRefusal(states) ==> StoredFaithful(stored, states) && ReachesTo(states, stored.seqNo))
  }

  ghost predicate StoredOk(relay: RelayState, h: History) {
    forall id | id in relay.streams :: id in h && Tracks(relay.streams[id], h[id])
  }

  /** Every acknowledgement is for a frame that was sent and is covered by a commit. */
  ghost predicate AckOk(s: System, eventId: string) {
    exists e :: e in s.sent && e.eventId == eventId && e.live.Some? && Covered(s.high, e.live.value)
  }

  ghost predicate AcksOk(s: System) {
    forall id | EventAck(id) in s.relay.outbox :: AckOk(s, id)
  }

  ghost predicate HighOk(s: System) {
    forall id | id in s.relay.streams :: id in s.high && s.relay.streams[id].seqNo <= s.high[id]
  }

  ghost predicate Waiting(pending: seq<AgentEvent>, tag: LiveTag) {
    exists e :: e in pending && e.live == Some(tag)
  }

  /** The frame is accounted for: given up by the Agent, covered by a commit, or still waiting. */
  ghost predicate Accounted(s: System, tag: LiveTag) {
    tag in s.lost || Covered(s.high, tag) || Waiting(s.pending, tag)
  }

  ghost predicate NothingForgotten(s: System) {
    forall id | id in s.history :: forall n | 1 <= n <= |s.history[id]| :: Accounted(s, LiveTag(id, n))
  }

  ghost predicate Inv(s: System, uuid: UuidParser) {
    && HistoryOk(s.history) && StreamIdsOk(s.history, uuid)
    && CursorFits(s.cursor, s.history)
    && SentOk(s.sent, s.history, uuid)
    && PendingOk(s.pending, s.sent, s.others) && OthersOk(s.sent, s.others)
    && StoredOk(s.relay, s.history)
    && HighOk(s) && AcksOk(s) && NothingForgotten(s)
  }

  // ---------- steps keep it ----------

  /** A frame the Agent sent is a frame of its history. */
  lemma {:induction false} EventValidates(e: AgentEvent, h: History, uuid: UuidParser)
    requires EventOk(e, h, uuid) && HistoryOk(h)
    ensures var v := ValidatedFrame(e.payload, uuid);
            v.Invalid? ||
            (v.Valid? && v.streamId == e.live.value.streamId && v.frame.seqNo == e.live.value.seqNo
             && AgentFrameOf(h[v.streamId], v.frame) && (v.frame.Full? ==> v.frame.seqNo == 1))
  {
    hide BuiltFor, ValidatedFrame, AgentFrameOf, Objects;
    assert Objects(h[e.live.value.streamId]);
    var id, n := e.live.value.streamId, e.live.value.seqNo;
    BuiltValidates(e, h[id], id, n, uuid);
  }

  lemma {:induction false} HighGrows(s: System, next: System)
    requires HighOk(s)
    requires next.high == map id | id in s.high.Keys + next.relay.streams.Keys :: High(s, next.relay, id)
    ensures HighOk(next)
    ensures forall tag :: Covered(s.high, tag) ==> Covered(next.high, tag)
  {
  }

  lemma {:induction false} NewAckOk(s: System, e: AgentEvent, handled: bool, id: string, uuid: UuidParser)
    requires HistoryOk(s.history) && EventOk(e, s.history, uuid) && HighOk(s)
    requires e in s.sent && EventAck(id) !in s.relay.outbox
    requires EventAck(id) in Next(s, Arrive(e, handled), uuid).relay.outbox
    ensures AckOk(Next(s, Arrive(e, handled), uuid), id)
  {
    hide BuiltFor, ValidatedFrame, HistoryOk, Update, AgentFrameOf;
    var event := Deliver(e.payload, Some(e.eventId), handled);
    AddedMember(s.relay, event, EventAck(id), uuid);
    AckMeansStored(s.relay, e.payload, Some(e.eventId), handled, id, uuid);
    EventValidates(e, s.history, uuid);
    AckIsForValid(s.relay, e.payload, Some(e.eventId), handled, uuid);
    HighGrows(s, Next(s, Arrive(e, handled), uuid));
  }

  lemma {:induction false} ArriveAcks(s: System, e: AgentEvent, handled: bool, uuid: UuidParser)
    requires HistoryOk(s.history) && EventOk(e, s.history, uuid) && HighOk(s) && AcksOk(s)
    requires e in s.sent
    ensures AcksOk(Next(s, Arrive(e, handled), uuid))
  {
    hide HistoryOk, EventOk, Update;
    var next := Next(s, Arrive(e, handled), uuid);
    HighGrows(s, next);
    forall id | EventAck(id) in next.relay.outbox ensures AckOk(next, id) {
      if EventAck(id) in s.relay.outbox {
        assert AckOk(s, id);
      } else {
        NewAckOk(s, e, handled, id, uuid);
      }
    }
  }

  lemma {:induction false} AddedMember(s: RelayState, e: Event, m: Message, uuid: UuidParser)
    requires m in StepRelay(s, e, uuid).outbox && m !in s.outbox
    ensures |StepRelay(s, e, uuid).outbox| >= |s.outbox| && m in Added(s, e, uuid)
  {
    hide StepRelay;
    OutboxGrows(s, e, uuid);
    var out := StepRelay(s, e, uuid).outbox;
    assert out == s.outbox + out[|s.outbox|..];
  }

  lemma {:induction false} AckIsForValid(s: RelayState, payload: Payload, eventId: Option<string>, handled: bool, uuid: UuidParser)
    ensures ValidatedFrame(payload, uuid).Invalid? ==>
            forall id :: EventAck(id) in Update(s, payload, eventId, handled, uuid).outbox ==> EventAck(id) in s.outbox
  {
    hide ValidatedFrame;
  }

  lemma {:induction false} ArriveAccounts(s: System, e: AgentEvent, handled: bool, uuid: UuidParser)
    requires HighOk(s) && NothingForgotten(s) && e in s.sent
    ensures NothingForgotten(Next(s, Arrive(e, handled), uuid))
  {
    hide Update;
    var next := Next(s, Arrive(e, handled), uuid);
    HighGrows(s, next);
    forall id, n | id in next.history && 1 <= n <= |next.history[id]| ensures Accounted(next, LiveTag(id, n)) {
      assert Accounted(s, LiveTag(id, n));
    }
  }

  lemma {:induction false} ReadyTracks(stored: Option<Stored>, states: seq<Json>, id: string, frame: Frame)
    requires Objects(states) && AgentFrameOf(states, frame) && (frame.Full? ==> frame.seqNo == 1)
    requires stored.Some? ==> Tracks(stored.value, states)
    ensures var p := Decide(stored, id, frame);
            p.Ready? ==> p.streamId == id && Tracks(Stored(p.seqNo, p.state), states)
  {
    hide ApplyOps, DiffOps, Crashes, StopsAtRefusal, ReachesTo, StoredFaithful;
    if StopsAtRefusal(states) {
      ReadyReached(stored, states, id, frame);
    }
  }

  lemma {:induction false} CommitStoredOk(s: RelayState, h: History, id: string, n: nat, state: Json)
    requires StoredOk(s, h) && id in h && Tracks(Stored(n, state), h[id])
    ensures StoredOk(Commit(s, id, n, state), h)
  {
    hide Tracks;
  }

  lemma {:induction false} SameStored(a: RelayState, b: RelayState, h: History)
    requires StoredOk(a, h) && a.streams == b.streams
    ensures StoredOk(b, h)
  {
    hide Tracks;
  }

  lemma {:induction false} PreparedStoredOk(s: RelayState, h: History, e: AgentEvent, uuid: UuidParser)
    requires HistoryOk(h) && EventOk(e, h, uuid) && StoredOk(s, h)
    ensures var p := Prepare(s, e.payload, uuid);
            p.Ready? ==> StoredOk(Commit(s, p.streamId, p.seqNo, p.state), h)
  {
    hide Decide, ValidatedFrame, Tracks, AgentFrameOf, Commit, BuiltFor, Objects;
    EventValidates(e, h, uuid);
    var v, p := ValidatedFrame(e.payload, uuid), Prepare(s, e.payload, uuid);
    if v.Valid? {
      assert Objects(h[v.streamId]);
      ReadyTracks(StoredFor(s, v.streamId), h[v.streamId], v.streamId, v.frame);
      if p.Ready? {
        CommitStoredOk(s, h, p.streamId, p.seqNo, p.state);
      }
    }
  }

  lemma {:induction false} ArriveStoredOk(s: RelayState, h: History, e: AgentEvent, handled: bool, uuid: UuidParser)
    requires HistoryOk(h) && EventOk(e, h, uuid) && StoredOk(s, h)
    ensures StoredOk(Update(s, e.payload, Some(e.eventId), handled, uuid), h)
  {
    hide StoredOk, EventOk, HistoryOk, Prepare, Update, Commit;
    PreparedStoredOk(s, h, e, uuid);
    UpdateStreams(s, e.payload, Some(e.eventId), handled, uuid);
    var p, after := Prepare(s, e.payload, uuid), Update(s, e.payload, Some(e.eventId), handled, uuid);
    SameStored(if p.Ready? && handled then Commit(s, p.streamId, p.seqNo, p.state) else s, after, h);
  }

  lemma {:induction false} ArriveKeeps(s: System, e: AgentEvent, handled: bool, uuid: UuidParser)
    requires Enabled(s, Arrive(e, handled), uuid) && Inv(s, uuid)
    ensures Inv(Next(s, Arrive(e, handled), uuid), uuid)
  {
    hide HistoryOk, EventOk, StoredOk, HighOk, AcksOk, NothingForgotten, Update, PendingOk, OthersOk, StreamIdsOk, CursorFits;
    ArriveAcks(s, e, handled, uuid);
    ArriveAccounts(s, e, handled, uuid);
    ArriveStoredOk(s.relay, s.history, e, handled, uuid);
    HighGrows(s, Next(s, Arrive(e, handled), uuid));
  }

  lemma {:induction false} RetainKeeps(s: System, keep: AgentEvent -> bool)
    requires PendingOk(s.pending, s.sent, s.others)
    ensures PendingOk(Retain(s.pending, keep), s.sent, s.others)
    ensures forall tag | Waiting(s.pending, tag) ::
              || Waiting(Retain(s.pending, keep), tag)
              || exists e :: e in s.pending && !keep(e) && e.live == Some(tag)
  {
    RetainOrdered(s.pending, keep);
    RetainMembers(s.pending, keep);
    forall tag | Waiting(s.pending, tag)
      ensures || Waiting(Retain(s.pending, keep), tag)
              || exists e :: e in s.pending && !keep(e) && e.live == Some(tag)
    {
      var e :| e in s.pending && e.live == Some(tag);
      if keep(e) {
        assert e in Retain(s.pending, keep);
      }
    }
  }

  lemma {:induction false} AckKeeps(s: System, id: string, uuid: UuidParser)
    requires Enabled(s, AckArrives(id), uuid) && Inv(s, uuid)
    ensures Inv(Next(s, AckArrives(id), uuid), uuid)
  {
    hide EventOk, HistoryOk, StoredOk;
    var next := Next(s, AckArrives(id), uuid);
    assert AckOk(s, id);
    RetainKeeps(s, (e: AgentEvent) => e.eventId != id);
    forall sid, n | sid in next.history && 1 <= n <= |next.history[sid]| ensures Accounted(next, LiveTag(sid, n)) {
      assert Accounted(s, LiveTag(sid, n));
    }
  }

  lemma {:induction false} DropKeeps(s: System, id: string, uuid: UuidParser)
    requires Inv(s, uuid)
    ensures Inv(Next(s, DropForResync(id), uuid), uuid)
  {
    hide EventOk, HistoryOk, StoredOk;
    var next := Next(s, DropForResync(id), uuid);
    RetainKeeps(s, (e: AgentEvent) => !OfStream(e, id));
    forall sid, n | sid in next.history && 1 <= n <= |next.history[sid]| ensures Accounted(next, LiveTag(sid, n)) {
      assert Accounted(s, LiveTag(sid, n));
    }
  }

  /** The acknowledgement of another event removes no frame. */
  lemma {:induction false} OtherAckKeeps(s: System, id: string, uuid: UuidParser)
    requires Enabled(s, OtherAckArrives(id), uuid) && Inv(s, uuid)
    ensures Inv(Next(s, OtherAckArrives(id), uuid), uuid)
  {
    hide EventOk, HistoryOk, StoredOk;
    var next := Next(s, OtherAckArrives(id), uuid);
    RetainKeeps(s, (e: AgentEvent) => e.eventId != id);
    forall sid, n | sid in next.history && 1 <= n <= |next.history[sid]| ensures Accounted(next, LiveTag(sid, n)) {
      assert Accounted(s, LiveTag(sid, n));
    }
  }

  /** Another event takes a place in the buffer; the frame it may push out is given up. */
  lemma {:induction false} OtherTrackKeeps(s: System, eventId: string, payload: Payload, uuid: UuidParser)
    requires Enabled(s, TrackOther(eventId, payload), uuid) && Inv(s, uuid)
    ensures Inv(Next(s, TrackOther(eventId, payload), uuid), uuid)
  {
    hide EventOk, HistoryOk, StoredOk;
    var next, e := Next(s, TrackOther(eventId, payload), uuid), AgentEvent(eventId, payload, None);
    TrackKeeps(s, e, {}, {eventId});
    forall sid, n | sid in next.history && 1 <= n <= |next.history[sid]| ensures Accounted(next, LiveTag(sid, n)) {
      assert Accounted(s, LiveTag(sid, n));
    }
  }

  // Observing a new state.

  lemma {:induction false} LongerStream(states: seq<Json>, state: Json, stored: Stored)
    requires Tracks(stored, states)
    ensures Tracks(stored, states + [state])
  {
    hide Lands, DiffOps, ApplyOps;
    var longer := states + [state];
    if StopsAtRefusal(longer) {
      forall n | 2 <= n <= |states| ensures ReachesTo(states, n - 1) ==> HarmlessAt(states, n) {
        SameReach(states, state, n - 1);
        assert HarmlessAt(longer, n) ==> HarmlessAt(states, n);
      }
      SameReach(states, state, stored.seqNo);
    }
  }

  lemma {:induction false} SameReach(states: seq<Json>, state: Json, n: nat)
    requires n <= |states|
    ensures ReachesTo(states, n) <==> ReachesTo(states + [state], n)
  {
    hide Lands, DiffOps;
    assert forall k | 1 <= k <= n :: Deliverable(states, k) <==> Deliverable(states + [state], k);
  }

  lemma {:induction false} HistoryGrows(h: History, c: Cursor, state: Json, id: string, n: nat, uuid: UuidParser)
    requires HistoryOk(h) && StreamIdsOk(h, uuid) && state.Obj?
    requires uuid(id) == Some(id) && |id| <= 64
    requires n == if id in h then |h[id]| else 0
    ensures var h' := h[id := (if id in h then h[id] else []) + [state]];
            && HistoryOk(h') && StreamIdsOk(h', uuid)
            && (forall e | EventOk(e, h, uuid) :: EventOk(e, h', uuid))
  {
    hide LiveGameDeltaFrame;
  }

  lemma {:induction false} StoredOkGrows(s: RelayState, h: History, id: string, state: Json)
    requires StoredOk(s, h)
    ensures StoredOk(s, h[id := (if id in h then h[id] else []) + [state]])
  {
    hide Tracks;
    if id in s.streams {
      LongerStream(h[id], state, s.streams[id]);
    }
  }

  lemma {:induction false} OldestGone(pending: seq<AgentEvent>)
    requires pending != [] && Ordered(pending)
    ensures Ordered(pending[1..])
    ensures forall tag | Waiting(pending, tag) :: Waiting(pending[1..], tag) || pending[0].live == Some(tag)
  {
    hide Before;
    var rest := pending[1..];
    assert forall i | 0 <= i < |rest| :: rest[i] == pending[i + 1];
    assert forall e | e in pending :: e == pending[0] || e in rest;
  }

  lemma {:induction false} NewestAdded(kept: seq<AgentEvent>, e: AgentEvent)
    requires Ordered(kept) && forall f | f in kept :: Before(f, e)
    ensures Ordered(kept + [e])
    ensures e.live.Some? ==> Waiting(kept + [e], e.live.value)
    ensures forall tag | Waiting(kept, tag) :: Waiting(kept + [e], tag)
  {
    hide Before;
    assert forall f | f in kept :: f in kept + [e];
    assert (kept + [e])[|kept|] == e;
  }

  lemma {:induction false} TrackIs(s: System, e: AgentEvent)
    requires PendingOk(s.pending, s.sent, s.others) && NewEventId(s, e.eventId)
    ensures Track(s.pending, e) == (if |s.pending| >= MAX_DURABLE_REPLAY_EVENTS then s.pending[1..] else s.pending) + [e]
  {
    hide Ordered;
    assert forall i | 0 <= i < |s.pending| :: s.pending[i] in s.pending;
  }

  /** A new event goes to the end of the buffer; `sent` and `others` are what its kind grows by. */
  lemma {:induction false} TrackKeeps(s: System, e: AgentEvent, sent: set<AgentEvent>, others: set<string>)
    requires PendingOk(s.pending, s.sent, s.others) && NewEventId(s, e.eventId)
    requires e in sent || (e.live.None? && e.eventId in others)
    requires forall f | f in s.pending :: Before(f, e)
    ensures PendingOk(Track(s.pending, e), s.sent + sent, s.others + others)
    ensures e.live.Some? ==> Waiting(Track(s.pending, e), e.live.value)
    ensures forall tag | Waiting(s.pending, tag) :: Waiting(Track(s.pending, e), tag) || tag in Overflow(s.pending)
  {
    TrackIs(s, e);
    hide Ordered, Before, Waiting, Track;
    var full := |s.pending| >= MAX_DURABLE_REPLAY_EVENTS;
    if full {
      OldestGone(s.pending);
    }
    NewestAdded(if full then s.pending[1..] else s.pending, e);
  }

  lemma {:induction false} PublishKeeps(s: System, cursor: Cursor, state: Json, uuid: UuidParser)
    requires Inv(s, uuid) && state.Obj?
    requires cursor.streamId.Some? && cursor.previous == Some(state)
    requires var id := cursor.streamId.value;
             && uuid(id) == Some(id) && |id| <= 64
             && cursor.seqNo == (if id in s.history then |s.history[id]| else 0) + 1
    ensures var p := Published(s, cursor, state);
            && HistoryOk(p.history) && StreamIdsOk(p.history, uuid) && CursorFits(cursor, p.history)
            && SentOk(p.sent, p.history, uuid) && StoredOk(p.relay, p.history)
  {
    hide EventOk, PendingOk, AcksOk, HighOk, NothingForgotten, StoredOk;
    var id := cursor.streamId.value;
    StoredOkGrows(s.relay, s.history, id, state);
    HistoryGrows(s.history, cursor, state, id, if id in s.history then |s.history[id]| else 0, uuid);
  }

  lemma {:induction false} SentGrows(sent: set<AgentEvent>, e: AgentEvent, h: History, uuid: UuidParser)
    requires SentOk(sent, h, uuid) && EventOk(e, h, uuid)
    requires forall f | f in sent :: f.eventId != e.eventId
    ensures SentOk(sent + {e}, h, uuid)
  {
    hide EventOk;
  }

  lemma {:induction false} ObserveAccounts(s: System, next: System, tag: LiveTag, state: Json)
    requires NothingForgotten(s)
    requires next.high == s.high && s.lost <= next.lost
    requires next.history == s.history[tag.streamId :=
               (if tag.streamId in s.history then s.history[tag.streamId] else []) + [state]]
    requires tag.seqNo == (if tag.streamId in s.history then |s.history[tag.streamId]| else 0) + 1
    requires forall t | Waiting(s.pending, t) :: Waiting(next.pending, t) || t in next.lost
    requires Accounted(next, tag)
    ensures NothingForgotten(next)
  {
    forall id, n | id in next.history && 1 <= n <= |next.history[id]| ensures Accounted(next, LiveTag(id, n)) {
      if LiveTag(id, n) != tag {
        assert Accounted(s, LiveTag(id, n));
      }
    }
  }

  lemma {:induction false} AcksStay(s: System, next: System)
    requires AcksOk(s) && next.relay == s.relay && next.high == s.high && s.sent <= next.sent
    ensures AcksOk(next)
  {
    forall id | EventAck(id) in next.relay.outbox ensures AckOk(next, id) {
      assert AckOk(s, id);
    }
  }

  lemma {:induction false} OlderComeBefore(s: System, e: AgentEvent, uuid: UuidParser)
    requires SentOk(s.sent, s.history, uuid) && PendingOk(s.pending, s.sent, s.others)
    requires e.live.Some? && (e.live.value.streamId in s.history ==> e.live.value.seqNo > |s.history[e.live.value.streamId]|)
    ensures forall f | f in s.pending :: Before(f, e)
  {
    hide LiveGameDeltaFrame;
    forall f | f in s.pending ensures Before(f, e) {
      if f in s.sent {
        assert EventOk(f, s.history, uuid);
      }
    }
  }

  lemma {:induction false} ObserveKeeps(s: System, step: Step, uuid: UuidParser)
    requires Inv(s, uuid) && step.Observe? && Enabled(s, step, uuid)
    ensures Inv(Next(s, step, uuid), uuid)
  {
    hide HistoryOk, StreamIdsOk, StoredOk, PendingOk, AcksOk, NothingForgotten, LiveGameDeltaFrame, SentOk, Track, Overflow, Waiting, Covered;
    var (cursor, message) := PushChanged(s.cursor, true, step.fingerprint, step.state, step.freshId);
    if message.Some? {
      var id, tag := cursor.streamId.value, LiveTag(cursor.streamId.value, cursor.seqNo);
      var e := AgentEvent(step.eventId, message.value, Some(tag));
      StreamIdKnown(s, id, uuid);
      PublishKeeps(s, cursor, step.state, uuid);
      var p, next := Published(s, cursor, step.state), Next(s, step, uuid);
      if !step.tooLarge {
        OlderComeBefore(s, e, uuid);
        TrackKeeps(s, e, {e}, {});
        assert s.others + {} == s.others;
        assert EventOk(e, p.history, uuid);
        SentGrows(s.sent, e, p.history, uuid);
      }
      AcksStay(s, next);
      ObserveAccounts(s, next, tag, step.state);
    }
  }

  lemma {:induction false} StreamIdKnown(s: System, id: string, uuid: UuidParser)
    requires StreamIdsOk(s.history, uuid)
    ensures id in s.history ==> uuid(id) == Some(id) && |id| <= 64
  {
  }

  lemma {:induction false} ExpiryKeeps(s: System, step: Step, uuid: UuidParser)
    requires Inv(s, uuid) && (step.StateKeyExpires? || step.BlockKeyExpires? || step.ForgetGame?)
    ensures Inv(Next(s, step, uuid), uuid)
  {
    hide EventOk, HistoryOk, StreamIdsOk, PendingOk, Tracks;
    var next := Next(s, step, uuid);
    AcksStayWithOutbox(s, next);
    assert forall tag :: Accounted(s, tag) ==> Accounted(next, tag);
  }

  lemma {:induction false} AcksStayWithOutbox(s: System, next: System)
    requires AcksOk(s) && next.relay.outbox == s.relay.outbox && next.high == s.high && s.sent <= next.sent
    ensures AcksOk(next)
  {
    forall id | EventAck(id) in next.relay.outbox ensures AckOk(next, id) {
      assert AckOk(s, id);
    }
  }

  lemma {:induction false} StepKeeps(s: System, step: Step, uuid: UuidParser)
    requires Inv(s, uuid) && Enabled(s, step, uuid)
    ensures Inv(Next(s, step, uuid), uuid)
  {
    match step
    case Observe(_, _, _, _, _) => ObserveKeeps(s, step, uuid);
    case Arrive(e, handled) => ArriveKeeps(s, e, handled, uuid);
    case AckArrives(id) => AckKeeps(s, id, uuid);
    case OtherAckArrives(id) => OtherAckKeeps(s, id, uuid);
    case TrackOther(eventId, payload) => OtherTrackKeeps(s, eventId, payload, uuid);
    case DropForResync(id) => DropKeeps(s, id, uuid);
    case _ => ExpiryKeeps(s, step, uuid);
  }

  // ---------- main results ----------

  /** Over every run of the whole system, whatever states are observed: every acknowledgement is for a
      frame covered by a commit; no published frame is forgotten: it was given up by the Agent, is covered by
      a commit, or still waits; and what the relay stores for a stream at sequence k is the Agent's k-th
      state as long as the stream's first change that does not land is refused. */
  lemma {:induction false} RunsAreSafe(s: System, steps: seq<Step>, uuid: UuidParser)
    requires Inv(s, uuid) && Feasible(s, steps, uuid)
    ensures Inv(RunAll(s, steps, uuid), uuid)
    decreases |steps|
  {
    if steps != [] {
      StepKeeps(s, steps[0], uuid);
      RunsAreSafe(Next(s, steps[0], uuid), steps[1..], uuid);
    }
  }

  lemma {:induction false} StartHolds(uuid: UuidParser)
    ensures Inv(Start, uuid)
  {
  }

  lemma {:induction false} EveryRunIsSafe(steps: seq<Step>, uuid: UuidParser)
    requires Feasible(Start, steps, uuid)
    ensures var s := RunAll(Start, steps, uuid);
            && (forall id | id in s.relay.streams :: id in s.history && Tracks(s.relay.streams[id], s.history[id]))
            && (forall e | e in s.sent && EventAck(e.eventId) in s.relay.outbox :: e.live.Some? && Covered(s.high, e.live.value))
            && (forall id, n | id in s.history && 1 <= n <= |s.history[id]| :: Accounted(s, LiveTag(id, n)))
  {
    hide HistoryOk, StreamIdsOk, CursorFits, PendingOk, EventOk, HighOk, Tracks, RunAll, Next, Covered, Accounted;
    StartHolds(uuid);
    RunsAreSafe(Start, steps, uuid);
    var s := RunAll(Start, steps, uuid);
    forall e | e in s.sent && EventAck(e.eventId) in s.relay.outbox ensures e.live.Some? && Covered(s.high, e.live.value) {
      assert AckOk(s, e.eventId);
    }
  }

  /** The resent frames are the Agent's frames from the requested range, in order. */
  lemma {:induction false} ResentFrames(s: System, sent: seq<AgentEvent>, id: string, from: nat, to: nat, uuid: UuidParser)
    requires Inv(s, uuid) && id in s.history && sent == ReplayRange(s.pending, id, from, to)
    requires sent != [] && 1 <= from <= to <= |s.history[id]|
    ensures |sent| == to - from + 1
    ensures forall i | 0 <= i < |sent| :: BuiltFor(sent[i], s.history[id], id, from + i)
    ensures |id| <= 64 && uuid(id) == Some(id)
  {
    hide StoredOk, HistoryOk, HighOk, AcksOk, NothingForgotten, CursorFits, ReplayRange, LiveGameDeltaFrame, BuiltFor, Ordered;
    ReplayIsWholeRange(s.pending, id, from, to);
    forall i | 0 <= i < |sent| ensures BuiltFor(sent[i], s.history[id], id, from + i) {
      assert sent[i] in s.pending && EventOk(sent[i], s.history, uuid);
    }
  }

  lemma {:induction false} StoredBefore(s: System, id: string, from: nat, uuid: UuidParser)
    requires Inv(s, uuid) && id in s.history
    requires from == if id in s.relay.streams then s.relay.streams[id].seqNo + 1 else 1
    requires id in s.relay.streams ==> StoredFaithful(s.relay.streams[id], s.history[id])
    ensures from <= |s.history[id]| + 1 && HoldsBefore(s.relay, s.history[id], id, from) && Objects(s.history[id])
  {
    hide StoredOk, Objects, OthersOk, HighOk, AcksOk, NothingForgotten, CursorFits, SentOk, PendingOk, StreamIdsOk;
  }

  /** When the relay asks for a missing range and the Agent can still resend it, delivering what the
      Agent resends, with the API accepting, ends the gap: the relay holds the Agent's state at the
      end of the range and has acknowledged every frame of it. */
  lemma {:induction false} GapIsRepaired(s: System, id: string, from: nat, to: nat, uuid: UuidParser)
    requires Inv(s, uuid) && id in s.history && 1 <= from <= to <= |s.history[id]|
    requires from == if id in s.relay.streams then s.relay.streams[id].seqNo + 1 else 1
    requires id in s.relay.streams ==> StoredFaithful(s.relay.streams[id], s.history[id])
    requires ReplayRange(s.pending, id, from, to) != []
    requires AllDeliverable(s.history[id], from, to)
    ensures var sent := ReplayRange(s.pending, id, from, to);
            var after := Run(s.relay, Deliveries(sent), uuid);
            && after.streams == s.relay.streams[id := Stored(to, s.history[id][to - 1])]
            && after.blocks == s.relay.blocks - {id}
            && forall i | 0 <= i < |sent| :: EventAck(sent[i].eventId) in after.outbox
  {
    hide Inv, Run, Deliverable, BuiltFor, ReplayRange;
    var sent, states := ReplayRange(s.pending, id, from, to), s.history[id];
    ResentFrames(s, sent, id, from, to, uuid);
    StoredBefore(s, id, from, uuid);
    forall i | 0 <= i < |sent| ensures BuiltAt(sent[i], states, id, from, i) {
    }
    ReplayCatchesUp(s.relay, sent, states, id, from, uuid);
    var acks := AcksOf(sent);
    forall i | 0 <= i < |sent| ensures EventAck(sent[i].eventId) in s.relay.outbox + acks {
      assert acks[i] in acks;
    }
  }
}
