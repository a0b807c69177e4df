/**
 The relay's side of a live-delta stream: validating a frame, deciding what to
 do with it, delivering the rebuilt state to the API and committing it.  Redis
 is two maps with key expiry as separate steps; what the API answered is a
 parameter of the step; messages to the Agent are collected in an outbox.
 */
module LiveRelay {
  import opened Wrappers
  import opened Json
  import opened DeltaReceiver
  import DeltaInPlace
  import JsonHeap

  const MAX_LIVE_DELTA_OPS := 4096
  const MAX_REPLAY_FROM_START := 1024

  /** `uuid.UUID`: the canonical form of a stream id, when it parses. */
  type UuidParser = string -> Option<string>

  datatype Frame = Full(seqNo: nat, state: Json) | Delta(seqNo: nat, ops: seq<Json>)

  datatype Validation = LegacyFrame | Invalid | Raised | Valid(streamId: string, frame: Frame)

  datatype Stored = Stored(seqNo: nat, state: Json)

  datatype Message =
    | EventAck(eventId: string)
    | LiveDeltaResend(streamId: string, fromSeq: nat, toSeq: nat)
    | LiveDeltaResync(streamId: string)

  datatype Prepared =
    | Rejected
    | Crashed
    | LegacyReady
    | Duplicate
    | Gap(streamId: string, fromSeq: nat, toSeq: nat)
    | Resync(streamId: string)
    | Ready(streamId: string, seqNo: nat, state: Json)

  datatype RelayState = RelayState(streams: map<string, Stored>, blocks: map<string, nat>, outbox: seq<Message>)

  predicate IntField(payload: map<string, Json>, k: string, least: int) {
    k in payload && payload[k].Int? && payload[k].n >= least
  }

  function ValidatedFrame(payload: map<string, Json>, uuid: UuidParser): Validation {
    if "format" !in payload || payload["format"] != Str("live-delta-v1") then LegacyFrame
    else if !("stream_id" in payload && payload["stream_id"].Str? && |payload["stream_id"].s| <= 64)
            || !IntField(payload, "seq", 1) || !IntField(payload, "base_seq", 0)
    then Invalid
    else if "kind" in payload && Unhashable(payload["kind"]) then Raised
    else if !("kind" in payload && payload["kind"] in [Str("full"), Str("delta")])
            || uuid(payload["stream_id"].s).None?
    then Invalid
    else
      var streamId := uuid(payload["stream_id"].s).value;
      var seqNo, baseSeq := payload["seq"].n, payload["base_seq"].n;
      if payload["kind"] == Str("full") then
        if baseSeq == 0 && "state" in payload && payload["state"].Obj?
        then Valid(streamId, Full(seqNo, payload["state"])) else Invalid
      else
        if baseSeq > 0 && seqNo == baseSeq + 1
           && "ops" in payload && payload["ops"].Arr? && |payload["ops"].elems| <= MAX_LIVE_DELTA_OPS
        then Valid(streamId, Delta(seqNo, payload["ops"].elems)) else Invalid
  }

  /** The relay's decision about a valid frame, given what it has stored for the stream. */
  function Decide(stored: Option<Stored>, streamId: string, frame: Frame): Prepared {
    match (frame, stored)
    case (Full(n, state), None) => Ready(streamId, n, state)
    case (Full(n, state), Some(base)) => if n <= base.seqNo then Duplicate else Ready(streamId, n, state)
    case (Delta(n, ops), None) => if n <= MAX_REPLAY_FROM_START then Gap(streamId, 1, n) else Resync(streamId)
    case (Delta(n, ops), Some(base)) =>
      if n <= base.seqNo then Duplicate
      else if n != base.seqNo + 1 then Gap(streamId, base.seqNo + 1, n)
      else match ApplyOps(base.state, ops)
        case None => if Crashes(base.state, ops) then Crashed else Rejected
        case Some(state) => Ready(streamId, n, state)
  }

  /** What is loaded back: an entry with a positive sequence number and an object as its state. */
  function StoredFor(s: RelayState, streamId: string): (stored: Option<Stored>)
    ensures stored.Some? ==> stored.value.seqNo > 0 && stored.value.state.Obj?
  {
    if streamId in s.streams && s.streams[streamId].seqNo > 0 && s.streams[streamId].state.Obj?
    then Some(s.streams[streamId]) else None
  }

  function Prepare(s: RelayState, payload: map<string, Json>, uuid: UuidParser): Prepared {
    match ValidatedFrame(payload, uuid)
    case LegacyFrame => LegacyReady
    case Invalid => Rejected
    case Raised => Crashed
    case Valid(streamId, frame) => Decide(StoredFor(s, streamId), streamId, frame)
  }

  function Acked(s: RelayState, eventId: Option<string>): RelayState {
    match eventId
    case None => s
    case Some(id) => s.(outbox := s.outbox + [EventAck(id)])
  }

  function Send(s: RelayState, m: Message): RelayState {
    s.(outbox := s.outbox + [m])
  }

  function Commit(s: RelayState, streamId: string, seqNo: nat, state: Json): RelayState {
    s.(streams := s.streams[streamId := Stored(seqNo, state)], blocks := s.blocks - {streamId})
  }

  /** One `live_game_update` message; `handled` is the API's answer if it is asked. */
  function Update(s: RelayState, payload: map<string, Json>, eventId: Option<string>, handled: bool, uuid: UuidParser): RelayState {
    match Prepare(s, payload, uuid)
    case Rejected =>
      if "stream_id" in payload && payload["stream_id"].Str? then Send(s, LiveDeltaResync(payload["stream_id"].s)) else s
    case Crashed => s
    case Duplicate => Acked(s, eventId)
    case Gap(id, from, to) => if id in s.blocks then s else Send(s, LiveDeltaResend(id, from, to))
    case Resync(id) => Send(s, LiveDeltaResync(id))
    case LegacyReady => if handled then Acked(s, eventId) else s
    case Ready(id, n, state) =>
      if handled then Acked(Commit(s, id, n, state), eventId)
      else s.(blocks := s.blocks[id := n])
  }

  datatype Event =
    | Deliver(payload: map<string, Json>, eventId: Option<string>, handled: bool)
    | StateExpires(streamId: string)
    | BlockExpires(streamId: string)

  function StepRelay(s: RelayState, e: Event, uuid: UuidParser): RelayState {
    match e
    case Deliver(payload, eventId, handled) => Update(s, payload, eventId, handled, uuid)
    case StateExpires(id) => s.(streams := s.streams - {id})
    case BlockExpires(id) => s.(blocks := s.blocks - {id})
  }

  function Run(s: RelayState, events: seq<Event>, uuid: UuidParser): RelayState
    decreases |events|
  {
    if events == [] then s else Run(StepRelay(s, events[0], uuid), events[1..], uuid)
  }

  const Fresh: RelayState := RelayState(map[], map[], [])

  /** The relay session with the state it keeps in Redis and the socket it answers on. */
  class RelaySession {
    const uuid: UuidParser
    var streams: map<string, Stored>
    var blocks: map<string, nat>
    var outbox: seq<Message>

    constructor (uuid: UuidParser)
      ensures this.uuid == uuid && State() == Fresh
    {
      this.uuid := uuid;
      streams, blocks, outbox := map[], map[], [];
    }

    function State(): RelayState
      reads this
    {
      RelayState(streams, blocks, outbox)
    }

    method PrepareLiveGameFrame(payload: map<string, Json>) returns (prepared: Prepared)
      ensures prepared == Prepare(State(), payload, uuid)
    {
      var validation := ValidatedFrame(payload, uuid);
      if validation.LegacyFrame? {
        return LegacyReady;
      }
      if validation.Invalid? {
        return Rejected;
      }
      if validation.Raised? {
        return Crashed;
      }
      var streamId, frame := validation.streamId, validation.frame;
      var stored := StoredFor(State(), streamId);
      if frame.Full? {
        if stored.Some? && frame.seqNo <= stored.value.seqNo {
          return Duplicate;
        }
        return Ready(streamId, frame.seqNo, frame.state);
      }
      if stored.None? {
        if frame.seqNo <= MAX_REPLAY_FROM_START {
          return Gap(streamId, 1, frame.seqNo);
        }
        return Resync(streamId);
      }
      var base := stored.value;
      if frame.seqNo <= base.seqNo {
        return Duplicate;
      }
      if frame.seqNo != base.seqNo + 1 {
        return Gap(streamId, base.seqNo + 1, frame.seqNo);
      }
      var root, tree := JsonHeap.Load(base.state);
      var crashed, applied, after := DeltaInPlace.ApplyLiveDeltaOps(root, frame.ops, tree);
      if applied.None? {
        return if crashed then Crashed else Rejected;
      }
      var state := JsonHeap.Dump(applied.value, after);
      prepared := Ready(streamId, frame.seqNo, state);
    }

    method RequestLiveDeltaResend(streamId: string, fromSeq: nat, toSeq: nat) returns (requested: bool)
      modifies this`outbox
      ensures requested == (streamId !in blocks)
      ensures State() == if streamId in blocks then old(State())
                         else Send(old(State()), LiveDeltaResend(streamId, fromSeq, toSeq))
    {
      if streamId in blocks {
        return false;
      }
      outbox := outbox + [LiveDeltaResend(streamId, fromSeq, toSeq)];
      requested := true;
    }

    method AckAgentEvent(eventId: Option<string>)
      modifies this`outbox
      ensures State() == Acked(old(State()), eventId)
    {
      if eventId.Some? {
        outbox := outbox + [EventAck(eventId.value)];
      }
    }

    method LiveGameUpdate(payload: map<string, Json>, eventId: Option<string>, handled: bool)
      modifies this
      ensures State() == Update(old(State()), payload, eventId, handled, uuid)
    {
      var prepared := PrepareLiveGameFrame(payload);
      match prepared
      case Rejected =>
        if "stream_id" in payload && payload["stream_id"].Str? {
          outbox := outbox + [LiveDeltaResync(payload["stream_id"].s)];
        }
      case Crashed =>
        return;
      case Duplicate =>
        AckAgentEvent(eventId);
      case Gap(streamId, fromSeq, toSeq) =>
        var requested := RequestLiveDeltaResend(streamId, fromSeq, toSeq);
      case Resync(streamId) =>
        outbox := outbox + [LiveDeltaResync(streamId)];
      case LegacyReady =>
        if handled {
          AckAgentEvent(eventId);
        }
      case Ready(streamId, seqNo, state) =>
        if !handled {
          blocks := blocks[streamId := seqNo];
          return;
        }
        streams := streams[streamId := Stored(seqNo, state)];
        blocks := blocks - {streamId};
        AckAgentEvent(eventId);
    }
  }
}
