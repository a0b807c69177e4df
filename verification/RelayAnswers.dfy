/**
 What the relay answers to every `live_game_update`, said of the fields of the
 message and the number stored for its stream.
 */
module RelayAnswers {
  import opened Wrappers
  import opened Json
  import opened DeltaReceiver
  import opened DeltaSender
  import opened DeltaRoundTrip
  import opened LiveRelay
  import opened LiveRelayProofs
  import opened AgentStream

  /** The number stored for the stream, 0 when nothing usable is stored. */
  function Held(s: RelayState, id: string): nat {
    if id in s.streams && s.streams[id].state.Obj? then s.streams[id].seqNo else 0
  }

  predicate Has(payload: Payload, k: string, v: Json) {
    k in payload && payload[k] == v
  }

  /** The checks common to both kinds: a stream id of at most 64 characters, a positive number, a base. */
  predicate Numbered(payload: Payload) {
    && Has(payload, "format", Str("live-delta-v1"))
    && "stream_id" in payload && payload["stream_id"].Str? && |payload["stream_id"].s| <= 64
    && "seq" in payload && payload["seq"].Int? && payload["seq"].n >= 1
    && "base_seq" in payload && payload["base_seq"].Int? && payload["base_seq"].n >= 0
  }

  predicate FullFrame(payload: Payload, uuid: UuidParser) {
    && Numbered(payload) && uuid(payload["stream_id"].s).Some?
    && Has(payload, "kind", Str("full")) && payload["base_seq"].n == 0
    && "state" in payload && payload["state"].Obj?
  }

  predicate DeltaFrame(payload: Payload, uuid: UuidParser) {
    && Numbered(payload) && uuid(payload["stream_id"].s).Some?
    && Has(payload, "kind", Str("delta")) && 1 <= payload["base_seq"].n == payload["seq"].n - 1
    && "ops" in payload && payload["ops"].Arr? && |payload["ops"].elems| <= 4096
  }

  /** A delta: asked for again from the first missing frame, asked to start afresh, acknowledged as
      known, or applied and delivered. */
  lemma {:induction false} DeltaAnswer(s: RelayState, payload: Payload, eventId: string, handled: bool, uuid: UuidParser)
    requires DeltaFrame(payload, uuid)
    ensures var id, n := uuid(payload["stream_id"].s).value, payload["seq"].n;
            Update(s, payload, Some(eventId), handled, uuid) ==
            if Held(s, id) == 0 && n > 1024 then s.(outbox := s.outbox + [LiveDeltaResync(id)])
            else if n > Held(s, id) + 1 || Held(s, id) == 0 then
              if id in s.blocks then s
              else s.(outbox := s.outbox + [LiveDeltaResend(id, Held(s, id) + 1, n)])
            else if n <= Held(s, id) then s.(outbox := s.outbox + [EventAck(eventId)])
            else match ApplyOps(s.streams[id].state, payload["ops"].elems) {
              case Some(state) =>
                if handled then
                  RelayState(s.streams[id := Stored(n, state)], s.blocks - {id}, s.outbox + [EventAck(eventId)])
                else s.(blocks := s.blocks[id := n])
              case None =>
                if Crashes(s.streams[id].state, payload["ops"].elems) then s
                else s.(outbox := s.outbox + [LiveDeltaResync(payload["stream_id"].s)])
            }
  {
    hide ApplyOps, Crashes;
  }

  lemma {:induction false} FullAnswer(s: RelayState, payload: Payload, eventId: string, handled: bool, uuid: UuidParser)
    requires FullFrame(payload, uuid)
    ensures var id, n := uuid(payload["stream_id"].s).value, payload["seq"].n;
            Update(s, payload, Some(eventId), handled, uuid) ==
            if n <= Held(s, id) then s.(outbox := s.outbox + [EventAck(eventId)])
            else if handled then
              RelayState(s.streams[id := Stored(n, payload["state"])], s.blocks - {id}, s.outbox + [EventAck(eventId)])
            else s.(blocks := s.blocks[id := n])
  {
    hide ApplyOps, Crashes;
  }

  /** Anything else in the format is answered with a resync of the stream it names, if it names one,
      except that a `kind` that is a list or a dictionary ends in a TypeError. */
  lemma {:induction false} MalformedAnswer(s: RelayState, payload: Payload, eventId: string, handled: bool, uuid: UuidParser)
    requires Has(payload, "format", Str("live-delta-v1")) && !DeltaFrame(payload, uuid) && !FullFrame(payload, uuid)
    ensures Update(s, payload, Some(eventId), handled, uuid) ==
            if Numbered(payload) && "kind" in payload && (payload["kind"].Arr? || payload["kind"].Obj?) then s
            else if "stream_id" in payload && payload["stream_id"].Str?
            then s.(outbox := s.outbox + [LiveDeltaResync(payload["stream_id"].s)])
            else s
  {
    hide ApplyOps, Crashes;
  }

  /** A message of another format is acknowledged exactly when the API took it. */
  lemma {:induction false} LegacyAnswer(s: RelayState, payload: Payload, eventId: string, handled: bool, uuid: UuidParser)
    requires !Has(payload, "format", Str("live-delta-v1"))
    ensures Update(s, payload, Some(eventId), handled, uuid) ==
            if handled then s.(outbox := s.outbox + [EventAck(eventId)]) else s
  {
    hide ApplyOps, Crashes;
  }

  /** An expired state counts as nothing stored, an expired marker blocks nothing, and other streams keep theirs. */
  lemma {:induction false} ExpiryForgets(s: RelayState, id: string, other: string, uuid: UuidParser)
    ensures var after := StepRelay(s, StateExpires(id), uuid);
            && Held(after, id) == 0 && (other != id ==> Held(after, other) == Held(s, other))
            && after.blocks == s.blocks && after.outbox == s.outbox
    ensures var after := StepRelay(s, BlockExpires(id), uuid);
            && id !in after.blocks && (other != id ==> Get(after.blocks, other) == Get(s.blocks, other))
            && after.streams == s.streams && after.outbox == s.outbox
  {
  }

  /** The fields of the Agent's frame for S_n of a stream. */
  lemma {:induction false} BuiltFields(e: AgentEvent, states: seq<Json>, id: string, n: nat, uuid: UuidParser)
    requires |id| <= 64 && uuid(id) == Some(id) && BuiltFor(e, states, id, n) && Objects(states)
    ensures Numbered(e.payload) && e.payload["stream_id"] == Str(id) && e.payload["seq"] == Int(n)
    ensures n == 1 ==> FullFrame(e.payload, uuid) && e.payload["state"] == states[0]
    ensures n >= 2 ==> "ops" in e.payload && e.payload["ops"] == Arr(DiffOps(states[n - 2], states[n - 1], []))
    ensures n >= 2 ==> "kind" in e.payload && e.payload["kind"] == Str("delta")
    ensures n >= 2 ==>
              (DeltaFrame(e.payload, uuid) <==> |DiffOps(states[n - 2], states[n - 1], [])| <= 4096) && !FullFrame(e.payload, uuid)
  {
    hide DiffOps, GameId, Pointer;
  }

  /** Which answer the n-th frame of an Agent gets, by the number stored and its own. */
  lemma {:induction false} AgentFrameAnswer(s: RelayState, e: AgentEvent, states: seq<Json>, id: string, n: nat, handled: bool, uuid: UuidParser)
    requires |id| <= 64 && uuid(id) == Some(id) && BuiltFor(e, states, id, n) && Objects(states)
    ensures var held := Held(s, id);
            var after := Update(s, e.payload, Some(e.eventId), handled, uuid);
            if n >= 2 && |DiffOps(states[n - 2], states[n - 1], [])| > 4096 then
              after == s.(outbox := s.outbox + [LiveDeltaResync(id)])
            else if n <= held then after == s.(outbox := s.outbox + [EventAck(e.eventId)])
            else if held >= 1 && n > held + 1 then
              after == if id in s.blocks then s else s.(outbox := s.outbox + [LiveDeltaResend(id, held + 1, n)])
            else if held == 0 && 2 <= n <= 1024 then
              after == if id in s.blocks then s else s.(outbox := s.outbox + [LiveDeltaResend(id, 1, n)])
            else if held == 0 && n > 1024 then after == s.(outbox := s.outbox + [LiveDeltaResync(id)])
            else
              var state := if n == 1 then Some(states[0])
                           else ApplyOps(s.streams[id].state, DiffOps(states[n - 2], states[n - 1], []));
              after ==
              if state.None? then s.(outbox := s.outbox + [LiveDeltaResync(id)])
              else if handled then
                RelayState(s.streams[id := Stored(n, state.value)], s.blocks - {id}, s.outbox + [EventAck(e.eventId)])
              else s.(blocks := s.blocks[id := n])
  {
    hide DiffOps, ApplyOps, Crashes, LiveGameDeltaFrame, Update, Objects, Named, DeltaFrame, FullFrame;
    BuiltFields(e, states, id, n, uuid);
    if n == 1 {
      FullAnswer(s, e.payload, e.eventId, handled, uuid);
    } else if DeltaFrame(e.payload, uuid) {
      DeltaAnswer(s, e.payload, e.eventId, handled, uuid);
      DiffNamed(states[n - 2], states[n - 1], []);
      if id in s.streams {
        NamedNeverCrashes(s.streams[id].state, DiffOps(states[n - 2], states[n - 1], []));
      }
    } else {
      MalformedAnswer(s, e.payload, e.eventId, handled, uuid);
    }
  }
}
