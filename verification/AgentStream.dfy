/**
 The Agent's side of a live-delta stream: turning changed states into numbered
 frames, and the buffer that keeps unacknowledged events for replay.
 */
module AgentStream {
  import opened Wrappers
  import opened Json
  import opened DeltaSender

  const MAX_DURABLE_REPLAY_EVENTS := 4096

  type Payload = map<string, Json>

  // ---------- frames ----------

  function Pointer(state: Json, path: Path): Json {
    match Lookup(state, path) { case None => Null case Some(v) => v }
  }

  function GameId(state: Json): Json {
    if Lookup(state, [Key("game"), Key("id")]).Some? then Pointer(state, [Key("game"), Key("id")])
    else Pointer(state, [Key("game"), Key("game_id")])
  }

  /** A full frame when there is no previous state, otherwise the delta from it. */
  function LiveGameDeltaFrame(previous: Option<Json>, state: Json, streamId: string, seqNo: nat): Payload {
    var common := map[
      "format" := Str("live-delta-v1"), "stream_id" := Str(streamId), "seq" := Int(seqNo),
      "game_id" := GameId(state), "captured_at_ms" := Pointer(state, [Key("captured_at_ms")])];
    match previous
    case None => common["base_seq" := Int(0)]["kind" := Str("full")]["state" := state]
    case Some(base) =>
      common["base_seq" := Int(if seqNo == 0 then 0 else seqNo - 1)]["kind" := Str("delta")]
            ["ops" := Arr(DiffOps(base, state, []))]
  }

  function Field(v: Option<Json>, k: string): Option<Json> {
    if v.Some? && v.value.Obj? && k in v.value.fields then Some(v.value.fields[k]) else None
  }

  /** Every frame names its game and the time of its state, as far as the state does. */
  lemma {:induction false} FrameIsNamed(previous: Option<Json>, state: Json, streamId: string, seqNo: nat)
    ensures var payload := LiveGameDeltaFrame(previous, state, streamId, seqNo);
            var game := Field(Some(state), "game");
            && Get(payload, "game_id") ==
               Some(if Field(game, "id").Some? then Field(game, "id").value
                    else if Field(game, "game_id").Some? then Field(game, "game_id").value
                    else Null)
            && Get(payload, "captured_at_ms") ==
               Some(if Field(Some(state), "captured_at_ms").Some? then Field(Some(state), "captured_at_ms").value else Null)
  {
    hide DiffOps;
    OneStep(state, "captured_at_ms");
    TwoSteps(state, "game", "id");
    TwoSteps(state, "game", "game_id");
    hide Lookup;
  }

  lemma {:induction false} OneStep(v: Json, k: string)
    ensures Lookup(v, [Key(k)]) == Field(Some(v), k)
  {
    assert [Key(k)][1..] == [];
  }

  lemma {:induction false} TwoSteps(v: Json, k: string, l: string)
    ensures Lookup(v, [Key(k), Key(l)]) == Field(Field(Some(v), k), l)
  {
    assert [Key(k), Key(l)][1..] == [Key(l)];
    if Field(Some(v), k).Some? {
      OneStep(Field(Some(v), k).value, l);
    }
  }

  /** What the Agent remembers between two polls. */
  datatype Cursor = Cursor(fingerprint: Option<string>, previous: Option<Json>, streamId: Option<string>, seqNo: nat)

  const Idle: Cursor := Cursor(None, None, None, 0)

  /** The next cursor and the message to send, if the state changed. */
  function PushChanged(c: Cursor, deltaEnabled: bool, fingerprint: string, state: Json, freshId: string): (Cursor, Option<Payload>)
    requires state.Obj?
  {
    if c.fingerprint == Some(fingerprint) then (c, None)
    else if !deltaEnabled then (Cursor(Some(fingerprint), Some(state), None, 0), Some(state.fields))
    else
      var streamId := if c.streamId.Some? then c.streamId.value else freshId;
      var seqNo := if c.streamId.Some? then c.seqNo + 1 else 1;
      (Cursor(Some(fingerprint), Some(state), Some(streamId), seqNo),
       Some(LiveGameDeltaFrame(c.previous, state, streamId, seqNo)))
  }

  /** With deltas enabled, a stream exists exactly when there is a previous state, and then it has frames. */
  predicate CursorOk(c: Cursor, deltaEnabled: bool) {
    deltaEnabled ==> (c.streamId.Some? <==> c.previous.Some?) && (c.streamId.Some? <==> c.seqNo > 0)
  }

  /** A state is sent exactly when its fingerprint is new: whole without deltas, otherwise as the next
      frame of the stream, the first one full and every later one the difference from the state before. */
  lemma {:induction false} ChangedIsSent(c: Cursor, deltaEnabled: bool, fingerprint: string, state: Json, freshId: string)
    requires state.Obj? && CursorOk(c, deltaEnabled)
    ensures var (next, message) := PushChanged(c, deltaEnabled, fingerprint, state, freshId);
            if c.fingerprint == Some(fingerprint) then next == c && message == None
            else
              && message.Some? && next.fingerprint == Some(fingerprint) && next.previous == Some(state)
              && if !deltaEnabled then message.value == state.fields && next.streamId == None && next.seqNo == 0
                 else
                   var payload := message.value;
                   && {"format", "stream_id", "seq", "base_seq", "kind"} <= payload.Keys
                   && payload["format"] == Str("live-delta-v1")
                   && payload["seq"] == Int(next.seqNo) && payload["base_seq"] == Int(next.seqNo - 1)
                   && next.streamId.Some? && payload["stream_id"] == Str(next.streamId.value)
                   && if c.previous.None? then
                        && next.streamId == Some(freshId) && next.seqNo == 1
                        && payload["kind"] == Str("full") && "state" in payload && payload["state"] == state
                      else
                        && next.streamId == c.streamId && next.seqNo == c.seqNo + 1
                        && payload["kind"] == Str("delta") && "ops" in payload
                        && payload["ops"] == Arr(DiffOps(c.previous.value, state, []))
  {
    hide DiffOps, GameId, Pointer;
  }

  class LiveGameSource {
    var fingerprint: Option<string>
    var previous: Option<Json>
    var streamId: Option<string>
    var seqNo: nat
    var deltaEnabled: bool

    function State(): Cursor
      reads this
    {
      Cursor(fingerprint, previous, streamId, seqNo)
    }

    predicate Valid()
      reads this
    {
      CursorOk(State(), deltaEnabled)
    }

    constructor ()
      ensures Valid() && State() == Idle && !deltaEnabled
    {
      fingerprint, previous, streamId, seqNo, deltaEnabled := None, None, None, 0, false;
    }

    method ForceLiveGameResync()
      modifies this
      ensures Valid() && State() == Idle && deltaEnabled == old(deltaEnabled)
    {
      fingerprint, previous, streamId, seqNo := None, None, None, 0;
    }

    method SetLiveGameDeltaEnabled(enabled: bool)
      requires Valid()
      modifies this
      ensures Valid() && deltaEnabled == enabled
      ensures State() == if enabled == old(deltaEnabled) then old(State()) else Idle
    {
      if deltaEnabled != enabled {
        deltaEnabled := enabled;
        ForceLiveGameResync();
      }
    }

    method PushLiveGameChanged(nextFingerprint: string, state: Json, freshId: string) returns (message: Option<Payload>)
      requires Valid() && state.Obj?
      modifies this
      ensures Valid() && deltaEnabled == old(deltaEnabled)
      ensures (State(), message) == PushChanged(old(State()), deltaEnabled, nextFingerprint, state, freshId)
    {
      if fingerprint == Some(nextFingerprint) {
        return None;
      }
      if deltaEnabled {
        if streamId.None? {
          streamId, seqNo := Some(freshId), 0;
        }
        seqNo := seqNo + 1;
        message := Some(LiveGameDeltaFrame(previous, state, streamId.value, seqNo));
      } else {
        streamId, seqNo := None, 0;
        message := Some(state.fields);
      }
      fingerprint, previous := Some(nextFingerprint), Some(state);
    }
  }

  // ---------- replay buffer ----------

  datatype LiveTag = LiveTag(streamId: string, seqNo: nat)

  datatype AgentEvent = AgentEvent(eventId: string, payload: Payload, live: Option<LiveTag>)

  predicate Tracked(pending: seq<AgentEvent>, eventId: string) {
    exists i | 0 <= i < |pending| :: pending[i].eventId == eventId
  }

  function Track(pending: seq<AgentEvent>, e: AgentEvent): seq<AgentEvent> {
    if Tracked(pending, e.eventId) then pending
    else if |pending| >= MAX_DURABLE_REPLAY_EVENTS then pending[1..] + [e]
    else pending + [e]
  }

  /** `retain` and `filter`: the elements to keep, in order. */
  function Retain(events: seq<AgentEvent>, keep: AgentEvent -> bool): (kept: seq<AgentEvent>)
    ensures |kept| <= |events|
  {
    if events == [] then []
    else (if keep(events[0]) then [events[0]] else []) + Retain(events[1..], keep)
  }

  lemma {:induction false} RetainMembers(events: seq<AgentEvent>, keep: AgentEvent -> bool)
    ensures forall e :: e in Retain(events, keep) <==> e in events && keep(e)
    ensures |Retain(events, keep)| == |events| <==> forall e | e in events :: keep(e)
  {
    if events != [] {
      RetainMembers(events[1..], keep);
      assert forall e :: e in events <==> e == events[0] || e in events[1..];
    }
  }

  function Ack(pending: seq<AgentEvent>, eventId: string): seq<AgentEvent> {
    Retain(pending, (e: AgentEvent) => e.eventId != eventId)
  }

  predicate OfStream(e: AgentEvent, streamId: string) {
    e.live.Some? && e.live.value.streamId == streamId
  }

  function DropLiveStream(pending: seq<AgentEvent>, streamId: string): seq<AgentEvent> {
    Retain(pending, (e: AgentEvent) => !OfStream(e, streamId))
  }

  predicate InRange(e: AgentEvent, streamId: string, fromSeq: nat, toSeq: nat) {
    OfStream(e, streamId) && fromSeq <= e.live.value.seqNo <= toSeq
  }

  function LiveRange(pending: seq<AgentEvent>, streamId: string, fromSeq: nat, toSeq: nat): seq<AgentEvent> {
    Retain(pending, (e: AgentEvent) => InRange(e, streamId, fromSeq, toSeq))
  }

  /** What the Agent resends for a gap request: the whole range, or nothing. */
  function ReplayRange(pending: seq<AgentEvent>, streamId: string, fromSeq: nat, toSeq: nat): seq<AgentEvent> {
    var events := LiveRange(pending, streamId, fromSeq, toSeq);
    var expected := (if toSeq >= fromSeq then toSeq - fromSeq else 0) + 1;
    if |events| != expected then [] else events
  }

  /** At most 4096 events are kept; an event that is known already changes nothing. */
  lemma {:induction false} TrackReads(pending: seq<AgentEvent>, e: AgentEvent)
    ensures Track(pending, e) ==
            if exists x :: x in pending && x.eventId == e.eventId then pending
            else if |pending| < 4096 then pending + [e]
            else pending[1..] + [e]
  {
    if x :| x in pending && x.eventId == e.eventId {
      var i :| 0 <= i < |pending| && pending[i] == x;
    }
    if Tracked(pending, e.eventId) {
      var i :| 0 <= i < |pending| && pending[i].eventId == e.eventId;
      assert pending[i] in pending;
    }
  }

  class DurableReplayBuffer {
    var pending: seq<AgentEvent>

    constructor ()
      ensures pending == []
    {
      pending := [];
    }

    /** Returns whether the oldest event had to be given up. */
    method TrackEvent(e: AgentEvent) returns (dropped: bool)
      modifies this
      ensures pending == Track(old(pending), e)
      ensures dropped <==> !Tracked(old(pending), e.eventId) && |old(pending)| >= MAX_DURABLE_REPLAY_EVENTS
    {
      for i := 0 to |pending|
        invariant pending == old(pending)
        invariant forall j | 0 <= j < i :: pending[j].eventId != e.eventId
      {
        if pending[i].eventId == e.eventId {
          return false;
        }
      }
      dropped := |pending| >= MAX_DURABLE_REPLAY_EVENTS;
      if dropped {
        pending := pending[1..];
      }
      pending := pending + [e];
    }

    /** Returns whether anything was removed. */
    method AckEvent(eventId: string) returns (changed: bool)
      modifies this
      ensures pending == Ack(old(pending), eventId)
      ensures changed <==> Tracked(old(pending), eventId)
    {
      var before := |pending|;
      RetainMembers(pending, (e: AgentEvent) => e.eventId != eventId);
      assert Tracked(pending, eventId) <==> exists e | e in pending :: e.eventId == eventId;
      pending := Retain(pending, (e: AgentEvent) => e.eventId != eventId);
      changed := |pending| != before;
    }

    method DropStream(streamId: string) returns (removed: nat)
      modifies this
      ensures pending == DropLiveStream(old(pending), streamId)
      ensures removed == |old(pending)| - |pending|
    {
      var before := |pending|;
      pending := Retain(pending, (e: AgentEvent) => !OfStream(e, streamId));
      removed := before - |pending|;
    }

    method ReplayLiveDeltaRange(streamId: string, fromSeq: nat, toSeq: nat) returns (sent: seq<AgentEvent>)
      ensures sent == ReplayRange(pending, streamId, fromSeq, toSeq)
    {
      var events := LiveRange(pending, streamId, fromSeq, toSeq);
      var expected := (if toSeq >= fromSeq then toSeq - fromSeq else 0) + 1;
      if |events| != expected {
        return [];
      }
      sent := [];
      for i := 0 to |events|
        invariant sent == events[..i]
      {
        sent := sent + [events[i]];
      }
    }
  }

  /** Within one stream the buffer holds frames in increasing order. */
  predicate Ordered(pending: seq<AgentEvent>) {
    forall i, j | 0 <= i < j < |pending| :: Before(pending[i], pending[j])
  }

  predicate Before(a: AgentEvent, b: AgentEvent) {
    a.live.Some? && b.live.Some? && a.live.value.streamId == b.live.value.streamId
    ==> a.live.value.seqNo < b.live.value.seqNo
  }

  lemma {:induction false} RetainOrdered(pending: seq<AgentEvent>, keep: AgentEvent -> bool)
    requires Ordered(pending)
    ensures Ordered(Retain(pending, keep))
  {
    if pending != [] {
      var rest, kept := pending[1..], Retain(pending[1..], keep);
      assert forall i | 0 <= i < |rest| :: rest[i] == pending[i + 1];
      RetainOrdered(rest, keep);
      RetainMembers(rest, keep);
      forall j | 0 <= j < |kept| ensures Before(pending[0], kept[j]) {
        assert kept[j] in rest;
        var i :| 0 <= i < |rest| && rest[i] == kept[j];
        assert Before(pending[0], pending[i + 1]);
      }
    }
  }

  lemma {:induction false} FullRange(range: seq<AgentEvent>, streamId: string, fromSeq: nat, toSeq: nat)
    requires |range| == toSeq - fromSeq + 1 && Ordered(range)
    requires forall i | 0 <= i < |range| :: InRange(range[i], streamId, fromSeq, toSeq)
    ensures forall i | 0 <= i < |range| :: range[i].live == Some(LiveTag(streamId, fromSeq + i))
  {
    var n := |range|;
    var nums := seq(n, i requires 0 <= i < n && range[i].live.Some? => range[i].live.value.seqNo);
    forall i, j | 0 <= i < j < n ensures nums[i] < nums[j] {
      assert Before(range[i], range[j]);
    }
    IncreasingFills(nums, fromSeq, toSeq);
    forall i | 0 <= i < n ensures range[i].live == Some(LiveTag(streamId, fromSeq + i)) {
      assert nums[i] == fromSeq + i;
    }
  }

  /** If the Agent resends anything for a gap request, it resends every requested frame, in order. */
  lemma {:induction false} ReplayIsWholeRange(pending: seq<AgentEvent>, streamId: string, fromSeq: nat, toSeq: nat)
    requires Ordered(pending) && fromSeq <= toSeq && ReplayRange(pending, streamId, fromSeq, toSeq) != []
    ensures var sent := ReplayRange(pending, streamId, fromSeq, toSeq);
            && |sent| == toSeq - fromSeq + 1
            && forall i | 0 <= i < |sent| :: sent[i] in pending && sent[i].live == Some(LiveTag(streamId, fromSeq + i))
  {
    var keep := (e: AgentEvent) => InRange(e, streamId, fromSeq, toSeq);
    var range := LiveRange(pending, streamId, fromSeq, toSeq);
    RetainOrdered(pending, keep);
    RetainMembers(pending, keep);
    forall i | 0 <= i < |range| ensures range[i] in pending && InRange(range[i], streamId, fromSeq, toSeq) {
      assert range[i] in range;
    }
    FullRange(range, streamId, fromSeq, toSeq);
  }

  lemma {:induction false} IncreasingFills(nums: seq<nat>, lo: nat, hi: nat)
    requires |nums| == hi - lo + 1 && forall i | 0 <= i < |nums| :: lo <= nums[i] <= hi
    requires forall i, j | 0 <= i < j < |nums| :: nums[i] < nums[j]
    ensures forall i | 0 <= i < |nums| :: nums[i] == lo + i
  {
    forall i | 0 <= i < |nums| ensures nums[i] == lo + i {
      IncreasingGap(nums, 0, i);
      IncreasingGap(nums, i, |nums| - 1);
    }
  }

  lemma {:induction false} IncreasingGap(nums: seq<nat>, i: nat, j: nat)
    requires i <= j < |nums| && forall a, b | 0 <= a < b < |nums| :: nums[a] < nums[b]
    ensures nums[j] >= nums[i] + (j - i)
    decreases j
  {
    if i < j {
      IncreasingGap(nums, i, j - 1);
    }
  }

  /** The buffer still holds the frame. */
  predicate Holds(pending: seq<AgentEvent>, streamId: string, n: nat) {
    exists e | e in pending :: e.live == Some(LiveTag(streamId, n))
  }

  lemma {:induction false} HeldFill(nums: seq<nat>, lo: nat, hi: nat) returns (at: nat)
    requires lo <= hi && forall i, j | 0 <= i < j < |nums| :: nums[i] < nums[j]
    requires forall v: nat | lo <= v <= hi :: v in nums
    ensures hi - lo <= at < |nums| && nums[at] == hi
    decreases hi
  {
    assert hi in nums;
    at :| 0 <= at < |nums| && nums[at] == hi;
    if lo < hi {
      var before := HeldFill(nums, lo, hi - 1);
    }
  }

  /** A requested range is resent exactly when the buffer holds every frame of it. */
  lemma {:induction false} RangeIsResentIff(pending: seq<AgentEvent>, streamId: string, fromSeq: nat, toSeq: nat)
    requires Ordered(pending) && fromSeq <= toSeq
    ensures ReplayRange(pending, streamId, fromSeq, toSeq) != [] <==>
            forall n: nat | fromSeq <= n <= toSeq :: Holds(pending, streamId, n)
  {
    if ReplayRange(pending, streamId, fromSeq, toSeq) != [] {
      ReplayIsWholeRange(pending, streamId, fromSeq, toSeq);
      var sent := ReplayRange(pending, streamId, fromSeq, toSeq);
      forall n: nat | fromSeq <= n <= toSeq ensures Holds(pending, streamId, n) {
        assert sent[n - fromSeq].live == Some(LiveTag(streamId, fromSeq + (n - fromSeq)));
      }
    }
    if forall n: nat | fromSeq <= n <= toSeq :: Holds(pending, streamId, n) {
      HeldIsResent(pending, streamId, fromSeq, toSeq);
    }
  }

  predicate AllInRange(range: seq<AgentEvent>, streamId: string, fromSeq: nat, toSeq: nat) {
    forall i | 0 <= i < |range| :: InRange(range[i], streamId, fromSeq, toSeq)
  }

  lemma {:induction false} RangeIsOrdered(pending: seq<AgentEvent>, streamId: string, fromSeq: nat, toSeq: nat)
    requires Ordered(pending)
    ensures var range := LiveRange(pending, streamId, fromSeq, toSeq);
            Ordered(range) && AllInRange(range, streamId, fromSeq, toSeq)
  {
    hide InRange, Ordered;
    var keep := (e: AgentEvent) => InRange(e, streamId, fromSeq, toSeq);
    RetainOrdered(pending, keep);
    RetainMembers(pending, keep);
    var range := LiveRange(pending, streamId, fromSeq, toSeq);
    forall i | 0 <= i < |range| ensures InRange(range[i], streamId, fromSeq, toSeq) {
      assert range[i] in range;
    }
  }

  lemma {:induction false} HeldIsNumbered(pending: seq<AgentEvent>, streamId: string, fromSeq: nat, toSeq: nat, v: nat)
    requires Holds(pending, streamId, v) && fromSeq <= v <= toSeq
    requires AllInRange(LiveRange(pending, streamId, fromSeq, toSeq), streamId, fromSeq, toSeq)
    ensures v in Numbers(LiveRange(pending, streamId, fromSeq, toSeq))
  {
    var keep := (e: AgentEvent) => InRange(e, streamId, fromSeq, toSeq);
    var range := LiveRange(pending, streamId, fromSeq, toSeq);
    RetainMembers(pending, keep);
    var e :| e in pending && e.live == Some(LiveTag(streamId, v));
    assert keep(e) && e in range;
    var i :| 0 <= i < |range| && range[i] == e;
    assert Numbers(range)[i] == v;
  }

  lemma {:induction false} NumbersIncrease(range: seq<AgentEvent>, streamId: string, fromSeq: nat, toSeq: nat)
    requires Ordered(range) && AllInRange(range, streamId, fromSeq, toSeq)
    ensures forall i, j | 0 <= i < j < |range| :: Numbers(range)[i] < Numbers(range)[j]
    ensures forall i | 0 <= i < |range| :: fromSeq <= Numbers(range)[i] <= toSeq
  {
    forall i, j | 0 <= i < j < |range| ensures Numbers(range)[i] < Numbers(range)[j] {
      assert Before(range[i], range[j]);
    }
  }

  lemma {:induction false} HeldIsResent(pending: seq<AgentEvent>, streamId: string, fromSeq: nat, toSeq: nat)
    requires Ordered(pending) && fromSeq <= toSeq
    requires forall n: nat | fromSeq <= n <= toSeq :: Holds(pending, streamId, n)
    ensures ReplayRange(pending, streamId, fromSeq, toSeq) != []
  {
    RangeIsOrdered(pending, streamId, fromSeq, toSeq);
    var range := LiveRange(pending, streamId, fromSeq, toSeq);
    NumbersIncrease(range, streamId, fromSeq, toSeq);
    var nums := Numbers(range);
    forall v: nat | fromSeq <= v <= toSeq ensures v in nums {
      HeldIsNumbered(pending, streamId, fromSeq, toSeq, v);
    }
    hide Ordered, AllInRange, Holds, LiveRange, Numbers;
    var at := HeldFill(nums, fromSeq, toSeq);
    IncreasingGap(nums, 0, |nums| - 1);
  }

  function Numbers(range: seq<AgentEvent>): (nums: seq<nat>)
    requires forall i | 0 <= i < |range| :: range[i].live.Some?
    ensures |nums| == |range|
  {
    seq(|range|, i requires 0 <= i < |range| => range[i].live.value.seqNo)
  }
}
