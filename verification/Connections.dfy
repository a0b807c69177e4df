/**
 The relay's connection table: which socket speaks for a session and for a
 Discord id, which results are awaited from whom, and when a socket may be
 displaced.  A socket is a number that is never reused; a future is a number
 whose outcome, once there, is kept in `outcomes`; time is the monotonic clock
 in seconds, passed in by the caller.
 */
module Connections {
  import opened Wrappers
  import opened Json

  const AGENT_HEARTBEAT_STALE_SEC := 180.0

  type Socket = nat
  type FutureId = nat
  type Info = map<string, string>

  datatype CacheKind = Gameflow | PartyLobby | LiveGame | LivePreview | LivePreviewControl
  datatype CacheKey = CacheKey(kind: CacheKind, discordId: int)
  datatype ResultKey = ResultKey(discordId: int, requestId: string)
  datatype Outcome = Completed(result: Json) | Cancelled

  datatype BindResult = InvalidTrust | NotWaiting | Rejected(closed: Socket) | Bound(socket: Socket, replaced: Option<Socket>)

  /** Sessions: the socket of each session, and those still waiting to be bound to a Discord id. */
  datatype Sessions = Sessions(
    active: map<string, Socket>,
    waiting: map<string, Socket>,
    token: map<string, string>,
    refreshHash: map<string, string>,
    wsWaiting: map<Socket, string>,
    wsSession: map<Socket, string>)

  /** Owners: the socket bound to each Discord id. */
  datatype Owners = Owners(byDiscord: map<int, Socket>, wsDiscord: map<Socket, int>, wsTrust: map<Socket, string>)

  /** What the Agents last reported. */
  datatype Reports = Reports(pendingInfo: map<Socket, Info>, agentInfo: map<int, Info>, caches: map<CacheKey, Json>)

  /** The results awaited from Agents. */
  datatype Results = Results(pending: map<ResultKey, FutureId>, outcomes: map<FutureId, Outcome>)

  datatype Table = Table(
    sessions: Sessions, owners: Owners, reports: Reports, results: Results, lastHeartbeat: map<Socket, real>)

  const Empty: Table :=
    Table(Sessions(map[], map[], map[], map[], map[], map[]), Owners(map[], map[], map[]),
          Reports(map[], map[], map[]), Results(map[], map[]), map[])

  // ---------- what each operation does to the table ----------

  function WithoutValue(m: map<string, Socket>, ws: Socket): map<string, Socket> {
    map k | k in m && m[k] != ws :: m[k]
  }

  function CacheKeys(discordId: int): set<CacheKey> {
    {CacheKey(Gameflow, discordId), CacheKey(PartyLobby, discordId), CacheKey(LiveGame, discordId),
     CacheKey(LivePreview, discordId), CacheKey(LivePreviewControl, discordId)}
  }

  function ResultKeys(pending: map<ResultKey, FutureId>, discordId: int): set<ResultKey> {
    set k | k in pending && k.discordId == discordId
  }

  function Futures(pending: map<ResultKey, FutureId>, keys: set<ResultKey>): set<FutureId> {
    set k | k in keys && k in pending :: pending[k]
  }

  /** Those not yet done get the outcome; a future that is done keeps the one it has. */
  function Resolved(outcomes: map<FutureId, Outcome>, futures: set<FutureId>, outcome: Outcome): map<FutureId, Outcome> {
    (map f | f in futures :: outcome) + outcomes
  }

  function CancelFor(r: Results, discordId: int): Results {
    var keys := ResultKeys(r.pending, discordId);
    Results(r.pending - keys, Resolved(r.outcomes, Futures(r.pending, keys), Cancelled))
  }

  function DropSession(s: Sessions, ws: Socket): Sessions {
    var sid := Get(s.wsWaiting, ws);
    var t := s.(wsWaiting := s.wsWaiting - {ws}, active := WithoutValue(s.active, ws), wsSession := s.wsSession - {ws});
    if sid.Some? && Get(s.waiting, sid.value) == Some(ws)
    then t.(waiting := s.waiting - {sid.value}, token := s.token - {sid.value}, refreshHash := s.refreshHash - {sid.value})
    else t
  }

  function DropOwner(o: Owners, ws: Socket): Owners {
    var did := Get(o.wsDiscord, ws);
    Owners(if did.Some? && Get(o.byDiscord, did.value) == Some(ws) then o.byDiscord - {did.value} else o.byDiscord,
           o.wsDiscord - {ws}, o.wsTrust - {ws})
  }

  function DropReports(r: Reports, ws: Socket, did: Option<int>): Reports {
    match did
    case None => r.(pendingInfo := r.pendingInfo - {ws})
    case Some(d) => Reports(r.pendingInfo - {ws}, r.agentInfo - {d}, r.caches - CacheKeys(d))
  }

  function Drop(t: Table, ws: Socket): Table {
    var did := Get(t.owners.wsDiscord, ws);
    Table(DropSession(t.sessions, ws), DropOwner(t.owners, ws), DropReports(t.reports, ws, did),
          if did.Some? then CancelFor(t.results, did.value) else t.results, t.lastHeartbeat - {ws})
  }

  function AttachSessions(s: Sessions, sid: string, ws: Socket, token: string, hash: Option<string>): Sessions {
    Sessions(s.active[sid := ws], s.waiting[sid := ws], s.token[sid := token],
             if hash.Some? && hash.value != "" then s.refreshHash[sid := hash.value] else s.refreshHash - {sid},
             s.wsWaiting[ws := sid], s.wsSession[ws := sid])
  }

  function Replaced(t: Table, sid: string, ws: Socket): Option<Socket> {
    if sid in t.sessions.active && t.sessions.active[sid] != ws then Some(t.sessions.active[sid]) else None
  }

  function Attach(t: Table, sid: string, ws: Socket, token: string, hash: Option<string>, now: real): Table {
    var u := match Replaced(t, sid, ws) { case Some(before) => Drop(t, before) case None => t };
    u.(sessions := AttachSessions(u.sessions, sid, ws, token, hash), lastHeartbeat := u.lastHeartbeat[ws := now])
  }

  predicate IsFresh(lastHeartbeat: map<Socket, real>, ws: Socket, now: real) {
    ws in lastHeartbeat && now - lastHeartbeat[ws] <= AGENT_HEARTBEAT_STALE_SEC
  }

  function Text(m: Info, k: string): Option<string> {
    if k in m && m[k] != "" then Some(m[k]) else None
  }

  /** The hello received before binding, with the name and avatar of the profile put over it. */
  function BoundInfo(pending: Option<Info>, profile: Info): Info {
    var info := if pending.Some? then pending.value else map[];
    var named := if Text(profile, "name").Some? then info["discord_name" := profile["name"]] else info;
    if Text(profile, "avatar").Some? then named["discord_avatar" := profile["avatar"]] else named
  }

  function OwnReports(r: Reports, ws: Socket, discordId: int, profile: Info): Reports {
    var info := BoundInfo(Get(r.pendingInfo, ws), profile);
    Reports(r.pendingInfo - {ws}, if info != map[] then r.agentInfo[discordId := info] else r.agentInfo, r.caches)
  }

  function Own(t: Table, ws: Socket, discordId: int, profile: Info, trust: string): Table {
    t.(owners := Owners(t.owners.byDiscord[discordId := ws], t.owners.wsDiscord[ws := discordId], t.owners.wsTrust[ws := trust]),
       reports := OwnReports(t.reports, ws, discordId, profile))
  }

  /** The session's waiting socket, if it has one with a token. */
  function Candidate(s: Sessions, sid: string): Option<Socket> {
    if sid in s.waiting && sid in s.token && s.token[sid] != "" then Some(s.waiting[sid]) else None
  }

  function NoLongerWaiting(s: Sessions, sid: string): Sessions {
    var t := s.(waiting := s.waiting - {sid}, token := s.token - {sid});
    match Candidate(s, sid) { case None => t case Some(ws) => t.(wsWaiting := s.wsWaiting - {ws}) }
  }

  predicate MayNotDisplace(t: Table, prev: Socket, sid: string, takeover: bool, now: real) {
    Get(t.sessions.wsSession, prev) != Some(sid) && IsFresh(t.lastHeartbeat, prev, now) && !takeover
  }

  function Bind(t: Table, sid: string, discordId: int, profile: Info, takeover: bool, trust: string, now: real): (Table, BindResult) {
    if trust !in ["trusted", "new_device"] then (t, InvalidTrust)
    else
      var u := t.(sessions := NoLongerWaiting(t.sessions, sid));
      match Candidate(t.sessions, sid)
      case None => (u, NotWaiting)
      case Some(ws) =>
        match Get(t.owners.byDiscord, discordId)
        case None => (Own(u, ws, discordId, profile, trust), Bound(ws, None))
        case Some(prev) =>
          if prev == ws then (Own(u, ws, discordId, profile, trust), Bound(ws, None))
          else if MayNotDisplace(t, prev, sid, takeover, now) then (Drop(u, ws), Rejected(ws))
          else (Own(Drop(u, prev), ws, discordId, profile, trust), Bound(ws, Some(prev)))
  }

  function MarkActivity(t: Table, ws: Socket, now: real): Table {
    if ws in t.sessions.wsSession || ws in t.owners.wsDiscord then t.(lastHeartbeat := t.lastHeartbeat[ws := now]) else t
  }

  function KeepName(info: Info, previous: Info, k: string): Info {
    if k in previous && k !in info then info[k := previous[k]] else info
  }

  function SetAgentInfo(t: Table, ws: Socket, info: Info): Table {
    var r := t.reports;
    match Get(t.owners.wsDiscord, ws)
    case None => t.(reports := r.(pendingInfo := r.pendingInfo[ws := info]))
    case Some(did) =>
      var previous := if did in r.agentInfo then r.agentInfo[did] else map[];
      var merged := KeepName(KeepName(info, previous, "discord_name"), previous, "discord_avatar");
      t.(reports := r.(agentInfo := r.agentInfo[did := merged]))
  }

  predicate IsCurrent(t: Table, ws: Socket) {
    var o, s := t.owners, t.sessions;
    && (ws in o.wsDiscord ==> Get(o.byDiscord, o.wsDiscord[ws]) == Some(ws))
    && (ws in s.wsSession ==> Get(s.active, s.wsSession[ws]) == Some(ws))
    && (ws in o.wsDiscord || ws in s.wsSession)
  }

  function RegisterResult(r: Results, key: ResultKey, future: FutureId): Results {
    r.(pending := r.pending[key := future])
  }

  function FinishResult(r: Results, key: ResultKey, outcome: Outcome): Results {
    match Get(r.pending, key)
    case None => r
    case Some(f) => Results(r.pending - {key}, Resolved(r.outcomes, {f}, outcome))
  }

  lemma {:induction false} FuturesStep(pending: map<ResultKey, FutureId>, keys: set<ResultKey>, key: ResultKey)
    requires key in pending
    ensures Futures(pending, keys + {key}) == Futures(pending, keys) + {pending[key]}
  {
  }

  lemma {:induction false} ResolvedStep(outcomes: map<FutureId, Outcome>, futures: set<FutureId>, f: FutureId, o: Outcome)
    ensures Resolved(Resolved(outcomes, futures, o), {f}, o) == Resolved(outcomes, futures + {f}, o)
  {
  }

  lemma {:induction false} NothingResolved(outcomes: map<FutureId, Outcome>, pending: map<ResultKey, FutureId>)
    ensures Resolved(outcomes, Futures(pending, {}), Cancelled) == outcomes
  {
  }

  // ---------- the manager ----------

  class ConnectionManager {
    var byDiscord: map<int, Socket>
    var activeSession: map<string, Socket>
    var waiting: map<string, Socket>
    var waitingToken: map<string, string>
    var refreshHash: map<string, string>
    var wsDiscord: map<Socket, int>
    var wsTrust: map<Socket, string>
    var wsWaiting: map<Socket, string>
    var wsSession: map<Socket, string>
    var lastHeartbeat: map<Socket, real>
    var pendingInfo: map<Socket, Info>
    var agentInfo: map<int, Info>
    var caches: map<CacheKey, Json>
    var pendingResults: map<ResultKey, FutureId>
    var outcomes: map<FutureId, Outcome>

    function SessionPart(): Sessions
      reads this
    {
      Sessions(activeSession, waiting, waitingToken, refreshHash, wsWaiting, wsSession)
    }

    function OwnerPart(): Owners
      reads this
    {
      Owners(byDiscord, wsDiscord, wsTrust)
    }

    function ReportPart(): Reports
      reads this
    {
      Reports(pendingInfo, agentInfo, caches)
    }

    function ResultPart(): Results
      reads this
    {
      Results(pendingResults, outcomes)
    }

    function State(): Table
      reads this
    {
      Table(SessionPart(), OwnerPart(), ReportPart(), ResultPart(), lastHeartbeat)
    }

    constructor ()
      ensures State() == Empty
    {
      byDiscord, activeSession, waiting, waitingToken, refreshHash := map[], map[], map[], map[], map[];
      wsDiscord, wsTrust, wsWaiting, wsSession, lastHeartbeat := map[], map[], map[], map[], map[];
      pendingInfo, agentInfo, caches, pendingResults, outcomes := map[], map[], map[], map[], map[];
    }

    /** `fut.cancel()` or `fut.set_result()`, guarded by `fut.done()`. */
    method ResolveIfNotDone(future: FutureId, outcome: Outcome)
      modifies this`outcomes
      ensures outcomes == Resolved(old(outcomes), {future}, outcome)
    {
      if future !in outcomes {
        outcomes := outcomes[future := outcome];
      }
    }

    method CancelPendingForDiscordLocked(discordId: int)
      modifies this`pendingResults, this`outcomes
      ensures ResultPart() == CancelFor(old(ResultPart()), discordId)
    {
      hide Resolved, Futures;
      var todo := ResultKeys(pendingResults, discordId);
      ghost var all, before, done := todo, pendingResults, {};
      NothingResolved(outcomes, pendingResults);
      while todo != {}
        invariant todo + done == all && todo !! done
        invariant pendingResults == before - done
        invariant outcomes == Resolved(old(outcomes), Futures(before, done), Cancelled)
        decreases todo
      {
        var key :| key in todo;
        var future := pendingResults[key];
        FuturesStep(before, done, key);
        ResolvedStep(old(outcomes), Futures(before, done), future, Cancelled);
        todo, done := todo - {key}, done + {key};
        pendingResults := pendingResults - {key};
        ResolveIfNotDone(future, Cancelled);
      }
    }

    method RemoveActive(ws: Socket)
      modifies this`activeSession
      ensures activeSession == WithoutValue(old(activeSession), ws)
    {
      var todo := activeSession.Keys;
      while todo != {}
        invariant todo <= old(activeSession.Keys)
        invariant activeSession == map k | k in old(activeSession) && (k in todo || old(activeSession)[k] != ws) :: old(activeSession)[k]
        decreases todo
      {
        var sid :| sid in todo;
        todo := todo - {sid};
        if activeSession[sid] == ws {
          activeSession := activeSession - {sid};
        }
      }
    }

    method ForgetOwner(ws: Socket)
      modifies this`byDiscord, this`wsDiscord, this`wsTrust, this`pendingInfo, this`agentInfo, this`caches, this`pendingResults, this`outcomes
      ensures OwnerPart() == DropOwner(old(OwnerPart()), ws)
      ensures ReportPart() == DropReports(old(ReportPart()), ws, Get(old(wsDiscord), ws))
      ensures ResultPart() == if ws in old(wsDiscord) then CancelFor(old(ResultPart()), old(wsDiscord)[ws]) else old(ResultPart())
    {
      hide CancelFor, CacheKeys;
      var did := Get(wsDiscord, ws);
      wsDiscord, wsTrust, pendingInfo := wsDiscord - {ws}, wsTrust - {ws}, pendingInfo - {ws};
      if did.Some? {
        if Get(byDiscord, did.value) == Some(ws) {
          byDiscord := byDiscord - {did.value};
        }
        agentInfo, caches := agentInfo - {did.value}, caches - CacheKeys(did.value);
        CancelPendingForDiscordLocked(did.value);
      }
    }

    method ForgetSession(ws: Socket)
      modifies this`activeSession, this`waiting, this`waitingToken, this`refreshHash, this`wsWaiting, this`wsSession
      ensures SessionPart() == DropSession(old(SessionPart()), ws)
    {
      hide WithoutValue;
      var sid := Get(wsWaiting, ws);
      wsWaiting := wsWaiting - {ws};
      if sid.Some? && Get(waiting, sid.value) == Some(ws) {
        waiting := waiting - {sid.value};
        waitingToken := waitingToken - {sid.value};
        refreshHash := refreshHash - {sid.value};
      }
      RemoveActive(ws);
      wsSession := wsSession - {ws};
    }

    method DropWsLocked(ws: Socket)
      modifies this
      ensures State() == Drop(old(State()), ws)
    {
      hide CancelFor, DropOwner, DropSession, DropReports;
      ForgetOwner(ws);
      ForgetSession(ws);
      lastHeartbeat := lastHeartbeat - {ws};
    }

    method DropActive(sid: string, ws: Socket) returns (replaced: Option<Socket>)
      modifies this
      ensures replaced == Replaced(old(State()), sid, ws)
      ensures State() == match replaced { case Some(before) => Drop(old(State()), before) case None => old(State()) }
    {
      hide Drop;
      replaced := None;
      if sid in activeSession && activeSession[sid] != ws {
        replaced := Some(activeSession[sid]);
        DropWsLocked(activeSession[sid]);
      }
    }

    method SetSession(sid: string, ws: Socket, token: string, hash: Option<string>)
      modifies this`activeSession, this`waiting, this`waitingToken, this`refreshHash, this`wsWaiting, this`wsSession
      ensures SessionPart() == AttachSessions(old(SessionPart()), sid, ws, token, hash)
    {
      activeSession := activeSession[sid := ws];
      waiting := waiting[sid := ws];
      waitingToken := waitingToken[sid := token];
      refreshHash := if hash.Some? && hash.value != "" then refreshHash[sid := hash.value] else refreshHash - {sid};
      wsWaiting := wsWaiting[ws := sid];
      wsSession := wsSession[ws := sid];
    }

    /** The socket it returns is the one to close. */
    method AttachSession(sid: string, ws: Socket, token: string, hash: Option<string>, now: real) returns (replaced: Option<Socket>)
      modifies this
      ensures State() == Attach(old(State()), sid, ws, token, hash, now)
      ensures replaced == Replaced(old(State()), sid, ws)
    {
      hide Drop, AttachSessions;
      replaced := DropActive(sid, ws);
      SetSession(sid, ws, token, hash);
      lastHeartbeat := lastHeartbeat[ws := now];
    }

    method TakeWaiting(sid: string) returns (ws: Option<Socket>)
      modifies this`waiting, this`waitingToken, this`wsWaiting
      ensures ws == Candidate(old(SessionPart()), sid)
      ensures SessionPart() == NoLongerWaiting(old(SessionPart()), sid)
    {
      ws := Get(waiting, sid);
      var token := Get(waitingToken, sid);
      waiting, waitingToken := waiting - {sid}, waitingToken - {sid};
      if ws.None? || token.None? || token.value == "" {
        return None;
      }
      wsWaiting := wsWaiting - {ws.value};
    }

    method TakeReports(ws: Socket, discordId: int, profile: Info)
      modifies this`pendingInfo, this`agentInfo
      ensures ReportPart() == OwnReports(old(ReportPart()), ws, discordId, profile)
    {
      hide BoundInfo;
      var info := BoundInfo(Get(pendingInfo, ws), profile);
      pendingInfo := pendingInfo - {ws};
      if info != map[] {
        agentInfo := agentInfo[discordId := info];
      }
    }

    method TakeOwnership(ws: Socket, discordId: int, profile: Info, trust: string)
      modifies this`byDiscord, this`wsDiscord, this`wsTrust, this`pendingInfo, this`agentInfo
      ensures State() == Own(old(State()), ws, discordId, profile, trust)
    {
      hide OwnReports;
      byDiscord, wsDiscord, wsTrust := byDiscord[discordId := ws], wsDiscord[ws := discordId], wsTrust[ws := trust];
      TakeReports(ws, discordId, profile);
    }

    method BindDiscord(sid: string, discordId: int, profile: Info, takeover: bool, trust: string, now: real) returns (result: BindResult)
      modifies this
      ensures (State(), result) == Bind(old(State()), sid, discordId, profile, takeover, trust, now)
    {
      hide Drop, Own, Candidate;
      if trust !in ["trusted", "new_device"] {
        return InvalidTrust;
      }
      var taken := TakeWaiting(sid);
      if taken.None? {
        return NotWaiting;
      }
      var ws, prev := taken.value, Get(byDiscord, discordId);
      if prev.None? || prev.value == ws {
        TakeOwnership(ws, discordId, profile, trust);
        return Bound(ws, None);
      }
      if Get(wsSession, prev.value) != Some(sid) && IsFresh(lastHeartbeat, prev.value, now) && !takeover {
        DropWsLocked(ws);
        return Rejected(ws);
      }
      DropWsLocked(prev.value);
      TakeOwnership(ws, discordId, profile, trust);
      result := Bound(ws, prev);
    }

    /** The Discord id it returns just went offline. */
    method UnregisterWs(ws: Socket) returns (offline: Option<int>)
      modifies this
      ensures State() == Drop(old(State()), ws)
      ensures offline == match Get(old(wsDiscord), ws)
                         case None => None
                         case Some(did) => if Get(old(byDiscord), did) == Some(ws) then Some(did) else None
    {
      offline := Get(wsDiscord, ws);
      if offline.Some? && Get(byDiscord, offline.value) != Some(ws) {
        offline := None;
      }
      DropWsLocked(ws);
    }

    method MarkAgentActivity(ws: Socket, now: real)
      modifies this`lastHeartbeat
      ensures State() == MarkActivity(old(State()), ws, now)
    {
      if ws in wsSession || ws in wsDiscord {
        lastHeartbeat := lastHeartbeat[ws := now];
      }
    }

    method SetAgentInfoForWs(ws: Socket, info: Info) returns (discordId: Option<int>)
      modifies this`pendingInfo, this`agentInfo
      ensures State() == SetAgentInfo(old(State()), ws, info) && discordId == Get(wsDiscord, ws)
    {
      discordId := Get(wsDiscord, ws);
      if discordId.None? {
        pendingInfo := pendingInfo[ws := info];
        return;
      }
      var merged, previous := info, if discordId.value in agentInfo then agentInfo[discordId.value] else map[];
      if "discord_name" in previous && "discord_name" !in merged {
        merged := merged["discord_name" := previous["discord_name"]];
      }
      if "discord_avatar" in previous && "discord_avatar" !in merged {
        merged := merged["discord_avatar" := previous["discord_avatar"]];
      }
      agentInfo := agentInfo[discordId.value := merged];
    }

    method IsCurrentWs(ws: Socket) returns (current: bool)
      ensures current == IsCurrent(State(), ws)
    {
      var did := Get(wsDiscord, ws);
      if did.Some? && Get(byDiscord, did.value) != Some(ws) {
        return false;
      }
      var sid := Get(wsSession, ws);
      if sid.Some? && Get(activeSession, sid.value) != Some(ws) {
        return false;
      }
      current := did.Some? || sid.Some?;
    }

    method RegisterPendingResult(discordId: int, requestId: string, future: FutureId)
      modifies this`pendingResults
      ensures ResultPart() == RegisterResult(old(ResultPart()), ResultKey(discordId, requestId), future)
    {
      pendingResults := pendingResults[ResultKey(discordId, requestId) := future];
    }

    method CompletePendingResult(discordId: int, requestId: string, result: Json) returns (completed: bool)
      modifies this`pendingResults, this`outcomes
      ensures ResultPart() == FinishResult(old(ResultPart()), ResultKey(discordId, requestId), Completed(result))
      ensures completed == var f := Get(old(pendingResults), ResultKey(discordId, requestId)); f.Some? && f.value !in old(outcomes)
    {
      var key := ResultKey(discordId, requestId);
      var future := Get(pendingResults, key);
      pendingResults := pendingResults - {key};
      if future.None? || future.value in outcomes {
        assert future.Some? ==> outcomes == Resolved(outcomes, {future.value}, Completed(result));
        return false;
      }
      ResolveIfNotDone(future.value, Completed(result));
      completed := true;
    }

    method CancelPendingResult(discordId: int, requestId: string)
      modifies this`pendingResults, this`outcomes
      ensures ResultPart() == FinishResult(old(ResultPart()), ResultKey(discordId, requestId), Cancelled)
    {
      var key := ResultKey(discordId, requestId);
      var future := Get(pendingResults, key);
      pendingResults := pendingResults - {key};
      if future.Some? {
        ResolveIfNotDone(future.value, Cancelled);
      }
    }
  }
}
