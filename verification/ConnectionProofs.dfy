/** What every operation keeps of the connection table: which maps are each other's inverse. */
module ConnectionProofs {
  import opened Wrappers
  import opened Connections

  // ---------- pairs of maps that are each other's inverse ----------

  ghost predicate Paired<K(!new)>(there: map<K, Socket>, back: map<Socket, K>) {
    && (forall k | k in there :: there[k] in back && back[there[k]] == k)
    && (forall w | w in back :: back[w] in there && there[back[w]] == w)
  }

  lemma {:induction false} PairedRemove<K(!new)>(there: map<K, Socket>, back: map<Socket, K>, w: Socket)
    requires Paired(there, back) && w in back
    ensures Paired(there - {back[w]}, back - {w})
  {
  }

  lemma {:induction false} PairedAdd<K(!new)>(there: map<K, Socket>, back: map<Socket, K>, k: K, w: Socket)
    requires Paired(there, back) && k !in there && w !in back
    ensures Paired(there[k := w], back[w := k])
  {
  }

  // ---------- the invariant ----------

  ghost predicate RoutesOk(s: Sessions, o: Owners) {
    && Paired(o.byDiscord, o.wsDiscord)
    && Paired(s.active, s.wsSession)
    && Paired(s.waiting, s.wsWaiting)
  }

  ghost predicate SplitOk(s: Sessions, o: Owners) {
    && (forall w: Socket :: w in s.wsSession <==> w in s.wsWaiting || w in o.wsDiscord)
    && (forall w | w in s.wsWaiting :: w !in o.wsDiscord && s.wsSession[w] == s.wsWaiting[w])
    && (forall w: Socket :: w in o.wsTrust <==> w in o.wsDiscord)
  }

  ghost predicate TokensOk(s: Sessions) {
    && (forall sid: string :: sid in s.token <==> sid in s.waiting)
    && (forall sid | sid in s.token :: s.token[sid] != "")
  }

  ghost predicate TableOk(t: Table) {
    && RoutesOk(t.sessions, t.owners) && SplitOk(t.sessions, t.owners) && TokensOk(t.sessions)
    && (forall w: Socket :: w in t.lastHeartbeat <==> w in t.sessions.wsSession)
  }

  // ---------- dropping a socket ----------

  predicate Live(t: Table, ws: Socket) { ws in t.sessions.wsSession }

  lemma {:induction false} WithoutIsRemove(there: map<string, Socket>, back: map<Socket, string>, ws: Socket)
    requires Paired(there, back)
    ensures WithoutValue(there, ws) == if ws in back then there - {back[ws]} else there
  {
  }

  /** Cleaning up a socket that is not live, or no longer, touches nothing but its own unread hello. */
  lemma {:induction false} LateCleanup(t: Table, ws: Socket)
    requires TableOk(t) && !Live(t, ws)
    ensures Drop(t, ws) == t.(reports := t.reports.(pendingInfo := t.reports.pendingInfo - {ws}))
  {
    WithoutIsRemove(t.sessions.active, t.sessions.wsSession, ws);
    assert ws !in t.sessions.wsWaiting && ws !in t.owners.wsDiscord;
    assert t.sessions.wsWaiting - {ws} == t.sessions.wsWaiting && t.sessions.wsSession - {ws} == t.sessions.wsSession;
    assert t.owners.wsDiscord - {ws} == t.owners.wsDiscord && t.owners.wsTrust - {ws} == t.owners.wsTrust;
    assert t.lastHeartbeat - {ws} == t.lastHeartbeat;
  }

  lemma {:induction false} DropSessionParts(s: Sessions, o: Owners, ws: Socket)
    requires RoutesOk(s, o) && SplitOk(s, o) && ws in s.wsSession
    ensures var d := DropSession(s, ws);
            && d.active == s.active - {s.wsSession[ws]} && d.wsSession == s.wsSession - {ws}
            && d.wsWaiting == s.wsWaiting - {ws}
            && d.waiting == (if ws in s.wsWaiting then s.waiting - {s.wsWaiting[ws]} else s.waiting)
            && d.token == (if ws in s.wsWaiting then s.token - {s.wsWaiting[ws]} else s.token)
  {
    WithoutIsRemove(s.active, s.wsSession, ws);
  }

  lemma {:induction false} DropRoutes(s: Sessions, o: Owners, ws: Socket)
    requires RoutesOk(s, o) && SplitOk(s, o) && ws in s.wsSession
    ensures RoutesOk(DropSession(s, ws), DropOwner(o, ws))
  {
    hide DropSession;
    DropSessionParts(s, o, ws);
    PairedRemove(s.active, s.wsSession, ws);
    if ws in o.wsDiscord {
      PairedRemove(o.byDiscord, o.wsDiscord, ws);
      assert s.wsWaiting - {ws} == s.wsWaiting;
    } else {
      PairedRemove(s.waiting, s.wsWaiting, ws);
      assert o.wsDiscord - {ws} == o.wsDiscord;
    }
  }

  lemma {:induction false} DropSplit(s: Sessions, o: Owners, ws: Socket)
    requires RoutesOk(s, o) && SplitOk(s, o) && TokensOk(s) && ws in s.wsSession
    ensures SplitOk(DropSession(s, ws), DropOwner(o, ws)) && TokensOk(DropSession(s, ws))
  {
    hide DropSession, Paired;
    DropSessionParts(s, o, ws);
  }

  lemma {:induction false} DropKeepsTable(t: Table, ws: Socket)
    requires TableOk(t)
    ensures TableOk(Drop(t, ws))
  {
    if Live(t, ws) {
      DropSessionParts(t.sessions, t.owners, ws);
      DropRoutes(t.sessions, t.owners, ws);
      DropSplit(t.sessions, t.owners, ws);
      hide RoutesOk, SplitOk, TokensOk, DropSession, DropOwner, DropReports, CancelFor;
      assert TableOk(Drop(t, ws));
    } else {
      LateCleanup(t, ws);
    }
  }

  // ---------- attaching and binding ----------

  lemma {:induction false} WaitingIsActive(s: Sessions, o: Owners, sid: string)
    requires RoutesOk(s, o) && SplitOk(s, o)
    ensures sid in s.waiting ==> sid in s.active && s.active[sid] == s.waiting[sid]
  {
    if sid in s.waiting {
      assert s.waiting[sid] in s.wsWaiting && s.wsSession[s.waiting[sid]] == sid;
    }
  }

  lemma {:induction false} AttachRoutes(s: Sessions, o: Owners, sid: string, ws: Socket, token: string, hash: Option<string>)
    requires RoutesOk(s, o) && SplitOk(s, o) && sid !in s.active && ws !in s.wsSession
    ensures RoutesOk(AttachSessions(s, sid, ws, token, hash), o)
  {
    WaitingIsActive(s, o, sid);
    PairedAdd(s.active, s.wsSession, sid, ws);
    PairedAdd(s.waiting, s.wsWaiting, sid, ws);
    hide Paired;
  }

  lemma {:induction false} AttachSplit(s: Sessions, o: Owners, sid: string, ws: Socket, token: string, hash: Option<string>)
    requires SplitOk(s, o) && TokensOk(s) && ws !in s.wsSession && token != ""
    ensures var u := AttachSessions(s, sid, ws, token, hash); SplitOk(u, o) && TokensOk(u)
  {
  }

  lemma {:induction false} DropRemoves(t: Table, ws: Socket)
    requires TableOk(t)
    ensures Drop(t, ws).sessions.wsSession == t.sessions.wsSession - {ws}
    ensures forall sid :: sid in Drop(t, ws).sessions.active <==> sid in t.sessions.active && t.sessions.active[sid] != ws
  {
    hide RoutesOk, SplitOk, TokensOk, DropOwner, DropReports, CancelFor;
  }

  lemma {:induction false} AttachAfresh(u: Table, sid: string, ws: Socket, token: string, hash: Option<string>, now: real)
    requires TableOk(u) && !Live(u, ws) && sid !in u.sessions.active && token != ""
    ensures TableOk(u.(sessions := AttachSessions(u.sessions, sid, ws, token, hash), lastHeartbeat := u.lastHeartbeat[ws := now]))
  {
    AttachRoutes(u.sessions, u.owners, sid, ws, token, hash);
    AttachSplit(u.sessions, u.owners, sid, ws, token, hash);
    hide RoutesOk, SplitOk, TokensOk;
  }

  lemma {:induction false} AttachKeepsTable(t: Table, sid: string, ws: Socket, token: string, hash: Option<string>, now: real)
    requires TableOk(t) && !Live(t, ws) && token != ""
    ensures TableOk(Attach(t, sid, ws, token, hash, now))
    ensures forall w :: Live(Attach(t, sid, ws, token, hash, now), w) <==>
                        w == ws || (Live(t, w) && Replaced(t, sid, ws) != Some(w))
  {
    var replaced := Replaced(t, sid, ws);
    ReplacedOrFree(t, sid, ws);
    if replaced.Some? {
      DropKeepsTable(t, replaced.value);
      DropRemoves(t, replaced.value);
      hide Drop, TableOk;
      AttachAfresh(Drop(t, replaced.value), sid, ws, token, hash, now);
    } else {
      hide TableOk;
      AttachAfresh(t, sid, ws, token, hash, now);
    }
  }

  lemma {:induction false} ReplacedOrFree(t: Table, sid: string, ws: Socket)
    requires TableOk(t) && !Live(t, ws)
    ensures sid in t.sessions.active <==> Replaced(t, sid, ws).Some?
  {
    hide SplitOk, TokensOk;
  }

  lemma {:induction false} CandidateIsWaiting(s: Sessions, o: Owners, sid: string)
    requires RoutesOk(s, o) && SplitOk(s, o) && TokensOk(s)
    ensures Candidate(s, sid) == Get(s.waiting, sid)
    ensures sid in s.waiting ==>
              && s.waiting[sid] in s.wsWaiting && s.waiting[sid] !in o.wsDiscord
              && Get(s.wsSession, s.waiting[sid]) == Some(sid)
    ensures sid !in s.waiting ==> NoLongerWaiting(s, sid) == s
  {
    if sid !in s.waiting {
      assert s.waiting - {sid} == s.waiting && s.token - {sid} == s.token;
    }
  }

  /** The candidate becomes the owner of a Discord id nobody owns. */
  lemma {:induction false} OwnRoutes(s: Sessions, o: Owners, sid: string, discordId: int, trust: string)
    requires RoutesOk(s, o) && SplitOk(s, o) && TokensOk(s) && sid in s.waiting && discordId !in o.byDiscord
    ensures var u, ws := NoLongerWaiting(s, sid), s.waiting[sid];
            var p := Owners(o.byDiscord[discordId := ws], o.wsDiscord[ws := discordId], o.wsTrust[ws := trust]);
            RoutesOk(u, p) && SplitOk(u, p) && TokensOk(u)
  {
    var ws := s.waiting[sid];
    CandidateIsWaiting(s, o, sid);
    PairedRemove(s.waiting, s.wsWaiting, ws);
    PairedAdd(o.byDiscord, o.wsDiscord, discordId, ws);
    hide Paired, Candidate;
  }

  lemma {:induction false} OwnFits(t: Table, sid: string, discordId: int, profile: Info, trust: string)
    requires TableOk(t) && sid in t.sessions.waiting && discordId !in t.owners.byDiscord
    ensures var u := t.(sessions := NoLongerWaiting(t.sessions, sid));
            TableOk(Own(u, t.sessions.waiting[sid], discordId, profile, trust))
  {
    OwnRoutes(t.sessions, t.owners, sid, discordId, trust);
    hide RoutesOk, SplitOk, TokensOk, OwnReports;
  }

  /** Dropping a bound socket and taking a candidate off the waiting list commute. */
  lemma {:induction false} DropThenTake(t: Table, sid: string, prev: Socket)
    requires TableOk(t) && prev in t.owners.wsDiscord && sid in t.sessions.waiting
    ensures sid in Drop(t, prev).sessions.waiting && Drop(t, prev).sessions.waiting[sid] == t.sessions.waiting[sid]
    ensures Drop(t.(sessions := NoLongerWaiting(t.sessions, sid)), prev) ==
            Drop(t, prev).(sessions := NoLongerWaiting(Drop(t, prev).sessions, sid))
  {
    hide DropOwner, DropReports, CancelFor, WithoutValue;
    var s, ws := t.sessions, t.sessions.waiting[sid];
    CandidateIsWaiting(s, t.owners, sid);
    assert prev !in s.wsWaiting && ws != prev;
    assert DropSession(NoLongerWaiting(s, sid), prev) == NoLongerWaiting(DropSession(s, prev), sid) by {
      assert s.wsWaiting - {ws} - {prev} == s.wsWaiting - {prev} - {ws};
    }
  }

  /** Turning a candidate away drops it, but keeps the session's refresh token hash. */
  lemma {:induction false} TakeThenDrop(t: Table, sid: string)
    requires TableOk(t) && sid in t.sessions.waiting
    ensures var ws := t.sessions.waiting[sid];
            Drop(t.(sessions := NoLongerWaiting(t.sessions, sid)), ws) ==
            Drop(t, ws).(sessions := Drop(t, ws).sessions.(refreshHash := t.sessions.refreshHash))
  {
    hide DropOwner, DropReports, CancelFor, WithoutValue;
    var s, ws := t.sessions, t.sessions.waiting[sid];
    CandidateIsWaiting(s, t.owners, sid);
    assert s.wsWaiting - {ws} - {ws} == s.wsWaiting - {ws};
  }

  /** The outcomes of a bind request in a reachable table: without takeover it is turned away exactly
      when the owner's last sign of life is at most 180 seconds old.  The test for the owner's session
      being the same never decides: another socket cannot have the candidate's session. */
  lemma {:induction false} BindCases(t: Table, sid: string, did: int, profile: Info, takeover: bool, trust: string, now: real)
    requires TableOk(t)
    ensures var (u, result) := Bind(t, sid, did, profile, takeover, trust, now);
            if trust !in ["trusted", "new_device"] then u == t && result.InvalidTrust?
            else if sid !in t.sessions.waiting then u == t && result.NotWaiting?
            else
              var ws := t.sessions.waiting[sid];
              match Get(t.owners.byDiscord, did) {
                case None => result == Bound(ws, None)
                case Some(prev) =>
                  if !takeover && prev in t.lastHeartbeat && now - t.lastHeartbeat[prev] <= 180.0 then result == Rejected(ws)
                  else result == Bound(ws, Some(prev))
              }
  {
    hide Drop, Own;
    CandidateIsWaiting(t.sessions, t.owners, sid);
  }

  lemma {:induction false} BindKeepsTable(t: Table, sid: string, did: int, profile: Info, takeover: bool, trust: string, now: real)
    requires TableOk(t)
    ensures TableOk(Bind(t, sid, did, profile, takeover, trust, now).0)
    ensures Bind(t, sid, did, profile, takeover, trust, now).0.sessions.wsSession.Keys <= t.sessions.wsSession.Keys
  {
    hide Drop, OwnReports, TableOk, NoLongerWaiting, IsFresh, MayNotDisplace;
    BindCases(t, sid, did, profile, takeover, trust, now);
    var (u, result) := Bind(t, sid, did, profile, takeover, trust, now);
    match result
    case InvalidTrust =>
    case NotWaiting =>
    case Rejected(ws) => RejectKeepsTable(t, sid);
    case Bound(ws, None) =>
      OwnFits(t, sid, did, profile, trust);
      StillAttached(t.sessions, sid);
    case Bound(ws, Some(prev)) => ReplaceKeepsTable(t, sid, did, profile, trust);
  }

  lemma {:induction false} StillAttached(s: Sessions, sid: string)
    ensures NoLongerWaiting(s, sid).wsSession == s.wsSession
  {
  }

  lemma {:induction false} RejectKeepsTable(t: Table, sid: string)
    requires TableOk(t) && sid in t.sessions.waiting
    ensures var u := Drop(t.(sessions := NoLongerWaiting(t.sessions, sid)), t.sessions.waiting[sid]);
            TableOk(u) && u.sessions.wsSession == t.sessions.wsSession - {t.sessions.waiting[sid]}
  {
    var ws := t.sessions.waiting[sid];
    TakeThenDrop(t, sid);
    DropKeepsTable(t, ws);
    DropRemoves(t, ws);
    hide Drop, TableOk, NoLongerWaiting;
    HashIsFree(Drop(t, ws), t.sessions.refreshHash);
  }

  lemma {:induction false} HashIsFree(t: Table, hash: map<string, string>)
    requires TableOk(t)
    ensures TableOk(t.(sessions := t.sessions.(refreshHash := hash)))
  {
  }

  lemma {:induction false} ReplaceKeepsTable(t: Table, sid: string, did: int, profile: Info, trust: string)
    requires TableOk(t) && sid in t.sessions.waiting && did in t.owners.byDiscord
    ensures var prev := t.owners.byDiscord[did];
            var u := Drop(t.(sessions := NoLongerWaiting(t.sessions, sid)), prev);
            && TableOk(Own(u, t.sessions.waiting[sid], did, profile, trust))
            && u.sessions.wsSession == t.sessions.wsSession - {prev}
  {
    var prev := t.owners.byDiscord[did];
    DropThenTake(t, sid, prev);
    DropKeepsTable(t, prev);
    DropRemoves(t, prev);
    assert did !in Drop(t, prev).owners.byDiscord;
    hide Drop;
    OwnFits(Drop(t, prev), sid, did, profile, trust);
  }

  // ---------- what a session and an owner are known by ----------

  /** Attaching leaves the session's refresh token hash as it was given, if it was and is not empty,
      and no other session's changed. */
  lemma {:induction false} AttachKeepsHashes(s: Sessions, sid: string, ws: Socket, token: string, hash: Option<string>, other: string)
    ensures Get(AttachSessions(s, sid, ws, token, hash).refreshHash, other) ==
            if other != sid then Get(s.refreshHash, other)
            else if hash.Some? && |hash.value| > 0 then hash
            else None
  {
  }

  predicate Filled(profile: Info, k: string) { k in profile && |profile[k]| > 0 }

  /** What is known of an Agent once it is bound, field by field: the name and the avatar of the profile
      when they are not empty, and the hello received before for everything else. */
  lemma {:induction false} BoundInfoReads(pending: Option<Info>, profile: Info, k: string)
    ensures var hello := if pending.Some? then Get(pending.value, k) else None;
            Get(BoundInfo(pending, profile), k) ==
            if k == "discord_name" && Filled(profile, "name") then Some(profile["name"])
            else if k == "discord_avatar" && Filled(profile, "avatar") then Some(profile["avatar"])
            else hello
  {
    assert "discord_name" != "discord_avatar" by { assert |"discord_name"| != |"discord_avatar"|; }
  }

  /** The hello of the bound socket is taken, and the Discord id is known by it and the profile; when
      both are empty it keeps what was known of it. */
  lemma {:induction false} BindTakesHello(r: Reports, ws: Socket, did: int, profile: Info, other: int)
    ensures var after := OwnReports(r, ws, did, profile);
            && after.pendingInfo == r.pendingInfo - {ws} && after.caches == r.caches
            && (other != did ==> Get(after.agentInfo, other) == Get(r.agentInfo, other))
            && Get(after.agentInfo, did) ==
               (if (ws in r.pendingInfo && r.pendingInfo[ws] != map[]) || Filled(profile, "name") || Filled(profile, "avatar")
                then Some(BoundInfo(Get(r.pendingInfo, ws), profile)) else Get(r.agentInfo, did))
  {
    var info := BoundInfo(Get(r.pendingInfo, ws), profile);
    if Filled(profile, "name") {
      BoundInfoReads(Get(r.pendingInfo, ws), profile, "discord_name");
    }
    if Filled(profile, "avatar") {
      BoundInfoReads(Get(r.pendingInfo, ws), profile, "discord_avatar");
    }
  }

  /** A hello after binding replaces what was known, except that a name and an avatar it does not have
      are kept; before binding it waits with its socket. */
  lemma {:induction false} HelloReads(t: Table, ws: Socket, info: Info, k: string)
    ensures var after := SetAgentInfo(t, ws, info).reports;
            if ws !in t.owners.wsDiscord then after == t.reports.(pendingInfo := t.reports.pendingInfo[ws := info])
            else
              var did := t.owners.wsDiscord[ws];
              var known := if did in t.reports.agentInfo then Get(t.reports.agentInfo[did], k) else None;
              && did in after.agentInfo
              && Get(after.agentInfo[did], k) ==
                 (if k in info then Some(info[k]) else if k in ["discord_name", "discord_avatar"] then known else None)
              && forall other :: other != did ==> Get(after.agentInfo, other) == Get(t.reports.agentInfo, other)
  {
    assert "discord_name" != "discord_avatar" by { assert |"discord_name"| != |"discord_avatar"|; }
  }

  /** Whatever the table holds, a socket that nothing knows, or whose Discord id or session leads to
      another, is not current. */
  lemma {:induction false} DisplacedIsNotCurrent(t: Table, ws: Socket, other: Socket)
    requires other != ws
    requires (ws !in t.owners.wsDiscord && ws !in t.sessions.wsSession)
             || (ws in t.owners.wsDiscord && Get(t.owners.byDiscord, t.owners.wsDiscord[ws]) in [None, Some(other)])
             || (ws in t.sessions.wsSession && Get(t.sessions.active, t.sessions.wsSession[ws]) in [None, Some(other)])
    ensures !IsCurrent(t, ws)
  {
  }
}
