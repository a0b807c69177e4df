/** Runs of the relay's connection table: who owns a Discord id, and what becomes of awaited results. */
module ConnectionRuns {
  import opened Wrappers
  import opened Json
  import opened Connections
  import opened ConnectionProofs

  datatype Event =
    | Attached(sid: string, ws: Socket, token: string, hash: Option<string>, at: real)
    | BindAsked(sid: string, discordId: int, profile: Info, takeover: bool, trust: string, at: real)
    | Unregistered(ws: Socket)
    | ActivitySeen(ws: Socket, at: real)
    | HelloReceived(ws: Socket, info: Info)
    | CacheWritten(cacheKey: CacheKey, value: Json)
    | ResultRegistered(key: ResultKey, future: FutureId)
    | ResultArrived(key: ResultKey, result: Json)
    | ResultCancelled(key: ResultKey)
    | WaitTimedOut(future: FutureId)

  /** The table, the sockets that ever attached, and the futures and request ids ever used. */
  datatype Relay = Relay(table: Table, seen: set<Socket>, issued: set<FutureId>, asked: set<ResultKey>)

  const Start: Relay := Relay(Empty, {}, {}, {})

  /** A socket attaches once and with a token; futures and request ids are fresh. */
  predicate Enabled(r: Relay, e: Event) {
    match e
    case Attached(_, ws, token, _, _) => ws !in r.seen && token != ""
    case ResultRegistered(key, future) => future !in r.issued && key !in r.asked
    case WaitTimedOut(future) => future in r.issued
    case _ => true
  }

  function NextTable(t: Table, e: Event): Table {
    match e
    case Attached(sid, ws, token, hash, at) => Attach(t, sid, ws, token, hash, at)
    case BindAsked(sid, did, profile, takeover, trust, at) => Bind(t, sid, did, profile, takeover, trust, at).0
    case Unregistered(ws) => Drop(t, ws)
    case ActivitySeen(ws, at) => MarkActivity(t, ws, at)
    case HelloReceived(ws, info) => SetAgentInfo(t, ws, info)
    case CacheWritten(key, value) => t.(reports := t.reports.(caches := t.reports.caches[key := value]))
    case ResultRegistered(key, future) => t.(results := RegisterResult(t.results, key, future))
    case ResultArrived(key, result) => t.(results := FinishResult(t.results, key, Completed(result)))
    case ResultCancelled(key) => t.(results := FinishResult(t.results, key, Cancelled))
    case WaitTimedOut(future) =>
      t.(results := t.results.(outcomes := Resolved(t.results.outcomes, {future}, Cancelled)))
  }

  function Next(r: Relay, e: Event): Relay {
    Relay(NextTable(r.table, e),
          if e.Attached? then r.seen + {e.ws} else r.seen,
          if e.ResultRegistered? then r.issued + {e.future} else r.issued,
          if e.ResultRegistered? then r.asked + {e.key} else r.asked)
  }

  predicate Feasible(r: Relay, events: seq<Event>)
    decreases |events|
  {
    events == [] || (Enabled(r, events[0]) && Feasible(Next(r, events[0]), events[1..]))
  }

  function Run(r: Relay, events: seq<Event>): Relay
    decreases |events|
  {
    if events == [] then r else Run(Next(r, events[0]), events[1..])
  }

  // ---------- the invariant ----------

  ghost predicate FuturesOk(r: Results, issued: set<FutureId>, asked: set<ResultKey>) {
    && r.pending.Keys <= asked && r.outcomes.Keys <= issued
    && (forall k | k in r.pending :: r.pending[k] in issued)
    && (forall k, l | k in r.pending && l in r.pending && r.pending[k] == r.pending[l] :: k == l)
    && (forall f | f in issued :: f in r.outcomes || f in r.pending.Values)
  }

  ghost predicate Inv(r: Relay) {
    TableOk(r.table) && r.table.sessions.wsSession.Keys <= r.seen && FuturesOk(r.table.results, r.issued, r.asked)
  }

  // ---------- awaited results ----------

  lemma {:induction false} CancelKeepsFutures(r: Results, did: int, issued: set<FutureId>, asked: set<ResultKey>)
    requires FuturesOk(r, issued, asked)
    ensures FuturesOk(CancelFor(r, did), issued, asked)
  {
    var keys, c := ResultKeys(r.pending, did), CancelFor(r, did);
    forall f | f in issued ensures f in c.outcomes || f in c.pending.Values {
      if f !in r.outcomes {
        var k :| k in r.pending && r.pending[k] == f;
        if k in keys {
          assert f in Futures(r.pending, keys);
        } else {
          assert k in c.pending && c.pending[k] == f;
        }
      }
    }
  }

  lemma {:induction false} FinishKeepsFutures(r: Results, key: ResultKey, o: Outcome, issued: set<FutureId>, asked: set<ResultKey>)
    requires FuturesOk(r, issued, asked)
    ensures FuturesOk(FinishResult(r, key, o), issued, asked)
  {
    var c := FinishResult(r, key, o);
    forall f | f in issued ensures f in c.outcomes || f in c.pending.Values {
      if f !in r.outcomes {
        var k :| k in r.pending && r.pending[k] == f;
        if k != key {
          assert k in c.pending && c.pending[k] == f;
        }
      }
    }
  }

  lemma {:induction false} RegisterKeepsFutures(r: Results, key: ResultKey, future: FutureId, issued: set<FutureId>, asked: set<ResultKey>)
    requires FuturesOk(r, issued, asked) && future !in issued && key !in asked
    ensures FuturesOk(RegisterResult(r, key, future), issued + {future}, asked + {key})
  {
    var c := RegisterResult(r, key, future);
    assert c.pending[key] == future;
    forall f | f in issued + {future} ensures f in c.outcomes || f in c.pending.Values {
      if f != future && f !in r.outcomes {
        var k :| k in r.pending && r.pending[k] == f;
        assert k in c.pending && c.pending[k] == f;
      }
    }
  }

  lemma {:induction false} BindResults(t: Table, sid: string, did: int, profile: Info, takeover: bool, trust: string, now: real)
    requires TableOk(t)
    ensures var u := Bind(t, sid, did, profile, takeover, trust, now).0;
            u.results == t.results || (did in t.owners.byDiscord && u.results == CancelFor(t.results, did))
  {
    hide IsFresh, DropSession, DropReports, DropOwner, CancelFor, OwnReports, SplitOk, TokensOk;
    CandidateIsWaiting(t.sessions, t.owners, sid);
  }

  // ---------- every step keeps the invariant ----------

  lemma {:induction false} LiveAfter(t: Table, e: Event)
    requires TableOk(t) && (e.Attached? ==> !Live(t, e.ws) && e.token != "")
    ensures TableOk(NextTable(t, e))
    ensures forall w | Live(NextTable(t, e), w) :: Live(t, w) || (e.Attached? && w == e.ws)
  {
    hide Drop, RoutesOk, SplitOk, TokensOk;
    match e
    case Attached(sid, ws, token, hash, at) =>
      AttachKeepsTable(t, sid, ws, token, hash, at);
    case BindAsked(sid, did, profile, takeover, trust, at) =>
      hide Bind;
      BindKeepsTable(t, sid, did, profile, takeover, trust, at);
    case Unregistered(ws) =>
      DropKeepsTable(t, ws);
      DropRemoves(t, ws);
    case ActivitySeen(ws, at) => ActivityKeepsTable(t, ws, at);
    case _ =>
  }

  lemma {:induction false} ActivityKeepsTable(t: Table, ws: Socket, at: real)
    requires TableOk(t)
    ensures TableOk(MarkActivity(t, ws, at))
  {
  }

  lemma {:induction false} FuturesAfter(r: Relay, e: Event)
    requires TableOk(r.table) && FuturesOk(r.table.results, r.issued, r.asked) && Enabled(r, e)
    ensures FuturesOk(Next(r, e).table.results, Next(r, e).issued, Next(r, e).asked)
  {
    hide FuturesOk, TableOk, FinishResult, CancelFor, RegisterResult;
    var t := r.table;
    match e
    case Attached(sid, ws, token, hash, at) =>
      if Replaced(t, sid, ws).Some? {
        DropKeepsFutures(t, Replaced(t, sid, ws).value, r.issued, r.asked);
      }
    case BindAsked(sid, did, profile, takeover, trust, at) =>
      BindResults(t, sid, did, profile, takeover, trust, at);
      CancelKeepsFutures(t.results, did, r.issued, r.asked);
    case Unregistered(ws) => DropKeepsFutures(t, ws, r.issued, r.asked);
    case ResultRegistered(key, future) => RegisterKeepsFutures(t.results, key, future, r.issued, r.asked);
    case ResultArrived(key, result) => FinishKeepsFutures(t.results, key, Completed(result), r.issued, r.asked);
    case ResultCancelled(key) => FinishKeepsFutures(t.results, key, Cancelled, r.issued, r.asked);
    case WaitTimedOut(future) => TimeOutKeepsFutures(t.results, future, r.issued, r.asked);
    case _ =>
  }

  lemma {:induction false} DropKeepsFutures(t: Table, ws: Socket, issued: set<FutureId>, asked: set<ResultKey>)
    requires FuturesOk(t.results, issued, asked)
    ensures FuturesOk(Drop(t, ws).results, issued, asked)
  {
    hide FuturesOk, CancelFor;
    if ws in t.owners.wsDiscord {
      CancelKeepsFutures(t.results, t.owners.wsDiscord[ws], issued, asked);
    }
  }

  lemma {:induction false} TimeOutKeepsFutures(r: Results, future: FutureId, issued: set<FutureId>, asked: set<ResultKey>)
    requires FuturesOk(r, issued, asked) && future in issued
    ensures FuturesOk(r.(outcomes := Resolved(r.outcomes, {future}, Cancelled)), issued, asked)
  {
  }

  lemma {:induction false} StepKeeps(r: Relay, e: Event)
    requires Inv(r) && Enabled(r, e)
    ensures Inv(Next(r, e))
  {
    hide TableOk, FuturesOk, NextTable;
    LiveAfter(r.table, e);
    FuturesAfter(r, e);
    var next := Next(r, e);
    forall w | w in next.table.sessions.wsSession ensures w in next.seen {
      assert Live(NextTable(r.table, e), w);
    }
  }

  /** In every run the routing maps are each other's inverse, live sockets are either waiting for a
      Discord id or bound to one, and no awaited result is forgotten. */
  lemma {:induction false} RunKeeps(r: Relay, events: seq<Event>)
    requires Inv(r) && Feasible(r, events)
    ensures Inv(Run(r, events))
    decreases |events|
  {
    hide Inv, Next, Enabled;
    if events != [] {
      StepKeeps(r, events[0]);
      RunKeeps(Next(r, events[0]), events[1..]);
    }
  }

  lemma {:induction false} StartOk()
    ensures Inv(Start)
  {
  }

  lemma {:induction false} EveryRunKeepsRouting(events: seq<Event>)
    requires Feasible(Start, events)
    ensures Inv(Run(Start, events))
  {
    RunKeeps(Start, events);
  }

  // ---------- who speaks for whom ----------

  ghost predicate Routed(t: Table, ws: Socket) {
    || (exists sid :: sid in t.sessions.waiting && t.sessions.waiting[sid] == ws)
    || (exists did :: did in t.owners.byDiscord && t.owners.byDiscord[did] == ws)
  }

  /** A socket is current exactly when it is live, which is exactly when some session waiting to be
      bound or some Discord id leads to it. */
  lemma {:induction false} CurrentIffRouted(t: Table, ws: Socket)
    requires TableOk(t)
    ensures IsCurrent(t, ws) <==> Live(t, ws)
    ensures Live(t, ws) <==> Routed(t, ws)
    ensures !(exists sid, did :: sid in t.sessions.waiting && t.sessions.waiting[sid] == ws
                                 && did in t.owners.byDiscord && t.owners.byDiscord[did] == ws)
  {
    hide TokensOk;
    var s, o := t.sessions, t.owners;
    forall sid | sid in s.waiting && s.waiting[sid] == ws ensures ws in s.wsWaiting {
    }
    forall did | did in o.byDiscord && o.byDiscord[did] == ws ensures ws in o.wsDiscord {
    }
    if ws in s.wsWaiting {
      assert s.wsWaiting[ws] in s.waiting && s.waiting[s.wsWaiting[ws]] == ws;
    }
    if ws in o.wsDiscord {
      var did := o.wsDiscord[ws];
      assert did in t.owners.byDiscord && t.owners.byDiscord[did] == ws;
      assert Routed(t, ws);
    }
  }

  /** The events that take Discord id `did` away from the socket that owns it. */
  predicate TakesAway(t: Table, e: Event, did: int, owner: Socket) {
    match e
    case Unregistered(ws) => ws == owner
    case Attached(sid, _, _, _, _) => Get(t.sessions.wsSession, owner) == Some(sid)
    case BindAsked(sid, d, _, takeover, trust, at) =>
      && d == did && trust in ["trusted", "new_device"] && sid in t.sessions.waiting
      && (takeover || owner !in t.lastHeartbeat || at - t.lastHeartbeat[owner] > 180.0)
    case _ => false
  }

  lemma {:induction false} DropOwnerElsewhere(t: Table, ws: Socket, did: int)
    requires TableOk(t) && did in t.owners.byDiscord
    ensures Get(Drop(t, ws).owners.byDiscord, did) == if t.owners.byDiscord[did] == ws then None else Get(t.owners.byDiscord, did)
  {
    hide DropSession, DropReports, CancelFor, SplitOk, TokensOk;
  }

  /** A Discord id changes hands only by disconnection, failure to send, re-attachment of the owner's own
      session, explicit takeover, or because the owner went stale: a fresh owner is never displaced. */
  lemma {:induction false} OwnerLeavesIff(t: Table, e: Event, did: int)
    requires TableOk(t) && did in t.owners.byDiscord && (e.Attached? ==> !Live(t, e.ws))
    ensures Get(NextTable(t, e).owners.byDiscord, did) == Get(t.owners.byDiscord, did) <==>
            !TakesAway(t, e, did, t.owners.byDiscord[did])
  {
    hide Drop, IsFresh, FinishResult, RegisterResult;
    var owner := t.owners.byDiscord[did];
    assert owner in t.owners.wsDiscord && Live(t, owner);
    match e
    case Attached(sid, ws, token, hash, at) =>
      AttachOwner(t, sid, ws, did);
    case BindAsked(sid, d, profile, takeover, trust, at) =>
      BindOwner(t, sid, d, profile, takeover, trust, at, did);
    case Unregistered(ws) => DropOwnerElsewhere(t, ws, did);
    case _ =>
  }

  lemma {:induction false} AttachOwner(t: Table, sid: string, ws: Socket, did: int)
    requires TableOk(t) && did in t.owners.byDiscord && !Live(t, ws)
    ensures var u := match Replaced(t, sid, ws) { case Some(before) => Drop(t, before) case None => t };
            Get(u.owners.byDiscord, did) == Get(t.owners.byDiscord, did) <==>
            Get(t.sessions.wsSession, t.owners.byDiscord[did]) != Some(sid)
  {
    var owner := t.owners.byDiscord[did];
    assert owner in t.owners.wsDiscord && owner in t.sessions.wsSession;
    hide Drop;
    if Replaced(t, sid, ws).Some? {
      DropOwnerElsewhere(t, Replaced(t, sid, ws).value, did);
    }
  }

  lemma {:induction false} BindOwner(t: Table, sid: string, d: int, profile: Info, takeover: bool, trust: string, at: real, did: int)
    requires TableOk(t) && did in t.owners.byDiscord
    ensures Get(Bind(t, sid, d, profile, takeover, trust, at).0.owners.byDiscord, did) == Get(t.owners.byDiscord, did) <==>
            !TakesAway(t, BindAsked(sid, d, profile, takeover, trust, at), did, t.owners.byDiscord[did])
  {
    hide IsFresh, DropSession, DropReports, CancelFor, OwnReports;
    BindCases(t, sid, d, profile, takeover, trust, at);
    CandidateIsWaiting(t.sessions, t.owners, sid);
  }

  /** Nothing in the run takes the Discord id away from its owner. */
  predicate Undisturbed(r: Relay, events: seq<Event>, did: int, owner: Socket)
    decreases |events|
  {
    events == [] || (!TakesAway(r.table, events[0], did, owner) && Undisturbed(Next(r, events[0]), events[1..], did, owner))
  }

  /** The socket owns the Discord id now and after every step of the run. */
  predicate OwnsThroughout(r: Relay, events: seq<Event>, did: int, owner: Socket)
    decreases |events|
  {
    && Get(r.table.owners.byDiscord, did) == Some(owner)
    && (events == [] || OwnsThroughout(Next(r, events[0]), events[1..], did, owner))
  }

  lemma {:induction false} OwnershipOverRuns(r: Relay, events: seq<Event>, did: int, owner: Socket)
    requires Inv(r) && Feasible(r, events) && Get(r.table.owners.byDiscord, did) == Some(owner)
    ensures OwnsThroughout(r, events, did, owner) <==> Undisturbed(r, events, did, owner)
    decreases |events|
  {
    if events != [] {
      StepKeeps(r, events[0]);
      OwnerLeavesIff(r.table, events[0], did);
      hide TakesAway, TableOk, FuturesOk, NextTable;
      var next := Next(r, events[0]);
      if Get(next.table.owners.byDiscord, did) == Some(owner) {
        OwnershipOverRuns(next, events[1..], did, owner);
      } else {
        assert !OwnsThroughout(next, events[1..], did, owner);
      }
    }
  }

  /** When the run last shows the socket: its attachment or its latest activity. */
  function LastSeen(before: Option<real>, events: seq<Event>, ws: Socket): Option<real>
    decreases |events|
  {
    if events == [] then before else LastSeen(SeenBy(before, events[0], ws), events[1..], ws)
  }

  function SeenBy(before: Option<real>, e: Event, ws: Socket): Option<real> {
    if (e.Attached? || e.ActivitySeen?) && e.ws == ws then Some(e.at) else before
  }

  lemma {:induction false} DropHeartbeat(t: Table, dropped: Socket, ws: Socket)
    requires Live(Drop(t, dropped), ws)
    ensures Live(t, ws) && Get(Drop(t, dropped).lastHeartbeat, ws) == Get(t.lastHeartbeat, ws)
  {
    hide DropOwner, DropReports, CancelFor, WithoutValue;
  }

  lemma {:induction false} BindHeartbeat(t: Table, sid: string, did: int, profile: Info, takeover: bool, trust: string, at: real, ws: Socket)
    requires Live(Bind(t, sid, did, profile, takeover, trust, at).0, ws)
    ensures Get(Bind(t, sid, did, profile, takeover, trust, at).0.lastHeartbeat, ws) == Get(t.lastHeartbeat, ws)
  {
    hide Drop, MayNotDisplace, Candidate, NoLongerWaiting, OwnReports;
    var u := t.(sessions := NoLongerWaiting(t.sessions, sid));
    var candidate, owner := Candidate(t.sessions, sid), Get(t.owners.byDiscord, did);
    if candidate.Some? && Live(Drop(u, candidate.value), ws) {
      DropHeartbeat(u, candidate.value, ws);
    }
    if owner.Some? && Live(Drop(u, owner.value), ws) {
      DropHeartbeat(u, owner.value, ws);
    }
  }

  lemma {:induction false} HeartbeatStep(t: Table, e: Event, ws: Socket)
    requires TableOk(t) && Live(NextTable(t, e), ws)
    ensures Get(NextTable(t, e).lastHeartbeat, ws) == SeenBy(Get(t.lastHeartbeat, ws), e, ws)
  {
    match e
    case Attached(sid, w, token, hash, at) =>
      hide Drop, TableOk;
      if w != ws && Replaced(t, sid, w).Some? {
        DropHeartbeat(t, Replaced(t, sid, w).value, ws);
      }
    case BindAsked(sid, did, profile, takeover, trust, at) =>
      BindHeartbeat(t, sid, did, profile, takeover, trust, at, ws);
      hide Bind;
    case Unregistered(w) =>
      DropHeartbeat(t, w, ws);
      hide Drop;
    case _ => hide RoutesOk, SplitOk, TokensOk, FinishResult;
  }

  lemma {:induction false} NotYetAttached(r: Relay, events: seq<Event>, ws: Socket, a: Option<real>, b: Option<real>)
    requires Inv(r) && Feasible(r, events) && !Live(r.table, ws) && Live(Run(r, events).table, ws)
    ensures LastSeen(a, events, ws) == LastSeen(b, events, ws)
    decreases |events|
  {
    hide TableOk, FuturesOk, NextTable;
    var e, next := events[0], Next(r, events[0]);
    StepKeeps(r, e);
    LiveAfter(r.table, e);
    if !Live(next.table, ws) {
      NotYetAttached(next, events[1..], ws, SeenBy(a, e, ws), SeenBy(b, e, ws));
    }
  }

  /** The heartbeat of a live socket is the last time the run shows it. */
  lemma {:induction false} HeartbeatIsLastSeen(r: Relay, events: seq<Event>, ws: Socket)
    requires Inv(r) && Feasible(r, events) && Live(Run(r, events).table, ws)
    ensures Get(Run(r, events).table.lastHeartbeat, ws) == LastSeen(Get(r.table.lastHeartbeat, ws), events, ws)
    decreases |events|
  {
    hide TableOk, FuturesOk, NextTable, SeenBy;
    if events != [] {
      var next := Next(r, events[0]);
      StepKeeps(r, events[0]);
      HeartbeatIsLastSeen(next, events[1..], ws);
      if Live(next.table, ws) {
        HeartbeatStep(r.table, events[0], ws);
      } else {
        NotYetAttached(next, events[1..], ws, Get(next.table.lastHeartbeat, ws), SeenBy(Get(r.table.lastHeartbeat, ws), events[0], ws));
      }
    }
  }

  // ---------- sockets that are gone ----------

  lemma {:induction false} GoneStaysGone(r: Relay, events: seq<Event>, ws: Socket)
    requires Inv(r) && Feasible(r, events) && ws in r.seen && !Live(r.table, ws)
    ensures !Live(Run(r, events).table, ws) && ws in Run(r, events).seen
    decreases |events|
  {
    if events != [] {
      StepKeeps(r, events[0]);
      LiveAfter(r.table, events[0]);
      hide TableOk, FuturesOk, NextTable;
      GoneStaysGone(Next(r, events[0]), events[1..], ws);
    }
  }

  /** A socket displaced by the re-attachment of its session is gone at once. */
  lemma {:induction false} ReplacedIsGone(r: Relay, e: Event)
    requires Inv(r) && Enabled(r, e) && e.Attached?
    ensures Live(NextTable(r.table, e), e.ws)
    ensures Replaced(r.table, e.sid, e.ws).Some? ==> !Live(NextTable(r.table, e), Replaced(r.table, e.sid, e.ws).value)
  {
    hide FuturesOk, Drop;
    AttachKeepsTable(r.table, e.sid, e.ws, e.token, e.hash, e.at);
  }

  /** A bind request leaves live the socket it says it bound, and not the one it replaced or turned away. */
  lemma {:induction false} BindDecidesLive(t: Table, sid: string, did: int, profile: Info, takeover: bool, trust: string, at: real)
    requires TableOk(t)
    ensures var (u, result) := Bind(t, sid, did, profile, takeover, trust, at);
            match result
            case Rejected(ws) => !Live(u, ws)
            case Bound(ws, replaced) => Live(u, ws) && Get(u.owners.byDiscord, did) == Some(ws) && (replaced.Some? ==> !Live(u, replaced.value))
            case _ => true
  {
    hide Drop, IsFresh, Candidate, SplitOk, TokensOk;
    BindCases(t, sid, did, profile, takeover, trust, at);
    CandidateIsWaiting(t.sessions, t.owners, sid);
    if sid in t.sessions.waiting && did in t.owners.byDiscord {
      assert t.sessions.waiting[sid] != t.owners.byDiscord[did];
      RejectKeepsTable(t, sid);
      ReplaceKeepsTable(t, sid, did, profile, trust);
    }
    hide TableOk;
  }

  /** What a bound socket is known by after a bind request: the trust it was given, and what `OwnReports`
      makes of its hello and the profile, after everything known by a replaced owner is forgotten. */
  lemma {:induction false} BindTakesReports(t: Table, sid: string, did: int, profile: Info, takeover: bool, trust: string, at: real)
    ensures var (u, result) := Bind(t, sid, did, profile, takeover, trust, at);
            match result
            case Bound(ws, replaced) =>
              && sid !in u.sessions.waiting && sid !in u.sessions.token
              && Get(u.owners.wsTrust, ws) == Some(trust) && Get(u.owners.wsDiscord, ws) == Some(did)
              && u.reports == OwnReports(if replaced.Some? then Drop(t, replaced.value).reports else t.reports, ws, did, profile)
            case Rejected(ws) => sid !in u.sessions.waiting && ws !in u.reports.pendingInfo
            case _ => u.reports == t.reports
  {
    hide OwnReports, Drop, MayNotDisplace, Candidate, NoLongerWaiting;
    Taken(t.sessions, sid);
    var u := t.(sessions := NoLongerWaiting(t.sessions, sid));
    var candidate, owner := Candidate(t.sessions, sid), Get(t.owners.byDiscord, did);
    if candidate.Some? {
      DropParts(t, u.sessions, candidate.value);
    }
    if owner.Some? {
      DropParts(t, u.sessions, owner.value);
    }
  }

  lemma {:induction false} Taken(s: Sessions, sid: string)
    ensures sid !in NoLongerWaiting(s, sid).waiting && sid !in NoLongerWaiting(s, sid).token
  {
  }

  lemma {:induction false} DropParts(t: Table, sessions: Sessions, ws: Socket)
    ensures var dropped := Drop(t.(sessions := sessions), ws);
            && dropped.reports == Drop(t, ws).reports && ws !in dropped.reports.pendingInfo
            && dropped.sessions.waiting.Keys <= sessions.waiting.Keys && dropped.sessions.token.Keys <= sessions.token.Keys
  {
    hide CancelFor, DropOwner, WithoutValue, CacheKeys;
  }

  lemma {:induction false} OwnerIsSeen(t: Table, did: int)
    requires TableOk(t) && did in t.owners.byDiscord
    ensures Live(t, t.owners.byDiscord[did]) && t.owners.byDiscord[did] in t.lastHeartbeat
  {
    assert t.owners.byDiscord[did] in t.owners.wsDiscord;
  }

  /** Without takeover, an owner the run shows within the last 180 seconds keeps the Discord id and the
      other socket is turned away; an owner silent for longer loses it, as does any owner on takeover. */
  lemma {:induction false} SilentOwnerOnly(events: seq<Event>, sid: string, did: int, profile: Info, takeover: bool, trust: string, at: real)
    requires Feasible(Start, events) && trust in ["trusted", "new_device"]
    requires var t := Run(Start, events).table; sid in t.sessions.waiting && did in t.owners.byDiscord
    ensures var t := Run(Start, events).table;
            var owner, other := t.owners.byDiscord[did], t.sessions.waiting[sid];
            var seen := LastSeen(None, events, owner);
            var (u, result) := Bind(t, sid, did, profile, takeover, trust, at);
            && seen.Some?
            && (result, Get(u.owners.byDiscord, did)) ==
               if !takeover && at - seen.value <= 180.0 then (Rejected(other), Some(owner))
               else (Bound(other, Some(owner)), Some(other))
  {
    hide Bind, TableOk, FuturesOk, Run, Feasible, LastSeen, Live;
    EveryRunKeepsRouting(events);
    StartOk();
    var t := Run(Start, events).table;
    var owner := t.owners.byDiscord[did];
    OwnerIsSeen(t, did);
    HeartbeatIsLastSeen(Start, events, owner);
    BindCases(t, sid, did, profile, takeover, trust, at);
    BindDecidesLive(t, sid, did, profile, takeover, trust, at);
    BindOwner(t, sid, did, profile, takeover, trust, at, did);
  }

  /** The late cleanup of a displaced socket, whenever it comes, reports nobody offline and leaves its
      successor's routing, caches and awaited results alone. */
  lemma {:induction false} LateCleanupIsHarmless(r: Relay, events: seq<Event>, ws: Socket)
    requires Inv(r) && Feasible(r, events) && ws in r.seen && !Live(r.table, ws)
    ensures var t := Run(r, events).table;
            && Drop(t, ws) == t.(reports := t.reports.(pendingInfo := t.reports.pendingInfo - {ws}))
            && ws !in t.owners.wsDiscord
  {
    GoneStaysGone(r, events, ws);
    RunKeeps(r, events);
    hide Run, Drop, RoutesOk, TokensOk;
    LateCleanup(Run(r, events).table, ws);
  }

  // ---------- what becomes of awaited results ----------

  /** A future's outcome, once there, never changes, and a result only ever comes from an arrival for the
      request it was registered under. */
  lemma {:induction false} OutcomeIsFinal(t: Table, e: Event, f: FutureId)
    requires TableOk(t)
    ensures var before, after := t.results.outcomes, NextTable(t, e).results.outcomes;
            && (f in before ==> f in after && after[f] == before[f])
            && (f !in before && f in after && after[f].Completed? ==>
                  e.ResultArrived? && Get(t.results.pending, e.key) == Some(f) && after[f].result == e.result)
  {
    hide DropSession, DropOwner, DropReports, OwnReports, IsFresh, RoutesOk, SplitOk, TokensOk;
    match e
    case BindAsked(sid, did, profile, takeover, trust, at) =>
      BindResults(t, sid, did, profile, takeover, trust, at);
      hide Bind;
    case _ =>
  }

  lemma {:induction false} ResolvedOnce(r: Relay, events: seq<Event>, f: FutureId)
    requires Inv(r) && Feasible(r, events) && f in r.table.results.outcomes
    ensures Get(Run(r, events).table.results.outcomes, f) == Some(r.table.results.outcomes[f])
    decreases |events|
  {
    if events != [] {
      StepKeeps(r, events[0]);
      OutcomeIsFinal(r.table, events[0], f);
      hide TableOk, FuturesOk, NextTable, Enabled;
      ResolvedOnce(Next(r, events[0]), events[1..], f);
    }
  }

  /** An arrival gives an open future its result, a cancellation cancels it; either way the entry goes,
      and nothing else changes. */
  lemma {:induction false} ArrivalCompletes(t: Table, key: ResultKey, f: FutureId, result: Json)
    requires Get(t.results.pending, key) == Some(f) && f !in t.results.outcomes
    ensures NextTable(t, ResultArrived(key, result)) ==
            t.(results := Results(t.results.pending - {key}, t.results.outcomes[f := Completed(result)]))
    ensures NextTable(t, ResultCancelled(key)) ==
            t.(results := Results(t.results.pending - {key}, t.results.outcomes[f := Cancelled]))
  {
    var before := t.results.outcomes;
    assert Resolved(before, {f}, Completed(result)) == before[f := Completed(result)];
    assert Resolved(before, {f}, Cancelled) == before[f := Cancelled];
  }

  /** No step makes an entry of the awaited results other than the one it registers. */
  lemma {:induction false} PendingShrinks(t: Table, e: Event, key: ResultKey)
    requires TableOk(t) && key in NextTable(t, e).results.pending
    ensures Get(NextTable(t, e).results.pending, key) ==
            if e.ResultRegistered? && key == e.key then Some(e.future) else Get(t.results.pending, key)
  {
    hide DropSession, DropOwner, DropReports, OwnReports, IsFresh, RoutesOk, SplitOk, TokensOk, Resolved;
    match e
    case BindAsked(sid, did, profile, takeover, trust, at) =>
      BindResults(t, sid, did, profile, takeover, trust, at);
      hide Bind;
    case _ =>
  }

  lemma {:induction false} StillAwaited(r: Relay, e: Event, key: ResultKey, f: FutureId)
    requires Inv(r) && Enabled(r, e) && Get(r.table.results.pending, key) == Some(f)
    requires f !in Next(r, e).table.results.outcomes
    ensures Get(Next(r, e).table.results.pending, key) == Some(f)
  {
    StepKeeps(r, e);
    hide TableOk, NextTable;
    var after := Next(r, e).table.results;
    assert f in Next(r, e).issued && f in after.pending.Values;
    var k :| k in after.pending && after.pending[k] == f;
    PendingShrinks(r.table, e, k);
  }

  /** However long a result is awaited and whatever happens meanwhile, as long as it is still open the
      first arrival for its request completes it with exactly what arrived. */
  lemma {:induction false} AwaitedGetsResult(r: Relay, events: seq<Event>, key: ResultKey, f: FutureId, result: Json)
    requires Inv(r) && Feasible(r, events) && Get(r.table.results.pending, key) == Some(f)
    requires f !in Run(r, events).table.results.outcomes
    ensures Get(Run(r, events).table.results.pending, key) == Some(f)
    ensures Get(NextTable(Run(r, events).table, ResultArrived(key, result)).results.outcomes, f) == Some(Completed(result))
    decreases |events|
  {
    hide TableOk, FuturesOk, Enabled;
    if events == [] {
      ArrivalCompletes(r.table, key, f, result);
    } else {
      hide NextTable;
      var next := Next(r, events[0]);
      StepKeeps(r, events[0]);
      if f in next.table.results.outcomes {
        ResolvedOnce(next, events[1..], f);
      } else {
        StillAwaited(r, events[0], key, f);
        AwaitedGetsResult(next, events[1..], key, f, result);
      }
    }
  }

  /** Dropping the socket bound to a Discord id leaves nothing awaited from it, and every result that
      was awaited from it is resolved. */
  lemma {:induction false} DropResolvesAwaited(t: Table, ws: Socket, key: ResultKey)
    requires TableOk(t) && Get(t.owners.wsDiscord, ws) == Some(key.discordId)
    ensures key !in Drop(t, ws).results.pending
    ensures key in t.results.pending ==> t.results.pending[key] in Drop(t, ws).results.outcomes
  {
    var keys := ResultKeys(t.results.pending, key.discordId);
    if key in t.results.pending {
      assert key in keys && t.results.pending[key] in Futures(t.results.pending, keys);
    }
  }

  /** Nothing that was known by a dropped socket is left: the info and every cached state of its Discord
      id, its unread hello, and the token and refresh token hash of the session it was waiting with. */
  lemma {:induction false} DropForgets(t: Table, ws: Socket)
    requires TableOk(t)
    ensures var u := Drop(t, ws);
            && ws !in u.reports.pendingInfo && ws !in u.lastHeartbeat
            && ws !in u.sessions.wsWaiting && ws !in u.sessions.wsSession && ws !in u.owners.wsDiscord && ws !in u.owners.wsTrust
            && (ws in t.owners.wsDiscord ==>
                  && t.owners.wsDiscord[ws] !in u.owners.byDiscord && t.owners.wsDiscord[ws] !in u.reports.agentInfo
                  && forall kind :: CacheKey(kind, t.owners.wsDiscord[ws]) !in u.reports.caches)
            && (ws in t.sessions.wsWaiting ==>
                  var sid := t.sessions.wsWaiting[ws];
                  sid !in u.sessions.waiting && sid !in u.sessions.token && sid !in u.sessions.refreshHash)
  {
    hide CancelFor, WithoutValue, TokensOk;
    if ws in t.owners.wsDiscord {
      forall kind ensures CacheKey(kind, t.owners.wsDiscord[ws]) in CacheKeys(t.owners.wsDiscord[ws]) {
        EveryKind(kind, t.owners.wsDiscord[ws]);
      }
    }
  }

  lemma {:induction false} EveryKind(kind: CacheKind, did: int)
    ensures CacheKey(kind, did) in CacheKeys(did)
  {
    assert kind in [Gameflow, PartyLobby, LiveGame, LivePreview, LivePreviewControl];
  }

  /** Dropping a socket leaves every other user's routing, caches and awaited results alone. */
  lemma {:induction false} DropLeavesOthers(t: Table, ws: Socket, did: int)
    requires TableOk(t) && Get(t.owners.wsDiscord, ws) != Some(did)
    ensures var u := Drop(t, ws);
            && Get(u.owners.byDiscord, did) == Get(t.owners.byDiscord, did)
            && Get(u.reports.agentInfo, did) == Get(t.reports.agentInfo, did)
            && (forall kind :: Get(u.reports.caches, CacheKey(kind, did)) == Get(t.reports.caches, CacheKey(kind, did)))
            && (forall key: ResultKey | key.discordId == did :: Get(u.results.pending, key) == Get(t.results.pending, key))
  {
    hide DropSession, RoutesOk, SplitOk, TokensOk, Resolved, Futures;
  }
}
