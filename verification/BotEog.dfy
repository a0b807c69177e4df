/**
 End-of-game delivery: the relay forwards a game to the bot and to the web, and
 acknowledges it to the Agent once somebody has stored it.  The bot confirms by
 event id; each handler waits on its own future, registered under that id.
 */
module BotEog {
  import opened Wrappers

  type BotSocket = nat
  type EogFuture = nat

  /** Answered is `set_result`; Abandoned is the cancellation by a wait that timed out. */
  datatype EogOutcome = Answered(ok: bool) | Abandoned

  datatype Link = Link(bot: Option<BotSocket>, pending: map<string, EogFuture>, outcomes: map<EogFuture, EogOutcome>)

  /** A future that is done keeps its outcome. */
  function Settle(outcomes: map<EogFuture, EogOutcome>, f: EogFuture, o: EogOutcome): map<EogFuture, EogOutcome> {
    if f in outcomes then outcomes else outcomes[f := o]
  }

  function SettleAll(outcomes: map<EogFuture, EogOutcome>, futures: set<EogFuture>): map<EogFuture, EogOutcome> {
    (map f | f in futures :: Answered(false)) + outcomes
  }

  function Complete(l: Link, eventId: string, ok: bool): Link {
    if eventId !in l.pending then l
    else l.(pending := l.pending - {eventId}, outcomes := Settle(l.outcomes, l.pending[eventId], Answered(ok)))
  }

  function Cancel(l: Link, eventId: Option<string>): Link {
    match eventId { case None => l case Some(id) => Complete(l, id, false) }
  }

  function Register(l: Link, eventId: string, future: EogFuture): Link {
    var m := Complete(l, eventId, false);
    m.(pending := m.pending[eventId := future])
  }

  function Values(m: map<string, EogFuture>, keys: set<string>): set<EogFuture> {
    set k | k in keys && k in m :: m[k]
  }

  function UnregisterBot(l: Link, ws: BotSocket): Link {
    if l.bot != Some(ws) then l
    else Link(None, map[], SettleAll(l.outcomes, Values(l.pending, l.pending.Keys)))
  }

  lemma {:induction false} SettleAllStep(outcomes: map<EogFuture, EogOutcome>, pending: map<string, EogFuture>, done: set<string>, id: string)
    requires id in pending
    ensures SettleAll(outcomes, Values(pending, done + {id})) == Settle(SettleAll(outcomes, Values(pending, done)), pending[id], Answered(false))
  {
    assert Values(pending, done + {id}) == Values(pending, done) + {pending[id]};
  }

  class BotLink {
    var botWs: Option<BotSocket>
    var pendingBotEog: map<string, EogFuture>
    var outcomes: map<EogFuture, EogOutcome>

    function State(): Link
      reads this
    {
      Link(botWs, pendingBotEog, outcomes)
    }

    constructor ()
      ensures State() == Link(None, map[], map[])
    {
      botWs, pendingBotEog, outcomes := None, map[], map[];
    }

    method SetResult(f: EogFuture, ok: bool)
      requires f !in outcomes
      modifies this`outcomes
      ensures outcomes == old(outcomes)[f := Answered(ok)]
    {
      outcomes := outcomes[f := Answered(ok)];
    }

    method RegisterPendingBotEog(eventId: string, future: EogFuture)
      modifies this`pendingBotEog, this`outcomes
      ensures State() == Register(old(State()), eventId, future)
    {
      if eventId in pendingBotEog {
        var existing := pendingBotEog[eventId];
        pendingBotEog := pendingBotEog - {eventId};
        if existing !in outcomes {
          SetResult(existing, false);
        }
      }
      pendingBotEog := pendingBotEog[eventId := future];
    }

    method CompletePendingBotEog(eventId: string, ok: bool) returns (completed: bool)
      modifies this`pendingBotEog, this`outcomes
      ensures State() == Complete(old(State()), eventId, ok)
      ensures completed <==> eventId in old(pendingBotEog) && old(pendingBotEog)[eventId] !in old(outcomes)
    {
      if eventId !in pendingBotEog {
        return false;
      }
      var future := pendingBotEog[eventId];
      pendingBotEog := pendingBotEog - {eventId};
      if future in outcomes {
        return false;
      }
      SetResult(future, ok);
      completed := true;
    }

    method CancelPendingBotEog(eventId: string)
      modifies this`pendingBotEog, this`outcomes
      ensures State() == Cancel(old(State()), Some(eventId))
    {
      if eventId in pendingBotEog {
        var future := pendingBotEog[eventId];
        pendingBotEog := pendingBotEog - {eventId};
        if future !in outcomes {
          SetResult(future, false);
        }
      }
    }

    method RegisterBotWs(ws: BotSocket)
      modifies this`botWs
      ensures State() == old(State()).(bot := Some(ws))
    {
      botWs := Some(ws);
    }

    method UnregisterBotWs(ws: BotSocket)
      modifies this
      ensures State() == UnregisterBot(old(State()), ws)
    {
      if botWs != Some(ws) {
        return;
      }
      botWs := None;
      var todo := pendingBotEog.Keys;
      ghost var before, done: set<string> := pendingBotEog, {};
      assert SettleAll(outcomes, Values(before, {})) == outcomes;
      while todo != {}
        invariant botWs == None && todo + done == before.Keys && todo !! done
        invariant pendingBotEog == before - done
        invariant outcomes == SettleAll(old(outcomes), Values(before, done))
        decreases todo
      {
        var id :| id in todo;
        var future := pendingBotEog[id];
        SettleAllStep(old(outcomes), before, done, id);
        if future !in outcomes {
          SetResult(future, false);
        }
        pendingBotEog := pendingBotEog - {id};
        todo, done := todo - {id}, done + {id};
      }
      assert done == before.Keys && before - done == map[];
    }
  }

  // ---------- handlers ----------

  /** Where the handler of one `guild_match_eog` message stands, waiting for the answer named. */
  datatype Phase = Forwarding | AskingWeb | AwaitingBot | Archiving | Done(acked: bool)

  /** `since` is how much the bot had said when the future was registered. */
  datatype Handler = Handler(eventId: Option<string>, future: Option<EogFuture>, since: nat, forwarded: bool, phase: Phase)

  datatype Confirmation = Confirmation(eventId: string, ok: bool)

  datatype Delivery = Delivery(
    link: Link,
    handlers: map<nat, Handler>,
    said: seq<Confirmation>,
    webOk: set<nat>,
    archiveOk: set<nat>,
    issued: set<EogFuture>)

  const Start: Delivery := Delivery(Link(None, map[], map[]), map[], [], {}, {}, {})

  datatype Step =
    | Arrives(h: nat, eventId: Option<string>, future: EogFuture)
    | BotForwarded(h: nat, sent: bool)
    | WebAnswers(h: nat, persisted: bool)
    | BotWaitEnds(h: nat)
    | BotWaitTimesOut(h: nat)
    | ArchiveAnswers(h: nat, persisted: bool)
    | BotSays(id: string, ok: bool)
    | BotConnects(ws: BotSocket)
    | BotDisconnects(ws: BotSocket)

  predicate In(d: Delivery, h: nat, phase: Phase) {
    h in d.handlers && d.handlers[h].phase == phase
  }

  predicate Enabled(d: Delivery, step: Step) {
    match step
    case Arrives(h, _, future) => h !in d.handlers && future !in d.issued
    case BotForwarded(h, _) => In(d, h, Forwarding)
    case WebAnswers(h, _) => In(d, h, AskingWeb)
    case BotWaitEnds(h) =>
      In(d, h, AwaitingBot) && d.handlers[h].future.Some? && d.handlers[h].future.value in d.link.outcomes
    case BotWaitTimesOut(h) =>
      In(d, h, AwaitingBot) && d.handlers[h].future.Some? && d.handlers[h].future.value !in d.link.outcomes
    case ArchiveAnswers(h, _) => In(d, h, Archiving)
    case _ => true
  }

  function Moved(d: Delivery, h: nat, phase: Phase, link: Link): Delivery
    requires h in d.handlers
  {
    d.(link := link, handlers := d.handlers[h := d.handlers[h].(phase := phase)])
  }

  function Next(d: Delivery, step: Step): Delivery
    requires Enabled(d, step)
  {
    match step
    case Arrives(h, None, _) =>
      d.(handlers := d.handlers[h := Handler(None, None, |d.said|, false, Forwarding)])
    case Arrives(h, Some(id), future) =>
      d.(link := Register(d.link, id, future),
         handlers := d.handlers[h := Handler(Some(id), Some(future), |d.said|, false, Forwarding)],
         issued := d.issued + {future})
    case BotForwarded(h, sent) =>
      var handler := d.handlers[h].(forwarded := sent, phase := AskingWeb);
      d.(link := if sent then d.link else Cancel(d.link, handler.eventId), handlers := d.handlers[h := handler])
    case WebAnswers(h, persisted) =>
      var handler := d.handlers[h];
      if persisted then Moved(d, h, Done(true), Cancel(d.link, handler.eventId)).(webOk := d.webOk + {h})
      else Moved(d, h, if handler.forwarded && handler.future.Some? then AwaitingBot else Archiving, d.link)
    case BotWaitEnds(h) =>
      Moved(d, h, if d.link.outcomes[d.handlers[h].future.value] == Answered(true) then Done(true) else Archiving, d.link)
    case BotWaitTimesOut(h) =>
      var f := d.handlers[h].future.value;
      Moved(d, h, Archiving, Cancel(d.link.(outcomes := Settle(d.link.outcomes, f, Abandoned)), d.handlers[h].eventId))
    case ArchiveAnswers(h, persisted) =>
      if persisted then Moved(d, h, Done(true), Cancel(d.link, d.handlers[h].eventId)).(archiveOk := d.archiveOk + {h})
      else Moved(d, h, Done(false), d.link)
    case BotSays(id, ok) => d.(link := Complete(d.link, id, ok), said := d.said + [Confirmation(id, ok)])
    case BotConnects(ws) => d.(link := d.link.(bot := Some(ws)))
    case BotDisconnects(ws) => d.(link := UnregisterBot(d.link, ws))
  }

  predicate Feasible(d: Delivery, steps: seq<Step>)
    decreases |steps|
  {
    steps == [] || (Enabled(d, steps[0]) && Feasible(Next(d, steps[0]), steps[1..]))
  }

  function Run(d: Delivery, steps: seq<Step>): Delivery
    requires Feasible(d, steps)
    decreases |steps|
  {
    if steps == [] then d else Run(Next(d, steps[0]), steps[1..])
  }

  // ---------- the invariant ----------

  /** No future is lost: every one issued is waiting in the table or done. */
  ghost predicate FuturesOk(l: Link, issued: set<EogFuture>) {
    && (forall f | f in l.outcomes :: f in issued)
    && (forall id | id in l.pending :: l.pending[id] in issued)
    && (forall f | f in issued :: f in l.outcomes || exists id :: id in l.pending && l.pending[id] == f)
  }

  /** Futures belong to one handler, registered under its event id. */
  ghost predicate OwnersOk(d: Delivery) {
    && (forall h | h in d.handlers :: d.handlers[h].future.Some? <==> d.handlers[h].eventId.Some?)
    && (forall h | h in d.handlers && d.handlers[h].future.Some? :: d.handlers[h].future.value in d.issued)
    && (forall id, h | id in d.link.pending && h in d.handlers && d.handlers[h].future == Some(d.link.pending[id]) ::
          d.handlers[h].eventId == Some(id))
  }

  ghost predicate BotConfirmed(said: seq<Confirmation>, id: string, since: nat) {
    exists i | since <= i < |said| :: said[i] == Confirmation(id, true)
  }

  predicate SaidYes(l: Link, handler: Handler) {
    handler.future.Some? && Get(l.outcomes, handler.future.value) == Some(Answered(true))
  }

  /** A future was answered yes only by the bot confirming that event after the future was registered. */
  ghost predicate AnswersOk(d: Delivery) {
    forall h | h in d.handlers ::
      && d.handlers[h].since <= |d.said|
      && (SaidYes(d.link, d.handlers[h]) ==>
            d.handlers[h].eventId.Some? && BotConfirmed(d.said, d.handlers[h].eventId.value, d.handlers[h].since))
  }

  /** What a handler in each phase has behind it. */
  predicate PhaseOk(d: Delivery, h: nat)
    requires h in d.handlers
  {
    var handler := d.handlers[h];
    match handler.phase
    case Forwarding => !handler.forwarded && h !in d.webOk && h !in d.archiveOk
    case AskingWeb => h !in d.webOk && h !in d.archiveOk
    case AwaitingBot => h !in d.webOk && h !in d.archiveOk && handler.forwarded && handler.future.Some?
    case Archiving =>
      && h !in d.webOk && h !in d.archiveOk
      && (handler.forwarded && handler.future.Some? ==>
            handler.future.value in d.link.outcomes && d.link.outcomes[handler.future.value] != Answered(true))
    case Done(acked) =>
      && (acked <==> h in d.webOk || h in d.archiveOk || (handler.forwarded && SaidYes(d.link, handler)))
      && (h !in d.webOk && handler.forwarded && handler.future.Some? ==> handler.future.value in d.link.outcomes)
  }

  ghost predicate PhasesOk(d: Delivery) {
    && (forall h | h in d.handlers :: PhaseOk(d, h))
    && (forall h | h in d.webOk || h in d.archiveOk :: h in d.handlers)
  }

  ghost predicate Inv(d: Delivery) {
    FuturesOk(d.link, d.issued) && OwnersOk(d) && AnswersOk(d) && PhasesOk(d)
  }
}
