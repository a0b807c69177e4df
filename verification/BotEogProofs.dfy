/** Why an end-of-game acknowledgement can be trusted, over every interleaving of handlers. */
module BotEogProofs {
  import opened Wrappers
  import opened BotEog

  /** The outcomes that are there stay as they are. */
  predicate Grows(before: Link, after: Link) {
    forall f | f in before.outcomes :: f in after.outcomes && after.outcomes[f] == before.outcomes[f]
  }

  /** Outcomes grow, and no new one is a yes. */
  predicate NoNewYes(before: Link, after: Link) {
    && Grows(before, after)
    && (forall f | f in after.outcomes && f !in before.outcomes :: after.outcomes[f] != Answered(true))
  }

  predicate Shrinks(before: Link, after: Link) {
    forall id | id in after.pending :: id in before.pending && after.pending[id] == before.pending[id]
  }

  // ---------- the table ----------

  lemma {:induction false} CompleteEffect(l: Link, id: string, ok: bool, issued: set<EogFuture>)
    requires FuturesOk(l, issued)
    ensures FuturesOk(Complete(l, id, ok), issued) && Grows(l, Complete(l, id, ok)) && Shrinks(l, Complete(l, id, ok))
    ensures !ok ==> NoNewYes(l, Complete(l, id, ok))
  {
    var m := Complete(l, id, ok);
    forall f | f in issued ensures f in m.outcomes || exists i :: i in m.pending && m.pending[i] == f {
      if f !in l.outcomes {
        var i :| i in l.pending && l.pending[i] == f;
        if i != id {
          assert i in m.pending && m.pending[i] == f;
        }
      }
    }
  }

  lemma {:induction false} CancelEffect(l: Link, eventId: Option<string>, issued: set<EogFuture>)
    requires FuturesOk(l, issued)
    ensures FuturesOk(Cancel(l, eventId), issued) && NoNewYes(l, Cancel(l, eventId)) && Shrinks(l, Cancel(l, eventId))
  {
    hide FuturesOk;
    if eventId.Some? {
      CompleteEffect(l, eventId.value, false, issued);
    }
  }

  lemma {:induction false} RegisterEffect(l: Link, id: string, future: EogFuture, issued: set<EogFuture>)
    requires FuturesOk(l, issued) && future !in issued
    ensures FuturesOk(Register(l, id, future), issued + {future}) && NoNewYes(l, Register(l, id, future))
    ensures forall i | i in Register(l, id, future).pending ::
              Register(l, id, future).pending[i] == future || (i in l.pending && Register(l, id, future).pending[i] == l.pending[i])
    ensures Register(l, id, future).pending[id] == future
    ensures forall i | i in Register(l, id, future).pending && i != id :: Register(l, id, future).pending[i] != future
  {
    CompleteEffect(l, id, false, issued);
    var m, r := Complete(l, id, false), Register(l, id, future);
    forall f | f in issued + {future} ensures f in r.outcomes || exists i :: i in r.pending && r.pending[i] == f {
      if f == future {
        assert r.pending[id] == f;
      } else if f !in m.outcomes {
        var i :| i in m.pending && m.pending[i] == f;
        assert i in r.pending && r.pending[i] == f;
      }
    }
  }

  /** When the bot disconnects, nothing is left waiting and every handler that waited is told no. */
  lemma {:induction false} UnregisterEffect(l: Link, ws: BotSocket, issued: set<EogFuture>)
    requires FuturesOk(l, issued)
    ensures FuturesOk(UnregisterBot(l, ws), issued) && NoNewYes(l, UnregisterBot(l, ws)) && Shrinks(l, UnregisterBot(l, ws))
    ensures l.bot == Some(ws) ==>
              && UnregisterBot(l, ws).pending == map[]
              && forall f | f in issued && f !in l.outcomes :: f in UnregisterBot(l, ws).outcomes && UnregisterBot(l, ws).outcomes[f] == Answered(false)
    ensures l.bot != Some(ws) ==> UnregisterBot(l, ws) == l
  {
    if l.bot == Some(ws) {
      forall f | f in issued && f !in l.outcomes ensures f in Values(l.pending, l.pending.Keys) {
        var id :| id in l.pending && l.pending[id] == f;
      }
    }
  }

  lemma {:induction false} AbandonEffect(l: Link, f: EogFuture, issued: set<EogFuture>)
    requires FuturesOk(l, issued) && f in issued
    ensures var m := l.(outcomes := Settle(l.outcomes, f, Abandoned));
            FuturesOk(m, issued) && NoNewYes(l, m) && Shrinks(l, m)
  {
  }

  // ---------- handlers ----------

  /** Handlers only move forward: the fields set on arrival stay. */
  predicate SameHandlers(before: Delivery, after: Delivery) {
    && after.handlers.Keys == before.handlers.Keys
    && (forall h | h in before.handlers ::
          && after.handlers[h].eventId == before.handlers[h].eventId
          && after.handlers[h].future == before.handlers[h].future
          && after.handlers[h].since == before.handlers[h].since)
  }

  lemma {:induction false} QuietStep(before: Delivery, after: Delivery)
    requires FuturesOk(before.link, before.issued) && OwnersOk(before) && AnswersOk(before)
    requires SameHandlers(before, after) && NoNewYes(before.link, after.link) && Shrinks(before.link, after.link)
    requires after.issued == before.issued && after.said == before.said
    ensures OwnersOk(after) && AnswersOk(after)
  {
    hide FuturesOk;
    forall h | h in after.handlers && SaidYes(after.link, after.handlers[h]) ensures SaidYes(before.link, before.handlers[h]) {
    }
  }

  lemma {:induction false} PhaseStays(before: Delivery, after: Delivery, h: nat)
    requires h in before.handlers && h in after.handlers && after.handlers[h] == before.handlers[h]
    requires PhaseOk(before, h) && Grows(before.link, after.link)
    requires h in after.webOk <==> h in before.webOk
    requires h in after.archiveOk <==> h in before.archiveOk
    ensures PhaseOk(after, h)
  {
  }

  lemma {:induction false} PhasesStay(before: Delivery, after: Delivery, moved: set<nat>)
    requires PhasesOk(before) && Grows(before.link, after.link)
    requires after.handlers.Keys == before.handlers.Keys + moved
    requires forall h | h in before.handlers && h !in moved :: after.handlers[h] == before.handlers[h]
    requires forall h :: h !in moved ==> (h in after.webOk <==> h in before.webOk) && (h in after.archiveOk <==> h in before.archiveOk)
    requires forall h | h in moved :: h in after.handlers && PhaseOk(after, h)
    ensures PhasesOk(after)
  {
    hide PhaseOk, Grows;
    forall h | h in after.handlers ensures PhaseOk(after, h) {
      if h !in moved {
        PhaseStays(before, after, h);
      }
    }
  }

  // ---------- each step ----------

  lemma {:induction false} ArrivesOwners(d: Delivery, h: nat, id: string, future: EogFuture)
    requires FuturesOk(d.link, d.issued) && OwnersOk(d)
    requires h !in d.handlers && future !in d.issued
    ensures OwnersOk(Next(d, Arrives(h, Some(id), future)))
  {
    RegisterEffect(d.link, id, future, d.issued);
    hide Register, FuturesOk;
    var after := Next(d, Arrives(h, Some(id), future));
    forall g | g in d.handlers ensures after.handlers[g] == d.handlers[g] && d.handlers[g].future != Some(future) {
    }
  }

  lemma {:induction false} ArrivesAnswers(d: Delivery, h: nat, id: string, future: EogFuture)
    requires FuturesOk(d.link, d.issued) && AnswersOk(d)
    requires h !in d.handlers && future !in d.issued
    ensures AnswersOk(Next(d, Arrives(h, Some(id), future)))
  {
    RegisterEffect(d.link, id, future, d.issued);
    hide Register, BotConfirmed;
    var after := Next(d, Arrives(h, Some(id), future));
    assert future !in d.link.outcomes;
    assert forall g | g in d.handlers :: after.handlers[g] == d.handlers[g];
    assert forall g | g in d.handlers :: SaidYes(after.link, d.handlers[g]) ==> SaidYes(d.link, d.handlers[g]);
  }

  lemma {:induction false} ArrivesKeeps(d: Delivery, h: nat, eventId: Option<string>, future: EogFuture)
    requires Inv(d) && Enabled(d, Arrives(h, eventId, future))
    ensures Inv(Next(d, Arrives(h, eventId, future)))
  {
    hide Register, FuturesOk;
    var after := Next(d, Arrives(h, eventId, future));
    if eventId.Some? {
      RegisterEffect(d.link, eventId.value, future, d.issued);
      ArrivesOwners(d, h, eventId.value, future);
      ArrivesAnswers(d, h, eventId.value, future);
      hide OwnersOk, AnswersOk;
      PhasesStay(d, after, {h});
    } else {
      PhasesStay(d, after, {h});
    }
  }

  /** A step of one handler that makes no future answered yes. */
  lemma {:induction false} HandlerStepKeeps(d: Delivery, after: Delivery, h: nat)
    requires Inv(d) && h in d.handlers && SameHandlers(d, after)
    requires FuturesOk(after.link, after.issued) && NoNewYes(d.link, after.link) && Shrinks(d.link, after.link)
    requires after.issued == d.issued && after.said == d.said
    requires forall g | g in d.handlers && g != h :: after.handlers[g] == d.handlers[g]
    requires forall g :: g != h ==> (g in after.webOk <==> g in d.webOk) && (g in after.archiveOk <==> g in d.archiveOk)
    requires PhaseOk(after, h)
    ensures Inv(after)
  {
    hide PhaseOk, FuturesOk, SameHandlers;
    HandlerQuiet(d, after);
    SameKeys(d, after);
    PhasesStay(d, after, {h});
    hide OwnersOk, AnswersOk, PhasesOk;
  }

  lemma {:induction false} HandlerQuiet(d: Delivery, after: Delivery)
    requires Inv(d) && SameHandlers(d, after)
    requires NoNewYes(d.link, after.link) && Shrinks(d.link, after.link)
    requires after.issued == d.issued && after.said == d.said
    ensures OwnersOk(after) && AnswersOk(after)
  {
    hide OwnersOk, AnswersOk, FuturesOk, PhasesOk, SameHandlers, NoNewYes, Shrinks;
    QuietStep(d, after);
  }

  lemma {:induction false} SameKeys(d: Delivery, after: Delivery)
    requires SameHandlers(d, after)
    ensures forall h :: h in after.handlers <==> h in d.handlers
  {
    assert after.handlers.Keys == d.handlers.Keys;
  }

  lemma {:induction false} AnswerStepsKeep(d: Delivery, step: Step)
    requires Inv(d) && Enabled(d, step)
    requires step.BotForwarded? || step.WebAnswers? || step.BotWaitEnds? || step.BotWaitTimesOut? || step.ArchiveAnswers?
    ensures Inv(Next(d, step))
  {
    hide FuturesOk, OwnersOk, AnswersOk, Cancel;
    var after := Next(d, step);
    CancelEffect(d.link, d.handlers[step.h].eventId, d.issued);
    assert PhaseOk(d, step.h);
    if step.BotWaitTimesOut? {
      TimeoutLink(d, step.h);
    }
    HandlerStepKeeps(d, after, step.h);
  }

  lemma {:induction false} TimeoutLink(d: Delivery, h: nat)
    requires Inv(d) && Enabled(d, BotWaitTimesOut(h))
    ensures var after := Next(d, BotWaitTimesOut(h));
            && FuturesOk(after.link, after.issued) && NoNewYes(d.link, after.link) && Shrinks(d.link, after.link)
            && Get(after.link.outcomes, d.handlers[h].future.value) == Some(Abandoned)
  {
    hide FuturesOk, AnswersOk, PhasesOk, Cancel;
    var f := d.handlers[h].future.value;
    assert f in d.issued;
    var m := d.link.(outcomes := Settle(d.link.outcomes, f, Abandoned));
    AbandonEffect(d.link, f, d.issued);
    CancelEffect(m, d.handlers[h].eventId, d.issued);
  }

  lemma {:induction false} BotSaysKeeps(d: Delivery, id: string, ok: bool)
    requires Inv(d)
    ensures Inv(Next(d, BotSays(id, ok)))
  {
    var after := Next(d, BotSays(id, ok));
    CompleteEffect(d.link, id, ok, d.issued);
    PhasesStay(d, after, {});
    hide FuturesOk, PhasesOk;
    BotSaysAnswers(d, id, ok);
  }

  lemma {:induction false} BotSaysAnswers(d: Delivery, id: string, ok: bool)
    requires OwnersOk(d) && AnswersOk(d)
    ensures AnswersOk(Next(d, BotSays(id, ok)))
  {
    var after := Next(d, BotSays(id, ok));
    forall h | h in after.handlers && SaidYes(after.link, after.handlers[h])
      ensures after.handlers[h].eventId.Some? && BotConfirmed(after.said, after.handlers[h].eventId.value, after.handlers[h].since)
    {
      var handler := d.handlers[h];
      if SaidYes(d.link, handler) {
        var i :| handler.since <= i < |d.said| && d.said[i] == Confirmation(handler.eventId.value, true);
        assert after.said[i] == Confirmation(handler.eventId.value, true);
      } else {
        assert handler.future == Some(d.link.pending[id]);
        assert after.said[|d.said|] == Confirmation(id, true);
      }
    }
  }

  lemma {:induction false} BotConnectionKeeps(d: Delivery, step: Step)
    requires Inv(d) && (step.BotConnects? || step.BotDisconnects?)
    ensures Inv(Next(d, step))
  {
    var after := Next(d, step);
    if step.BotDisconnects? {
      UnregisterEffect(d.link, step.ws, d.issued);
    }
    hide UnregisterBot;
    QuietStep(d, after);
    PhasesStay(d, after, {});
    hide OwnersOk, AnswersOk, PhasesOk;
  }

  lemma {:induction false} StepKeeps(d: Delivery, step: Step)
    requires Inv(d) && Enabled(d, step)
    ensures Inv(Next(d, step))
  {
    hide Inv, Next;
    match step
    case Arrives(h, eventId, future) => ArrivesKeeps(d, h, eventId, future);
    case BotSays(id, ok) => BotSaysKeeps(d, id, ok);
    case BotConnects(_) => BotConnectionKeeps(d, step);
    case BotDisconnects(_) => BotConnectionKeeps(d, step);
    case _ => AnswerStepsKeep(d, step);
  }

  lemma {:induction false} RunKeeps(d: Delivery, steps: seq<Step>)
    requires Inv(d) && Feasible(d, steps)
    ensures Inv(Run(d, steps))
    decreases |steps|
  {
    hide Inv, Next, Enabled;
    if steps != [] {
      StepKeeps(d, steps[0]);
      RunKeeps(Next(d, steps[0]), steps[1..]);
    }
  }

  // ---------- main results ----------

  ghost predicate Stored(d: Delivery, h: nat)
    requires h in d.handlers
  {
    || h in d.webOk
    || h in d.archiveOk
    || (d.handlers[h].eventId.Some? && BotConfirmed(d.said, d.handlers[h].eventId.value, d.handlers[h].since))
  }

  /** In every interleaving, an acknowledgement means that the web took the game, or the bot confirmed that
      very event after this message's handler had registered for it, or the archive took it. */
  lemma {:induction false} AckMeansStored(steps: seq<Step>, h: nat)
    requires Feasible(Start, steps) && In(Run(Start, steps), h, Done(true))
    ensures Stored(Run(Start, steps), h)
  {
    RunKeeps(Start, steps);
    hide Run, FuturesOk, OwnersOk;
    assert PhaseOk(Run(Start, steps), h);
  }

  /** An acknowledgement is withheld exactly when the web and the archive refused and the bot, if the event
      reached it through this handler, did not say yes. */
  lemma {:induction false} WithheldIffNobodyStored(steps: seq<Step>, h: nat, acked: bool)
    requires Feasible(Start, steps) && In(Run(Start, steps), h, Done(acked))
    ensures var d := Run(Start, steps);
            !acked <==> h !in d.webOk && h !in d.archiveOk && !(d.handlers[h].forwarded && SaidYes(d.link, d.handlers[h]))
  {
    RunKeeps(Start, steps);
    hide Run, FuturesOk, OwnersOk, AnswersOk;
    assert PhaseOk(Run(Start, steps), h);
  }

  /** Under any event ids, however often they repeat, every future ever registered is waiting or done. */
  lemma {:induction false} NoFutureIsLost(steps: seq<Step>, f: EogFuture)
    requires Feasible(Start, steps) && f in Run(Start, steps).issued
    ensures var l := Run(Start, steps).link;
            f in l.outcomes || exists id :: id in l.pending && l.pending[id] == f
  {
    RunKeeps(Start, steps);
    hide Run, OwnersOk, AnswersOk, PhasesOk;
  }

  /** A future is never resolved a second time. */
  lemma {:induction false} ResolvedOnce(d: Delivery, steps: seq<Step>)
    requires Inv(d) && Feasible(d, steps)
    ensures Grows(d.link, Run(d, steps).link)
    decreases |steps|
  {
    if steps != [] {
      StepKeeps(d, steps[0]);
      StepGrows(d, steps[0]);
      hide Inv, Next, Enabled;
      ResolvedOnce(Next(d, steps[0]), steps[1..]);
    }
  }

  lemma {:induction false} StepGrows(d: Delivery, step: Step)
    requires Enabled(d, step)
    ensures Grows(d.link, Next(d, step).link)
  {
  }

  /** An answer to an event takes its entry away and resolves the future that waits under it, if that is
      still open, with that answer; nothing else changes. */
  lemma {:induction false} CompleteReads(l: Link, id: string, ok: bool, other: string, f: EogFuture)
    ensures var m := Complete(l, id, ok);
            && m.bot == l.bot && id !in m.pending
            && (other != id ==> Get(m.pending, other) == Get(l.pending, other))
            && Get(m.outcomes, f) ==
               (if f !in l.outcomes && Get(l.pending, id) == Some(f) then Some(Answered(ok)) else Get(l.outcomes, f))
  {
  }

  /** What the bot says about an event reaches the handler that waits for it: a yes lets it acknowledge,
      a no sends it to the archive. */
  lemma {:induction false} BotAnswerIsHeard(d: Delivery, h: nat, ok: bool)
    requires Inv(d) && In(d, h, AwaitingBot)
    requires d.handlers[h].future.Some? && d.handlers[h].future.value !in d.link.outcomes
    ensures d.handlers[h].eventId.Some?
    ensures var heard := Next(d, BotSays(d.handlers[h].eventId.value, ok));
            && Enabled(heard, BotWaitEnds(h))
            && Next(heard, BotWaitEnds(h)) == heard.(handlers := d.handlers[h := d.handlers[h].(phase := if ok then Done(true) else Archiving)])
  {
    hide AnswersOk, PhasesOk;
    var f := d.handlers[h].future.value;
    assert f in d.issued;
    var id :| id in d.link.pending && d.link.pending[id] == f;
    assert d.handlers[h].eventId == Some(id);
  }
}
