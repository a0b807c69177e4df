/** End-of-game runs, said of what happened in them: who took a game, and when a handler can still be told. */
module BotEogRuns {
  import opened Wrappers
  import opened BotEog
  import opened BotEogProofs

  // ---------- what the state remembers of the run ----------

  predicate Forwarded(d: Delivery, h: nat) {
    h in d.handlers && d.handlers[h].forwarded
  }

  predicate HeardYes(d: Delivery, h: nat) {
    h in d.handlers && SaidYes(d.link, d.handlers[h])
  }

  /** The web, the archive and the forwarding to the bot are remembered exactly as they answered. */
  lemma {:induction false} StepRemembers(d: Delivery, step: Step, h: nat)
    requires Inv(d) && Enabled(d, step)
    ensures h in Next(d, step).webOk <==> h in d.webOk || step == WebAnswers(h, true)
    ensures h in Next(d, step).archiveOk <==> h in d.archiveOk || step == ArchiveAnswers(h, true)
    ensures Forwarded(Next(d, step), h) <==> Forwarded(d, h) || step == BotForwarded(h, true)
  {
    hide FuturesOk, OwnersOk, AnswersOk, Cancel, Register, UnregisterBot, Complete;
    if step.BotForwarded? {
      assert PhaseOk(d, step.h);
    }
  }

  /** Only the bot's yes to the handler's own event, said while the handler is there, is a yes to it. */
  lemma {:induction false} YesIsTheBots(d: Delivery, step: Step, h: nat)
    requires Inv(d) && Enabled(d, step) && HeardYes(Next(d, step), h) && !HeardYes(d, h)
    ensures h in d.handlers && step.BotSays? && step.ok && d.handlers[h].eventId == Some(step.id)
  {
    hide FuturesOk, AnswersOk, PhasesOk;
    match step
    case Arrives(g, Some(id), future) =>
      RegisterEffect(d.link, id, future, d.issued);
      hide Register;
      FreshIsOpen(d, future);
    case Arrives(g, None, _) =>
    case BotForwarded(g, _) => CancelEffect(d.link, d.handlers[g].eventId, d.issued); hide Cancel;
    case WebAnswers(g, _) => CancelEffect(d.link, d.handlers[g].eventId, d.issued); hide Cancel;
    case ArchiveAnswers(g, _) => CancelEffect(d.link, d.handlers[g].eventId, d.issued); hide Cancel;
    case BotWaitTimesOut(g) => TimeoutLink(d, g); hide Cancel;
    case BotDisconnects(ws) => UnregisterEffect(d.link, ws, d.issued); hide UnregisterBot;
    case _ =>
  }

  lemma {:induction false} FreshIsOpen(d: Delivery, future: EogFuture)
    requires FuturesOk(d.link, d.issued) && future !in d.issued
    ensures future !in d.link.outcomes
  {
  }

  /** The bot said yes to the event of handler h at place j of the run, and the handler was there. */
  predicate YesAt(d: Delivery, steps: seq<Step>, h: nat, j: nat)
    requires j < |steps| && Feasible(d, steps)
    decreases |steps|
  {
    if j == 0 then h in d.handlers && d.handlers[h].eventId.Some? && steps[0] == BotSays(d.handlers[h].eventId.value, true)
    else YesAt(Next(d, steps[0]), steps[1..], h, j - 1)
  }

  predicate YesSomewhere(d: Delivery, steps: seq<Step>, h: nat)
    requires Feasible(d, steps)
  {
    exists j | 0 <= j < |steps| :: YesAt(d, steps, h, j)
  }

  lemma {:induction false} RunRemembers(d: Delivery, steps: seq<Step>, h: nat)
    requires Inv(d) && Feasible(d, steps)
    ensures h in Run(d, steps).webOk <==> h in d.webOk || WebAnswers(h, true) in steps
    ensures h in Run(d, steps).archiveOk <==> h in d.archiveOk || ArchiveAnswers(h, true) in steps
    ensures Forwarded(Run(d, steps), h) <==> Forwarded(d, h) || BotForwarded(h, true) in steps
    ensures HeardYes(Run(d, steps), h) ==> HeardYes(d, h) || YesSomewhere(d, steps, h)
    decreases |steps|
  {
    hide Inv, Next, Enabled, Forwarded, HeardYes;
    if steps != [] {
      var next, rest := Next(d, steps[0]), steps[1..];
      assert forall s :: s in steps <==> s == steps[0] || s in rest;
      StepKeeps(d, steps[0]);
      StepRemembers(d, steps[0], h);
      RunRemembers(next, rest, h);
      if HeardYes(Run(d, steps), h) && !HeardYes(d, h) {
        if HeardYes(next, h) {
          YesIsTheBots(d, steps[0], h);
          assert YesAt(d, steps, h, 0);
        } else {
          var j :| 0 <= j < |rest| && YesAt(next, rest, h, j);
          assert YesAt(d, steps, h, j + 1);
        }
      }
    }
  }

  /** When a handler is done, it has acknowledged exactly if in the run the web took the game, or the
      archive did, or its forwarding reached the bot and its future was answered yes; and then the bot said
      yes to that event while the handler was there. */
  lemma {:induction false} AckedIffTaken(steps: seq<Step>, h: nat, acked: bool)
    requires Feasible(Start, steps) && In(Run(Start, steps), h, Done(acked))
    ensures acked <==>
            || WebAnswers(h, true) in steps
            || ArchiveAnswers(h, true) in steps
            || (BotForwarded(h, true) in steps && HeardYes(Run(Start, steps), h))
    ensures HeardYes(Run(Start, steps), h) ==> YesSomewhere(Start, steps, h)
  {
    hide Inv, Run, Feasible;
    StartIsOk();
    RunKeeps(Start, steps);
    RunRemembers(Start, steps, h);
    WithheldIffNobodyStored(steps, h, acked);
  }

  lemma {:induction false} StartIsOk()
    ensures Inv(Start)
  {
  }

  // ---------- how long a handler can be told ----------

  /** The step resolves the future waiting under the event id. */
  predicate Closes(d: Delivery, step: Step, id: string)
    requires Enabled(d, step)
  {
    match step
    case Arrives(_, eventId, _) => eventId == Some(id)
    case BotForwarded(h, sent) => !sent && d.handlers[h].eventId == Some(id)
    case WebAnswers(h, persisted) => persisted && d.handlers[h].eventId == Some(id)
    case BotWaitTimesOut(h) => d.handlers[h].eventId == Some(id)
    case ArchiveAnswers(h, persisted) => persisted && d.handlers[h].eventId == Some(id)
    case BotSays(i, _) => i == id
    case BotDisconnects(ws) => d.link.bot == Some(ws)
    case _ => false
  }

  predicate StillOpen(d: Delivery, h: nat) {
    h in d.handlers && d.handlers[h].future.Some? && d.handlers[h].future.value !in d.link.outcomes
  }

  lemma {:induction false} OpenIsPending(d: Delivery, h: nat)
    requires Inv(d) && StillOpen(d, h)
    ensures d.handlers[h].eventId.Some?
    ensures Get(d.link.pending, d.handlers[h].eventId.value) == d.handlers[h].future
    ensures forall id | id in d.link.pending && d.link.pending[id] == d.handlers[h].future.value :: Some(id) == d.handlers[h].eventId
  {
    hide AnswersOk, PhasesOk;
    var f := d.handlers[h].future.value;
    assert f in d.issued;
    var id :| id in d.link.pending && d.link.pending[id] == f;
  }

  lemma {:induction false} CompleteCloses(l: Link, id: string, ok: bool, f: EogFuture)
    requires f !in l.outcomes
    ensures f in Complete(l, id, ok).outcomes <==> Get(l.pending, id) == Some(f)
  {
  }

  lemma {:induction false} UnregisterCloses(l: Link, ws: BotSocket, f: EogFuture)
    requires f !in l.outcomes
    ensures f in UnregisterBot(l, ws).outcomes <==> l.bot == Some(ws) && exists id :: id in l.pending && l.pending[id] == f
  {
  }

  /** A future that a handler waits for stays open over a step exactly if the step does not close its event. */
  lemma {:induction false} StaysOpenIff(d: Delivery, step: Step, h: nat)
    requires Inv(d) && Enabled(d, step) && StillOpen(d, h)
    ensures d.handlers[h].eventId.Some?
    ensures StillOpen(Next(d, step), h) <==> !Closes(d, step, d.handlers[h].eventId.value)
  {
    OpenIsPending(d, h);
    hide Inv, Complete, UnregisterBot;
    var f, id := d.handlers[h].future.value, d.handlers[h].eventId.value;
    match step
    case Arrives(g, Some(i), future) => CompleteCloses(d.link, i, false, f);
    case BotForwarded(g, _) => CancelCloses(d.link, d.handlers[g].eventId, f);
    case WebAnswers(g, _) => CancelCloses(d.link, d.handlers[g].eventId, f);
    case ArchiveAnswers(g, _) => CancelCloses(d.link, d.handlers[g].eventId, f);
    case BotWaitTimesOut(g) => TimeoutCloses(d, g, h);
    case BotSays(i, ok) => CompleteCloses(d.link, i, ok, f);
    case BotDisconnects(ws) => UnregisterCloses(d.link, ws, f);
    case _ =>
  }

  lemma {:induction false} CancelCloses(l: Link, eventId: Option<string>, f: EogFuture)
    requires f !in l.outcomes
    ensures f in Cancel(l, eventId).outcomes <==> eventId.Some? && Get(l.pending, eventId.value) == Some(f)
  {
  }

  lemma {:induction false} TimeoutCloses(d: Delivery, g: nat, h: nat)
    requires Inv(d) && Enabled(d, BotWaitTimesOut(g)) && StillOpen(d, h)
    ensures StillOpen(Next(d, BotWaitTimesOut(g)), h) <==> d.handlers[g].eventId != d.handlers[h].eventId
  {
    OpenIsPending(d, h);
    OpenIsPending(d, g);
  }

  /** Nothing in the run closes the event. */
  predicate NeverCloses(d: Delivery, steps: seq<Step>, id: string)
    requires Feasible(d, steps)
    decreases |steps|
  {
    steps == [] || (!Closes(d, steps[0], id) && NeverCloses(Next(d, steps[0]), steps[1..], id))
  }

  lemma {:induction false} HandlerStays(d: Delivery, step: Step, h: nat)
    requires Enabled(d, step) && h in d.handlers
    ensures h in Next(d, step).handlers
    ensures Next(d, step).handlers[h].future == d.handlers[h].future && Next(d, step).handlers[h].eventId == d.handlers[h].eventId
  {
    hide Cancel, Register, Complete, UnregisterBot, Settle;
  }

  /** Over a run it stays open exactly if nothing in the run closes its event; then the bot's answer still
      reaches it (`BotAnswerIsHeard`). */
  lemma {:induction false} OpenOverRuns(d: Delivery, steps: seq<Step>, h: nat)
    requires Inv(d) && Feasible(d, steps) && StillOpen(d, h)
    ensures d.handlers[h].eventId.Some?
    ensures StillOpen(Run(d, steps), h) <==> NeverCloses(d, steps, d.handlers[h].eventId.value)
    decreases |steps|
  {
    OpenIsPending(d, h);
    hide Inv, Enabled, Closes;
    if steps != [] {
      hide Next;
      var next := Next(d, steps[0]);
      StepKeeps(d, steps[0]);
      StaysOpenIff(d, steps[0], h);
      HandlerStays(d, steps[0], h);
      if StillOpen(next, h) {
        OpenOverRuns(next, steps[1..], h);
      } else {
        ResolvedOnce(next, steps[1..]);
        HandlerStaysOver(next, steps[1..], h);
      }
    }
  }

  lemma {:induction false} HandlerStaysOver(d: Delivery, steps: seq<Step>, h: nat)
    requires Feasible(d, steps) && h in d.handlers
    ensures h in Run(d, steps).handlers && Run(d, steps).handlers[h].future == d.handlers[h].future
    decreases |steps|
  {
    hide Next, Enabled;
    if steps != [] {
      HandlerStays(d, steps[0], h);
      HandlerStaysOver(Next(d, steps[0]), steps[1..], h);
    }
  }
}
