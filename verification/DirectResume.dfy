/**
 Restarts of the direct controller (src/legacy/direct-run-controller.js): over all runs, exactly when the
 acceptance of steps survives, and what a reply that is cut short costs.
 */
module DirectResume {
  import opened Wrappers
  import opened JsStrings
  import opened DirectRun

  /** The step of the last control, as the ledger tells it. */
  function LastStep(l: Ledger): Option<Text> {
    if l.lastControl.Some? && l.lastControl.value in l.controls then Some(l.controls[l.lastControl.value].stepId)
        else None
  }

  /** What a controller writes is what it holds. */
  predicate Settled(c: Controller) {
    c.file == c.ledger && c.acceptance == c.ledger.acceptance && c.lastStep == LastStep(c.ledger)
  }

  lemma SettledStep(c: Controller, e: Event)
    requires Inv(c) && Settled(c) && !e.OnRestart? && !(e.OnReply? && e.crash)
    ensures Settled(Next(c, e))
  {
    hide Acknowledged, OnlyEarned, OneResultEach;
  }

  /** No reply is cut short, and every restart is followed by resume. */
  predicate Orderly(events: seq<Event>) {
    && (forall i :: 0 <= i < |events| ==> !(events[i].OnReply? && events[i].crash))
    && (forall i :: 0 <= i < |events| - 1 && events[i].OnRestart? ==> events[i + 1].OnResume?)
    && (events != [] ==> !events[|events| - 1].OnRestart?)
  }

  lemma RestoresSettled(c: Controller)
    requires Settled(c)
    ensures Resumed(Restarted(c)) == c
  {
  }

  /** Over every orderly run the controller holds what its ledger file holds. */
  lemma {:induction false} RunSettled(runId: Text, events: seq<Event>)
    requires Orderly(events)
    ensures Settled(Run(NewController(runId), events))
    decreases |events|
  {
    if events != [] {
      var n := |events|;
      var before, e := events[..n - 1], events[n - 1];
      if n >= 2 && events[n - 2].OnRestart? {
        var early := events[..n - 2];
        assert before[..n - 2] == early && before[n - 2] == events[n - 2];
        if early != [] {
          assert early[n - 3] == events[n - 3];
        }
        RunSettled(runId, early);
        RestoresSettled(Run(NewController(runId), early));
      } else {
        RunSettled(runId, before);
        RunKeeps(NewController(runId), before);
        SettledStep(Run(NewController(runId), before), e);
      }
      hide Settled, Next;
    }
  }

  /** After every orderly run, restarting and resuming gives back the controller as it was. */
  lemma ResumeRestores(runId: Text, events: seq<Event>)
    requires Orderly(events)
    ensures var c := Run(NewController(runId), events);
            Run(NewController(runId), events + [OnRestart] + [OnResume]) == c
  {
    RunSettled(runId, events);
    RestoresSettled(Run(NewController(runId), events));
    RunMore(NewController(runId), events, OnRestart);
    RunMore(NewController(runId), events + [OnRestart], OnResume);
  }

  lemma RunMore(c: Controller, events: seq<Event>, e: Event)
    ensures Run(c, events + [e]) == Next(Run(c, events), e)
  {
    assert (events + [e])[..|events|] == events;
  }

  // ---------------------------------------------------------------------------------------
  // Between a restart and resume
  // ---------------------------------------------------------------------------------------

  /** The event is a reply that the controller accepts to its end. */
  predicate Accepts(c: Controller, e: Event) { e.OnReply? && !e.crash && AcceptReply(c, e.envelope, false).0 }

  /** Neither a resume nor an accepted reply. */
  predicate Waits(c: Controller, events: seq<Event>)
    decreases |events|
  {
    events != [] ==>
      && Waits(c, events[..|events| - 1]) && !events[|events| - 1].OnResume?
      && !Accepts(Run(c, events[..|events| - 1]), events[|events| - 1])
  }

  /** Memory has forgotten the acceptances, the ledger has not. */
  predicate Forgetful(c: Controller, states: map<Text, Acceptance>) {
    c.acceptance == map[] && c.lastStep.None? && c.ledger.acceptance == states && c.file.acceptance == states
  }

  lemma WaitingStep(c: Controller, e: Event, states: map<Text, Acceptance>)
    requires Forgetful(c, states) && !e.OnResume? && !Accepts(c, e)
    ensures Forgetful(Next(c, e), states)
  {
  }

  lemma {:induction false} WaitingKeeps(c: Controller, events: seq<Event>, states: map<Text, Acceptance>)
    requires Forgetful(c, states) && Waits(c, events)
    ensures Forgetful(Run(c, events), states)
    decreases |events|
  {
    hide Forgetful, Next, Accepts;
    if events != [] {
      WaitingKeeps(c, events[..|events| - 1], states);
      WaitingStep(Run(c, events[..|events| - 1]), events[|events| - 1], states);
    }
  }

  lemma AcceptedForgets(c: Controller, e: Event, states: map<Text, Acceptance>)
    requires Forgetful(c, states) && Accepts(c, e)
    ensures Next(c, e).acceptance == map[] && Next(c, e).file.acceptance == map[]
  {
    assert Revised(map[], e.envelope.reviseDelta) == map[];
  }

  /** A restart after any orderly run, then anything that is neither a resume nor an accepted reply, then
      one or the other: acceptances survive if and only if it is the resume (or there were none). An
      accepted reply wipes them, in the ledger file as well. */
  lemma AcceptancesSurviveIff(runId: Text, events: seq<Event>, between: seq<Event>, e: Event)
    requires Orderly(events)
    requires var r := Restarted(Run(NewController(runId), events));
             Waits(r, between) && (e.OnResume? || Accepts(Run(r, between), e))
    ensures var c := Run(NewController(runId), events);
            var t := Next(Run(Restarted(c), between), e);
            && (t.acceptance == c.acceptance <==> e.OnResume? || c.acceptance == map[])
            && (!e.OnResume? ==> t.acceptance == map[] && t.file.acceptance == map[])
  {
    var c := Run(NewController(runId), events);
    RunSettled(runId, events);
    assert Forgetful(Restarted(c), c.acceptance);
    WaitingKeeps(Restarted(c), between, c.acceptance);
    if !e.OnResume? {
      AcceptedForgets(Run(Restarted(c), between), e, c.acceptance);
    }
    hide Run, Waits, Accepts;
  }

  // ---------------------------------------------------------------------------------------
  // A reply that is cut short
  // ---------------------------------------------------------------------------------------

  /** A process that dies between the two writes of an accepted reply has recorded the control, and not the
      acceptance that came with it: after resume the acceptances are the ones from before, and the same
      reply is refused. */
  lemma InterruptedReplyLoses(runId: Text, events: seq<Event>, e: Envelope)
    requires Orderly(events) && AcceptReply(Run(NewController(runId), events), e, false).0
    ensures var c := Run(NewController(runId), events);
            var t := Resumed(AcceptReply(c, e, true).1);
            && t.acceptance == c.acceptance && e.controlId in t.ledger.processed
            && AcceptReply(t, e, false) == (false, t)
  {
    RunSettled(runId, events);
  }
}
