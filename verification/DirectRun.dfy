/**
 The direct Brain loop (src/legacy/direct-run-controller.js over the coordinator and ledger of
 src/protocol-integrity.js): controls with increasing sequence numbers, one RESULT for each, a
 piggybacked acknowledgement, acceptance of steps, and resuming from the ledger.

 Messages arrive stale, twice, out of order or not at all. The payload hash of a RESULT stands for
 its contents; writing the ledger is atomic, and the process may die after each write.
 */
module DirectRun {
  import opened Wrappers
  import opened JsStrings

  datatype ControlKind = PLAN | REPLAN | TASK | REVISE | ASK_USER | PUBLISH | DONE

  datatype Delta = Delta(invalidate: seq<Text>, preserve: seq<Text>)

  /** A control envelope as extracted from a reply; control None is an unknown one. */
  datatype Envelope = Envelope(runId: Text, controlId: Text, sequence: int, control: Option<ControlKind>, stepId: Text,
                               instruction: Text, ackResultId: Option<Text>, reviseDelta: Delta)

  datatype ControlRecord = ControlRecord(sequence: int, control: ControlKind, stepId: Text)

  datatype ResultRecord = ResultRecord(runId: Text, inReplyTo: Option<Text>, sequence: int, stepId: Text,
                                       success: bool, pass: bool)

  datatype Acceptance = Accepted | Pending

  /** What the ledger holds; the coordinator works on the same state. */
  datatype Ledger = Ledger(
    lastSequence: int, lastControl: Option<Text>, outstanding: Option<Text>, lastSent: Option<Text>,
    processed: seq<Text>, acknowledged: seq<Text>,
    controls: map<Text, ControlRecord>, results: map<Text, ResultRecord>, acceptance: map<Text, Acceptance>)

  const NEW_LEDGER := Ledger(0, None, None, None, [], [], map[], map[], map[])

  /** The controller: ledger in memory, Brain acceptance, the step of the last control, and the file. */
  datatype Controller = Controller(runId: Text, ledger: Ledger, acceptance: map<Text, Acceptance>,
                                   lastStep: Option<Text>, file: Ledger)

  function NewController(runId: Text): Controller { Controller(runId, NEW_LEDGER, map[], None, NEW_LEDGER) }

  predicate Truthy(t: Option<Text>) { t.Some? && t.value != [] }

  /** validateStructuredEnvelope */
  predicate ValidEnvelope(e: Envelope) {
    && e.runId != [] && e.controlId != [] && e.control.Some? && e.stepId != []
    && (e.control.value.TASK? || e.control.value.REVISE? ==> e.instruction != [])
  }

  predicate Advances(e: Envelope) { e.control == Some(TASK) || e.control == Some(PUBLISH) || e.control == Some(DONE) }

  datatype Gate = ProtocolFailure | NoAdvance | PriorAccepted

  function LastResult(l: Ledger): Option<ResultRecord> {
    if Truthy(l.lastSent) && l.lastSent.value in l.results then Some(l.results[l.lastSent.value]) else None
  }

  /** advancementGate */
  function AdvancementGate(l: Ledger, e: Envelope): Gate {
    var prev := LastResult(l);
    if prev.Some? && e.ackResultId != l.lastSent then ProtocolFailure
    else if !Advances(e) || prev.None? then NoAdvance
    else if !(prev.value.success && prev.value.pass) then ProtocolFailure
    else PriorAccepted
  }

  function Push(list: seq<Text>, id: Text): seq<Text> { if id in list then list else list + [id] }

  /** acceptControl of the coordinator; None is a rejection. */
  function AcceptControl(runId: Text, l: Ledger, e: Envelope): Option<Ledger> {
    if !ValidEnvelope(e) || (runId != [] && e.runId != runId) then None
    else if e.sequence <= l.lastSequence then None
    else if Truthy(l.outstanding) && l.outstanding != Some(e.controlId) then None
    else if e.controlId in l.processed then None
    else if Truthy(e.ackResultId) && e.ackResultId.value !in l.results then None
    else
      Some(l.(acknowledged :=
                if Truthy(e.ackResultId) then Push(l.acknowledged, e.ackResultId.value) else l.acknowledged,
              lastControl := Some(e.controlId), lastSequence := e.sequence, outstanding := Some(e.controlId),
              processed := l.processed + [e.controlId],
              controls := l.controls[e.controlId := ControlRecord(e.sequence, e.control.value, e.stepId)]))
  }

  /** applyReviseDelta */
  function Revised(states: map<Text, Acceptance>, d: Delta): map<Text, Acceptance> {
    map id | id in states :: if id in d.invalidate && id !in d.preserve then Pending else states[id]
  }

  function AcceptanceAfter(c: Controller, e: Envelope, gate: Gate): map<Text, Acceptance> {
    if gate.PriorAccepted? && Truthy(c.lastStep) then c.acceptance[c.lastStep.value := Accepted]
    else if e.control == Some(REVISE) then Revised(c.acceptance, e.reviseDelta)
    else c.acceptance
  }

  /** A new process: memory is what the file holds, and nothing is accepted until resume. */
  function Restarted(c: Controller): Controller { c.(ledger := c.file, acceptance := map[], lastStep := None) }

  /** acceptBrainReply on the envelope it settles on; crash stops it after the coordinator wrote. */
  function AcceptReply(c: Controller, e: Envelope, crash: bool): (bool, Controller) {
    if !ValidEnvelope(e) then (false, c)
    else
      var gate := AdvancementGate(c.ledger, e);
      var accepted := AcceptControl(c.runId, c.ledger, e);
      if gate.ProtocolFailure? || accepted.None? then (false, c)
      else if crash then (false, Restarted(c.(file := accepted.value)))
      else
        var states := AcceptanceAfter(c, e, gate);
        var l := accepted.value.(acceptance := states);
        (true, c.(ledger := l, acceptance := states, lastStep := Some(e.stepId), file := l))
  }

  /** recordResult of the coordinator: a repeated id is answered, nothing is recorded again. */
  function RecordResult(c: Controller, id: Text, r: ResultRecord): (bool, Controller) {
    var l := c.ledger;
    if id in l.results then (l.results[id] == r, c)
    else if (c.runId != [] && r.runId != c.runId) || id == [] || r.inReplyTo != l.outstanding then (false, c)
    else if r.inReplyTo.None? || r.inReplyTo.value !in l.controls
        || l.controls[r.inReplyTo.value].sequence != r.sequence then (false, c)
    else
      var m := l.(results := l.results[id := r], lastSent := Some(id), outstanding := None);
      (true, c.(ledger := m, file := m))
  }

  /** resume */
  function Resumed(c: Controller): Controller {
    var l := c.ledger;
    c.(acceptance := l.acceptance,
       lastStep := if l.lastControl.Some? && l.lastControl.value in l.controls
           then Some(l.controls[l.lastControl.value].stepId) else None)
  }

  datatype Event = OnReply(envelope: Envelope, crash: bool) | OnResult(id: Text, result: ResultRecord) | OnRestart
    | OnResume

  function Next(c: Controller, e: Event): Controller {
    match e
    case OnReply(envelope, crash) => AcceptReply(c, envelope, crash).1
    case OnResult(id, r) => RecordResult(c, id, r).1
    case OnRestart => Restarted(c)
    case OnResume => Resumed(c)
  }

  function Run(c: Controller, events: seq<Event>): Controller
    decreases |events|
  {
    if events == [] then c else Next(Run(c, events[..|events| - 1]), events[|events| - 1])
  }

  // ---------------------------------------------------------------------------------------
  // What every run keeps
  // ---------------------------------------------------------------------------------------

  /** Controls were processed once each, in strictly increasing sequence. */
  ghost predicate Ordered(l: Ledger) {
    && (forall id :: id in l.controls <==> id in l.processed)
    && (forall i, j :: 0 <= i < j < |l.processed| ==>
        l.controls[l.processed[i]].sequence < l.controls[l.processed[j]].sequence)
    && (forall id :: id in l.controls ==> id != [] && l.controls[id].stepId != [])
    && (if l.processed == [] then l.lastControl.None? && l.outstanding.None? && l.lastSequence == 0
        else l.lastControl == Some(l.processed[|l.processed| - 1])
             && l.lastSequence == l.controls[l.processed[|l.processed| - 1]].sequence)
  }

  /** A RESULT in reply to the control. */
  predicate RepliesTo(l: Ledger, id: Text, control: Text) {
    id in l.results && l.results[id].inReplyTo == Some(control)
  }

  /** Each RESULT replies to a processed control, no control has two, and the last control either is
      outstanding without one or has the RESULT that was sent last. */
  ghost predicate OneResultEach(l: Ledger) {
    && (forall id :: id in l.results ==>
        id != [] && l.results[id].inReplyTo.Some? && l.results[id].inReplyTo.value in l.controls)
    && (forall a, b :: a in l.results && b in l.results && l.results[a].inReplyTo == l.results[b].inReplyTo ==> a == b)
    && (l.outstanding.Some? ==> l.outstanding == l.lastControl && forall id :: id in l.results ==>
        l.results[id].inReplyTo != l.outstanding)
    && (l.outstanding.None? && l.lastControl.Some? ==>
        l.lastSent.Some? && RepliesTo(l, l.lastSent.value, l.lastControl.value))
    && (l.lastSent.Some? ==> l.lastSent.value in l.results)
  }

  /** Every control but the last one had a RESULT that the next control acknowledged. */
  ghost predicate Acknowledged(l: Ledger) {
    forall i :: 0 <= i < |l.processed| - 1 ==> AnsweredAndSeen(l, l.processed[i])
  }

  ghost predicate AnsweredAndSeen(l: Ledger, control: Text) {
    exists r :: r in l.acknowledged && RepliesTo(l, r, control)
  }

  /** An acknowledged RESULT of success and pass in reply to a control for the step. */
  ghost predicate Earned(l: Ledger, step: Text) {
    exists r, id :: r in l.acknowledged && id in l.controls && RepliesTo(l, r, id) && l.results[r].success
        && l.results[r].pass
                 && l.controls[id].stepId == step
  }

  ghost predicate OnlyEarned(l: Ledger, states: map<Text, Acceptance>) {
    forall s :: s in states && states[s] == Accepted ==> Earned(l, s)
  }

  ghost predicate LedgerOk(l: Ledger) {
    Ordered(l) && OneResultEach(l) && Acknowledged(l) && OnlyEarned(l, l.acceptance)
  }

  ghost predicate Inv(c: Controller) {
    && LedgerOk(c.ledger) && LedgerOk(c.file) && OnlyEarned(c.ledger, c.acceptance)
    && (c.lastStep.Some? ==> c.ledger.lastControl.Some? && c.ledger.lastControl.value in c.ledger.controls
                             && c.ledger.controls[c.ledger.lastControl.value].stepId == c.lastStep.value)
  }

  /** Nothing that was recorded is lost or changed. */
  predicate Extends(l: Ledger, m: Ledger) {
    && (forall id :: id in l.controls ==> id in m.controls && m.controls[id] == l.controls[id])
    && (forall id :: id in l.results ==> id in m.results && m.results[id] == l.results[id])
    && (forall id :: id in l.acknowledged ==> id in m.acknowledged)
    && l.processed <= m.processed
  }

  lemma EarnedStays(l: Ledger, m: Ledger, step: Text)
    requires Extends(l, m) && Earned(l, step)
    ensures Earned(m, step)
  {
  }

  lemma OnlyEarnedStays(l: Ledger, m: Ledger, states: map<Text, Acceptance>)
    requires Extends(l, m) && OnlyEarned(l, states)
    ensures OnlyEarned(m, states)
  {
    hide Earned, Extends;
    forall s | s in states && states[s] == Accepted ensures Earned(m, s) {
      EarnedStays(l, m, s);
    }
  }

  lemma AcceptShape(runId: Text, l: Ledger, e: Envelope)
    requires AcceptControl(runId, l, e).Some? && e.control.Some?
    ensures var m := AcceptControl(runId, l, e).value;
            && m.processed == l.processed + [e.controlId] && m.lastControl == Some(e.controlId)
               && m.outstanding == Some(e.controlId)
            && m.lastSequence == e.sequence && m.results == l.results && m.lastSent == l.lastSent
               && m.acceptance == l.acceptance
            && m.controls == l.controls[e.controlId := ControlRecord(e.sequence, e.control.value, e.stepId)]
            && (forall id :: id in l.acknowledged ==> id in m.acknowledged)
            && (Truthy(e.ackResultId) ==> e.ackResultId.value in m.acknowledged)
  {
  }

  lemma AcceptOrdered(runId: Text, l: Ledger, e: Envelope)
    requires Ordered(l) && OneResultEach(l) && AcceptControl(runId, l, e).Some?
    ensures Ordered(AcceptControl(runId, l, e).value) && Extends(l, AcceptControl(runId, l, e).value)
  {
    AcceptShape(runId, l, e);
    OrderedAppend(l, AcceptControl(runId, l, e).value, e.controlId,
                  ControlRecord(e.sequence, e.control.value, e.stepId));
    hide AcceptControl, OneResultEach, Ordered;
  }

  lemma LastIsGreatest(l: Ledger, i: nat)
    requires Ordered(l) && i < |l.processed|
    ensures l.processed[i] in l.controls && l.controls[l.processed[i]].sequence <= l.lastSequence
  {
    assert l.processed[|l.processed| - 1] in l.controls;
  }

  lemma AppendedAt(l: Ledger, m: Ledger, id: Text, r: ControlRecord, i: nat)
    requires Ordered(l) && id !in l.controls && r.sequence > l.lastSequence && i < |l.processed|
    requires m.processed == l.processed + [id] && m.controls == l.controls[id := r]
    ensures m.processed[i] == l.processed[i] && m.processed[i] in l.controls && m.processed[i] in m.controls
    ensures m.controls[m.processed[i]] == l.controls[l.processed[i]] && l.controls[l.processed[i]].sequence < r.sequence
  {
    LastIsGreatest(l, i);
    hide Ordered;
  }

  lemma OrderedAppend(l: Ledger, m: Ledger, id: Text, r: ControlRecord)
    requires Ordered(l) && id !in l.controls && id != [] && r.stepId != [] && r.sequence > l.lastSequence
    requires m.processed == l.processed + [id] && m.controls == l.controls[id := r]
    requires m.lastControl == Some(id) && m.lastSequence == r.sequence
    ensures Ordered(m) && forall k :: k in l.controls ==> m.controls[k] == l.controls[k]
  {
    var n := |l.processed|;
    assert m.processed[n] == id;
    assert forall k :: k in m.processed <==> k in l.processed || k == id;
    forall i, j | 0 <= i < j < |m.processed|
      ensures m.processed[i] in m.controls && m.processed[j] in m.controls
      ensures m.controls[m.processed[i]].sequence < m.controls[m.processed[j]].sequence
    {
      AppendedAt(l, m, id, r, i);
      if j < n {
        AppendedAt(l, m, id, r, j);
      }
    }
  }

  lemma AcceptOneResult(runId: Text, l: Ledger, e: Envelope)
    requires Ordered(l) && OneResultEach(l) && AcceptControl(runId, l, e).Some?
    ensures OneResultEach(AcceptControl(runId, l, e).value)
  {
    AcceptShape(runId, l, e);
    hide AcceptControl, Ordered;
  }

  lemma LastAcknowledged(runId: Text, l: Ledger, e: Envelope)
    requires Ordered(l) && OneResultEach(l) && AcceptControl(runId, l, e).Some?
             && !AdvancementGate(l, e).ProtocolFailure?
    ensures l.lastSent.Some? ==> l.lastSent.value in AcceptControl(runId, l, e).value.acknowledged
    ensures l.lastControl.Some? ==> l.lastSent.Some? && RepliesTo(l, l.lastSent.value, l.lastControl.value)
  {
    AcceptShape(runId, l, e);
    hide AcceptControl, Ordered;
  }

  lemma AcceptAcknowledges(runId: Text, l: Ledger, e: Envelope)
    requires LedgerOk(l) && AcceptControl(runId, l, e).Some? && !AdvancementGate(l, e).ProtocolFailure?
    ensures Acknowledged(AcceptControl(runId, l, e).value)
  {
    var m := AcceptControl(runId, l, e).value;
    AcceptOrdered(runId, l, e);
    AcceptShape(runId, l, e);
    LastAcknowledged(runId, l, e);
    hide AcceptControl, OnlyEarned, AnsweredAndSeen, OneResultEach, AdvancementGate;
    forall i | 0 <= i < |m.processed| - 1 ensures AnsweredAndSeen(m, m.processed[i]) {
      if i == |l.processed| - 1 {
        SeenBy(m, l.lastSent.value, m.processed[i]);
      }
    }
  }

  lemma SeenBy(l: Ledger, r: Text, control: Text)
    requires r in l.acknowledged && RepliesTo(l, r, control)
    ensures AnsweredAndSeen(l, control)
  {
  }

  /** The step of the last control is earned once its RESULT passed and is acknowledged. */
  lemma PriorEarned(c: Controller, e: Envelope)
    requires Inv(c) && Truthy(c.lastStep) && AdvancementGate(c.ledger, e).PriorAccepted?
    requires AcceptControl(c.runId, c.ledger, e).Some?
    ensures Earned(AcceptControl(c.runId, c.ledger, e).value, c.lastStep.value)
  {
    var l, m := c.ledger, AcceptControl(c.runId, c.ledger, e).value;
    AcceptOrdered(c.runId, l, e);
    LastAcknowledged(c.runId, l, e);
    hide OnlyEarned, Acknowledged, AcceptControl, OneResultEach;
    var r, id := l.lastSent.value, l.lastControl.value;
    assert r in m.acknowledged && RepliesTo(m, r, id);
  }

  lemma RevisedEarned(l: Ledger, states: map<Text, Acceptance>, d: Delta)
    requires OnlyEarned(l, states)
    ensures OnlyEarned(l, Revised(states, d))
  {
    hide Earned;
  }

  lemma SameRecords(l: Ledger, states: map<Text, Acceptance>)
    requires LedgerOk(l) && OnlyEarned(l, states)
    ensures LedgerOk(l.(acceptance := states)) && OnlyEarned(l.(acceptance := states), states)
  {
    var m := l.(acceptance := states);
    SameParts(l, m);
    hide OnlyEarned, Acknowledged, Extends, Ordered, OneResultEach;
    OnlyEarnedStays(l, m, states);
  }

  lemma SameParts(l: Ledger, m: Ledger)
    requires Ordered(l) && OneResultEach(l) && m == l.(acceptance := m.acceptance)
    ensures Ordered(m) && OneResultEach(m) && Extends(l, m)
  {
  }

  lemma ReplyKeeps(c: Controller, e: Envelope, crash: bool)
    requires Inv(c)
    ensures Inv(AcceptReply(c, e, crash).1)
  {
    hide Ordered, OneResultEach, Acknowledged, OnlyEarned, AdvancementGate, Extends;
    var accepted := AcceptControl(c.runId, c.ledger, e);
    var gate := AdvancementGate(c.ledger, e);
    if ValidEnvelope(e) && accepted.Some? && !gate.ProtocolFailure? {
      var m := accepted.value;
      AcceptOrdered(c.runId, c.ledger, e);
      AcceptOneResult(c.runId, c.ledger, e);
      AcceptAcknowledges(c.runId, c.ledger, e);
      OnlyEarnedStays(c.ledger, m, c.ledger.acceptance);
      OnlyEarnedStays(c.ledger, m, c.acceptance);
      NothingAccepted(m);
      StatesEarned(c, e, m, gate);
      SameRecords(m, AcceptanceAfter(c, e, gate));
    }
  }

  lemma NothingAccepted(l: Ledger)
    ensures OnlyEarned(l, map[])
  {
  }

  lemma StatesEarned(c: Controller, e: Envelope, m: Ledger, gate: Gate)
    requires Inv(c) && AcceptControl(c.runId, c.ledger, e) == Some(m) && gate == AdvancementGate(c.ledger, e)
    requires OnlyEarned(m, c.acceptance)
    ensures OnlyEarned(m, AcceptanceAfter(c, e, gate))
  {
    hide Earned, LedgerOk, Inv, Revised;
    if gate.PriorAccepted? && Truthy(c.lastStep) {
      PriorEarned(c, e);
    } else if e.control == Some(REVISE) {
      RevisedEarned(m, c.acceptance, e.reviseDelta);
    }
  }

  lemma ResultShape(c: Controller, id: Text, r: ResultRecord)
    requires RecordResult(c, id, r).1 != c
    ensures var l := c.ledger;
            && RecordResult(c, id, r).1 == c.(ledger := WithResult(l, id, r), file := WithResult(l, id, r))
            && id !in l.results && id != [] && r.inReplyTo.Some? && r.inReplyTo == l.outstanding
               && r.inReplyTo.value in l.controls
  {
  }

  function WithResult(l: Ledger, id: Text, r: ResultRecord): Ledger {
    l.(results := l.results[id := r], lastSent := Some(id), outstanding := None)
  }

  lemma ResultRecorded(l: Ledger, id: Text, r: ResultRecord)
    requires Ordered(l) && OneResultEach(l)
    requires id !in l.results && id != [] && r.inReplyTo.Some? && r.inReplyTo == l.outstanding
             && r.inReplyTo.value in l.controls
    ensures Ordered(WithResult(l, id, r)) && Extends(l, WithResult(l, id, r))
  {
    hide OneResultEach;
  }

  lemma ResultOnce(l: Ledger, id: Text, r: ResultRecord)
    requires OneResultEach(l)
    requires id !in l.results && id != [] && r.inReplyTo.Some? && r.inReplyTo == l.outstanding
             && r.inReplyTo.value in l.controls
    ensures OneResultEach(WithResult(l, id, r))
  {
  }

  lemma ResultKeeps(c: Controller, id: Text, r: ResultRecord)
    requires Inv(c)
    ensures Inv(RecordResult(c, id, r).1)
  {
    if RecordResult(c, id, r).1 != c {
      ResultShape(c, id, r);
      ResultRecorded(c.ledger, id, r);
      ResultOnce(c.ledger, id, r);
      hide RecordResult, Ordered, OneResultEach, Acknowledged, OnlyEarned, Extends;
      var m := RecordResult(c, id, r).1.ledger;
      OnlyEarnedStays(c.ledger, m, c.acceptance);
      OnlyEarnedStays(c.ledger, m, c.ledger.acceptance);
    }
  }

  lemma StepKeeps(c: Controller, e: Event)
    requires Inv(c)
    ensures Inv(Next(c, e))
  {
    hide LedgerOk, AcceptReply, RecordResult;
    match e
    case OnReply(envelope, crash) => ReplyKeeps(c, envelope, crash);
    case OnResult(id, r) => ResultKeeps(c, id, r);
    case OnRestart => NothingAccepted(c.file);
    case OnResume => ResumeKeeps(c);
  }

  lemma ResumeKeeps(c: Controller)
    requires Inv(c)
    ensures Inv(Resumed(c))
  {
  }

  lemma {:induction false} RunKeeps(c: Controller, events: seq<Event>)
    requires Inv(c)
    ensures Inv(Run(c, events))
    decreases |events|
  {
    hide Inv, Next;
    if events != [] {
      RunKeeps(c, events[..|events| - 1]);
      StepKeeps(Run(c, events[..|events| - 1]), events[|events| - 1]);
    }
  }

  // ---------------------------------------------------------------------------------------
  // Main results
  // ---------------------------------------------------------------------------------------

  /** In every run: accepted sequences strictly increase, each control gets at most one RESULT, and
      every control but the last one got one that was acknowledged. */
  lemma ControlsInOrder(runId: Text, events: seq<Event>)
    ensures var l := Run(NewController(runId), events).ledger;
            && Ordered(l) && Acknowledged(l)
            && forall a, b :: a in l.results && b in l.results && l.results[a].inReplyTo == l.results[b].inReplyTo ==>
               a == b
  {
    RunKeeps(NewController(runId), events);
  }

  /** In every run, in memory and in the file: a step is accepted only if a RESULT of success and pass
      in reply to a control for that step was recorded and then acknowledged. */
  lemma AcceptedIsEarned(runId: Text, events: seq<Event>, step: Text)
    ensures var c := Run(NewController(runId), events);
            && (step in c.acceptance && c.acceptance[step] == Accepted ==> Earned(c.ledger, step))
            && (step in c.file.acceptance && c.file.acceptance[step] == Accepted ==> Earned(c.file, step))
  {
    RunKeeps(NewController(runId), events);
  }

  /** A failed or unacknowledged RESULT blocks advancement: no TASK, PUBLISH or DONE is accepted
      behind it, whatever its sequence number. */
  lemma FailureBlocks(c: Controller, e: Envelope, crash: bool)
    requires Inv(c) && Advances(e) && c.ledger.lastSent.Some?
    requires var r := c.ledger.results[c.ledger.lastSent.value];
             !r.success || !r.pass || e.ackResultId != c.ledger.lastSent
    ensures AcceptReply(c, e, crash) == (false, c)
  {
  }

  /** A reply or RESULT that was already processed changes nothing when it arrives again. */
  lemma RepeatsChangeNothing(c: Controller, e: Envelope, id: Text, r: ResultRecord, crash: bool)
    requires Inv(c)
    ensures e.controlId in c.ledger.processed || e.sequence <= c.ledger.lastSequence ==>
            AcceptReply(c, e, crash) == (false, c)
    ensures id in c.ledger.results ==> RecordResult(c, id, r).1 == c
  {
  }

  // ---------------------------------------------------------------------------------------
  // The controller object
  // ---------------------------------------------------------------------------------------

  class DirectRunController {
    const runId: Text
    var ledger: Ledger
    var acceptance: map<Text, Acceptance>
    var lastStepId: Option<Text>
    var file: Ledger

    function State(): Controller
      reads this
    {
      Controller(runId, ledger, acceptance, lastStepId, file)
    }

    /** A new process over what the ledger file holds. */
    constructor (runId: Text, file: Ledger)
      ensures State() == Controller(runId, file, map[], None, file)
    {
      this.runId := runId;
      ledger, acceptance, lastStepId := file, map[], None;
      this.file := file;
    }

    method Persist()
      modifies this`file
      ensures file == ledger
    {
      file := ledger;
    }

    /** acceptControl of the coordinator, check by check. */
    method CoordinatorAccepts(e: Envelope) returns (ok: bool)
      modifies this`ledger, this`file
      ensures ok <==> AcceptControl(runId, old(ledger), e).Some?
      ensures ok ==> ledger == AcceptControl(runId, old(ledger), e).value && file == ledger
      ensures !ok ==> ledger == old(ledger) && file == old(file)
    {
      if !ValidEnvelope(e) || (runId != [] && e.runId != runId) {
        return false;
      }
      if e.sequence <= ledger.lastSequence {
        return false;
      }
      if Truthy(ledger.outstanding) && ledger.outstanding != Some(e.controlId) {
        return false;
      }
      if e.controlId in ledger.processed {
        return false;
      }
      if Truthy(e.ackResultId) {
        if e.ackResultId.value !in ledger.results {
          return false;
        }
        ledger := ledger.(acknowledged := Push(ledger.acknowledged, e.ackResultId.value));
      }
      ledger := ledger.(lastControl := Some(e.controlId), lastSequence := e.sequence, outstanding := Some(e.controlId));
      ledger := ledger.(processed := ledger.processed + [e.controlId]);
      var record := ControlRecord(e.sequence, e.control.value, e.stepId);
      ledger := ledger.(controls := ledger.controls[e.controlId := record]);
      Persist();
      ok := true;
    }

    method AcceptBrainReply(e: Envelope) returns (ok: bool)
      modifies this
      ensures (ok, State()) == AcceptReply(old(State()), e, false)
    {
      hide AcceptControl, AdvancementGate, Revised;
      if !ValidEnvelope(e) {
        return false;
      }
      var gate := AdvancementGate(ledger, e);
      if gate.ProtocolFailure? {
        return false;
      }
      ok := CoordinatorAccepts(e);
      if !ok {
        return;
      }
      if gate.PriorAccepted? && Truthy(lastStepId) {
        acceptance := acceptance[lastStepId.value := Accepted];
      } else if e.control == Some(REVISE) {
        acceptance := Revised(acceptance, e.reviseDelta);
      }
      ledger := ledger.(acceptance := acceptance);
      lastStepId := Some(e.stepId);
      Persist();
    }

    method ReceiveResult(id: Text, r: ResultRecord) returns (ok: bool)
      modifies this
      ensures (ok, State()) == RecordResult(old(State()), id, r)
    {
      if id in ledger.results {
        return ledger.results[id] == r;
      }
      if (runId != [] && r.runId != runId) || id == [] || r.inReplyTo != ledger.outstanding {
        return false;
      }
      if r.inReplyTo.None? || r.inReplyTo.value !in ledger.controls
         || ledger.controls[r.inReplyTo.value].sequence != r.sequence {
        return false;
      }
      ledger := ledger.(results := ledger.results[id := r]);
      ledger := ledger.(lastSent := Some(id), outstanding := None);
      Persist();
      ok := true;
    }

    method Resume()
      modifies this`acceptance, this`lastStepId
      ensures State() == Resumed(old(State()))
    {
      acceptance := ledger.acceptance;
      lastStepId := None;
      if ledger.lastControl.Some? && ledger.lastControl.value in ledger.controls {
        lastStepId := Some(ledger.controls[ledger.lastControl.value].stepId);
      }
    }
  }
}
