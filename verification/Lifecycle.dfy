/**
 The governance lifecycle (src/governance/index.js) on values: what each control and each RESULT
 does to the state of a task, also when the call throws, and what holds in every reachable state.
 */
module Lifecycle {
  import opened Wrappers
  import opened JsStrings
  import opened AcceptanceGate

  datatype Control = PLAN | REPLAN | TASK | REVISE | ASK_USER | PUBLISH | DONE

  datatype Route = ChatgptNative | ChatgptDirectLocal | CodexDelegate | Hybrid

  datatype ExecutorStatus = ExecutorUnknown | ExecutorSuccess | ExecutorFailure

  datatype MachineGate = GatePending | GatePass | GateFail

  datatype BrainAcceptance = BrainPending | BrainRevise | BrainAccepted

  datatype Step = Step(acceptance: seq<Item>, evidence: seq<Evidence>, executorStatus: ExecutorStatus,
                       machineGate: MachineGate, brainAcceptance: BrainAcceptance, changed: seq<Text>)

  datatype Publication = Publication(ok: bool, externalReadback: bool)

  datatype GovState = GovState(
    taskId: Option<Text>,
    control: Option<Control>,
    route: Option<Route>,
    localRoute: Option<Route>,
    planRevision: nat,
    currentStepId: Option<Text>,
    previousStepId: Option<Text>,
    steps: map<Text, Step>,
    awaitingUser: bool,
    publicationRequired: bool,
    publishResult: Option<Publication>,
    published: bool)

  const FRESH := GovState(None, None, None, None, 0, None, None, map[], false, false, None, false)

  datatype Delta = Delta(invalidate: seq<Text>, preserve: seq<Text>)

  /** The arguments of transition; control None is a control that governance does not know. */
  datatype ControlArgs = ControlArgs(taskId: Option<Text>, stepId: Option<Text>, control: Option<Control>,
                                     route: Option<Route>, localRoute: Option<Route>,
                                     acceptance: Option<seq<RawItem>>, reviseDelta: Option<Delta>)

  datatype ResultArgs = ResultArgs(taskId: Option<Text>, stepId: Option<Text>, executorStatus: ExecutorStatus,
                                   evidence: Option<seq<Evidence>>, changed: Option<seq<Text>>,
                                   publication: Option<Publication>)

  datatype Reply = Threw | Answered(blocked: bool)

  // ---------------------------------------------------------------------------------------
  // Parts of a step
  // ---------------------------------------------------------------------------------------

  function ItemsOf(acceptance: Option<seq<RawItem>>): seq<Item> {
    if acceptance.None? then [] else NormalizeItems(acceptance.value)
  }

  function NewStep(acceptance: Option<seq<RawItem>>): Step {
    Step(ItemsOf(acceptance), [], ExecutorUnknown, GatePending, BrainPending, [])
  }

  function MachineGateOf(step: Step): MachineGate {
    if GateOk(step.acceptance, step.evidence) then GatePass else GateFail
  }

  predicate HardOk(step: Step) { step.executorStatus == ExecutorSuccess && step.machineGate == GatePass }

  predicate HasResult(step: Step) {
    step.executorStatus != ExecutorUnknown || step.machineGate != GatePending || step.evidence != []
        || step.changed != []
  }

  function CurrentStep(s: GovState): Option<Step> {
    if s.currentStepId.Some? && s.currentStepId.value in s.steps then Some(s.steps[s.currentStepId.value]) else None
  }

  predicate TerminalDone(s: GovState) { s.control == Some(DONE) }

  predicate PublicationReady(p: Option<Publication>) { p.Some? && p.value.ok && p.value.externalReadback }

  function WithoutIds(evidence: seq<Evidence>, ids: set<Text>): seq<Evidence> {
    if evidence == [] then []
    else (if evidence[0].acceptanceId in ids then [] else [evidence[0]]) + WithoutIds(evidence[1..], ids)
  }

  /** The ids that a REVISE reopens: in the contract, invalidated and not preserved. */
  function Reopened(acceptance: seq<Item>, delta: Delta): set<Text> {
    set a | a in acceptance && a.id in delta.invalidate && a.id !in delta.preserve :: a.id
  }

  function Accept(s: GovState, id: Text): GovState
    requires id in s.steps
  {
    s.(steps := s.steps[id := s.steps[id].(brainAcceptance := BrainAccepted)])
  }

  // ---------------------------------------------------------------------------------------
  // The controls
  // ---------------------------------------------------------------------------------------

  /** Advancing to another step accepts the one before; None when that one is not ready. */
  function Advance(s: GovState, id: Text): Option<GovState> {
    if !Truthy(s.currentStepId) || s.currentStepId == Some(id) then Some(s)
    else
      var prior := CurrentStep(s);
      if prior.None? || !HardOk(prior.value) then None
      else Some(Accept(s, s.currentStepId.value).(previousStepId := s.currentStepId))
  }

  /** Authorizing the execution of a step: new, issued again before any RESULT, or blocked. */
  function Issue(s: GovState, id: Text, acceptance: Option<seq<RawItem>>): (Reply, GovState) {
    var u := s.(currentStepId := Some(id), control := Some(TASK));
    if id !in u.steps then (Answered(false), u.(steps := u.steps[id := NewStep(acceptance)]))
    else if HasResult(u.steps[id]) then (Answered(true), u)
    else
      var step := u.steps[id];
      var contract := if acceptance.Some? then ItemsOf(acceptance) else step.acceptance;
      (Answered(false), u.(steps := u.steps[id := step.(acceptance := contract, brainAcceptance := BrainPending)]))
  }

  function ApplyTask(s: GovState, a: ControlArgs): (Reply, GovState) {
    var waited := s.(awaitingUser := false);
    if !Truthy(a.stepId) then (Threw, waited)
    else
      var advanced := Advance(waited, a.stepId.value);
      if advanced.None? then (Threw, waited) else Issue(advanced.value, a.stepId.value, a.acceptance)
  }

  function RevisedStep(s: GovState, id: Text, a: ControlArgs): Step {
    var step := if id in s.steps then s.steps[id] else NewStep(a.acceptance);
    var contract := if a.acceptance.Some? then ItemsOf(a.acceptance) else step.acceptance;
    var kept := if a.reviseDelta.Some? then WithoutIds(step.evidence, Reopened(contract, a.reviseDelta.value))
        else step.evidence;
    Step(contract, kept, ExecutorUnknown, GatePending, BrainRevise, step.changed)
  }

  function ApplyRevise(s: GovState, a: ControlArgs): (Reply, GovState) {
    if !Truthy(a.stepId) then (Threw, s)
    else
      var id := a.stepId.value;
      (Answered(false), s.(currentStepId := Some(id), control := Some(REVISE),
                           steps := s.steps[id := RevisedStep(s, id, a)]))
  }

  function ApplyPublish(s0: GovState, allowPublish: bool): (Reply, GovState) {
    var s := s0.(awaitingUser := false, control := Some(PUBLISH));
    var cur := CurrentStep(s);
    if cur.None? || !HardOk(cur.value) || !allowPublish then (Answered(true), s)
    else (Answered(false), Accept(s, s.currentStepId.value).(publicationRequired := true))
  }

  function ApplyDone(s0: GovState): (Reply, GovState) {
    var s := s0.(awaitingUser := false);
    var cur := CurrentStep(s);
    if cur.None? || !HardOk(cur.value) || (s.publicationRequired && !PublicationReady(s.publishResult))
        then (Answered(true), s)
    else (Answered(false), Accept(s, s.currentStepId.value).(control := Some(DONE)))
  }

  function Apply(s: GovState, c: Control, a: ControlArgs, allowPublish: bool): (Reply, GovState) {
    match c
    case PLAN => (Answered(false), s.(planRevision := s.planRevision + 1, awaitingUser := false, control := Some(PLAN)))
    case REPLAN => (Answered(false),
                    s.(planRevision := s.planRevision + 1, awaitingUser := false, control := Some(REPLAN)))
    case TASK => ApplyTask(s, a)
    case REVISE => ApplyRevise(s, a)
    case ASK_USER => (Answered(true), s.(awaitingUser := true, control := Some(ASK_USER)))
    case PUBLISH => ApplyPublish(s, allowPublish)
    case DONE => ApplyDone(s)
  }

  function Bind(s: GovState, taskId: Option<Text>): GovState {
    if taskId.Some? && !Truthy(s.taskId) then s.(taskId := taskId) else s
  }

  /** A call that names another task than the bound one. */
  predicate OtherTask(s: GovState, taskId: Option<Text>) {
    taskId.Some? && Truthy(s.taskId) && taskId != s.taskId
  }

  /** The state that a control applies to: a new task at the boundary, and the id bound. */
  function Begun(s: GovState, a: ControlArgs): GovState {
    Bind(if OtherTask(s, a.taskId) then FRESH else s, a.taskId)
  }

  function Routed(s: GovState, a: ControlArgs): GovState {
    s.(route := if a.route.Some? then a.route else s.route,
       localRoute := if a.localRoute.Some? then a.localRoute else s.localRoute)
  }

  /** transition, with the state it leaves behind. */
  function Transition(s: GovState, a: ControlArgs, allowPublish: bool): (Reply, GovState) {
    if a.control.None? then (Threw, s)
    else if OtherTask(s, a.taskId) && !(TerminalDone(s) && a.control == Some(PLAN)) then (Threw, s)
    else
      var bound := Begun(s, a);
      if !Truthy(bound.taskId) then (Threw, bound)
      else if TerminalDone(bound) then (if a.control == Some(DONE) then Answered(false) else Threw, bound)
      else Apply(Routed(bound, a), a.control.value, a, allowPublish)
  }

  function NamedEvidence(evidence: seq<Evidence>): seq<Evidence> { WithoutIds(evidence, {[]}) }

  function ResultStep(step: Step, a: ResultArgs): Step {
    var now := step.(executorStatus := a.executorStatus,
                     evidence := if a.evidence.Some? then NamedEvidence(a.evidence.value) else step.evidence,
                     changed := if a.changed.Some? then a.changed.value else step.changed,
                     brainAcceptance := BrainPending);
    now.(machineGate := MachineGateOf(now))
  }

  /** recordResult, with the state it leaves behind. */
  function RecordResult(s: GovState, a: ResultArgs): (Reply, GovState) {
    if TerminalDone(s) || OtherTask(s, a.taskId) then (Threw, s)
    else
      var bound := Bind(s, a.taskId);
      if !Truthy(bound.taskId) || !Truthy(a.stepId) || a.stepId != bound.currentStepId || a.stepId.value !in bound.steps
      then (Threw, bound)
      else
        var id := a.stepId.value;
        var t := bound.(steps := bound.steps[id := ResultStep(bound.steps[id], a)]);
        (Answered(false), if a.publication.None? then t
                          else t.(publishResult := a.publication, published := a.publication.value.ok))
  }

  // ---------------------------------------------------------------------------------------
  // What holds in every reachable state
  // ---------------------------------------------------------------------------------------

  /** A step accepted by the Brain ran successfully through a gate that holds. */
  ghost predicate StepSound(step: Step) {
    && (step.brainAcceptance == BrainAccepted ==> HardOk(step))
    && (step.machineGate == GatePass ==> GateHolds(step.acceptance, step.evidence))
  }

  /** DONE stands on an accepted current step and, where required, on a publication read back. */
  ghost predicate DoneEarned(s: GovState) {
    && Truthy(s.taskId)
    && CurrentStep(s).Some? && CurrentStep(s).value.brainAcceptance == BrainAccepted
    && (s.publicationRequired ==> PublicationReady(s.publishResult))
  }

  ghost predicate Sound(s: GovState) {
    && (s.currentStepId.Some? ==> s.currentStepId.value in s.steps && s.currentStepId.value != [])
    && (forall id :: id in s.steps ==> StepSound(s.steps[id]))
    && (TerminalDone(s) ==> DoneEarned(s))
  }

  lemma FreshSound()
    ensures Sound(FRESH)
  {
  }

  lemma AdvanceSound(s: GovState, id: Text)
    requires Sound(s) && !TerminalDone(s) && Advance(s, id).Some?
    ensures Sound(Advance(s, id).value) && !TerminalDone(Advance(s, id).value)
  {
    hide GateHolds;
  }

  lemma IssueSound(s: GovState, id: Text, acceptance: Option<seq<RawItem>>)
    requires Sound(s) && !TerminalDone(s) && id != []
    ensures Sound(Issue(s, id, acceptance).1)
  {
    hide GateHolds, NormalizeItems;
  }

  lemma TaskSound(s: GovState, a: ControlArgs)
    requires Sound(s) && !TerminalDone(s)
    ensures Sound(ApplyTask(s, a).1)
  {
    hide StepSound, Advance, Issue;
    var waited := s.(awaitingUser := false);
    assert Sound(waited);
    if Truthy(a.stepId) && Advance(waited, a.stepId.value).Some? {
      AdvanceSound(waited, a.stepId.value);
      IssueSound(Advance(waited, a.stepId.value).value, a.stepId.value, a.acceptance);
    }
  }

  lemma ReviseSound(s: GovState, a: ControlArgs)
    requires Sound(s) && !TerminalDone(s)
    ensures Sound(ApplyRevise(s, a).1)
  {
    hide GateHolds, GateOk, NormalizeItems, WithoutIds, Reopened;
  }

  lemma PublishSound(s: GovState, allowPublish: bool)
    requires Sound(s) && !TerminalDone(s)
    ensures Sound(ApplyPublish(s, allowPublish).1)
  {
    hide GateHolds;
  }

  lemma DoneSound(s: GovState)
    requires Sound(s) && !TerminalDone(s) && Truthy(s.taskId)
    ensures Sound(ApplyDone(s).1)
  {
    hide GateHolds;
  }

  lemma ApplySound(s: GovState, c: Control, a: ControlArgs, allowPublish: bool)
    requires Sound(s) && !TerminalDone(s) && Truthy(s.taskId)
    ensures Sound(Apply(s, c, a, allowPublish).1)
  {
    hide GateHolds, GateOk, ApplyTask, ApplyRevise, ApplyPublish, ApplyDone;
    TaskSound(s, a);
    ReviseSound(s, a);
    PublishSound(s, allowPublish);
    DoneSound(s);
  }

  lemma TransitionSound(s: GovState, a: ControlArgs, allowPublish: bool)
    requires Sound(s)
    ensures Sound(Transition(s, a, allowPublish).1)
  {
    hide Apply, StepSound;
    if a.control.Some? {
      var bound := Begun(s, a);
      assert Sound(bound);
      if Truthy(bound.taskId) && !TerminalDone(bound) {
        assert Sound(Routed(bound, a));
        ApplySound(Routed(bound, a), a.control.value, a, allowPublish);
      }
    }
  }

  lemma ResultStepSound(step: Step, a: ResultArgs)
    ensures StepSound(ResultStep(step, a))
  {
    hide GateHolds, GateOk;
    var now := ResultStep(step, a);
    GateOkIff(now.acceptance, now.evidence);
  }

  lemma RecordResultSound(s: GovState, a: ResultArgs)
    requires Sound(s)
    ensures Sound(RecordResult(s, a).1)
  {
    hide StepSound, ResultStep;
    var bound := Bind(s, a.taskId);
    if Truthy(a.stepId) && a.stepId.value in bound.steps {
      ResultStepSound(bound.steps[a.stepId.value], a);
    }
  }

  datatype Call = ControlCall(control: ControlArgs) | ResultCall(result: ResultArgs)

  function After(s: GovState, call: Call, allowPublish: bool): GovState {
    match call
    case ControlCall(a) => Transition(s, a, allowPublish).1
    case ResultCall(a) => RecordResult(s, a).1
  }

  function Run(s: GovState, calls: seq<Call>, allowPublish: bool): GovState
    decreases |calls|
  {
    if calls == [] then s else After(Run(s, calls[..|calls| - 1], allowPublish), calls[|calls| - 1], allowPublish)
  }

  /** In every reachable state, calls that threw included: an accepted step has a successful executor
      and a passing gate, a passing gate means that every required id of the step's contract has
      passing evidence at its level, and DONE was earned. */
  lemma {:induction false} RunSound(s: GovState, calls: seq<Call>, allowPublish: bool)
    requires Sound(s)
    ensures Sound(Run(s, calls, allowPublish))
    decreases |calls|
  {
    hide Sound, Transition, RecordResult;
    if calls != [] {
      var before, last := Run(s, calls[..|calls| - 1], allowPublish), calls[|calls| - 1];
      RunSound(s, calls[..|calls| - 1], allowPublish);
      if last.ControlCall? {
        TransitionSound(before, last.control, allowPublish);
      } else {
        RecordResultSound(before, last.result);
      }
    }
  }

  // ---------------------------------------------------------------------------------------
  // DONE is terminal
  // ---------------------------------------------------------------------------------------

  /** The call opens a new task at the end of a finished one. */
  predicate OpensNewTask(s: GovState, call: Call) {
    call.ControlCall? && call.control.control == Some(PLAN) && OtherTask(s, call.control.taskId)
  }

  lemma DoneStep(s: GovState, call: Call, allowPublish: bool)
    requires TerminalDone(s) && Truthy(s.taskId) && !OpensNewTask(s, call)
    ensures After(s, call, allowPublish) == s
  {
  }

  /** Once DONE, no call changes the state of the task until a PLAN names another task. */
  lemma {:induction false} DoneIsTerminal(s: GovState, calls: seq<Call>, allowPublish: bool)
    requires TerminalDone(s) && Truthy(s.taskId)
    requires forall k :: 0 <= k < |calls| ==> !OpensNewTask(s, calls[k])
    ensures Run(s, calls, allowPublish) == s
    decreases |calls|
  {
    hide After;
    if calls != [] {
      DoneIsTerminal(s, calls[..|calls| - 1], allowPublish);
      DoneStep(s, calls[|calls| - 1], allowPublish);
    }
  }

  // ---------------------------------------------------------------------------------------
  // A reopened acceptance id stays open
  // ---------------------------------------------------------------------------------------

  /** No evidence for the id on the step. */
  predicate Open(s: GovState, stepId: Text, id: Text) {
    stepId in s.steps ==> forall k :: 0 <= k < |s.steps[stepId].evidence| ==>
        s.steps[stepId].evidence[k].acceptanceId != id
  }

  predicate Requires(step: Step, id: Text) {
    exists k :: 0 <= k < |step.acceptance| && step.acceptance[k].required && step.acceptance[k].id == id
  }

  /** A RESULT that brings evidence for the id to the step. */
  predicate Supplies(call: Call, stepId: Text, id: Text) {
    && call.ResultCall? && call.result.stepId == Some(stepId) && call.result.evidence.Some?
    && exists k :: 0 <= k < |call.result.evidence.value| && call.result.evidence.value[k].acceptanceId == id
  }

  lemma {:induction false} WithoutIdsKeeps(evidence: seq<Evidence>, ids: set<Text>)
    ensures forall e :: e in WithoutIds(evidence, ids) <==> e in evidence && e.acceptanceId !in ids
  {
    if evidence != [] {
      WithoutIdsKeeps(evidence[1..], ids);
      assert evidence == [evidence[0]] + evidence[1..];
    }
  }

  /** REVISE removes the evidence of every id it reopens and withdraws the verdict of the step. */
  lemma ReviseReopens(s: GovState, a: ControlArgs, allowPublish: bool, id: Text)
    requires a.control == Some(REVISE) && Transition(s, a, allowPublish).0 == Answered(false)
    requires a.reviseDelta.Some? && id in a.reviseDelta.value.invalidate && id !in a.reviseDelta.value.preserve
    requires Truthy(a.stepId) && a.stepId.value in Transition(s, a, allowPublish).1.steps
    requires Requires(Transition(s, a, allowPublish).1.steps[a.stepId.value], id)
    ensures var t := Transition(s, a, allowPublish).1;
            && Open(t, a.stepId.value, id)
            && t.steps[a.stepId.value].machineGate == GatePending
            && t.steps[a.stepId.value].executorStatus == ExecutorUnknown
            && t.steps[a.stepId.value].brainAcceptance != BrainAccepted
  {
    hide WithoutIds;
    var t, stepId := Transition(s, a, allowPublish).1, a.stepId.value;
    var step := if stepId in s.steps && !OtherTask(s, a.taskId) then s.steps[stepId] else NewStep(a.acceptance);
    WithoutIdsKeeps(step.evidence, Reopened(t.steps[stepId].acceptance, a.reviseDelta.value));
    assert id in Reopened(t.steps[stepId].acceptance, a.reviseDelta.value);
    forall k | 0 <= k < |t.steps[stepId].evidence| ensures t.steps[stepId].evidence[k].acceptanceId != id {
      assert t.steps[stepId].evidence[k] in t.steps[stepId].evidence;
    }
  }

  /** No step of t has evidence that it did not have in s. */
  ghost predicate NothingSupplied(s: GovState, t: GovState) {
    forall id, e :: id in t.steps && e in t.steps[id].evidence ==> id in s.steps && e in s.steps[id].evidence
  }

  lemma TaskSupplies(s: GovState, a: ControlArgs)
    ensures NothingSupplied(s, ApplyTask(s, a).1)
  {
    hide NormalizeItems;
  }

  lemma ReviseSupplies(s: GovState, a: ControlArgs)
    ensures NothingSupplied(s, ApplyRevise(s, a).1)
  {
    hide RevisedStep;
    if Truthy(a.stepId) {
      RevisedEvidence(s, a.stepId.value, a);
    }
  }

  lemma ApplySupplies(s: GovState, c: Control, a: ControlArgs, allowPublish: bool)
    ensures NothingSupplied(s, Apply(s, c, a, allowPublish).1)
  {
    hide ApplyTask, ApplyRevise;
    TaskSupplies(s, a);
    ReviseSupplies(s, a);
  }

  lemma BegunSupplies(s: GovState, a: ControlArgs, t: GovState)
    ensures NothingSupplied(s, s) && NothingSupplied(s, Begun(s, a))
    ensures NothingSupplied(Routed(Begun(s, a), a), t) ==> NothingSupplied(s, t)
  {
  }

  lemma TransitionSupplies(s: GovState, a: ControlArgs, allowPublish: bool)
    ensures NothingSupplied(s, Transition(s, a, allowPublish).1)
  {
    hide NothingSupplied, Begun, Routed, Apply;
    BegunSupplies(s, a, Transition(s, a, allowPublish).1);
    if a.control.Some? {
      ApplySupplies(Routed(Begun(s, a), a), a.control.value, a, allowPublish);
    }
  }

  lemma OpenStep(s: GovState, call: Call, allowPublish: bool, stepId: Text, id: Text)
    requires Open(s, stepId, id) && !Supplies(call, stepId, id)
    ensures Open(After(s, call, allowPublish), stepId, id)
  {
    hide Transition, RecordResult;
    var t := After(s, call, allowPublish);
    if call.ControlCall? {
      TransitionSupplies(s, call.control, allowPublish);
      if stepId in t.steps {
        forall k | 0 <= k < |t.steps[stepId].evidence| ensures t.steps[stepId].evidence[k].acceptanceId != id {
          assert t.steps[stepId].evidence[k] in t.steps[stepId].evidence;
        }
      }
    } else {
      ResultOpen(s, call.result, stepId, id);
    }
  }

  lemma ResultOpen(s: GovState, a: ResultArgs, stepId: Text, id: Text)
    requires Open(s, stepId, id) && !Supplies(ResultCall(a), stepId, id)
    ensures Open(RecordResult(s, a).1, stepId, id)
  {
    hide MachineGateOf, WithoutIds;
    if a.stepId == Some(stepId) && a.evidence.Some? {
      WithoutIdsKeeps(a.evidence.value, {[]});
      var kept := NamedEvidence(a.evidence.value);
      forall k | 0 <= k < |kept| ensures kept[k].acceptanceId != id {
        assert kept[k] in kept;
      }
    }
  }

  lemma RevisedEvidence(s: GovState, id: Text, a: ControlArgs)
    ensures forall e :: e in RevisedStep(s, id, a).evidence ==> id in s.steps && e in s.steps[id].evidence
  {
    var step := if id in s.steps then s.steps[id] else NewStep(a.acceptance);
    var contract := if a.acceptance.Some? then ItemsOf(a.acceptance) else step.acceptance;
    if a.reviseDelta.Some? {
      WithoutIdsKeeps(step.evidence, Reopened(contract, a.reviseDelta.value));
    }
  }

  /** Until a RESULT supplies evidence for the id, a step whose contract requires it does not pass
      the gate, is not accepted, and cannot be the step on which DONE stands. */
  lemma {:induction false} ReopenedStaysOpen(s: GovState, calls: seq<Call>, allowPublish: bool, stepId: Text, id: Text)
    requires Sound(s) && Open(s, stepId, id)
    requires forall k :: 0 <= k < |calls| ==> !Supplies(calls[k], stepId, id)
    ensures var t := Run(s, calls, allowPublish);
            && Open(t, stepId, id)
            && (stepId in t.steps && Requires(t.steps[stepId], id) ==>
                  && t.steps[stepId].machineGate != GatePass
                  && t.steps[stepId].brainAcceptance != BrainAccepted
                  && !(TerminalDone(t) && t.currentStepId == Some(stepId)))
    decreases |calls|
  {
    hide After, Sound, Open, Supplies, GateHolds, GateOk;
    var t := Run(s, calls, allowPublish);
    RunSound(s, calls, allowPublish);
    if calls != [] {
      var before := calls[..|calls| - 1];
      ReopenedStaysOpen(s, before, allowPublish, stepId, id);
      OpenStep(Run(s, before, allowPublish), calls[|calls| - 1], allowPublish, stepId, id);
    }
    if stepId in t.steps && Requires(t.steps[stepId], id) {
      OpenNotPassing(t, stepId, id);
    }
  }

  lemma OpenNotPassing(t: GovState, stepId: Text, id: Text)
    requires Sound(t) && Open(t, stepId, id) && stepId in t.steps && Requires(t.steps[stepId], id)
    ensures t.steps[stepId].machineGate != GatePass && t.steps[stepId].brainAcceptance != BrainAccepted
    ensures !(TerminalDone(t) && t.currentStepId == Some(stepId))
  {
    hide GateHolds, GateOk;
    var step := t.steps[stepId];
    assert StepSound(step);
    var k :| 0 <= k < |step.acceptance| && step.acceptance[k].required && step.acceptance[k].id == id;
    GateNeedsEvidence(step.acceptance, step.evidence, k);
    GateOkIff(step.acceptance, step.evidence);
  }
}
