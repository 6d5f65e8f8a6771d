/**
 GovernanceService of src/governance/index.js as the object it is: fields that transition and
 recordResult assign one after the other, also on the way to a throw. Each method is the function
 of the same name in Lifecycle.
 */
module GovernanceServiceObject {
  import opened Wrappers
  import opened JsStrings
  import opened AcceptanceGate
  import L = Lifecycle

  class GovernanceService {
    const allowPublish: bool
    var taskId: Option<Text>
    var control: Option<L.Control>
    var route: Option<L.Route>
    var localRoute: Option<L.Route>
    var planRevision: nat
    var currentStepId: Option<Text>
    var previousStepId: Option<Text>
    var steps: map<Text, L.Step>
    var awaitingUser: bool
    var publicationRequired: bool
    var publishResult: Option<L.Publication>
    var published: bool

    function State(): L.GovState
      reads this
    {
      L.GovState(taskId, control, route, localRoute, planRevision, currentStepId, previousStepId, steps,
                 awaitingUser, publicationRequired, publishResult, published)
    }

    constructor (allowPublish: bool)
      ensures this.allowPublish == allowPublish && State() == L.FRESH
    {
      this.allowPublish := allowPublish;
      taskId, control, route, localRoute := None, None, None, None;
      planRevision, currentStepId, previousStepId, steps := 0, None, None, map[];
      awaitingUser, publicationRequired, publishResult, published := false, false, None, false;
    }

    /** Replacing the whole state, as loading a snapshot does. */
    method SetState(s: L.GovState)
      modifies this
      ensures State() == s
    {
      taskId, control, route, localRoute := s.taskId, s.control, s.route, s.localRoute;
      planRevision, currentStepId, previousStepId, steps := s.planRevision, s.currentStepId, s.previousStepId, s.steps;
      awaitingUser, publicationRequired, publishResult, published :=
        s.awaitingUser, s.publicationRequired, s.publishResult, s.published;
    }

    method BindTask(id: Option<Text>)
      modifies this`taskId
      ensures State() == L.Bind(old(State()), id)
    {
      if id.Some? && !Truthy(taskId) {
        taskId := id;
      }
    }

    method AcceptStep(id: Text)
      requires id in steps
      modifies this`steps
      ensures State() == L.Accept(old(State()), id)
    {
      var step := steps[id];
      steps := steps[id := step.(brainAcceptance := L.BrainAccepted)];
    }

    /** Advancing to another step accepts the one before. */
    method AdvanceTo(id: Text) returns (ok: bool)
      modifies this
      ensures ok <==> L.Advance(old(State()), id).Some?
      ensures State() == if ok then L.Advance(old(State()), id).value else old(State())
    {
      if Truthy(currentStepId) && currentStepId != Some(id) {
        if currentStepId.value !in steps || !L.HardOk(steps[currentStepId.value]) {
          return false;
        }
        AcceptStep(currentStepId.value);
        previousStepId := currentStepId;
      }
      ok := true;
    }

    method IssueStep(id: Text, acceptance: Option<seq<RawItem>>) returns (reply: L.Reply)
      modifies this
      ensures (reply, State()) == L.Issue(old(State()), id, acceptance)
    {
      currentStepId := Some(id);
      reply := L.Answered(false);
      if id in steps {
        var existing := steps[id];
        if L.HasResult(existing) {
          reply := L.Answered(true);
        } else {
          if acceptance.Some? {
            existing := existing.(acceptance := L.ItemsOf(acceptance));
          }
          steps := steps[id := existing.(brainAcceptance := L.BrainPending)];
        }
      } else {
        steps := steps[id := L.NewStep(acceptance)];
      }
      control := Some(L.TASK);
    }

    method Task(a: L.ControlArgs) returns (reply: L.Reply)
      modifies this
      ensures (reply, State()) == L.ApplyTask(old(State()), a)
    {
      hide L.Advance, L.Issue;
      awaitingUser := false;
      if !Truthy(a.stepId) {
        return L.Threw;
      }
      var ready := AdvanceTo(a.stepId.value);
      if !ready {
        return L.Threw;
      }
      reply := IssueStep(a.stepId.value, a.acceptance);
    }

    method Revise(a: L.ControlArgs) returns (reply: L.Reply)
      modifies this
      ensures (reply, State()) == L.ApplyRevise(old(State()), a)
    {
      if !Truthy(a.stepId) {
        return L.Threw;
      }
      var id := a.stepId.value;
      currentStepId := Some(id);
      var step := if id in steps then steps[id] else L.NewStep(a.acceptance);
      if a.acceptance.Some? {
        step := step.(acceptance := L.ItemsOf(a.acceptance));
      }
      step := step.(brainAcceptance := L.BrainRevise);
      if a.reviseDelta.Some? {
        var reopened := L.Reopened(step.acceptance, a.reviseDelta.value);
        step := step.(evidence := L.WithoutIds(step.evidence, reopened));
      }
      steps := steps[id := step.(executorStatus := L.ExecutorUnknown, machineGate := L.GatePending)];
      control := Some(L.REVISE);
      reply := L.Answered(false);
    }

    method Publish() returns (reply: L.Reply)
      modifies this
      ensures (reply, State()) == L.ApplyPublish(old(State()), allowPublish)
    {
      awaitingUser := false;
      reply := L.Answered(true);
      var cur := L.CurrentStep(State());
      if cur.Some? && L.HardOk(cur.value) && allowPublish {
        AcceptStep(currentStepId.value);
        publicationRequired := true;
        reply := L.Answered(false);
      }
      control := Some(L.PUBLISH);
    }

    method Done() returns (reply: L.Reply)
      modifies this
      ensures (reply, State()) == L.ApplyDone(old(State()))
    {
      awaitingUser := false;
      reply := L.Answered(true);
      var cur := L.CurrentStep(State());
      if cur.None? || cur.value.executorStatus != L.ExecutorSuccess || cur.value.machineGate != L.GatePass {
        return;
      }
      if publicationRequired && !L.PublicationReady(publishResult) {
        return;
      }
      AcceptStep(currentStepId.value);
      control := Some(L.DONE);
      reply := L.Answered(false);
    }

    /** The switch over the controls. */
    method ApplyControl(c: L.Control, a: L.ControlArgs) returns (reply: L.Reply)
      modifies this
      ensures (reply, State()) == L.Apply(old(State()), c, a, allowPublish)
    {
      hide L.ApplyTask, L.ApplyRevise, L.ApplyPublish, L.ApplyDone;
      match c {
        case PLAN =>
          planRevision := planRevision + 1;
          awaitingUser := false;
          control := Some(L.PLAN);
          reply := L.Answered(false);
        case REPLAN =>
          planRevision := planRevision + 1;
          awaitingUser := false;
          control := Some(L.REPLAN);
          reply := L.Answered(false);
        case TASK =>
          reply := Task(a);
        case REVISE =>
          reply := Revise(a);
        case ASK_USER =>
          awaitingUser := true;
          control := Some(L.ASK_USER);
          reply := L.Answered(true);
        case PUBLISH =>
          reply := Publish();
        case DONE =>
          reply := Done();
      }
    }

    method Transition(a: L.ControlArgs) returns (reply: L.Reply)
      modifies this
      ensures (reply, State()) == L.Transition(old(State()), a, allowPublish)
    {
      hide L.Apply;
      if a.control.None? {
        return L.Threw;
      }
      if a.taskId.Some? && Truthy(taskId) && a.taskId != taskId {
        if control == Some(L.DONE) && a.control == Some(L.PLAN) {
          SetState(L.FRESH);
        } else {
          return L.Threw;
        }
      }
      BindTask(a.taskId);
      if !Truthy(taskId) {
        return L.Threw;
      }
      if control == Some(L.DONE) {
        return if a.control == Some(L.DONE) then L.Answered(false) else L.Threw;
      }
      if a.route.Some? {
        route := a.route;
      }
      if a.localRoute.Some? {
        localRoute := a.localRoute;
      }
      reply := ApplyControl(a.control.value, a);
    }

    /** The step with the RESULT in it and its gate computed. */
    method ResultInto(before: L.Step, a: L.ResultArgs) returns (step: L.Step)
      ensures step == L.ResultStep(before, a)
    {
      hide GateHolds, GateOk;
      step := before.(executorStatus := a.executorStatus);
      if a.evidence.Some? {
        step := step.(evidence := L.NamedEvidence(a.evidence.value));
      }
      if a.changed.Some? {
        step := step.(changed := a.changed.value);
      }
      var gate := EvaluateDirectAcceptanceGate(step.acceptance, step.evidence);
      GateOkIff(step.acceptance, step.evidence);
      step := step.(machineGate := if gate.ok then L.GatePass else L.GateFail, brainAcceptance := L.BrainPending);
    }

    method RecordResult(a: L.ResultArgs) returns (reply: L.Reply)
      modifies this
      ensures (reply, State()) == L.RecordResult(old(State()), a)
    {
      hide L.ResultStep;
      if control == Some(L.DONE) || (a.taskId.Some? && Truthy(taskId) && a.taskId != taskId) {
        return L.Threw;
      }
      BindTask(a.taskId);
      if !Truthy(taskId) || !Truthy(a.stepId) || a.stepId != currentStepId || a.stepId.value !in steps {
        return L.Threw;
      }
      var step := ResultInto(steps[a.stepId.value], a);
      steps := steps[a.stepId.value := step];
      if a.publication.Some? {
        publishResult := a.publication;
        published := a.publication.value.ok;
      }
      reply := L.Answered(false);
    }
  }
}
