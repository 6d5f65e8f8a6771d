/**
 The resumable task engine of src/legacy/task-manager.js: it writes its state before and after every
 call of the executor, so that a crash at any point never makes a resume execute a step twice.

 One driver works on a task at a time. opening labels each time a step is started or re-opened; the
 source has no such field, the label only tells the openings apart.
 */
module TaskManager {
  import opened Wrappers
  import opened JsStrings

  datatype StepStatus = Received | Executing | Executed | Recorded | Sent | Reviewed

  datatype Step = Step(id: Text, status: StepStatus, opening: nat)

  datatype TaskStatus = Running | AwaitingUser | RecoveryRequired | Completed | Cancelled

  datatype Kind = PLAN | REPLAN | TASK | REVISE | ASK_USER | DONE

  datatype Acceptance = Acceptance(id: Text, required: bool, pass: bool)

  datatype PlanStep = PlanStep(id: Text, milestone: Option<Text>)

  /** mandatory: verification 'milestone' or 'final'. */
  datatype Milestone = Milestone(id: Text, mandatory: bool)

  datatype Plan = Plan(steps: seq<PlanStep>, milestones: seq<Milestone>)

  datatype Control = Control(kind: Kind, stepId: Option<Text>, acceptance: seq<Acceptance>, plan: Option<Plan>)

  datatype Task = Task(
    status: TaskStatus, conversation: bool, round: nat, pending: Control,
    inFlight: Option<Text>, currentStep: Option<Text>,
    steps: seq<Step>, completed: seq<Text>, registry: seq<Acceptance>, plan: Option<Plan>)

  /** The stored task, the executor calls so far by opening, and whether an engine is running. */
  datatype Sys = Sys(disk: Task, calls: seq<nat>, next: nat, running: bool)

  /** Where the process dies during one action, if at all; a call that throws stops it likewise. */
  datatype Crash = NoCrash | AtOnce | AfterFirstWrite | AfterCall

  /** What one action gets from outside: the next control, the evidence of the executor, a refusal of
      the control, and the crash. */
  datatype Input = Input(reply: Control, evidence: seq<Acceptance>, refused: bool, crash: Crash)

  // ---------------------------------------------------------------------------------------
  // Steps and plans
  // ---------------------------------------------------------------------------------------

  /** findStep: the first step with the id. */
  function FindStep(steps: seq<Step>, id: Text): (k: Option<nat>)
    ensures k.Some? ==> k.value < |steps| && steps[k.value].id == id
    ensures k.Some? ==> forall j :: 0 <= j < k.value ==> steps[j].id != id
    ensures k.None? ==> forall s :: s in steps ==> s.id != id
  {
    if steps == [] then None
    else if steps[0].id == id then Some(0)
    else
      var k := FindStep(steps[1..], id);
      if k.None? then None else Some(k.value + 1)
  }

  function InFlightStep(t: Task): Option<nat> {
    if t.inFlight.None? || t.inFlight.value == [] then None else FindStep(t.steps, t.inFlight.value)
  }

  function FindPlanStep(steps: seq<PlanStep>, id: Text): Option<PlanStep> {
    if steps == [] then None else if steps[0].id == id then Some(steps[0]) else FindPlanStep(steps[1..], id)
  }

  function NextPending(steps: seq<PlanStep>, completed: seq<Text>): Option<Text> {
    if steps == [] then None else if steps[0].id !in completed then Some(steps[0].id)
        else NextPending(steps[1..], completed)
  }

  predicate PlanMode(t: Task) { t.plan.Some? && t.plan.value.steps != [] }

  predicate Given(id: Option<Text>) { id.Some? && id.value != [] }

  function Decimal(n: nat): Text { (if n < 10 then [] else Decimal(n / 10)) + [48 + n % 10] }

  const STEP_PREFIX: Text := [115, 116, 101, 112, 45]  // step-

  /** _resolveStepIdentity; None is a ProtocolError. */
  function ResolveStep(t: Task, c: Control): Option<Text> {
    if !PlanMode(t) then Some(STEP_PREFIX + Decimal(t.round + 1))
    else
      var plan := t.plan.value;
      var id := if Given(c.stepId) then (if FindPlanStep(plan.steps, c.stepId.value).Some? then c.stepId else None)
                else if Given(t.currentStep) && FindPlanStep(plan.steps, t.currentStep.value).Some? then t.currentStep
                else NextPending(plan.steps, t.completed);
      if !Given(id) then None
      else
        var found := FindPlanStep(plan.steps, id.value);
        if plan.milestones != [] && !(found.Some? && Given(found.value.milestone)) then None else id
  }

  function Registered(registry: seq<Acceptance>, more: seq<Acceptance>): seq<Acceptance>
    decreases |more|
  {
    if more == [] then registry
    else Registered(if exists a :: a in registry && a.id == more[0].id then registry
                    else registry + [more[0].(pass := false)], more[1..])
  }

  function Apply1(registry: seq<Acceptance>, e: Acceptance): seq<Acceptance> {
    if registry == [] then [Acceptance(e.id, true, e.pass)]
    else if registry[0].id == e.id then [registry[0].(pass := e.pass)] + registry[1..]
    else [registry[0]] + Apply1(registry[1..], e)
  }

  /** applyEvidence */
  function Applied(registry: seq<Acceptance>, evidence: seq<Acceptance>): seq<Acceptance>
    decreases |evidence|
  {
    if evidence == [] then registry else Applied(Apply1(registry, evidence[0]), evidence[1..])
  }

  predicate AllPass(registry: seq<Acceptance>) { forall a :: a in registry && a.required ==> a.pass }

  /** _mandatoryVerificationBlocked finds nothing. */
  predicate MandatoryDone(plan: Option<Plan>, completed: seq<Text>) {
    plan.Some? ==>
      forall m, s :: m in plan.value.milestones && m.mandatory && s in plan.value.steps && s.milestone == Some(m.id)
        ==> s.id in completed
  }

  function SetStatus(t: Task, k: nat, status: StepStatus): Task
    requires k < |t.steps|
  {
    t.(steps := t.steps[k := t.steps[k].(status := status)])
  }

  // ---------------------------------------------------------------------------------------
  // One action of the engine
  // ---------------------------------------------------------------------------------------

  /** The process died, or the action threw: what was written stays. */
  function Stopped(s: Sys): Sys { s.(running := false) }

  function Write(s: Sys, t: Task): Sys { s.(disk := t) }

  /** The goal is sent and the first control arrives. */
  function FirstSend(s: Sys, i: Input): Sys {
    if i.crash != NoCrash || i.refused then Stopped(s)
    else Write(s, s.disk.(conversation := true, pending := i.reply))
  }

  function HandleDone(s: Sys, i: Input): Sys {
    if i.crash != NoCrash then Stopped(s)
    else if AllPass(s.disk.registry) && MandatoryDone(s.disk.plan, s.disk.completed) then
      Stopped(Write(s, s.disk.(status := Completed)))
    else Stopped(Write(s, s.disk.(status := AwaitingUser)))
  }

  /** PLAN and REPLAN: the plan is written, then the next control is asked for. */
  function HandlePlan(s: Sys, i: Input): Sys {
    if i.crash == AtOnce then Stopped(s)
    else
      var plan := if s.disk.pending.plan.Some? then s.disk.pending.plan else s.disk.plan;
      var t := s.disk.(plan := plan, currentStep := None);
      var u := if s.disk.pending.kind == PLAN then t.(status := Running) else t;
      if i.crash != NoCrash || i.refused then Stopped(Write(s, u)) else Write(s, u.(pending := i.reply))
  }

  /** _startOrReopenStep: a reviewed step is re-opened, otherwise a new one is added. */
  function OpenStep(s: Sys, id: Text, existing: Option<nat>, i: Input): Sys
    requires existing.Some? ==> existing.value < |s.disk.steps|
  {
    if i.crash != NoCrash || i.refused then Stopped(s)
    else
      var t := s.disk;
      var steps := if existing.Some? && t.steps[existing.value].status == Reviewed
                   then t.steps[existing.value := Step(t.steps[existing.value].id, Received, s.next)]
                   else t.steps + [Step(id, Received, s.next)];
      Write(s.(next := s.next + 1),
            t.(steps := steps, inFlight := Some(id), currentStep := Some(id),
               registry := Registered(t.registry, t.pending.acceptance)))
  }

  /** A received step: it is marked and written as executing, executed, and written again. */
  function Execute(s: Sys, k: nat, i: Input): Sys
    requires k < |s.disk.steps|
  {
    var marked := Write(s, SetStatus(s.disk, k, Executing));
    var called := marked.(calls := s.calls + [s.disk.steps[k].opening]);
    match i.crash
    case AtOnce => Stopped(s)
    case AfterFirstWrite => Stopped(marked)
    case AfterCall => Stopped(called)
    case NoCrash => if i.refused then Stopped(called) else Write(called, SetStatus(s.disk, k, Executed))
  }

  function Record(s: Sys, k: nat, i: Input): Sys
    requires k < |s.disk.steps|
  {
    if i.crash != NoCrash then Stopped(s)
    else Write(s, SetStatus(s.disk, k, Recorded).(registry := Applied(s.disk.registry, i.evidence)))
  }

  /** The RESULT is sent, the step is reviewed by the reply. */
  function Review(s: Sys, k: nat, i: Input): Sys
    requires k < |s.disk.steps|
  {
    if i.crash != NoCrash || i.refused then Stopped(s)
    else
      var id := s.disk.steps[k].id;
      Write(s, SetStatus(s.disk, k, Reviewed).(
        completed := if id in s.disk.completed then s.disk.completed else s.disk.completed + [id],
        inFlight := None, currentStep := None, round := s.disk.round + 1, pending := i.reply))
  }

  /** _handleTask */
  function HandleTask(s: Sys, i: Input): Sys {
    var t := s.disk;
    var id := ResolveStep(t, t.pending);
    if id.None? then Stopped(s)
    else
      var active := InFlightStep(t);
      var existing := if PlanMode(t) then FindStep(t.steps, id.value) else None;
      if active.None? || t.steps[active.value].status == Reviewed
         || (existing.Some? && t.steps[existing.value].status == Reviewed)
      then OpenStep(s, id.value, existing, i)
      else
        match t.steps[active.value].status
        case Received => Execute(s, active.value, i)
        case Executed => Record(s, active.value, i)
        case Recorded => Review(s, active.value, i)
        case Sent => Review(s, active.value, i)
        case _ => s
  }

  /** One round of the engine loop. */
  function Act(s: Sys, i: Input): Sys {
    var t := s.disk;
    if !s.running then s
    else if t.status == Completed || t.status == Cancelled || t.status == RecoveryRequired then Stopped(s)
    else if !t.conversation then FirstSend(s, i)
    else
      match t.pending.kind
      case DONE => HandleDone(s, i)
      case ASK_USER => if i.crash != NoCrash then Stopped(s) else Stopped(Write(s, t.(status := AwaitingUser)))
      case PLAN => HandlePlan(s, i)
      case REPLAN => HandlePlan(s, i)
      case TASK => HandleTask(s, i)
      case REVISE => HandleTask(s, i)
  }

  /** _needsRecovery */
  predicate NeedsRecovery(t: Task) {
    InFlightStep(t).Some? && t.steps[InFlightStep(t).value].status == Executing
  }

  /** resumeTask, while no engine runs. */
  function Resume(s: Sys): Sys {
    if s.running || s.disk.status == Completed || s.disk.status == Cancelled then s
    else if NeedsRecovery(s.disk) then Write(s, s.disk.(status := RecoveryRequired))
    else s.(running := true)
  }

  /** cancelTask, while no engine runs. */
  function Cancel(s: Sys): Sys { if s.running then s else Write(s, s.disk.(status := Cancelled)) }

  datatype Event = OnAct(input: Input) | OnResume | OnCancel | OnCrash

  function Next(s: Sys, e: Event): Sys {
    match e
    case OnAct(i) => Act(s, i)
    case OnResume => Resume(s)
    case OnCancel => Cancel(s)
    case OnCrash => Stopped(s)
  }

  function Run(s: Sys, events: seq<Event>): Sys
    decreases |events|
  {
    if events == [] then s else Next(Run(s, events[..|events| - 1]), events[|events| - 1])
  }

  // ---------------------------------------------------------------------------------------
  // What every run keeps
  // ---------------------------------------------------------------------------------------

  /** Openings are told apart, and one that waits to be executed has not been executed. */
  ghost predicate Fresh(s: Sys) {
    && (forall j, k :: 0 <= j < k < |s.disk.steps| ==> s.disk.steps[j].opening != s.disk.steps[k].opening)
    && (forall k :: 0 <= k < |s.disk.steps| ==> s.disk.steps[k].opening < s.next)
    && (forall n :: n in s.calls ==> n < s.next)
    && (forall k :: 0 <= k < |s.disk.steps| && s.disk.steps[k].status == Received ==>
        s.disk.steps[k].opening !in s.calls)
  }

  predicate CalledOnce(calls: seq<nat>) { forall j, k :: 0 <= j < k < |calls| ==> calls[j] != calls[k] }

  predicate CompletedRightly(t: Task) {
    t.status == Completed ==> AllPass(t.registry) && MandatoryDone(t.plan, t.completed)
  }

  ghost predicate Inv(s: Sys) { Fresh(s) && CalledOnce(s.calls) && CompletedRightly(s.disk) }

  lemma OpenKeeps(s: Sys, id: Text, existing: Option<nat>, i: Input)
    requires Fresh(s) && (existing.Some? ==> existing.value < |s.disk.steps|)
    ensures Fresh(OpenStep(s, id, existing, i))
  {
    hide Registered;
  }

  lemma ExecuteKeeps(s: Sys, k: nat, i: Input)
    requires Fresh(s) && CalledOnce(s.calls) && k < |s.disk.steps| && s.disk.steps[k].status == Received
    ensures Fresh(Execute(s, k, i)) && CalledOnce(Execute(s, k, i).calls)
  {
  }

  lemma StatusKeeps(s: Sys, t: Task, k: nat, status: StepStatus)
    requires Fresh(s) && k < |s.disk.steps| && status != Received && t.steps == SetStatus(s.disk, k, status).steps
    ensures Fresh(Write(s, t))
  {
  }

  lemma SameFresh(s: Sys, t: Task, running: bool)
    requires Fresh(s) && t.steps == s.disk.steps
    ensures Fresh(s.(disk := t, running := running))
  {
  }

  lemma RecordKeeps(s: Sys, k: nat, i: Input)
    requires Fresh(s) && k < |s.disk.steps|
    ensures Fresh(Record(s, k, i)) && Fresh(Review(s, k, i))
  {
    hide Fresh, Applied;
    SameFresh(s, s.disk, false);
    StatusKeeps(s, SetStatus(s.disk, k, Recorded).(registry := Applied(s.disk.registry, i.evidence)), k, Recorded);
    if i.crash == NoCrash && !i.refused {
      StatusKeeps(s, Review(s, k, i).disk, k, Reviewed);
    }
  }

  lemma TaskFresh(s: Sys, i: Input)
    requires Fresh(s) && CalledOnce(s.calls)
    ensures Fresh(HandleTask(s, i)) && CalledOnce(HandleTask(s, i).calls)
  {
    hide Fresh, CalledOnce, OpenStep, Execute, Record, Review, ResolveStep;
    var t := s.disk;
    var id := ResolveStep(t, t.pending);
    SameFresh(s, t, false);
    if id.Some? {
      var active := InFlightStep(t);
      var existing := if PlanMode(t) then FindStep(t.steps, id.value) else None;
      OpenKeeps(s, id.value, existing, i);
      SameCalls(s, id.value, existing, 0, i);
      if active.Some? {
        RecordKeeps(s, active.value, i);
        SameCalls(s, id.value, existing, active.value, i);
        if t.steps[active.value].status == Received {
          ExecuteKeeps(s, active.value, i);
        }
      }
    }
  }

  lemma SameCalls(s: Sys, id: Text, existing: Option<nat>, k: nat, i: Input)
    requires existing.Some? ==> existing.value < |s.disk.steps|
    ensures OpenStep(s, id, existing, i).calls == s.calls
    ensures k < |s.disk.steps| ==> Record(s, k, i).calls == s.calls && Review(s, k, i).calls == s.calls
  {
  }

  /** Handling a step neither completes the task nor touches it when it is not running. */
  lemma TaskNotCompleted(s: Sys, i: Input)
    requires s.disk.status != Completed
    ensures HandleTask(s, i).disk.status != Completed
  {
    hide ResolveStep, Applied, Registered;
  }

  lemma ActKeeps(s: Sys, i: Input)
    requires Inv(s)
    ensures Inv(Act(s, i))
  {
    hide Fresh, CalledOnce, HandleTask, AllPass, MandatoryDone;
    var t := s.disk;
    SameFresh(s, t, false);
    if s.running && t.status != Completed && t.status != Cancelled && t.status != RecoveryRequired {
      if !t.conversation {
        SameFresh(s, FirstSend(s, i).disk, FirstSend(s, i).running);
      } else if t.pending.kind == DONE {
        SameFresh(s, HandleDone(s, i).disk, false);
      } else if t.pending.kind == PLAN || t.pending.kind == REPLAN {
        SameFresh(s, HandlePlan(s, i).disk, HandlePlan(s, i).running);
      } else if t.pending.kind == ASK_USER {
        SameFresh(s, t.(status := AwaitingUser), false);
      } else {
        TaskFresh(s, i);
        TaskNotCompleted(s, i);
      }
    }
  }

  lemma StepKeeps(s: Sys, e: Event)
    requires Inv(s)
    ensures Inv(Next(s, e))
  {
    hide Fresh, CalledOnce, Act, AllPass, MandatoryDone, NeedsRecovery;
    SameFresh(s, s.disk, false);
    SameFresh(s, s.disk, true);
    SameFresh(s, s.disk.(status := Cancelled), s.running);
    SameFresh(s, s.disk.(status := RecoveryRequired), s.running);
    if e.OnAct? {
      ActKeeps(s, e.input);
    }
  }

  lemma {:induction false} RunKeeps(s: Sys, events: seq<Event>)
    requires Inv(s)
    ensures Inv(Run(s, events))
    decreases |events|
  {
    hide Inv, Next;
    if events != [] {
      RunKeeps(s, events[..|events| - 1]);
      StepKeeps(Run(s, events[..|events| - 1]), events[|events| - 1]);
    }
  }

  /** newTaskState, and no call of the executor so far. */
  predicate NewTask(s: Sys) {
    && s.disk.status == Running && !s.disk.conversation && s.disk.round == 0 && s.disk.inFlight.None?
       && s.disk.currentStep.None?
    && s.disk.steps == [] && s.disk.completed == [] && s.disk.registry == [] && s.disk.plan.None? && s.calls == []
  }

  // ---------------------------------------------------------------------------------------
  // Main results
  // ---------------------------------------------------------------------------------------

  /** Over all resumes, with a crash at any point, each opening of a step reaches the executor at most
      once. */
  lemma ExecutedAtMostOnce(s: Sys, events: seq<Event>)
    requires NewTask(s)
    ensures CalledOnce(Run(s, events).calls)
  {
    RunKeeps(s, events);
  }

  /** A step whose execution was cut short is never executed again: from then on the engine does not
      run, and the task can only be cancelled. */
  lemma {:induction false} InterruptedStaysStopped(s: Sys, events: seq<Event>)
    requires !s.running && NeedsRecovery(s.disk) && s.disk.status != Completed
    ensures !Run(s, events).running && Run(s, events).calls == s.calls && NeedsRecovery(Run(s, events).disk)
    ensures Run(s, events).disk.status != Completed && Run(s, events).disk.steps == s.disk.steps
    decreases |events|
  {
    hide FindStep;
    if events != [] {
      InterruptedStaysStopped(s, events[..|events| - 1]);
    }
  }

  // ---------------------------------------------------------------------------------------
  // The engine object
  // ---------------------------------------------------------------------------------------

  /** The engine over its store: every method is the function of the same action, written as the
      writes and calls that the source makes one after another. */
  class Engine {
    var disk: Task
    var calls: seq<nat>
    var next: nat
    var running: bool

    function State(): Sys
      reads this
    {
      Sys(disk, calls, next, running)
    }

    constructor (s: Sys)
      ensures State() == s
    {
      disk, calls, next, running := s.disk, s.calls, s.next, s.running;
    }

    method Persist(t: Task)
      modifies this`disk
      ensures disk == t
    {
      disk := t;
    }

    method ExecuteStep(k: nat, i: Input)
      requires k < |disk.steps|
      modifies this
      ensures State() == Execute(old(State()), k, i)
    {
      if i.crash == AtOnce {
        running := false;
        return;
      }
      var task := SetStatus(disk, k, Executing);
      Persist(task);
      if i.crash == AfterFirstWrite {
        running := false;
        return;
      }
      calls := calls + [task.steps[k].opening];
      if i.crash == AfterCall || i.refused {
        running := false;
        return;
      }
      task := SetStatus(task, k, Executed);
      assert task.steps == SetStatus(old(disk), k, Executed).steps;
      Persist(task);
    }

    method Stop()
      modifies this`running
      ensures !running
    {
      running := false;
    }

    method SendGoal(i: Input)
      modifies this
      ensures State() == FirstSend(old(State()), i)
    {
      if i.crash != NoCrash || i.refused {
        Stop();
        return;
      }
      Persist(disk.(conversation := true, pending := i.reply));
    }

    method Done(i: Input)
      modifies this
      ensures State() == HandleDone(old(State()), i)
    {
      if i.crash == NoCrash {
        if AllPass(disk.registry) && MandatoryDone(disk.plan, disk.completed) {
          Persist(disk.(status := Completed));
        } else {
          Persist(disk.(status := AwaitingUser));
        }
      }
      Stop();
    }

    method StartOrReopenStep(id: Text, existing: Option<nat>, i: Input)
      requires existing.Some? ==> existing.value < |disk.steps|
      modifies this
      ensures State() == OpenStep(old(State()), id, existing, i)
    {
      if i.crash != NoCrash || i.refused {
        Stop();
        return;
      }
      var task := disk;
      if existing.Some? && task.steps[existing.value].status == Reviewed {
        task := task.(steps := task.steps[existing.value := Step(task.steps[existing.value].id, Received, next)]);
      } else {
        task := task.(steps := task.steps + [Step(id, Received, next)]);
      }
      next := next + 1;
      task := task.(inFlight := Some(id));
      task := task.(currentStep := Some(id));
      Persist(task.(registry := Registered(task.registry, task.pending.acceptance)));
    }

    method RecordStep(k: nat, i: Input)
      requires k < |disk.steps|
      modifies this
      ensures State() == Record(old(State()), k, i)
    {
      if i.crash != NoCrash {
        Stop();
        return;
      }
      var task := disk.(registry := Applied(disk.registry, i.evidence));
      Persist(SetStatus(task, k, Recorded));
    }

    method ReviewStep(k: nat, i: Input)
      requires k < |disk.steps|
      modifies this
      ensures State() == Review(old(State()), k, i)
    {
      if i.crash != NoCrash || i.refused {
        Stop();
        return;
      }
      var task := SetStatus(disk, k, Reviewed);
      if task.steps[k].id !in task.completed {
        task := task.(completed := task.completed + [task.steps[k].id]);
      }
      task := task.(inFlight := None, round := task.round + 1);
      Persist(task.(pending := i.reply, currentStep := None));
    }

    /** _handleTask: one step is opened, executed, recorded or reviewed. */
    method HandleTaskControl(i: Input)
      modifies this
      ensures State() == HandleTask(old(State()), i)
    {
      hide OpenStep, Execute, Record, Review, ResolveStep;
      var id := ResolveStep(disk, disk.pending);
      if id.None? {
        Stop();
        return;
      }
      var active := InFlightStep(disk);
      var existing: Option<nat> := None;
      if PlanMode(disk) {
        existing := FindStep(disk.steps, id.value);
      }
      if active.None? || disk.steps[active.value].status == Reviewed
         || (existing.Some? && disk.steps[existing.value].status == Reviewed) {
        StartOrReopenStep(id.value, existing, i);
        return;
      }
      match disk.steps[active.value].status {
        case Received => ExecuteStep(active.value, i);
        case Executed => RecordStep(active.value, i);
        case Recorded | Sent => ReviewStep(active.value, i);
        case _ =>
      }
    }

    /** One round of the engine's loop. */
    method Round(i: Input)
      modifies this
      ensures State() == Act(old(State()), i)
    {
      hide FirstSend, HandleDone, HandlePlan, HandleTask;
      if !running {
        return;
      }
      if disk.status == Completed || disk.status == Cancelled || disk.status == RecoveryRequired {
        Stop();
        return;
      }
      if !disk.conversation {
        SendGoal(i);
        return;
      }
      match disk.pending.kind {
        case DONE => Done(i);
        case ASK_USER =>
          if i.crash == NoCrash {
            Persist(disk.(status := AwaitingUser));
          }
          Stop();
        case PLAN | REPLAN => Plan(i);
        case TASK | REVISE => HandleTaskControl(i);
      }
    }

    method ResumeTask()
      modifies this
      ensures State() == Resume(old(State()))
    {
      if running || disk.status == Completed || disk.status == Cancelled {
        return;
      }
      if NeedsRecovery(disk) {
        Persist(disk.(status := RecoveryRequired));
        return;
      }
      running := true;
    }

    method Plan(i: Input)
      modifies this
      ensures State() == HandlePlan(old(State()), i)
    {
      if i.crash == AtOnce {
        running := false;
        return;
      }
      var task := disk;
      if task.pending.plan.Some? {
        task := task.(plan := task.pending.plan);
      }
      task := task.(currentStep := None);
      if disk.pending.kind == PLAN {
        task := task.(status := Running);
      }
      Persist(task);
      if i.crash != NoCrash || i.refused {
        running := false;
        return;
      }
      Persist(task.(pending := i.reply));
    }
  }
}
