/**
 What the step engine of src/legacy/task-manager.js guarantees about its steps over every run: calls of
 the executor are announced in the store, a completed task was really worked through, and exactly when
 an opened step is executed at all.
 */
module TaskCompletion {
  import opened Wrappers
  import opened JsStrings
  import opened TaskManager

  // ---------------------------------------------------------------------------------------
  // Finding steps
  // ---------------------------------------------------------------------------------------

  lemma {:induction false} FindSameIds(a: seq<Step>, b: seq<Step>, id: Text)
    requires |a| == |b| && forall k :: 0 <= k < |a| ==> a[k].id == b[k].id
    ensures FindStep(a, id) == FindStep(b, id)
  {
    if a != [] && a[0].id != id {
      FindSameIds(a[1..], b[1..], id);
    }
  }

  lemma {:induction false} FindAppended(a: seq<Step>, x: Step, id: Text)
    ensures FindStep(a, id).Some? ==> FindStep(a + [x], id) == FindStep(a, id)
    ensures FindStep(a, id).None? ==> FindStep(a + [x], id) == if x.id == id then Some(|a|) else None
  {
    if a == [] {
      assert a + [x] == [x] && [x][1..] == [];
    } else {
      assert (a + [x])[0] == a[0] && (a + [x])[1..] == a[1..] + [x];
      FindAppended(a[1..], x, id);
    }
  }

  // ---------------------------------------------------------------------------------------
  // What every run keeps
  // ---------------------------------------------------------------------------------------

  predicate IsWork(c: Control) { c.kind == TASK || c.kind == REVISE }

  /** The step that an id finds is reviewed, or the one in flight. */
  predicate Settled(t: Task, id: Text) {
    FindStep(t.steps, id).Some? && (t.steps[FindStep(t.steps, id).value].status == Reviewed || t.inFlight == Some(id))
  }

  /** A step in flight stays the one that the pending control asks for, and is worked on. */
  predicate OnTrack(t: Task) {
    t.inFlight.Some? ==>
      t.inFlight.value != [] && FindStep(t.steps, t.inFlight.value).Some?
      && t.conversation && IsWork(t.pending) && ResolveStep(t, t.pending) == t.inFlight
  }

  predicate WasExecuted(status: StepStatus) { status != Received && status != Executing }

  /** Every step that got past its execution was handed to the executor in its present opening. */
  predicate Called(steps: seq<Step>, calls: seq<nat>) {
    forall k :: 0 <= k < |steps| && WasExecuted(steps[k].status) ==> steps[k].opening in calls
  }

  ghost predicate Tracked(s: Sys) {
    && OnTrack(s.disk) && Called(s.disk.steps, s.calls)
    && (forall x :: x in s.disk.steps ==> Settled(s.disk, x.id))
    && (forall id :: id in s.disk.completed ==> Settled(s.disk, id))
    && (s.disk.status == Completed ==> s.disk.inFlight.None?)
  }

  lemma {:induction false} NextPendingFound(steps: seq<PlanStep>, completed: seq<Text>)
    ensures NextPending(steps, completed).Some? ==> FindPlanStep(steps, NextPending(steps, completed).value).Some?
  {
    if steps != [] {
      NextPendingFound(steps[1..], completed);
    }
  }

  /** Once opened, the step is what the same control resolves to. */
  lemma ResolveStays(t: Task, u: Task, id: Text)
    requires ResolveStep(t, t.pending) == Some(id)
    requires u.pending == t.pending && u.plan == t.plan && u.round == t.round && u.currentStep == Some(id)
    ensures id != [] && ResolveStep(u, u.pending) == Some(id)
  {
    if PlanMode(t) {
      NextPendingFound(t.plan.value.steps, t.completed);
    }
    hide NextPending, Decimal;
  }

  lemma ResolveSame(t: Task, u: Task)
    requires u.pending == t.pending && u.plan == t.plan && u.round == t.round && u.currentStep == t.currentStep
             && u.completed == t.completed
    ensures ResolveStep(u, u.pending) == ResolveStep(t, t.pending)
  {
    hide NextPending, FindPlanStep, Decimal;
  }

  lemma StatusSettled(t: Task, u: Task, k: nat, status: StepStatus)
    requires k < |t.steps| && FindStep(t.steps, t.steps[k].id) == Some(k) && t.inFlight == Some(t.steps[k].id)
    requires u.steps == SetStatus(t, k, status).steps
             && (u.inFlight == t.inFlight || (u.inFlight.None? && status == Reviewed))
    ensures forall id :: Settled(t, id) ==> Settled(u, id)
    ensures FindStep(u.steps, t.steps[k].id) == Some(k)
  {
    forall id ensures FindStep(u.steps, id) == FindStep(t.steps, id) {
      FindSameIds(t.steps, u.steps, id);
    }
    hide FindStep;
  }

  lemma StatusCalled(steps: seq<Step>, more: seq<Step>, k: nat, status: StepStatus, calls: seq<nat>)
    requires k < |steps| && Called(steps, calls) && more == steps[k := steps[k].(status := status)]
    requires WasExecuted(status) ==> steps[k].opening in calls
    ensures Called(more, calls)
  {
  }

  /** Working on the step in flight. */
  lemma WorkTracked(s: Sys, k: nat, i: Input)
    requires Tracked(s) && s.disk.status != Completed && InFlightStep(s.disk) == Some(k)
    ensures s.disk.steps[k].status == Received ==> Tracked(Execute(s, k, i))
    ensures s.disk.steps[k].status == Executed ==> Tracked(Record(s, k, i))
    ensures s.disk.steps[k].status == Recorded || s.disk.steps[k].status == Sent ==> Tracked(Review(s, k, i))
  {
    hide ResolveStep, Settled, FindStep, Applied, Called, IsWork;
    var t := s.disk;
    InFlightFound(t, k);
    StatusTracked(s, k, Executing, s.calls, t.registry);
    StatusTracked(s, k, Executing, s.calls + [t.steps[k].opening], t.registry);
    StatusTracked(s, k, Executed, s.calls + [t.steps[k].opening], t.registry);
    if t.steps[k].status == Executed {
      assert t.steps[k].opening in s.calls by {
        CalledAt(s, k);
      }
      StatusTracked(s, k, Recorded, s.calls, Applied(t.registry, i.evidence));
    } else if (t.steps[k].status == Recorded || t.steps[k].status == Sent) && i.crash == NoCrash && !i.refused {
      ReviewTracked(s, k, i);
    }
  }

  lemma CalledAt(s: Sys, k: nat)
    requires Called(s.disk.steps, s.calls) && k < |s.disk.steps| && WasExecuted(s.disk.steps[k].status)
    ensures s.disk.steps[k].opening in s.calls
  {
  }

  lemma InFlightFound(t: Task, k: nat)
    requires InFlightStep(t) == Some(k)
    ensures k < |t.steps| && t.inFlight == Some(t.steps[k].id) && FindStep(t.steps, t.steps[k].id) == Some(k)
  {
    hide FindStep;
  }

  lemma StatusTracked(s: Sys, k: nat, status: StepStatus, calls: seq<nat>, registry: seq<Acceptance>)
    requires Tracked(s) && s.disk.status != Completed && InFlightStep(s.disk) == Some(k)
    requires forall n :: n in s.calls ==> n in calls
    requires WasExecuted(status) ==> s.disk.steps[k].opening in calls
    ensures forall running :: Tracked(s.(disk := SetStatus(s.disk, k, status).(registry := registry), calls := calls,
                                         running := running))
  {
    var t := s.disk;
    var u := SetStatus(t, k, status).(registry := registry);
    InFlightFound(t, k);
    StatusSettled(t, u, k, status);
    StatusCalled(t.steps, u.steps, k, status, calls);
    ResolveSame(t, u);
    hide ResolveStep, Settled, FindStep, Called, WasExecuted;
    forall x | x in u.steps ensures Settled(u, x.id) {
      var j :| 0 <= j < |u.steps| && u.steps[j] == x;
      assert t.steps[j] in t.steps && t.steps[j].id == x.id;
    }
  }

  lemma ReviewTracked(s: Sys, k: nat, i: Input)
    requires Tracked(s) && s.disk.status != Completed && InFlightStep(s.disk) == Some(k)
    requires s.disk.steps[k].status == Recorded || s.disk.steps[k].status == Sent
    requires i.crash == NoCrash && !i.refused
    ensures Tracked(Review(s, k, i))
  {
    var t, u := s.disk, Review(s, k, i).disk;
    InFlightFound(t, k);
    StatusSettled(t, u, k, Reviewed);
    StatusCalled(t.steps, u.steps, k, Reviewed, s.calls);
    assert Settled(t, t.steps[k].id);
    hide ResolveStep, Settled, FindStep, Called, WasExecuted;
    forall x | x in u.steps ensures Settled(u, x.id) {
      var j :| 0 <= j < |u.steps| && u.steps[j] == x;
      assert t.steps[j] in t.steps && t.steps[j].id == x.id;
    }
  }

  /** Opening a step: it is in flight, and the steps that other ids find stay as they were. */
  lemma OpenSettled(t: Task, u: Task, id: Text, existing: Option<nat>, step: Step)
    requires OnTrack(t) && ResolveStep(t, t.pending) == Some(id) && step.id == id && u.inFlight == Some(id)
    requires existing.Some? ==> FindStep(t.steps, id) == existing && u.steps == t.steps[existing.value := step]
    requires existing.None? ==> u.steps == t.steps + [step]
    ensures forall j :: Settled(t, j) || j == id ==> Settled(u, j)
  {
    hide ResolveStep;
    forall j | Settled(t, j) || j == id ensures Settled(u, j) {
      if existing.Some? {
        FindSameIds(t.steps, u.steps, j);
      } else {
        FindAppended(t.steps, step, j);
      }
      hide FindStep;
    }
  }

  lemma OpenTracked(s: Sys, id: Text, existing: Option<nat>, i: Input)
    requires Tracked(s) && s.disk.conversation && IsWork(s.disk.pending) && s.disk.status != Completed
    requires ResolveStep(s.disk, s.disk.pending) == Some(id)
    requires existing.Some? ==> FindStep(s.disk.steps, id) == existing
    ensures Tracked(OpenStep(s, id, existing, i))
  {
    var t, u := s.disk, OpenStep(s, id, existing, i).disk;
    if i.crash == NoCrash && !i.refused {
      hide FindStep, Registered, ResolveStep, Settled, Decimal;
      var reopened := existing.Some? && t.steps[existing.value].status == Reviewed;
      var step := Step(id, Received, s.next);
      OpenSettled(t, u, id, if reopened then existing else None, step);
      ResolveStays(t, u, id);
      forall x | x in u.steps ensures Settled(u, x.id) {
        assert x in t.steps || x == step;
      }
      assert FindStep(u.steps, id).Some? by {
        SettledFinds(u, id);
      }
    }
  }

  lemma SettledFinds(t: Task, id: Text)
    requires Settled(t, id)
    ensures FindStep(t.steps, id).Some?
  {
    hide FindStep;
  }

  lemma TaskTracked(s: Sys, i: Input)
    requires Tracked(s) && s.disk.conversation && IsWork(s.disk.pending) && s.disk.status != Completed
    ensures Tracked(HandleTask(s, i))
  {
    hide ResolveStep, Settled, FindStep, OnTrack, Called, Execute, Record, Review, OpenStep, IsWork;
    var t := s.disk;
    var id := ResolveStep(t, t.pending);
    if id.Some? {
      var existing := if PlanMode(t) then FindStep(t.steps, id.value) else None;
      OpenTracked(s, id.value, existing, i);
      if InFlightStep(t).Some? {
        WorkTracked(s, InFlightStep(t).value, i);
      }
    }
  }

  /** Without a step in flight nothing but the steps has to be kept. */
  lemma IdleTracked(s: Sys, t: Task, running: bool)
    requires Tracked(s) && t.steps == s.disk.steps && t.completed == s.disk.completed && t.inFlight == s.disk.inFlight
    requires s.disk.inFlight.None? || (t == s.disk.(status := t.status) && t.status != Completed)
    ensures Tracked(s.(disk := t, running := running))
  {
    if s.disk.inFlight.Some? {
      ResolveSame(s.disk, t);
    }
    assert forall id :: Settled(s.disk, id) ==> Settled(t, id);
    hide Settled, ResolveStep, FindStep;
  }

  lemma ActTracked(s: Sys, i: Input)
    requires Tracked(s)
    ensures Tracked(Act(s, i))
  {
    hide HandleTask, Settled, ResolveStep, FindStep, Called, AllPass, MandatoryDone;
    var t := s.disk;
    IdleTracked(s, t, s.running);
    if s.running && t.status != Completed && t.status != Cancelled && t.status != RecoveryRequired {
      IdleTracked(s, t.(status := t.status), false);
      IdleTracked(s, t.(status := AwaitingUser), false);
      if t.conversation && IsWork(t.pending) {
        TaskTracked(s, i);
      } else {
        assert t.inFlight.None?;
        hide Tracked, OnTrack;
        IdleTracked(s, Act(s, i).disk, Act(s, i).running);
      }
    }
  }

  lemma StepTracked(s: Sys, e: Event)
    requires Tracked(s)
    ensures Tracked(Next(s, e))
  {
    hide Tracked, Act, NeedsRecovery;
    if e.OnAct? {
      ActTracked(s, e.input);
    } else {
      StatusOnly(s, e);
      StatusOnlyTracked(s, Next(s, e).disk, Next(s, e).running);
    }
  }

  lemma StatusOnly(s: Sys, e: Event)
    requires !e.OnAct?
    ensures var t := Next(s, e);
            t.disk == s.disk.(status := t.disk.status) && t == s.(disk := t.disk, running := t.running)
    ensures Next(s, e).disk.status != Completed || Next(s, e).disk == s.disk
  {
    hide NeedsRecovery;
  }

  lemma StatusOnlyTracked(s: Sys, t: Task, running: bool)
    requires Tracked(s) && t == s.disk.(status := t.status) && (t.status != Completed || t == s.disk)
    ensures Tracked(s.(disk := t, running := running))
  {
    IdleTracked(s, t, running);
  }

  lemma {:induction false} RunTracked(s: Sys, events: seq<Event>)
    requires NewTask(s)
    ensures Tracked(Run(s, events))
    decreases |events|
  {
    if events != [] {
      hide Tracked, Next;
      RunTracked(s, events[..|events| - 1]);
      StepTracked(Run(s, events[..|events| - 1]), events[|events| - 1]);
    }
  }

  // ---------------------------------------------------------------------------------------
  // Main results
  // ---------------------------------------------------------------------------------------

  /** The step that a plan id finds was handed to the executor and reviewed. */
  predicate WorkedThrough(s: Sys, id: Text) {
    FindStep(s.disk.steps, id).Some? &&
    var step := s.disk.steps[FindStep(s.disk.steps, id).value];
    step.status == Reviewed && step.opening in s.calls
  }

  predicate MandatoryWorkedThrough(s: Sys) {
    s.disk.plan.Some? ==>
      forall m, p :: m in s.disk.plan.value.milestones && m.mandatory && p in s.disk.plan.value.steps
             && p.milestone == Some(m.id)
        ==> WorkedThrough(s, p.id)
  }

  /** Over every run: when a task is completed, every required acceptance passed, and every plan step of a
      mandatory milestone was executed and reviewed. */
  lemma CompletedMeans(s: Sys, events: seq<Event>)
    requires NewTask(s) && Run(s, events).disk.status == Completed
    ensures AllPass(Run(s, events).disk.registry)
    ensures MandatoryWorkedThrough(Run(s, events))
  {
    RunKeeps(s, events);
    RunTracked(s, events);
    CompletedFacts(Run(s, events));
  }

  lemma CompletedFacts(t: Sys)
    requires Inv(t) && Tracked(t) && t.disk.status == Completed
    ensures AllPass(t.disk.registry)
    ensures MandatoryWorkedThrough(t)
  {
    hide FindStep, Fresh;
    if t.disk.plan.Some? {
      forall m, p | m in t.disk.plan.value.milestones && m.mandatory && p in t.disk.plan.value.steps
             && p.milestone == Some(m.id)
        ensures WorkedThrough(t, p.id)
      {
        assert p.id in t.disk.completed;
        assert Settled(t.disk, p.id);
      }
    }
  }

  lemma GrowsByExecuting(s: Sys, i: Input)
    requires Act(s, i).calls != s.calls
    ensures var k := InFlightStep(s.disk);
            && k.Some? && s.disk.steps[k.value].status == Received && Act(s, i) == Execute(s, k.value, i)
            && Act(s, i.(crash := AfterCall)) == Execute(s, k.value, i.(crash := AfterCall))
  {
    hide ResolveStep, FindStep, Registered, Applied, AllPass, MandatoryDone;
  }

  /** Whenever the executor is called, the call is announced first: a process that dies behind the call
      leaves a task that asks for recovery, and no later run, with any resumes, calls the executor again. */
  lemma CallsAreAnnounced(s: Sys, i: Input, later: seq<Event>)
    requires Act(s, i).calls != s.calls
    ensures var dead := Act(s, i.(crash := AfterCall));
            && dead.calls == Act(s, i).calls && NeedsRecovery(dead.disk) && !dead.running
            && Run(dead, later).calls == dead.calls
  {
    GrowsByExecuting(s, i);
    var k := InFlightStep(s.disk).value;
    var dead := Act(s, i.(crash := AfterCall));
    assert InFlightStep(dead.disk) == Some(k) by {
      FindSameIds(s.disk.steps, dead.disk.steps, s.disk.inFlight.value);
    }
    ActiveRuns(s, i);
    hide Act, Run, FindStep;
    InterruptedStaysStopped(dead, later);
  }

  lemma ActiveRuns(s: Sys, i: Input)
    requires Act(s, i).calls != s.calls
    ensures s.disk.status != Completed
  {
    hide HandleTask, FirstSend, HandlePlan;
  }

  // ---------------------------------------------------------------------------------------
  // A task that opens steps without end
  // ---------------------------------------------------------------------------------------

  /** The id that a step without a plan gets. */
  function NextId(t: Task): Text { STEP_PREFIX + Decimal(t.round + 1) }

  /** Without a plan, the id of the next step already belongs to a reviewed one. */
  predicate Stalled(t: Task) {
    && t.conversation && IsWork(t.pending) && !PlanMode(t) && (t.inFlight.None? || t.inFlight == Some(NextId(t)))
    && FindStep(t.steps, NextId(t)).Some? && t.steps[FindStep(t.steps, NextId(t)).value].status == Reviewed
  }

  lemma StalledStep(s: Sys, e: Event)
    requires Stalled(s.disk)
    ensures Stalled(Next(s, e).disk) && Next(s, e).calls == s.calls
  {
    if e.OnAct? {
      FindAppended(s.disk.steps, Step(NextId(s.disk), Received, s.next), NextId(s.disk));
    }
    hide FindStep, Decimal, Registered, Applied, FindPlanStep, NextPending;
  }

  /** In every later run, with any resumes, a stalled task opens steps at most: the executor is never
      called again. */
  lemma {:induction false} StalledForever(s: Sys, events: seq<Event>)
    requires Stalled(s.disk)
    ensures Stalled(Run(s, events).disk) && Run(s, events).calls == s.calls
    decreases |events|
  {
    hide Stalled, Next;
    if events != [] {
      StalledForever(s, events[..|events| - 1]);
      StalledStep(Run(s, events[..|events| - 1]), events[|events| - 1]);
    }
  }

  /** An engine that runs without a plan and has a step to open. */
  predicate OpensNext(s: Sys) {
    && s.running && s.disk.status != Completed && s.disk.status != Cancelled && s.disk.status != RecoveryRequired
    && s.disk.conversation && IsWork(s.disk.pending) && !PlanMode(s.disk) && s.disk.inFlight.None?
  }

  /** In every run without a plan: the step that is opened next is executed in the round after, if its id
      names no step yet; if it does, the executor is never called again. */
  lemma OpenedStepRunsIff(s0: Sys, events: seq<Event>, i: Input, j: Input, later: seq<Event>)
    requires NewTask(s0) && OpensNext(Run(s0, events))
    requires i.crash == NoCrash && !i.refused && j.crash == NoCrash && !j.refused
    ensures var s := Run(s0, events);
            if FindStep(s.disk.steps, NextId(s.disk)).None? then Act(Act(s, i), j).calls == s.calls + [s.next]
            else Run(Act(s, i), later).calls == s.calls
  {
    var s := Run(s0, events);
    RunTracked(s0, events);
    if FindStep(s.disk.steps, NextId(s.disk)).None? {
      NewStepRuns(s, i, j);
    } else {
      TakenIdStalls(s);
      StalledStep(s, OnAct(i));
      StalledForever(Act(s, i), later);
    }
  }

  lemma TakenIdStalls(s: Sys)
    requires Tracked(s) && OpensNext(s) && FindStep(s.disk.steps, NextId(s.disk)).Some?
    ensures Stalled(s.disk)
  {
    var step := s.disk.steps[FindStep(s.disk.steps, NextId(s.disk)).value];
    assert step in s.disk.steps && step.id == NextId(s.disk);
    assert Settled(s.disk, step.id);
    hide FindStep, Decimal;
  }

  lemma NewStepRuns(s: Sys, i: Input, j: Input)
    requires OpensNext(s) && FindStep(s.disk.steps, NextId(s.disk)).None?
    requires i.crash == NoCrash && !i.refused && j.crash == NoCrash && !j.refused
    ensures Act(Act(s, i), j).calls == s.calls + [s.next]
  {
    var step := Step(NextId(s.disk), Received, s.next);
    FindAppended(s.disk.steps, step, NextId(s.disk));
    hide FindStep, Decimal, Registered, Applied, FindPlanStep, NextPending;
    var t := Act(s, i);
    assert t.disk.steps == s.disk.steps + [step] && t.disk.inFlight == Some(NextId(s.disk));
    assert InFlightStep(t.disk) == Some(|s.disk.steps|);
  }

  // ---------------------------------------------------------------------------------------
  // A run that gets there
  // ---------------------------------------------------------------------------------------

  const STEP_2: Text := STEP_PREFIX + [50]

  function Ask(kind: Kind, plan: Option<Plan>): Control { Control(kind, None, [], plan) }

  function Hearing(reply: Control): Input { Input(reply, [], false, NoCrash) }

  lemma SecondId()
    ensures STEP_PREFIX + Decimal(2) == STEP_2 && STEP_2 != []
  {
    assert Decimal(2) == [50];
  }

  predicate Going(s: Sys) { s.running && s.disk.status == Running && s.disk.conversation }

  lemma HearPlan(s: Sys, c: Control, reply: Control)
    requires Going(s) && s.disk.pending == c && (c.kind == PLAN || c.kind == REPLAN) && c.plan.Some?
    ensures Act(s, Hearing(reply)) == s.(disk := s.disk.(plan := c.plan, currentStep := None, pending := reply))
  {
    hide HandleTask;
  }

  const PLANNED := Plan([PlanStep(STEP_2, None)], [])

  lemma OpenPlanned(s: Sys, reply: Control)
    requires Going(s) && s.disk.pending == Ask(TASK, None) && s.disk.plan == Some(PLANNED)
    requires s.disk.currentStep.None? && s.disk.inFlight.None? && s.disk.steps == [] && s.disk.completed == []
    ensures Act(s, Hearing(reply)) == s.(next := s.next + 1, disk := s.disk.(
              steps := [Step(STEP_2, Received, s.next)], inFlight := Some(STEP_2), currentStep := Some(STEP_2)))
  {
    SecondId();
    assert Registered(s.disk.registry, []) == s.disk.registry;
    assert ResolveStep(s.disk, s.disk.pending) == Some(STEP_2);
    hide ResolveStep, Decimal, FindPlanStep, NextPending;
    assert FindStep([], STEP_2).None?;
    assert [] + [Step(STEP_2, Received, s.next)] == [Step(STEP_2, Received, s.next)];
  }

  /** The only step is in flight. */
  predicate OnlyStep(s: Sys, status: StepStatus, opening: nat) {
    && Going(s) && s.disk.pending == Ask(TASK, None) && s.disk.plan == Some(PLANNED)
    && s.disk.inFlight == Some(STEP_2) && s.disk.currentStep == Some(STEP_2)
       && s.disk.steps == [Step(STEP_2, status, opening)]
  }

  lemma WorkOnlyStep(s: Sys, status: StepStatus, opening: nat, reply: Control)
    requires OnlyStep(s, status, opening)
    ensures status == Received ==> OnlyStep(Act(s, Hearing(reply)), Executed, opening)
    ensures status == Executed ==> OnlyStep(Act(s, Hearing(reply)), Recorded, opening)
    ensures status == Received || status == Executed ==> Act(s, Hearing(reply)).disk.round == s.disk.round
    ensures status == Recorded ==>
              var t := Act(s, Hearing(reply));
              && Going(t) && t.disk.pending == reply && t.disk.inFlight.None? && t.disk.round == s.disk.round + 1
              && t.disk.steps == [Step(STEP_2, Reviewed, opening)]
  {
    SecondId();
    assert FindStep(s.disk.steps, STEP_2) == Some(0);
    assert ResolveStep(s.disk, s.disk.pending) == Some(STEP_2);
    hide ResolveStep, FindStep, Decimal;
    assert Applied(s.disk.registry, []) == s.disk.registry;
  }

  lemma Hear(s: Sys, events: seq<Event>, reply: Control) returns (more: seq<Event>)
    ensures Run(s, more) == Act(Run(s, events), Hearing(reply))
  {
    more := events + [OnAct(Hearing(reply))];
    assert more[..|events|] == events;
    hide Act;
  }

  lemma SendPlan(s: Sys, reply: Control)
    requires NewTask(s) && s.running
    ensures Act(s, Hearing(reply)) == s.(disk := s.disk.(conversation := true, pending := reply))
  {
    hide HandleTask;
  }

  lemma NowStalled(s: Sys, opening: nat)
    requires Going(s) && s.disk.pending == Ask(TASK, None) && s.disk.plan == Some(Plan([], [])) && s.disk.inFlight.None?
    requires s.disk.round == 1 && s.disk.steps == [Step(STEP_2, Reviewed, opening)]
    ensures Stalled(s.disk)
  {
    SecondId();
    assert FindStep(s.disk.steps, STEP_2) == Some(0);
    hide Decimal;
  }

  /** From every new task a plan, one round on it, and then a plan without steps lead to a stalled task. */
  lemma ReachesStall(s: Sys) returns (events: seq<Event>)
    requires NewTask(s) && s.running
    ensures Stalled(Run(s, events).disk) && Going(Run(s, events))
  {
    hide Act, Run, Stalled;
    var work, plan, none := Ask(TASK, None), Ask(PLAN, Some(PLANNED)), Ask(REPLAN, Some(Plan([], [])));
    assert Run(s, []) == s by {
      NoEvents(s);
    }
    SendPlan(s, plan);
    events := Hear(s, [], plan);
    HearPlan(Run(s, events), plan, work);
    events := Hear(s, events, work);
    OpenPlanned(Run(s, events), work);
    events := Hear(s, events, work);
    WorkOnlyStep(Run(s, events), Received, s.next, work);
    events := Hear(s, events, work);
    WorkOnlyStep(Run(s, events), Executed, s.next, work);
    events := Hear(s, events, work);
    WorkOnlyStep(Run(s, events), Recorded, s.next, none);
    events := Hear(s, events, none);
    HearPlan(Run(s, events), none, work);
    events := Hear(s, events, work);
    NowStalled(Run(s, events), s.next);
  }

  lemma NoEvents(s: Sys)
    ensures Run(s, []) == s
  {
  }
}
