/**
 The size of a context capsule in UTF-8 bytes when it is serialized as JSON (src/governance/capsule.js;
 escapes as in section 7 of RFC 8259). Only lengths matter for the bound, so a value is represented
 by the number of bytes it serializes to.
 */
module CapsuleBytes {
  import opened Wrappers
  import opened JsStrings

  // ---------------------------------------------------------------------------------------
  // Scalars
  // ---------------------------------------------------------------------------------------

  /** Bytes of one unit inside a JSON string; a lone surrogate is written as an escape. */
  function UnitBytes(u: Unit): nat {
    if u == 34 || u == 92 then 2
    else if u == 8 || u == 9 || u == 10 || u == 12 || u == 13 then 2
    else if u < 32 then 6
    else if u < 0x80 then 1
    else if u < 0x800 then 2
    else if High(u) || Low(u) then 6
    else 3
  }

  function EscapedBytes(t: Text): nat {
    if t == [] then 0
    else if |t| >= 2 && High(t[0]) && Low(t[1]) then 4 + EscapedBytes(t[2..])
    else UnitBytes(t[0]) + EscapedBytes(t[1..])
  }

  lemma {:induction false} EscapedAtMost(t: Text)
    ensures EscapedBytes(t) <= 6 * |t|
  {
    if t != [] {
      if |t| >= 2 && High(t[0]) && Low(t[1]) {
        EscapedAtMost(t[2..]);
      } else {
        EscapedAtMost(t[1..]);
      }
    }
  }

  function Str(t: Text): nat { 2 + EscapedBytes(t) }

  function OrNull(t: Option<Text>): nat { if t.None? then 4 else Str(t.value) }

  function Bool(b: bool): nat { if b then 4 else 5 }

  function Digits(n: nat): nat { if n < 10 then 1 else 1 + Digits(n / 10) }

  function Pow10(k: nat): nat { if k == 0 then 1 else 10 * Pow10(k - 1) }

  lemma {:induction false} DigitsAtMost(n: nat, k: nat)
    requires k >= 1 && n < Pow10(k)
    ensures Digits(n) <= k
  {
    if k > 1 && n >= 10 {
      DigitsAtMost(n / 10, k - 1);
    }
  }

  lemma {:induction false} DigitsMonotone(m: nat, n: nat)
    requires m <= n
    ensures Digits(m) <= Digits(n)
  {
    if m >= 10 {
      DigitsMonotone(m / 10, n / 10);
    }
  }

  /** A member of an object: the quoted key, a colon, the value. */
  function Member(key: string, value: nat): nat { |key| + 3 + value }

  function Literal(s: string): nat { |s| + 2 }

  /** An array from the sum of its items, each counted with one separator. */
  function Arr(separated: nat): nat { if separated == 0 then 2 else 1 + separated }

  // ---------------------------------------------------------------------------------------
  // The capsule
  // ---------------------------------------------------------------------------------------

  datatype AcceptanceView = AcceptanceView(id: Text, required: bool, status: Text)

  datatype EvidenceView = EvidenceView(acceptanceId: Text, status: Text, kind: Text, summary: Option<Text>)

  datatype StepView = StepView(stepId: Text, executorStatus: Text, machineGate: Text, brainAcceptance: Text,
                               acceptance: seq<AcceptanceView>, evidence: seq<EvidenceView>, changed: seq<Text>)

  /** askUser is missing, null, or an object. */
  datatype AskView = NoAsk | NullAsk
    | Ask(whyBlocked: Option<Text>, minimalUserAction: Option<Text>, question: Option<Text>)

  /** The default execution summary, or what replaces it. */
  datatype ExecutionView =
    | Summary(route: Option<Text>, delegated: bool, activeStep: bool, taskId: Option<Text>, stepId: Option<Text>,
              identity: Option<Text>)
    | Oversize(bytes: nat)
    | DroppedExecution

  datatype Tally = Tally(total: nat, included: nat, dropped: nat)

  datatype NextAction = PlanNext | DoneNext | AwaitUserDecision | TaskNext | Reconcile | Execute | BrainReview
    | ReviseNext | Review

  /** The fields whose text may have been cut. */
  datatype Mark =
    | MAcceptanceId | MAcceptanceStatus | MEvidenceId | MEvidenceStatus | MEvidenceKind | MEvidenceSummary | MChanged
    | MWhyBlocked | MMinimalUserAction | MQuestion | MProjectKey | MTaskId | MIdentity | MControl | MRoute | MLocalRoute
    | MCurrentStepId | MPreviousStepId | MStepId | MExecutorStatus | MMachineGate | MBrainAcceptance | MExecution

  datatype Capsule = Capsule(
    projectKey: Option<Text>, taskId: Option<Text>, identity: Option<Text>,
    control: Option<Text>, route: Option<Text>, localRoute: Option<Text>, planRevision: nat,
    currentStepId: Option<Text>, previousStepId: Option<Text>, terminal: bool, awaitingUser: bool,
    generation: Option<nat>, step: Option<StepView>, nextSafeAction: NextAction, execution: ExecutionView,
    fallback: bool, serializedBytes: nat, marks: set<Mark>,
    acceptance: Tally, evidence: Tally, changed: Tally,
    hardTrimmed: Option<bool>, askUser: AskView)

  const LIMIT := 16384

  function ActionBytes(a: NextAction): nat {
    match a
    case PlanNext => Literal("plan")
    case DoneNext => Literal("done")
    case AwaitUserDecision => Literal("await_user_decision")
    case TaskNext => Literal("task")
    case Reconcile => Literal("reconcile")
    case Execute => Literal("execute")
    case BrainReview => Literal("brain_review")
    case ReviseNext => Literal("revise")
    case Review => Literal("review")
  }

  function AcceptanceItemBytes(a: AcceptanceView): nat {
    2 + Member("id", Str(a.id)) + 1 + Member("required", Bool(a.required)) + 1 + Member("status", Str(a.status))
  }

  function EvidenceItemBytes(e: EvidenceView): nat {
    2 + Member("acceptanceId", Str(e.acceptanceId)) + 1 + Member("status", Str(e.status)) + 1
    + Member("kind", Str(e.kind)) + 1 + Member("summary", OrNull(e.summary))
  }

  function AcceptanceSum(items: seq<AcceptanceView>): nat {
    if items == [] then 0 else AcceptanceItemBytes(items[0]) + 1 + AcceptanceSum(items[1..])
  }

  function EvidenceSum(items: seq<EvidenceView>): nat {
    if items == [] then 0 else EvidenceItemBytes(items[0]) + 1 + EvidenceSum(items[1..])
  }

  function ChangedSum(items: seq<Text>): nat {
    if items == [] then 0 else Str(items[0]) + 1 + ChangedSum(items[1..])
  }

  function StepBytes(s: Option<StepView>): nat {
    if s.None? then 4
    else
      var v := s.value;
      2 + Member("stepId", Str(v.stepId)) + 1 + Member("executorStatus", Str(v.executorStatus)) + 1
      + Member("machineGate", Str(v.machineGate)) + 1 + Member("brainAcceptance", Str(v.brainAcceptance)) + 1
      + Member("acceptance", Arr(AcceptanceSum(v.acceptance))) + 1
      + Member("evidence", Arr(EvidenceSum(v.evidence))) + 1
      + Member("changed", Arr(ChangedSum(v.changed)))
  }

  function ExecutionBytes(e: ExecutionView): nat {
    match e
    case Summary(route, delegated, activeStep, taskId, stepId, identity) =>
      2 + Member("route", OrNull(route)) + 1 + Member("delegated", Bool(delegated)) + 1
      + Member("activeStep", Bool(activeStep)) + 1 + Member("requiresReconcile", Bool(activeStep)) + 1
      + Member("binding", 2 + Member("taskId", OrNull(taskId)) + 1 + Member("stepId", OrNull(stepId)) + 1
                          + Member("identity", OrNull(identity)))
    case Oversize(bytes) =>
      2 + Member("truncated", Bool(true)) + 1
      + Member("reason", Literal("caller execution object exceeded the capsule execution bound")) + 1
      + Member("serializedBytes", Digits(bytes))
    case DroppedExecution =>
      2 + Member("truncated", Bool(true)) + 1
      + Member("reason", Literal("execution dropped to satisfy capsule serialized bound"))
  }

  function AskBytes(a: AskView): nat {
    match a
    case NoAsk => 0
    case NullAsk => 1 + Member("askUser", 4)
    case Ask(why, action, question) =>
      1 + Member("askUser", 2 + Member("whyBlocked", OrNull(why)) + 1 + Member("minimalUserAction", OrNull(action)) + 1
                            + Member("question", OrNull(question)))
  }

  function TallyBytes(t: Tally): nat {
    2 + Member("total", Digits(t.total)) + 1 + Member("included", Digits(t.included)) + 1
        + Member("dropped", Digits(t.dropped))
  }

  function MarkBytes(marks: set<Mark>, m: Mark, name: string): nat { if m in marks then Literal(name) + 1 else 0 }

  function MarksSum(marks: set<Mark>): nat {
    MarkBytes(marks, MAcceptanceId, "acceptance.id") + MarkBytes(marks, MAcceptanceStatus, "acceptance.status")
    + MarkBytes(marks, MEvidenceId, "evidence.acceptanceId") + MarkBytes(marks, MEvidenceStatus, "evidence.status")
    + MarkBytes(marks, MEvidenceKind, "evidence.kind") + MarkBytes(marks, MEvidenceSummary, "evidence.summary")
    + MarkBytes(marks, MChanged, "changed") + MarkBytes(marks, MWhyBlocked, "askUser.whyBlocked")
    + MarkBytes(marks, MMinimalUserAction, "askUser.minimalUserAction")
        + MarkBytes(marks, MQuestion, "askUser.question")
    + MarkBytes(marks, MProjectKey, "projectKey") + MarkBytes(marks, MTaskId, "taskId")
    + MarkBytes(marks, MIdentity, "identity") + MarkBytes(marks, MControl, "control")
    + MarkBytes(marks, MRoute, "route") + MarkBytes(marks, MLocalRoute, "localRoute")
    + MarkBytes(marks, MCurrentStepId, "currentStepId") + MarkBytes(marks, MPreviousStepId, "previousStepId")
    + MarkBytes(marks, MStepId, "step.stepId") + MarkBytes(marks, MExecutorStatus, "executorStatus")
    + MarkBytes(marks, MMachineGate, "machineGate") + MarkBytes(marks, MBrainAcceptance, "brainAcceptance")
    + MarkBytes(marks, MExecution, "execution")
  }

  function HardTrimmedBytes(h: Option<bool>): nat {
    if h.None? then 0 else 1 + Member("hardTrimmed", Bool(h.value))
  }

  /** The truncation member without its three tallies, its own size and hardTrimmed. */
  function TruncationHead(c: Capsule): nat {
    2 + Member("bounded", Bool(true)) + 1
        + Member("boundsUsed", if c.fallback then Literal("fallback") else Literal("normal")) + 1
    + Member("maxSerializedBytes", Digits(LIMIT)) + 1 + Member("text", Arr(MarksSum(c.marks))) + 1
  }

  function TruncationBytes(c: Capsule): nat {
    TruncationHead(c) + Member("serializedBytes", Digits(c.serializedBytes)) + 1
    + Member("acceptance", TallyBytes(c.acceptance)) + 1 + Member("evidence", TallyBytes(c.evidence)) + 1
    + Member("changed", TallyBytes(c.changed)) + HardTrimmedBytes(c.hardTrimmed)
  }

  /** kind, version and capabilityFreshness. */
  function FixedBytes(): nat {
    Member("kind", Literal("brain-continuity.context-capsule")) + 1 + Member("version", 1) + 1
    + Member("capabilityFreshness", 2 + Member("requiresRediscovery", Bool(true)) + 1 + Member("reason", ReasonBytes()))
    + 1
  }

  function ReasonBytes(): nat {
    Literal("capability availability is an ephemeral runtime observation; re-entry requires rediscovery before a new execution is authorized")
  }

  function IdBytes(c: Capsule): nat {
    Member("projectKey", OrNull(c.projectKey)) + 1 + Member("taskId", OrNull(c.taskId)) + 1
        + Member("identity", OrNull(c.identity)) + 1
    + Member("currentStepId", OrNull(c.currentStepId)) + 1 + Member("previousStepId", OrNull(c.previousStepId)) + 1
  }

  function RouteBytes(c: Capsule): nat {
    Member("control", OrNull(c.control)) + 1 + Member("route", OrNull(c.route)) + 1
        + Member("localRoute", OrNull(c.localRoute)) + 1
  }

  function StatusBytes(c: Capsule): nat {
    Member("planRevision", Digits(c.planRevision)) + 1 + Member("planned", Bool(c.planRevision > 0)) + 1
    + Member("terminal", Bool(c.terminal)) + 1 + Member("awaitingUser", Bool(c.awaitingUser)) + 1
    + Member("authority", if c.generation.None? then 4 else 2 + Member("generation", Digits(c.generation.value))) + 1
    + Member("nextSafeAction", ActionBytes(c.nextSafeAction)) + 1
  }

  function HeadBytes(c: Capsule): nat { IdBytes(c) + RouteBytes(c) + StatusBytes(c) }

  /** measuredBytes: the length of the serialized capsule. */
  function Measured(c: Capsule): nat {
    2 + FixedBytes() + HeadBytes(c) + Member("step", StepBytes(c.step)) + 1
    + Member("execution", ExecutionBytes(c.execution)) + 1 + Member("truncation", TruncationBytes(c))
        + AskBytes(c.askUser)
  }

  // ---------------------------------------------------------------------------------------
  // The smallest form
  // ---------------------------------------------------------------------------------------

  predicate Short(t: Option<Text>, max: nat) { t.Some? ==> |t.value| <= max }

  /** Texts as the fallback tier leaves them, and numbers as the source can hold them. */
  predicate Clamped(c: Capsule) {
    && Short(c.projectKey, 120) && Short(c.taskId, 120) && Short(c.identity, 120)
    && Short(c.control, 64) && Short(c.route, 64) && Short(c.localRoute, 64)
    && Short(c.currentStepId, 120) && Short(c.previousStepId, 120)
    && c.planRevision < Pow10(16) && (c.generation.Some? ==> c.generation.value < Pow10(16))
    && (c.execution.Oversize? ==> c.execution.bytes < Pow10(16))
    && c.serializedBytes < Pow10(5)
    && ClampedTally(c.acceptance) && ClampedTally(c.evidence) && ClampedTally(c.changed)
    && (c.step.Some? ==> ClampedStep(c.step.value))
  }

  predicate ClampedTally(t: Tally) { t.total < Pow10(10) && t.included <= 20 && t.dropped <= t.total }

  predicate ClampedStep(v: StepView) {
    && |v.stepId| <= 120 && |v.executorStatus| <= 64 && |v.machineGate| <= 64 && |v.brainAcceptance| <= 64
    && (forall a :: a in v.acceptance ==> |a.id| <= 120 && |a.status| <= 120)
    && (forall e :: e in v.evidence ==>
        |e.acceptanceId| <= 120 && |e.status| <= 120 && |e.kind| <= 120 && Short(e.summary, 120))
    && (forall t :: t in v.changed ==> |t| <= 120)
  }

  /** Nothing is left that the trim loop could shorten. */
  predicate Minimal(c: Capsule) {
    && (c.step.Some? ==>
          && (forall e :: e in c.step.value.evidence ==> e.summary.None?)
          && |c.step.value.evidence| <= 1 && |c.step.value.changed| <= 1 && |c.step.value.acceptance| <= 1)
    && !c.askUser.Ask? && !c.execution.Summary?
  }

  lemma StrAtMost(t: Text, max: nat)
    requires |t| <= max
    ensures Str(t) <= 2 + 6 * max
  {
    EscapedAtMost(t);
  }

  lemma OrNullAtMost(t: Option<Text>, max: nat)
    requires Short(t, max) && max >= 1
    ensures OrNull(t) <= 2 + 6 * max
  {
    if t.Some? {
      StrAtMost(t.value, max);
    }
  }

  lemma IdsAtMost(c: Capsule)
    requires Clamped(c)
    ensures IdBytes(c) <= 3700
  {
    hide EscapedBytes, Digits, Str, ClampedStep, ClampedTally, OrNull;
    OrNullAtMost(c.projectKey, 120);
    OrNullAtMost(c.taskId, 120);
    OrNullAtMost(c.identity, 120);
    OrNullAtMost(c.currentStepId, 120);
    OrNullAtMost(c.previousStepId, 120);
  }

  lemma RoutesAtMost(c: Capsule)
    requires Clamped(c)
    ensures RouteBytes(c) <= 1200
  {
    hide EscapedBytes, Digits, Str, ClampedStep, ClampedTally, OrNull;
    OrNullAtMost(c.control, 64);
    OrNullAtMost(c.route, 64);
    OrNullAtMost(c.localRoute, 64);
  }

  lemma ActionAtMost(a: NextAction)
    ensures ActionBytes(a) <= 30
  {
  }

  lemma StatusAtMost(c: Capsule)
    requires Clamped(c)
    ensures StatusBytes(c) <= 300
  {
    hide EscapedBytes, Digits, Str, ClampedStep, ClampedTally, OrNull, ActionBytes;
    ActionAtMost(c.nextSafeAction);
    DigitsAtMost(c.planRevision, 16);
    if c.generation.Some? {
      DigitsAtMost(c.generation.value, 16);
    }
  }

  lemma HeadAtMost(c: Capsule)
    requires Clamped(c)
    ensures HeadBytes(c) <= 5200
  {
    hide IdBytes, RouteBytes, StatusBytes, Clamped;
    IdsAtMost(c);
    RoutesAtMost(c);
    StatusAtMost(c);
  }

  lemma AcceptanceItemAtMost(a: AcceptanceView)
    requires |a.id| <= 120 && |a.status| <= 120
    ensures AcceptanceItemBytes(a) <= 1500
  {
    hide Str;
    StrAtMost(a.id, 120);
    StrAtMost(a.status, 120);
  }

  lemma EvidenceItemAtMost(e: EvidenceView)
    requires |e.acceptanceId| <= 120 && |e.status| <= 120 && |e.kind| <= 120 && e.summary.None?
    ensures EvidenceItemBytes(e) <= 2250
  {
    hide Str;
    StrAtMost(e.acceptanceId, 120);
    StrAtMost(e.status, 120);
    StrAtMost(e.kind, 120);
  }

  lemma SumsAtMost(v: StepView)
    requires ClampedStep(v) && |v.evidence| <= 1 && |v.changed| <= 1 && |v.acceptance| <= 1
    requires forall e :: e in v.evidence ==> e.summary.None?
    ensures AcceptanceSum(v.acceptance) <= 1501 && EvidenceSum(v.evidence) <= 2251 && ChangedSum(v.changed) <= 723
  {
    hide EscapedBytes, Str, AcceptanceItemBytes, EvidenceItemBytes;
    if |v.acceptance| == 1 {
      assert v.acceptance[0] in v.acceptance && v.acceptance[1..] == [];
      AcceptanceItemAtMost(v.acceptance[0]);
    }
    if |v.evidence| == 1 {
      assert v.evidence[0] in v.evidence && v.evidence[1..] == [];
      EvidenceItemAtMost(v.evidence[0]);
    }
    if |v.changed| == 1 {
      assert v.changed[0] in v.changed && v.changed[1..] == [];
      StrAtMost(v.changed[0], 120);
    }
  }

  lemma StepAtMost(v: StepView)
    requires ClampedStep(v) && |v.evidence| <= 1 && |v.changed| <= 1 && |v.acceptance| <= 1
    requires forall e :: e in v.evidence ==> e.summary.None?
    ensures StepBytes(Some(v)) <= 6600
  {
    hide EscapedBytes, Str, AcceptanceSum, EvidenceSum, ChangedSum;
    SumsAtMost(v);
    StrAtMost(v.stepId, 120);
    StrAtMost(v.executorStatus, 64);
    StrAtMost(v.machineGate, 64);
    StrAtMost(v.brainAcceptance, 64);
  }

  lemma MarkAtMost(marks: set<Mark>, m: Mark, name: string)
    ensures MarkBytes(marks, m, name) <= |name| + 3
  {
  }

  lemma MarksAtMost(marks: set<Mark>)
    ensures MarksSum(marks) <= 460
  {
    hide MarkBytes;
    MarkAtMost(marks, MAcceptanceId, "acceptance.id");
    MarkAtMost(marks, MAcceptanceStatus, "acceptance.status");
    MarkAtMost(marks, MEvidenceId, "evidence.acceptanceId");
    MarkAtMost(marks, MEvidenceStatus, "evidence.status");
    MarkAtMost(marks, MEvidenceKind, "evidence.kind");
    MarkAtMost(marks, MEvidenceSummary, "evidence.summary");
    MarkAtMost(marks, MChanged, "changed");
    MarkAtMost(marks, MWhyBlocked, "askUser.whyBlocked");
    MarkAtMost(marks, MMinimalUserAction, "askUser.minimalUserAction");
    MarkAtMost(marks, MQuestion, "askUser.question");
    MarkAtMost(marks, MProjectKey, "projectKey");
    MarkAtMost(marks, MTaskId, "taskId");
    MarkAtMost(marks, MIdentity, "identity");
    MarkAtMost(marks, MControl, "control");
    MarkAtMost(marks, MRoute, "route");
    MarkAtMost(marks, MLocalRoute, "localRoute");
    MarkAtMost(marks, MCurrentStepId, "currentStepId");
    MarkAtMost(marks, MPreviousStepId, "previousStepId");
    MarkAtMost(marks, MStepId, "step.stepId");
    MarkAtMost(marks, MExecutorStatus, "executorStatus");
    MarkAtMost(marks, MMachineGate, "machineGate");
    MarkAtMost(marks, MBrainAcceptance, "brainAcceptance");
    MarkAtMost(marks, MExecution, "execution");
  }

  lemma TallyAtMost(t: Tally)
    requires ClampedTally(t)
    ensures TallyBytes(t) <= 70
  {
    hide Digits;
    DigitsAtMost(t.total, 10);
    DigitsAtMost(t.included, 10);
    DigitsAtMost(t.dropped, 10);
  }

  lemma TruncationAtMost(c: Capsule)
    requires Clamped(c) && c.hardTrimmed.None?
    ensures TruncationBytes(c) <= 900
  {
    hide Digits, TallyBytes, MarksSum, ClampedTally, ClampedStep;
    MarksAtMost(c.marks);
    TallyAtMost(c.acceptance);
    TallyAtMost(c.evidence);
    TallyAtMost(c.changed);
    DigitsAtMost(c.serializedBytes, 5);
    DigitsAtMost(LIMIT, 5);
  }

  lemma ExecutionAtMost(e: ExecutionView)
    requires !e.Summary? && (e.Oversize? ==> e.bytes < Pow10(16))
    ensures ExecutionBytes(e) <= 200
  {
    hide Digits;
    if e.Oversize? {
      DigitsAtMost(e.bytes, 16);
    }
  }

  lemma FixedAtMost()
    ensures FixedBytes() <= 350
  {
  }

  /** The smallest form of a capsule always fits: trimming cannot run out of things to drop. */
  lemma MinimalFits(c: Capsule)
    requires Clamped(c) && Minimal(c) && c.hardTrimmed.None?
    ensures Measured(c) <= LIMIT
  {
    hide HeadBytes, StepBytes, TruncationBytes, Digits, ExecutionBytes, FixedBytes;
    HeadAtMost(c);
    TruncationAtMost(c);
    ExecutionAtMost(c.execution);
    FixedAtMost();
    if c.step.Some? {
      StepAtMost(c.step.value);
    } else {
      NoStepBytes();
    }
  }

  lemma NoStepBytes()
    ensures StepBytes(None) == 4
  {
  }
}
