/**
 Building a context capsule (buildContextCapsule in src/governance/capsule.js, with the default
 execution summary): two tiers of clamping, a trim loop, and a size field that counts itself.
 */
module ContextCapsule {
  import opened Wrappers
  import opened JsStrings
  import opened CapsuleBytes

  // ---------------------------------------------------------------------------------------
  // The durable state, as far as the capsule reads it
  // ---------------------------------------------------------------------------------------

  datatype AcceptanceIn = AcceptanceIn(id: Text, required: Option<bool>, status: Text)

  datatype EvidenceIn = EvidenceIn(acceptanceId: Text, status: Text, kind: Text, summary: Option<Text>)

  datatype StepIn = StepIn(stepId: Text, executorStatus: Text, machineGate: Text, brainAcceptance: Text,
                           acceptance: seq<AcceptanceIn>, evidence: seq<EvidenceIn>, changed: seq<Text>)

  datatype AskIn = AskIn(whyBlocked: Option<Text>, minimalUserAction: Option<Text>, question: Option<Text>)

  datatype StateIn = StateIn(taskId: Option<Text>, control: Option<Text>, route: Option<Text>, localRoute: Option<Text>,
                             planRevision: nat, currentStepId: Option<Text>, previousStepId: Option<Text>,
                             awaitingUser: bool, askUser: Option<AskIn>, steps: map<Text, StepIn>)

  datatype OptsIn = OptsIn(generation: Option<nat>, projectKey: Option<Text>, identity: Option<Text>,
                           taskId: Option<Text>)

  /** value ? value : null */
  function Given(t: Option<Text>): Option<Text> { if t.Some? && t.value != [] then t else None }

  /** The current step; one without an id of its own shows the id it is filed under. */
  function Current(s: StateIn): Option<StepIn> {
    if Given(s.currentStepId).None? || s.currentStepId.value !in s.steps then None
    else
      var v := s.steps[s.currentStepId.value];
      Some(if v.stepId == [] then v.(stepId := s.currentStepId.value) else v)
  }

  /** Numbers that the source's numbers and array lengths can be. */
  predicate Representable(s: StateIn, o: OptsIn) {
    && s.planRevision < Pow10(16) && (o.generation.Some? ==> o.generation.value < Pow10(16))
    && (Current(s).Some? ==>
          var v := Current(s).value; |v.acceptance| < Pow10(10) && |v.evidence| < Pow10(10) && |v.changed| < Pow10(10))
    && ExecutionBytes(DefaultExecution(s, o)) < Pow10(16)
  }

  // ---------------------------------------------------------------------------------------
  // Clamping
  // ---------------------------------------------------------------------------------------

  function Ascii(s: string): Text {
    seq(|s|, i requires 0 <= i < |s| => if s[i] as int < 128 then s[i] as int else 63)
  }

  function Cut(t: Text, max: nat): Text { if |t| <= max then t else t[..max] }

  function CutOption(t: Option<Text>, max: nat): Option<Text> { if t.None? then None else Some(Cut(t.value, max)) }

  function Else(t: Text, default: string): Text { if t != [] then t else Ascii(default) }

  function First<T>(list: seq<T>, max: nat): seq<T> { if |list| <= max then list else list[..max] }

  datatype Tier = Normal | Fallback

  function MaxText(tier: Tier): nat { if tier.Normal? then 200 else 120 }

  function MaxAcceptance(tier: Tier): nat { if tier.Normal? then 50 else 20 }

  function MaxItems(tier: Tier): nat { if tier.Normal? then 40 else 20 }

  function AcceptanceItem(a: AcceptanceIn, max: nat): AcceptanceView {
    AcceptanceView(Cut(a.id, max), a.required != Some(false), Cut(Else(a.status, "missing"), max))
  }

  function EvidenceItem(e: EvidenceIn, max: nat): EvidenceView {
    EvidenceView(Cut(e.acceptanceId, max), Cut(e.status, max), Cut(Else(e.kind, "verify"), max),
                 CutOption(e.summary, max))
  }

  function AcceptanceItems(list: seq<AcceptanceIn>, max: nat): (r: seq<AcceptanceView>)
    ensures |r| == |list|
    ensures forall i :: 0 <= i < |r| ==> r[i] == AcceptanceItem(list[i], max)
  {
    if list == [] then [] else [AcceptanceItem(list[0], max)] + AcceptanceItems(list[1..], max)
  }

  function EvidenceItems(list: seq<EvidenceIn>, max: nat): (r: seq<EvidenceView>)
    ensures |r| == |list|
    ensures forall i :: 0 <= i < |r| ==> r[i] == EvidenceItem(list[i], max)
  {
    if list == [] then [] else [EvidenceItem(list[0], max)] + EvidenceItems(list[1..], max)
  }

  function ChangedItems(list: seq<Text>, max: nat): (r: seq<Text>)
    ensures |r| == |list|
    ensures forall i :: 0 <= i < |r| ==> r[i] == Cut(list[i], max)
  {
    if list == [] then [] else [Cut(list[0], max)] + ChangedItems(list[1..], max)
  }

  function ViewOfStep(v: StepIn, tier: Tier): StepView {
    var max := MaxText(tier);
    StepView(Cut(v.stepId, max), Cut(Else(v.executorStatus, "unknown"), 64), Cut(Else(v.machineGate, "pending"), 64),
             Cut(Else(v.brainAcceptance, "pending"), 64),
             AcceptanceItems(First(v.acceptance, MaxAcceptance(tier)), max),
             EvidenceItems(First(v.evidence, MaxItems(tier)), max),
             ChangedItems(First(v.changed, MaxItems(tier)), max))
  }

  function TallyOf(total: nat, included: nat): Tally {
    Tally(total, included, if total >= included then total - included else 0)
  }

  predicate Delegated(s: StateIn) {
    s.route == Some(Ascii("CODEX_DELEGATE")) || s.localRoute == Some(Ascii("CODEX_DELEGATE"))
  }

  predicate Is(t: Text, s: string) { t == Ascii(s) }

  /** deriveNextSafeAction */
  function DeriveNextSafeAction(s: StateIn): NextAction {
    if Given(s.taskId).None? then PlanNext
    else if s.control == Some(Ascii("DONE")) then DoneNext
    else if s.awaitingUser then AwaitUserDecision
    else if Current(s).None? then TaskNext
    else
      var cur := Current(s).value;
      if Is(cur.executorStatus, "unknown") && Is(cur.machineGate, "pending") && cur.evidence == [] && cur.changed == []
      then (if Delegated(s) then Reconcile else Execute)
      else if Is(cur.executorStatus, "success") && Is(cur.machineGate, "pass") then BrainReview
      else if Is(cur.executorStatus, "success") && Is(cur.machineGate, "fail") then ReviseNext
      else if Is(cur.executorStatus, "failure") then ReviseNext
      else if Is(cur.executorStatus, "unknown") then Reconcile
      else Review
  }

  /** buildExecutionSummary */
  function DefaultExecution(s: StateIn, o: OptsIn): ExecutionView {
    var taskId := if Given(o.taskId).Some? then o.taskId else Given(s.taskId);
    var active := Delegated(s) && Current(s).Some? && Is(Current(s).value.executorStatus, "unknown")
        && Is(Current(s).value.machineGate, "pending");
    Summary(s.route, Delegated(s), active, taskId, s.currentStepId, Given(o.identity))
  }

  /** sanitizeExecution on the default summary. */
  function BoundedExecution(e: ExecutionView, max: nat): ExecutionView {
    if !e.Summary? then e
    else if ExecutionBytes(e) > 1024 then Oversize(ExecutionBytes(e))
    else Summary(CutOption(e.route, max), e.delegated, e.activeStep, CutOption(e.taskId, max), CutOption(e.stepId, max),
                 CutOption(e.identity, max))
  }

  predicate Long(t: Option<Text>, max: nat) { t.Some? && |t.value| > max }

  function MarkIf(b: bool, m: Mark): set<Mark> { if b then {m} else {} }

  function StepMarks(v: StepIn, tier: Tier): set<Mark> {
    var max := MaxText(tier);
    var acceptance, evidence := First(v.acceptance, MaxAcceptance(tier)), First(v.evidence, MaxItems(tier));
    MarkIf(|v.stepId| > max, MStepId) + MarkIf(|v.executorStatus| > 64, MExecutorStatus)
    + MarkIf(|v.machineGate| > 64, MMachineGate) + MarkIf(|v.brainAcceptance| > 64, MBrainAcceptance)
    + MarkIf(exists a :: a in acceptance && |a.id| > max, MAcceptanceId)
    + MarkIf(exists a :: a in acceptance && |a.status| > max, MAcceptanceStatus)
    + MarkIf(exists e :: e in evidence && |e.acceptanceId| > max, MEvidenceId)
    + MarkIf(exists e :: e in evidence && |e.status| > max, MEvidenceStatus)
    + MarkIf(exists e :: e in evidence && |e.kind| > max, MEvidenceKind)
    + MarkIf(exists e :: e in evidence && Long(e.summary, max), MEvidenceSummary)
    + MarkIf(exists t :: t in First(v.changed, MaxItems(tier)) && |t| > max, MChanged)
  }

  function ExecutionMarks(e: ExecutionView, max: nat): set<Mark> {
    MarkIf(ExecutionBytes(e) > 1024
           || (e.Summary? && (Long(e.route, max) || Long(e.taskId, max) || Long(e.stepId, max)
                              || Long(e.identity, max))), MExecution)
  }

  function MarksOf(s: StateIn, o: OptsIn, tier: Tier): set<Mark> {
    var max := MaxText(tier);
    var taskId := if Given(o.taskId).Some? then o.taskId else Given(s.taskId);
    MarkIf(Long(o.projectKey, max), MProjectKey) + MarkIf(Long(taskId, max), MTaskId)
        + MarkIf(Long(o.identity, max), MIdentity)
    + MarkIf(Long(s.control, 64), MControl) + MarkIf(Long(s.route, 64), MRoute)
        + MarkIf(Long(s.localRoute, 64), MLocalRoute)
    + MarkIf(Long(s.currentStepId, max), MCurrentStepId) + MarkIf(Long(s.previousStepId, max), MPreviousStepId)
    + (if s.askUser.None? then {}
       else MarkIf(Long(s.askUser.value.whyBlocked, max), MWhyBlocked)
            + MarkIf(Long(s.askUser.value.minimalUserAction, max), MMinimalUserAction)
            + MarkIf(Long(s.askUser.value.question, max), MQuestion))
    + (if Current(s).None? then {} else StepMarks(Current(s).value, tier))
    + ExecutionMarks(DefaultExecution(s, o), max)
  }

  /** buildBoundedCapsule, with boundsUsed set for its tier. */
  function Bounded(s: StateIn, o: OptsIn, tier: Tier): Capsule {
    var max := MaxText(tier);
    var taskId := if Given(o.taskId).Some? then o.taskId else Given(s.taskId);
    var step := if Current(s).None? then None else Some(ViewOfStep(Current(s).value, tier));
    Capsule(
      CutOption(o.projectKey, max), CutOption(taskId, max), CutOption(o.identity, max),
      CutOption(Given(s.control), 64), CutOption(Given(s.route), 64), CutOption(Given(s.localRoute), 64),
          s.planRevision,
      CutOption(Given(s.currentStepId), max), CutOption(Given(s.previousStepId), max),
      s.control == Some(Ascii("DONE")), s.awaitingUser,
      o.generation, step, DeriveNextSafeAction(s), BoundedExecution(DefaultExecution(s, o), max),
      tier.Fallback?, LIMIT, MarksOf(s, o, tier),
      if step.None? then TallyOf(0, 0) else TallyOf(|Current(s).value.acceptance|, |step.value.acceptance|),
      if step.None? then TallyOf(0, 0) else TallyOf(|Current(s).value.evidence|, |step.value.evidence|),
      if step.None? then TallyOf(0, 0) else TallyOf(|Current(s).value.changed|, |step.value.changed|),
      None,
      if s.askUser.None? then NoAsk
      else Ask(CutOption(s.askUser.value.whyBlocked, max), CutOption(s.askUser.value.minimalUserAction, max),
               CutOption(s.askUser.value.question, max)))
  }

  lemma StepClamped(v: StepIn)
    ensures ClampedStep(ViewOfStep(v, Fallback))
  {
    hide Else, Pow10;
  }

  lemma FallbackClamped(s: StateIn, o: OptsIn)
    requires Representable(s, o)
    ensures Clamped(Bounded(s, o, Fallback))
  {
    hide MarksOf, DeriveNextSafeAction, ExecutionBytes, ViewOfStep, Pow10, ClampedStep, Ascii;
    if Current(s).Some? {
      StepClamped(Current(s).value);
      StepSizes(Current(s).value);
    }
    SmallPowers();
  }

  lemma StepSizes(v: StepIn)
    ensures var w := ViewOfStep(v, Fallback);
            |w.acceptance| <= 20 && |w.evidence| <= 20 && |w.changed| <= 20
            && |w.acceptance| <= |v.acceptance| && |w.evidence| <= |v.evidence| && |w.changed| <= |v.changed|
  {
  }

  lemma SmallPowers()
    ensures Pow10(5) == 100000 && Pow10(10) >= 100000 && Pow10(16) >= 100000
  {
    assert Pow10(1) == 10 && Pow10(2) == 100 && Pow10(3) == 1000 && Pow10(4) == 10000 && Pow10(5) == 100000;
    PowersGrow(5, 10);
    PowersGrow(5, 16);
  }

  lemma {:induction false} PowersGrow(a: nat, b: nat)
    requires a <= b
    ensures 1 <= Pow10(a) <= Pow10(b)
    decreases b
  {
    if a < b {
      PowersGrow(a, b - 1);
    } else if a > 0 {
      PowersGrow(a - 1, b - 1);
    }
  }

  // ---------------------------------------------------------------------------------------
  // Trimming
  // ---------------------------------------------------------------------------------------

  function WithoutSummaries(evidence: seq<EvidenceView>): (r: seq<EvidenceView>)
    ensures |r| == |evidence|
    ensures forall i :: 0 <= i < |r| ==> r[i] == evidence[i].(summary := None)
  {
    if evidence == [] then [] else [evidence[0].(summary := None)] + WithoutSummaries(evidence[1..])
  }

  function Half(n: nat): nat { (n + 1) / 2 }

  function HalfOf<T>(list: seq<T>): seq<T> { list[..Half(|list|)] }

  /** How often a list can be halved until one item is left. */
  function Halvings(n: nat): nat { if n <= 1 then 0 else 1 + Halvings(Half(n)) }

  lemma {:induction false} HalvingsMonotone(m: nat, n: nat)
    requires m <= n
    ensures Halvings(m) <= Halvings(n)
  {
    if m > 1 {
      HalvingsMonotone(Half(m), Half(n));
    }
  }

  lemma HalvingsOfTwenty(n: nat)
    requires n <= 20
    ensures Halvings(n) <= 5
  {
    HalvingsMonotone(n, 20);
    assert Halvings(2) == 1 && Halvings(3) == 2 && Halvings(5) == 3 && Halvings(10) == 4 && Halvings(20) == 5;
  }

  predicate HasSummaries(v: StepView) { exists e :: e in v.evidence && e.summary.Some? }

  /** How many rounds of trimming are left at most. */
  function Rounds(c: Capsule): nat {
    (if c.step.None? then 0
     else (if HasSummaries(c.step.value) then 1 else 0) + Halvings(|c.step.value.evidence|)
          + Halvings(|c.step.value.changed|) + Halvings(|c.step.value.acceptance|))
    + (if c.askUser.Ask? then 1 else 0) + (if c.execution.Summary? then 1 else 0)
  }

  /** c keeps the beginnings of the lists of its origin and drops nothing else but summaries, the
      question to the user and the execution summary. */
  predicate TrimmedFrom(c: Capsule, origin: Capsule) {
    && c == origin.(step := c.step, askUser := c.askUser, execution := c.execution)
    && (c.askUser == origin.askUser || (c.askUser == NullAsk && origin.askUser.Ask?))
    && (c.execution == origin.execution || c.execution == DroppedExecution)
    && c.step.Some? == origin.step.Some?
    && (c.step.Some? ==> StepTrimmedFrom(c.step.value, origin.step.value))
  }

  predicate StepTrimmedFrom(v: StepView, origin: StepView) {
    && v == origin.(acceptance := v.acceptance, evidence := v.evidence, changed := v.changed)
    && v.acceptance <= origin.acceptance && v.changed <= origin.changed
    && |v.evidence| <= |origin.evidence|
    && (forall i :: 0 <= i < |v.evidence| ==>
          v.evidence[i] == origin.evidence[i] || v.evidence[i] == origin.evidence[i].(summary := None))
    && (origin.acceptance != [] ==> v.acceptance != [])
    && (origin.evidence != [] ==> v.evidence != [])
    && (origin.changed != [] ==> v.changed != [])
  }

  /** One round: the next thing to drop, or nothing. */
  function Trim(c: Capsule): Option<Capsule> {
    if c.step.Some? && HasSummaries(c.step.value) then
      Some(c.(step := Some(c.step.value.(evidence := WithoutSummaries(c.step.value.evidence)))))
    else if c.step.Some? && |c.step.value.evidence| > 1 then
      Some(c.(step := Some(c.step.value.(evidence := HalfOf(c.step.value.evidence)))))
    else if c.step.Some? && |c.step.value.changed| > 1 then
      Some(c.(step := Some(c.step.value.(changed := HalfOf(c.step.value.changed)))))
    else if c.step.Some? && |c.step.value.acceptance| > 1 then
      Some(c.(step := Some(c.step.value.(acceptance := HalfOf(c.step.value.acceptance)))))
    else if c.askUser.Ask? then Some(c.(askUser := NullAsk))
    else if c.execution.Summary? then Some(c.(execution := DroppedExecution))
    else None
  }

  lemma TrimRounds(c: Capsule)
    ensures Trim(c).None? ==> Minimal(c)
    ensures Trim(c).Some? ==> Rounds(Trim(c).value) < Rounds(c)
  {
    if c.step.Some? && HasSummaries(c.step.value) {
      var v := Trim(c).value.step.value;
      assert forall e :: e in v.evidence ==> e.summary.None?;
    } else if c.step.Some? && |c.step.value.evidence| > 1 {
      var v := Trim(c).value.step.value;
      assert forall e :: e in v.evidence ==> e in c.step.value.evidence;
    }
  }

  /** All the rounds: what is left once the capsule fits or nothing more can be dropped. */
  function TrimToFit(c: Capsule): Capsule
    decreases Rounds(c)
  {
    hide Measured, HasSummaries, HalfOf, Rounds, Trim;
    TrimRounds(c);
    if Measured(c) <= LIMIT || Trim(c).None? then c else TrimToFit(Trim(c).value)
  }

  lemma TrimToFitStep(c: Capsule)
    ensures Measured(c) <= LIMIT ==> TrimToFit(c) == c
    ensures Measured(c) > LIMIT && Trim(c).Some? ==> TrimToFit(c) == TrimToFit(Trim(c).value)
  {
    hide Measured, Trim;
  }

  lemma {:induction false} TrimToFitFields(c: Capsule)
    ensures TrimToFit(c).hardTrimmed == c.hardTrimmed && TrimToFit(c).serializedBytes == c.serializedBytes
    decreases Rounds(c)
  {
    hide Measured, HasSummaries, HalfOf, Rounds;
    TrimRounds(c);
    if Measured(c) > LIMIT && Trim(c).Some? {
      TrimToFitFields(Trim(c).value);
    }
  }

  lemma NoSummariesKeeps(v: StepView, origin: StepView)
    requires ClampedStep(v) && StepTrimmedFrom(v, origin)
    ensures var w := v.(evidence := WithoutSummaries(v.evidence)); ClampedStep(w) && StepTrimmedFrom(w, origin)
  {
    var w := v.(evidence := WithoutSummaries(v.evidence));
    forall e | e in w.evidence
      ensures |e.acceptanceId| <= 120 && |e.status| <= 120 && |e.kind| <= 120 && Short(e.summary, 120)
    {
      var i :| 0 <= i < |w.evidence| && w.evidence[i] == e;
      assert v.evidence[i] in v.evidence;
    }
  }

  lemma HalfEvidenceKeeps(v: StepView, origin: StepView)
    requires ClampedStep(v) && StepTrimmedFrom(v, origin) && |v.evidence| > 1
    ensures var w := v.(evidence := HalfOf(v.evidence)); ClampedStep(w) && StepTrimmedFrom(w, origin)
  {
    assert forall e :: e in HalfOf(v.evidence) ==> e in v.evidence;
  }

  lemma HalfChangedKeeps(v: StepView, origin: StepView)
    requires ClampedStep(v) && StepTrimmedFrom(v, origin) && |v.changed| > 1
    ensures var w := v.(changed := HalfOf(v.changed)); ClampedStep(w) && StepTrimmedFrom(w, origin)
  {
    assert forall e :: e in HalfOf(v.changed) ==> e in v.changed;
  }

  lemma HalfAcceptanceKeeps(v: StepView, origin: StepView)
    requires ClampedStep(v) && StepTrimmedFrom(v, origin) && |v.acceptance| > 1
    ensures var w := v.(acceptance := HalfOf(v.acceptance)); ClampedStep(w) && StepTrimmedFrom(w, origin)
  {
    assert forall e :: e in HalfOf(v.acceptance) ==> e in v.acceptance;
  }

  lemma TrimKeeps(c: Capsule, origin: Capsule)
    requires Clamped(c) && TrimmedFrom(c, origin) && Trim(c).Some?
    ensures Clamped(Trim(c).value) && TrimmedFrom(Trim(c).value, origin)
    ensures Trim(c).value.hardTrimmed == c.hardTrimmed
  {
    hide Pow10, HasSummaries, ClampedStep, StepTrimmedFrom, ClampedTally, HalfOf;
    if c.step.Some? {
      var v, w := c.step.value, origin.step.value;
      NoSummariesKeeps(v, w);
      if |v.evidence| > 1 {
        HalfEvidenceKeeps(v, w);
      }
      if |v.changed| > 1 {
        HalfChangedKeeps(v, w);
      }
      if |v.acceptance| > 1 {
        HalfAcceptanceKeeps(v, w);
      }
    }
  }

  lemma RoundsAtMost(c: Capsule)
    requires Clamped(c) && (c.step.Some? ==>
               |c.step.value.acceptance| <= 20 && |c.step.value.evidence| <= 20 && |c.step.value.changed| <= 20)
    ensures Rounds(c) <= 18
  {
    hide Halvings, HasSummaries;
    if c.step.Some? {
      HalvingsOfTwenty(|c.step.value.acceptance|);
      HalvingsOfTwenty(|c.step.value.evidence|);
      HalvingsOfTwenty(|c.step.value.changed|);
    }
  }

  /** refreshTruncation */
  function Refreshed(c: Capsule): Capsule {
    var a := if c.step.Some? then |c.step.value.acceptance| else 0;
    var e := if c.step.Some? then |c.step.value.evidence| else 0;
    var t := if c.step.Some? then |c.step.value.changed| else 0;
    c.(acceptance := TallyOf(c.acceptance.total, a), evidence := TallyOf(c.evidence.total, e),
       changed := TallyOf(c.changed.total, t))
  }

  lemma DigitsPlus(d: nat, n: nat)
    requires n <= d + 19
    ensures Digits(n) <= Digits(d) + 1
  {
    if d < 10 {
      assert n < 100;
    } else {
      DigitsMonotone(n, 10 * d);
      assert Digits(10 * d) == 1 + Digits(d);
    }
  }

  lemma TallyGrowth(t: Tally, n: nat)
    requires t == TallyOf(t.total, t.included) && t.included <= t.total && t.included <= 20
    requires n <= t.included && (t.included > 0 ==> n > 0)
    ensures TallyBytes(TallyOf(t.total, n)) <= TallyBytes(t) + 1
  {
    hide Digits;
    DigitsMonotone(n, t.included);
    DigitsPlus(t.dropped, t.total - n);
  }

  /** Refreshing the counts after trimming costs at most one digit for each list. */
  lemma RefreshGrowth(c: Capsule, s: StateIn, o: OptsIn)
    requires TrimmedFrom(c, Bounded(s, o, Fallback))
    ensures Measured(Refreshed(c)) <= Measured(c) + 3
  {
    hide TallyBytes, MarksOf, DeriveNextSafeAction, ExecutionBytes, BoundedExecution, DefaultExecution, HeadBytes,
         StepBytes,
         TruncationHead, Ascii, FixedBytes, AskBytes, ViewOfStep;
    if Current(s).Some? {
      StepSizes(Current(s).value);
      TallyGrowth(c.acceptance, |c.step.value.acceptance|);
      TallyGrowth(c.evidence, |c.step.value.evidence|);
      TallyGrowth(c.changed, |c.step.value.changed|);
    } else {
      assert Refreshed(c) == c;
    }
    SameHead(c, Refreshed(c));
  }

  lemma SameHead(c: Capsule, d: Capsule)
    requires d == c.(acceptance := d.acceptance, evidence := d.evidence, changed := d.changed,
                     serializedBytes := d.serializedBytes, hardTrimmed := d.hardTrimmed)
    ensures HeadBytes(c) == HeadBytes(d) && TruncationHead(c) == TruncationHead(d)
  {
    hide OrNull, Digits, ActionBytes, MarksSum;
  }

  // ---------------------------------------------------------------------------------------
  // The size field
  // ---------------------------------------------------------------------------------------

  /** The size without the digits of the size field. */
  function Base(c: Capsule): int { Measured(c) - Digits(c.serializedBytes) }

  lemma BaseConstant(c: Capsule, n: nat)
    ensures Base(c.(serializedBytes := n)) == Base(c)
  {
    hide HeadBytes, StepBytes, TruncationHead, ExecutionBytes, FixedBytes, AskBytes, TallyBytes, Digits;
    SameHead(c, c.(serializedBytes := n));
  }

  lemma HardTrimmedCost(c: Capsule, h: bool)
    requires c.hardTrimmed.None?
    ensures Measured(c.(hardTrimmed := Some(h))) == Measured(c) + if h then 19 else 20
  {
    hide HeadBytes, StepBytes, TruncationHead, ExecutionBytes, FixedBytes, AskBytes, TallyBytes, Digits;
    SameHead(c, c.(hardTrimmed := Some(h)));
    assert |"hardTrimmed"| == 11;
  }

  class ContextCapsule {
    var view: Capsule

    constructor (c: Capsule)
      ensures view == c
    {
      view := c;
    }

    /** finalizeSerializedBytes: the recorded size is the capsule's own exact length. */
    method FinalizeSerializedBytes()
      requires Digits(view.serializedBytes) == 5 && Measured(view) < 100000
      modifies this
      ensures view == old(view).(serializedBytes := view.serializedBytes)
      ensures view.serializedBytes == Measured(view) && Measured(view) <= old(Measured(view))
    {
      hide Measured, Digits;
      var last: Option<nat> := None;
      var i := 0;
      ghost var base := Base(view);
      ghost var start := Measured(view);
      ghost var spent := 0;
      while i < 8
        invariant 0 <= i <= 8
        invariant view == old(view).(serializedBytes := view.serializedBytes)
        invariant Base(view) == base && base + 5 == start < 100000
        invariant i == 0 ==> last.None? && Digits(view.serializedBytes) == 5
        invariant i > 0 ==> last == Some(view.serializedBytes) && view.serializedBytes <= start
        invariant i > 0 ==> view.serializedBytes == base + spent && 1 <= spent <= 6 - i
        invariant i > 0 ==> Measured(view) <= view.serializedBytes
      {
        var n := Measured(view);
        ghost var before := view.serializedBytes;
        BaseConstant(view, n);
        DigitsPositive(n);
        SizeDigits(n, start);
        view := view.(serializedBytes := n);
        if Some(n) == last {
          break;
        }
        if i > 0 {
          DigitsMonotone(n, before);
        }
        DigitsPositive(before);
        spent := Digits(before);
        last := Some(n);
        i := i + 1;
      }
    }
  }

  lemma DigitsPositive(n: nat)
    ensures Digits(n) >= 1
  {
  }

  lemma SizeDigits(n: nat, start: nat)
    requires n <= start < 100000
    ensures Digits(n) <= 5
  {
    SmallPowers();
    DigitsAtMost(n, 5);
  }

  // ---------------------------------------------------------------------------------------
  // Enforcing the bound
  // ---------------------------------------------------------------------------------------

  /** The trimmed capsule fits, before its counts are refreshed and its flag is added. */
  ghost predicate TrimmedToFit(c: Capsule, origin: Capsule) {
    TrimmedFrom(c, origin) && Measured(c) <= LIMIT
  }

  /** The trim loop of enforceSerializedBound: it ends because the capsule fits, never because its
      guard of 64 rounds or the list of things to drop ran out. */
  method TrimLoop(capsule: ContextCapsule, ghost s: StateIn, ghost o: OptsIn) returns (shrank: bool)
    requires Representable(s, o) && capsule.view == Bounded(s, o, Fallback)
    modifies capsule
    ensures TrimmedToFit(capsule.view, Bounded(s, o, Fallback))
    ensures shrank <==> Measured(Bounded(s, o, Fallback)) > LIMIT
    ensures !shrank ==> capsule.view == Bounded(s, o, Fallback)
    ensures capsule.view == TrimToFit(Bounded(s, o, Fallback))
  {
    hide *;
    ghost var origin := Bounded(s, o, Fallback);
    TrimStart(s, o);
    shrank := false;
    var len := Measured(capsule.view);
    var guard := 0;
    while len > LIMIT && guard < 64
      invariant len == Measured(capsule.view)
      invariant 0 <= guard && guard + Rounds(capsule.view) <= 18
      invariant Clamped(capsule.view) && TrimmedFrom(capsule.view, origin) && capsule.view.hardTrimmed.None?
      invariant shrank <==> guard > 0
      invariant guard > 0 ==> Measured(origin) > LIMIT
      invariant guard == 0 ==> capsule.view == origin
      invariant TrimToFit(capsule.view) == TrimToFit(origin)
      decreases 64 - guard
    {
      TrimToFitStep(capsule.view);
      guard := guard + 1;
      shrank := true;
      TrimRounds(capsule.view);
      var next := Trim(capsule.view);
      if next.None? {
        MinimalFits(capsule.view);
        assert false;
      }
      TrimKeeps(capsule.view, origin);
      capsule.view := next.value;
      len := Measured(capsule.view);
    }
    FitsNow(capsule.view, origin);
    TrimToFitStep(capsule.view);
    TrimToFitStep(origin);
  }

  lemma FitsNow(c: Capsule, origin: Capsule)
    requires TrimmedFrom(c, origin)
    ensures Measured(c) <= LIMIT ==> TrimmedToFit(c, origin)
  {
  }

  lemma TrimStart(s: StateIn, o: OptsIn)
    requires Representable(s, o)
    ensures var c := Bounded(s, o, Fallback);
            Clamped(c) && TrimmedFrom(c, c) && c.hardTrimmed.None? && Rounds(c) <= 18
  {
    hide MarksOf, DeriveNextSafeAction, BoundedExecution, DefaultExecution, Ascii, ViewOfStep, Rounds, Clamped,
         Representable;
    FallbackClamped(s, o);
    if Current(s).Some? {
      StepSizes(Current(s).value);
    }
    RoundsAtMost(Bounded(s, o, Fallback));
  }

  /** What hardTrimmed and the digits of the dropped counts can add after the size was measured. */
  const OVERHEAD := 22

  /** A capsule that shows the durable state and nothing else: it is the state's own bounded form, or
      its fallback form with lists cut short, summaries, question or execution dropped, and every
      count telling how much is missing. */
  ghost predicate DerivedFrom(c: Capsule, s: StateIn, o: OptsIn) {
    var plain := c.(serializedBytes := LIMIT, hardTrimmed := None);
    || plain == Bounded(s, o, Normal)
    || exists t :: TrimmedFrom(t, Bounded(s, o, Fallback)) && plain == Refreshed(t)
  }

  /** enforceSerializedBound after its loop. */
  method FinishTrimmed(capsule: ContextCapsule, shrank: bool, ghost s: StateIn, ghost o: OptsIn)
    requires Representable(s, o) && TrimmedToFit(capsule.view, Bounded(s, o, Fallback))
    requires !shrank ==> capsule.view == Bounded(s, o, Fallback)
    modifies capsule
    ensures DerivedFrom(capsule.view, s, o)
    ensures capsule.view.serializedBytes == Measured(capsule.view) <= LIMIT + OVERHEAD
    ensures capsule.view == Refreshed(old(capsule.view)).(hardTrimmed := Some(shrank),
                                                          serializedBytes := capsule.view.serializedBytes)
  {
    hide Measured, Bounded, Refreshed, Base, Digits, TrimmedToFit, TrimmedFrom, DerivedFrom, Representable, Clamped;
    ghost var trimmed := capsule.view;
    UnfinishedShape(trimmed, s, o);
    capsule.view := Refreshed(capsule.view);
    RefreshedSize(trimmed, shrank, s, o);
    HardTrimmedCost(capsule.view, shrank);
    capsule.view := capsule.view.(hardTrimmed := Some(shrank));
    capsule.FinalizeSerializedBytes();
    TrimmedDerived(trimmed, capsule.view, s, o);
  }

  lemma UnfinishedShape(c: Capsule, s: StateIn, o: OptsIn)
    requires TrimmedToFit(c, Bounded(s, o, Fallback))
    ensures c.hardTrimmed.None? && c.serializedBytes == LIMIT && Measured(c) <= LIMIT
    ensures Refreshed(c).hardTrimmed.None? && Refreshed(c).serializedBytes == LIMIT && Digits(LIMIT) == 5
  {
    hide MarksOf, DeriveNextSafeAction, BoundedExecution, DefaultExecution, Ascii, ViewOfStep, Measured;
    assert Digits(1) == 1 && Digits(16) == 2 && Digits(163) == 3 && Digits(1638) == 4 && Digits(16384) == 5;
  }

  lemma RefreshedSize(c: Capsule, shrank: bool, s: StateIn, o: OptsIn)
    requires TrimmedToFit(c, Bounded(s, o, Fallback)) && (!shrank ==> c == Bounded(s, o, Fallback))
    ensures Measured(Refreshed(c)) <= LIMIT + if shrank then 3 else 0
  {
    hide Measured, TrimmedFrom, Bounded, Refreshed;
    if shrank {
      RefreshGrowth(c, s, o);
    } else {
      NothingToRefresh(s, o);
    }
  }

  lemma NothingToRefresh(s: StateIn, o: OptsIn)
    ensures Refreshed(Bounded(s, o, Fallback)) == Bounded(s, o, Fallback)
  {
    hide MarksOf, DeriveNextSafeAction, BoundedExecution, DefaultExecution, Ascii, ViewOfStep;
  }

  lemma TrimmedDerived(t: Capsule, c: Capsule, s: StateIn, o: OptsIn)
    requires TrimmedFrom(t, Bounded(s, o, Fallback)) || TrimmedToFit(t, Bounded(s, o, Fallback))
    requires c == Refreshed(t).(hardTrimmed := c.hardTrimmed, serializedBytes := c.serializedBytes)
    requires Refreshed(t).hardTrimmed.None? && Refreshed(t).serializedBytes == LIMIT
    ensures DerivedFrom(c, s, o)
  {
    hide Bounded, Refreshed, Measured;
    assert c.(serializedBytes := LIMIT, hardTrimmed := None) == Refreshed(t);
  }

  /** The capsule before its flag is added and its size is recorded. */
  function Unflagged(s: StateIn, o: OptsIn): Capsule {
    if Measured(Bounded(s, o, Normal)) <= LIMIT then Bounded(s, o, Normal)
        else Refreshed(TrimToFit(Bounded(s, o, Fallback)))
  }

  predicate IsTrimmed(s: StateIn, o: OptsIn) {
    Measured(Bounded(s, o, Normal)) > LIMIT && Measured(Bounded(s, o, Fallback)) > LIMIT
  }

  /** What writing the flag hardTrimmed costs. */
  function FlagCost(trimmed: bool): nat { if trimmed then 19 else 20 }

  /** buildContextCapsule: the result always fits the limit plus a constant, its recorded size is its
      own exact length, and it shows nothing that the state does not hold. */
  method BuildContextCapsule(s: StateIn, o: OptsIn) returns (c: Capsule)
    requires Representable(s, o)
    ensures c.serializedBytes == Measured(c) <= LIMIT + OVERHEAD
    ensures DerivedFrom(c, s, o)
    ensures c == Unflagged(s, o).(hardTrimmed := Some(IsTrimmed(s, o)), serializedBytes := c.serializedBytes)
    ensures Measured(c) <= LIMIT <==> Measured(Unflagged(s, o)) <= LIMIT - FlagCost(IsTrimmed(s, o))
  {
    hide Measured, Bounded, Refreshed, Base, Digits, TrimmedToFit, TrimmedFrom, DerivedFrom, Representable, Clamped,
         TrimToFit;
    var capsule := new ContextCapsule(Bounded(s, o, Normal));
    NormalShape(s, o);
    if Measured(capsule.view) <= LIMIT {
      HardTrimmedCost(capsule.view, false);
      capsule.view := capsule.view.(hardTrimmed := Some(false));
      capsule.FinalizeSerializedBytes();
      NormalDerived(capsule.view, s, o);
      LimitKeptIff(s, o, capsule.view);
      return capsule.view;
    }
    capsule := new ContextCapsule(Bounded(s, o, Fallback));
    var shrank := TrimLoop(capsule, s, o);
    FinishTrimmed(capsule, shrank, s, o);
    c := capsule.view;
    LimitKeptIff(s, o, c);
  }

  lemma NormalShape(s: StateIn, o: OptsIn)
    ensures Bounded(s, o, Normal).hardTrimmed.None? && Bounded(s, o, Normal).serializedBytes == LIMIT
            && Digits(LIMIT) == 5
  {
    hide MarksOf, DeriveNextSafeAction, BoundedExecution, DefaultExecution, Ascii, ViewOfStep, Measured;
    assert Digits(1) == 1 && Digits(16) == 2 && Digits(163) == 3 && Digits(1638) == 4 && Digits(16384) == 5;
  }

  lemma NormalDerived(c: Capsule, s: StateIn, o: OptsIn)
    requires c == Bounded(s, o, Normal).(hardTrimmed := Some(false), serializedBytes := c.serializedBytes)
    requires Bounded(s, o, Normal).hardTrimmed.None? && Bounded(s, o, Normal).serializedBytes == LIMIT
    ensures DerivedFrom(c, s, o)
  {
    hide Bounded, Refreshed, TrimmedFrom;
    assert c.(serializedBytes := LIMIT, hardTrimmed := None) == Bounded(s, o, Normal);
  }

  lemma UnflaggedShape(s: StateIn, o: OptsIn)
    ensures Unflagged(s, o).hardTrimmed.None? && Unflagged(s, o).serializedBytes == LIMIT && Digits(LIMIT) == 5
  {
    TrimToFitFields(Bounded(s, o, Fallback));
    hide MarksOf, DeriveNextSafeAction, BoundedExecution, DefaultExecution, Ascii, ViewOfStep, Measured, TrimToFit;
    assert Digits(1) == 1 && Digits(16) == 2 && Digits(163) == 3 && Digits(1638) == 4 && Digits(16384) == 5;
  }

  /** A capsule of either tier, trimmed or not, keeps the limit exactly when it measured below the limit
      by what the flag costs that is added after the measurement. */
  lemma LimitKeptIff(s: StateIn, o: OptsIn, c: Capsule)
    requires c == Unflagged(s, o).(hardTrimmed := Some(IsTrimmed(s, o)), serializedBytes := Measured(c))
    ensures Measured(c) <= LIMIT <==> Measured(Unflagged(s, o)) <= LIMIT - FlagCost(IsTrimmed(s, o))
    ensures Measured(c) > LIMIT && Measured(c) < 100000 ==>
            Measured(c) == Measured(Unflagged(s, o)) + FlagCost(IsTrimmed(s, o))
  {
    UnflaggedShape(s, o);
    hide Measured, Unflagged, IsTrimmed, Base, Digits;
    var b, h := Unflagged(s, o), IsTrimmed(s, o);
    HardTrimmedCost(b, h);
    var flagged := b.(hardTrimmed := Some(h));
    BaseConstant(flagged, Measured(c));
    BaseIs(flagged);
    BaseIs(c);
    assert c == flagged.(serializedBytes := Measured(c));
    SizeFiveDigits(Measured(c));
    DigitsSlow(Measured(c));
  }

  lemma {:induction false} DigitsSlow(n: nat)
    ensures Digits(n) <= 1 + n / 10
  {
    if n >= 10 {
      DigitsSlow(n / 10);
    }
  }

  lemma BaseIs(c: Capsule)
    ensures Base(c) == Measured(c) - Digits(c.serializedBytes)
  {
    hide Measured, Digits;
  }

  lemma SizeFiveDigits(n: nat)
    ensures 10000 <= n < 100000 ==> Digits(n) == 5
    ensures n < 10000 ==> 1 <= Digits(n) <= 4
    ensures Digits(n) >= 1
  {
    if n < 10000 {
      DigitsMonotone(n, 9999);
      assert Digits(9) == 1 && Digits(99) == 2 && Digits(999) == 3 && Digits(9999) == 4;
    } else if n < 100000 {
      DigitsMonotone(10000, n);
      DigitsMonotone(n, 99999);
      assert Digits(1) == 1 && Digits(10) == 2 && Digits(100) == 3 && Digits(1000) == 4 && Digits(10000) == 5;
      assert Digits(9) == 1 && Digits(99) == 2 && Digits(999) == 3 && Digits(9999) == 4 && Digits(99999) == 5;
    }
  }
}
