/**
 A state whose capsule is longer than the limit: one TASK, and a RESULT with forty passing evidence
 items for it. The size is measured before hardTrimmed is added, and the first tier is returned as it
 is when it measured just below the limit.
 */
module CapsuleOverrun {
  import opened Wrappers
  import opened JsStrings
  import opened CapsuleBytes
  import opened ContextCapsule

  function Letters(n: nat): Text { if n == 0 then [] else [97] + Letters(n - 1) }

  function Copies(e: EvidenceIn, n: nat): seq<EvidenceIn> { if n == 0 then [] else [e] + Copies(e, n - 1) }

  const ITEM := EvidenceIn(Letters(117), Ascii("pass"), Ascii("verify"), Some(Letters(200)))

  const STEP_ID: Text := [115]

  const STEP := StepIn(STEP_ID, Ascii("success"), Ascii("pass"), Ascii("pending"), [], Copies(ITEM, 40), [])

  const STATE := StateIn(Some([116]), Some([84, 65, 83, 75]), None, None, 0, Some(STEP_ID), None, false, None,
                         map[STEP_ID := STEP])

  const OPTS := OptsIn(Some(0), Some(Letters(39)), None, Some([116]))

  lemma {:induction false} LettersBytes(n: nat)
    ensures |Letters(n)| == n && EscapedBytes(Letters(n)) == n
  {
    if n > 0 {
      LettersBytes(n - 1);
      assert Letters(n)[1..] == Letters(n - 1);
    }
  }

  lemma {:induction false} CopiesAre(e: EvidenceIn, n: nat)
    ensures |Copies(e, n)| == n && forall i :: 0 <= i < n ==> Copies(e, n)[i] == e
  {
    if n > 0 {
      CopiesAre(e, n - 1);
    }
  }

  lemma {:induction false} UniformSum(items: seq<EvidenceView>, v: EvidenceView)
    requires forall i :: 0 <= i < |items| ==> items[i] == v
    ensures EvidenceSum(items) == |items| * (EvidenceItemBytes(v) + 1)
  {
    hide EvidenceItemBytes;
    if items != [] {
      UniformSum(items[1..], v);
    }
  }

  lemma UncutItem(e: EvidenceIn)
    requires |e.acceptanceId| <= 200 && |e.status| <= 200 && 0 < |e.kind| <= 200 && e.summary.Some?
             && |e.summary.value| <= 200
    ensures EvidenceItem(e, 200) == EvidenceView(e.acceptanceId, e.status, e.kind, e.summary)
  {
  }

  lemma ItemView()
    ensures EvidenceItem(ITEM, 200) == EvidenceView(Letters(117), Ascii("pass"), Ascii("verify"), Some(Letters(200)))
  {
    hide Letters, Ascii, EscapedBytes, EvidenceItem;
    LettersBytes(117);
    LettersBytes(200);
    AsciiBytes("pass");
    AsciiBytes("verify");
    UncutItem(ITEM);
  }

  lemma ItemSize(a: Text, status: Text, kind: Text, b: Text)
    requires EscapedBytes(a) == 117 && EscapedBytes(status) == 4 && EscapedBytes(kind) == 6 && EscapedBytes(b) == 200
    ensures EvidenceItemBytes(EvidenceView(a, status, kind, Some(b))) == 381
  {
    hide EscapedBytes;
  }

  lemma ItemBytes()
    ensures EvidenceItemBytes(EvidenceItem(ITEM, 200)) == 381
  {
    hide EvidenceItemBytes, Letters, EvidenceItem, EscapedBytes, Ascii;
    ItemView();
    LettersBytes(117);
    LettersBytes(200);
    AsciiBytes("pass");
    AsciiBytes("verify");
    ItemSize(Letters(117), Ascii("pass"), Ascii("verify"), Letters(200));
  }

  predicate Lowercase(s: string) { forall i :: 0 <= i < |s| ==> 'a' <= s[i] <= 'z' }

  lemma {:induction false} PlainBytes(t: Text)
    requires forall i :: 0 <= i < |t| ==> 97 <= t[i] <= 122
    ensures EscapedBytes(t) == |t|
  {
    if t != [] {
      PlainBytes(t[1..]);
    }
  }

  lemma AsciiBytes(s: string)
    requires Lowercase(s)
    ensures |Ascii(s)| == |s| && EscapedBytes(Ascii(s)) == |s|
  {
    PlainBytes(Ascii(s));
  }

  lemma StepOfParts(v: StepView)
    requires EscapedBytes(v.stepId) == 1 && EscapedBytes(v.executorStatus) == 7 && EscapedBytes(v.machineGate) == 4
    requires EscapedBytes(v.brainAcceptance) == 7 && v.acceptance == [] && v.changed == []
             && EvidenceSum(v.evidence) == 40 * 382
    ensures StepBytes(Some(v)) == 15412
  {
    hide EscapedBytes, EvidenceSum;
    assert AcceptanceSum(v.acceptance) == 0 && ChangedSum(v.changed) == 0;
  }

  /** The step of the capsule: 40 evidence items, nothing cut. */
  lemma StepSize()
    ensures StepBytes(Some(ViewOfStep(STEP, Normal))) == 15412
  {
    hide EvidenceItemBytes, Letters, EvidenceItem, EscapedBytes, Ascii, Copies, ViewOfStep, StepBytes, EvidenceSum;
    StepParts();
    ItemBytes();
    UniformSum(ViewOfStep(STEP, Normal).evidence, EvidenceItem(ITEM, 200));
    AsciiBytes("success");
    AsciiBytes("pass");
    AsciiBytes("pending");
    PlainBytes(STEP_ID);
    StepOfParts(ViewOfStep(STEP, Normal));
  }

  lemma StepParts()
    ensures var v := ViewOfStep(STEP, Normal);
            && v.stepId == STEP_ID && v.executorStatus == Ascii("success") && v.machineGate == Ascii("pass")
            && v.brainAcceptance == Ascii("pending") && v.acceptance == [] && v.changed == []
            && |v.evidence| == 40 && forall i :: 0 <= i < 40 ==> v.evidence[i] == EvidenceItem(ITEM, 200)
  {
    CopiesAre(ITEM, 40);
    hide EvidenceItem, Copies, Letters;
  }

  lemma NothingCut()
    ensures StepMarks(STEP, Normal) == {}
  {
    CopiesAre(ITEM, 40);
    LettersBytes(117);
    LettersBytes(200);
    hide Letters, Copies, EscapedBytes;
    forall e | e in First(STEP.evidence, MaxItems(Normal)) ensures e == ITEM {
    }
  }

  lemma NoMarks()
    ensures MarksOf(STATE, OPTS, Normal) == {}
  {
    NothingCut();
    LettersBytes(39);
    ExecutionSize();
    hide Letters, StepMarks, EscapedBytes, Ascii, ExecutionBytes, STEP;
  }

  lemma ExecutionSize()
    ensures DefaultExecution(STATE, OPTS) == Summary(None, false, false, Some([116]), Some(STEP_ID), None)
    ensures ExecutionBytes(DefaultExecution(STATE, OPTS)) == 131
  {
    PlainBytes([116]);
    PlainBytes(STEP_ID);
    hide Ascii, STEP, EscapedBytes;
  }

  lemma MarksNothing()
    ensures MarksSum({}) == 0
  {
  }

  /** The step is the current one. */
  lemma CurrentStep()
    ensures Current(STATE) == Some(STEP)
  {
    hide Copies, Letters, Ascii;
  }

  lemma NotDone()
    ensures STATE.control != Some(Ascii("DONE"))
  {
    assert |Ascii("DONE")| == 4 && Ascii("DONE")[0] == 68;
  }

  lemma NextAction()
    ensures DeriveNextSafeAction(STATE) == BrainReview
  {
    CurrentStep();
    NotDone();
    assert |Ascii("success")| == 7 && |Ascii("unknown")| == 7 && Ascii("success")[0] == 115
           && Ascii("unknown")[0] == 117;
    hide Copies, Letters, Ascii;
  }

  lemma Shape()
    ensures var b := Bounded(STATE, OPTS, Normal);
            && b.projectKey == Some(Letters(39)) && b.taskId == Some([116]) && b.identity == None
            && b.control == STATE.control && b.route == None && b.localRoute == None && b.planRevision == 0
            && b.currentStepId == Some(STEP_ID) && b.previousStepId == None && !b.terminal && !b.awaitingUser
            && b.generation == Some(0) && b.nextSafeAction == BrainReview
            && b.execution == Summary(None, false, false, Some([116]), Some(STEP_ID), None)
            && b.step == Some(ViewOfStep(STEP, Normal)) && !b.fallback && b.serializedBytes == LIMIT && b.marks == {}
            && b.acceptance == Tally(0, 0, 0) && b.evidence == Tally(40, 40, 0) && b.changed == Tally(0, 0, 0)
            && b.hardTrimmed == None && b.askUser == NoAsk
  {
    hide Letters, EscapedBytes, Ascii, ExecutionBytes, MarksOf, ViewOfStep, DefaultExecution, Copies,
         DeriveNextSafeAction, Current;
    NoMarks();
    LettersBytes(39);
    ExecutionSize();
    CopiesAre(ITEM, 40);
    StepParts();
    CurrentStep();
    NextAction();
    NotDone();
  }

  lemma HeadSize(b: Capsule)
    requires b.projectKey.Some? && EscapedBytes(b.projectKey.value) == 39 && b.taskId == Some([116])
             && b.identity == None
    requires b.control == STATE.control && b.route == None && b.localRoute == None && b.planRevision == 0
    requires b.currentStepId == Some(STEP_ID) && b.previousStepId == None && !b.terminal && !b.awaitingUser
    requires b.generation == Some(0) && b.nextSafeAction == BrainReview
    ensures IdBytes(b) == 126 && RouteBytes(b) == 48 && StatusBytes(b) == 132
  {
    PlainBytes([116]);
    PlainBytes(STEP_ID);
    ControlBytes();
    hide EscapedBytes;
  }

  lemma ControlBytes()
    ensures EscapedBytes([84, 65, 83, 75]) == 4
  {
    assert [84, 65, 83, 75][1..] == [65, 83, 75] && [65, 83, 75][1..] == [83, 75] && [83, 75][1..] == [75];
    assert EscapedBytes([75]) == 1;
    assert EscapedBytes([83, 75]) == 2;
    assert EscapedBytes([65, 83, 75]) == 3;
  }

  lemma TallySizes()
    ensures TallyBytes(Tally(0, 0, 0)) == 36 && TallyBytes(Tally(40, 40, 0)) == 38
  {
  }

  lemma TruncationSize(b: Capsule)
    requires !b.fallback && b.serializedBytes == LIMIT && b.marks == {} && b.hardTrimmed == None
    requires b.acceptance == Tally(0, 0, 0) && b.evidence == Tally(40, 40, 0) && b.changed == Tally(0, 0, 0)
    ensures TruncationBytes(b) == 246
  {
    MarksNothing();
    TallySizes();
    FiveDigits();
    hide TallyBytes, MarksSum, Digits;
  }

  lemma FiveDigits()
    ensures Digits(LIMIT) == 5
  {
    assert Digits(1) == 1 && Digits(16) == 2 && Digits(163) == 3 && Digits(1638) == 4 && Digits(16384) == 5;
  }

  lemma FixedSize()
    ensures FixedBytes() == 244
  {
  }

  lemma WitnessMeasures()
    ensures Measured(Bounded(STATE, OPTS, Normal)) == 16375
  {
    hide Bounded, ViewOfStep, StepBytes, TruncationBytes, IdBytes, RouteBytes, StatusBytes, FixedBytes, ExecutionBytes,
         EscapedBytes, Letters, STATE, OPTS, STEP, DefaultExecution;
    Shape();
    LettersBytes(39);
    HeadSize(Bounded(STATE, OPTS, Normal));
    TruncationSize(Bounded(STATE, OPTS, Normal));
    FixedSize();
    StepSize();
    ExecutionSize();
  }

  /** The documented bound fails on this state: its capsule is 16395 bytes long. */
  lemma LimitExceeded(c: Capsule)
    requires c == Unflagged(STATE, OPTS).(hardTrimmed := Some(IsTrimmed(STATE, OPTS)), serializedBytes := Measured(c))
    requires Measured(c) <= LIMIT + OVERHEAD
    ensures !IsTrimmed(STATE, OPTS) && Measured(c) == 16395 > LIMIT
  {
    hide Measured, Bounded, STATE, OPTS;
    WitnessMeasures();
    LimitKeptIff(STATE, OPTS, c);
  }

  /** What buildContextCapsule returns for this state. */
  method TooLongCapsule() returns (c: Capsule)
    ensures c.serializedBytes == Measured(c) == 16395
  {
    StateIsRepresentable();
    hide *;
    c := BuildContextCapsule(STATE, OPTS);
    LimitExceeded(c);
  }

  lemma StateIsRepresentable()
    ensures Representable(STATE, OPTS)
  {
    CurrentStep();
    CopiesAre(ITEM, 40);
    ExecutionSize();
    SmallPowers();
    PowersGrow(0, 16);
    hide Letters, Copies, Ascii, ExecutionBytes, DefaultExecution, Current, Pow10;
  }
}
