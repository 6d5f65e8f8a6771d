/**
 The machine gate of a step (evaluateDirectAcceptanceGate in src/direct-governance.js with
 evaluateEvidenceLevel of src/protocol-integrity.js): which evidence counts for a required id.
 */
module AcceptanceGate {
  import opened Wrappers
  import opened JsStrings

  datatype Level = Observed | Inferred | UserVerified | Unobservable

  datatype EvidenceStatus = Passed | FailedCheck | Unknown

  datatype Item = Item(id: Text, required: bool, requiredLevel: Option<Level>)

  datatype Evidence = Evidence(acceptanceId: Text, status: EvidenceStatus, level: Option<Level>)

  /** evaluateEvidenceLevel(...).ok */
  predicate LevelOk(level: Option<Level>, required: Option<Level>) {
    if level == Some(Unobservable) then false
    else if required.None? then true
    else if level.None? then false
    else if required.value.Observed? && !level.value.Observed? then false
    else if required.value.UserVerified? && !level.value.UserVerified? && !level.value.Observed? then false
    else true
  }

  /** An acceptance item as the caller sends it: a bare string or an object. */
  datatype RawItem =
    | Bare(name: Text)
    | Structured(id: Option<Text>, text: Option<Text>, required: Option<bool>, requiredLevel: Option<Level>)

  predicate Truthy(s: Option<Text>) { s.Some? && s.value != [] }

  /** normalizeAcceptanceItem, without the proof metadata. */
  function NormalizeItem(raw: RawItem): Option<Item> {
    match raw
    case Bare(name) => Some(Item(name, true, None))
    case Structured(id, text, required, level) =>
      var name := if Truthy(id) then id else text;
      if !Truthy(name) then None else Some(Item(name.value, required != Some(false), level))
  }

  function NormalizeItems(raw: seq<RawItem>): seq<Item> {
    if raw == [] then []
    else (if NormalizeItem(raw[0]).Some? then [NormalizeItem(raw[0]).value] else []) + NormalizeItems(raw[1..])
  }

  // ---------------------------------------------------------------------------------------
  // What a passing gate means
  // ---------------------------------------------------------------------------------------

  /** evidence[k] is the last evidence for the id. */
  predicate LastFor(evidence: seq<Evidence>, id: Text, k: nat) {
    && k < |evidence| && evidence[k].acceptanceId == id
    && forall j :: k < j < |evidence| ==> evidence[j].acceptanceId != id
  }

  /** acceptance[k] is the first item with the id, required or not. */
  predicate FirstWith(acceptance: seq<Item>, id: Text, k: nat) {
    && k < |acceptance| && acceptance[k].id == id
    && forall j :: 0 <= j < k ==> acceptance[j].id != id
  }

  /** The last evidence for the id passes, at the level that the first item with the id asks for. */
  ghost predicate Satisfied(acceptance: seq<Item>, evidence: seq<Evidence>, id: Text) {
    exists k: nat, f: nat :: LastFor(evidence, id, k) && FirstWith(acceptance, id, f)
      && evidence[k].status == Passed && LevelOk(evidence[k].level, acceptance[f].requiredLevel)
  }

  ghost predicate GateHolds(acceptance: seq<Item>, evidence: seq<Evidence>) {
    forall i :: 0 <= i < |acceptance| && acceptance[i].required ==> Satisfied(acceptance, evidence, acceptance[i].id)
  }

  // ---------------------------------------------------------------------------------------
  // How the gate is computed
  // ---------------------------------------------------------------------------------------

  /** The evidence that evById holds for an id at the end. */
  function Lookup(evidence: seq<Evidence>, id: Text): Option<Evidence> {
    if evidence == [] then None
    else if evidence[|evidence| - 1].acceptanceId == id then Some(evidence[|evidence| - 1])
    else Lookup(evidence[..|evidence| - 1], id)
  }

  /** req.find((x) => x.id === id) */
  function Find(acceptance: seq<Item>, id: Text): Option<Item> {
    if acceptance == [] then None
    else if acceptance[0].id == id then Some(acceptance[0])
    else Find(acceptance[1..], id)
  }

  predicate Decides(acceptance: seq<Item>, evidence: seq<Evidence>, id: Text) {
    var e, a := Lookup(evidence, id), Find(acceptance, id);
    e.Some? && e.value.status == Passed && a.Some? && LevelOk(e.value.level, a.value.requiredLevel)
  }

  predicate GateOk(acceptance: seq<Item>, evidence: seq<Evidence>) {
    forall i :: 0 <= i < |acceptance| && acceptance[i].required ==> Decides(acceptance, evidence, acceptance[i].id)
  }

  lemma {:induction false} LookupIsLast(evidence: seq<Evidence>, id: Text)
    ensures Lookup(evidence, id).Some? ==>
              exists k: nat :: LastFor(evidence, id, k) && evidence[k] == Lookup(evidence, id).value
    ensures Lookup(evidence, id).None? ==> forall k :: 0 <= k < |evidence| ==> evidence[k].acceptanceId != id
  {
    if evidence != [] {
      var last := |evidence| - 1;
      if evidence[last].acceptanceId == id {
        assert LastFor(evidence, id, last);
      } else {
        LookupIsLast(evidence[..last], id);
        if Lookup(evidence, id).Some? {
          var k: nat :| LastFor(evidence[..last], id, k) && evidence[..last][k] == Lookup(evidence, id).value;
          assert LastFor(evidence, id, k);
        }
      }
    }
  }

  lemma {:induction false} FindIsFirst(acceptance: seq<Item>, id: Text)
    ensures Find(acceptance, id).Some? ==>
              exists k: nat :: FirstWith(acceptance, id, k) && acceptance[k] == Find(acceptance, id).value
    ensures Find(acceptance, id).None? ==> forall k :: 0 <= k < |acceptance| ==> acceptance[k].id != id
  {
    if acceptance != [] {
      if acceptance[0].id == id {
        assert FirstWith(acceptance, id, 0);
      } else {
        FindIsFirst(acceptance[1..], id);
        if Find(acceptance, id).Some? {
          var k: nat :| FirstWith(acceptance[1..], id, k) && acceptance[1..][k] == Find(acceptance, id).value;
          assert FirstWith(acceptance, id, k + 1);
        }
      }
    }
  }

  lemma DecidesIff(acceptance: seq<Item>, evidence: seq<Evidence>, id: Text)
    ensures Decides(acceptance, evidence, id) <==> Satisfied(acceptance, evidence, id)
  {
    LookupIsLast(evidence, id);
    FindIsFirst(acceptance, id);
    if Satisfied(acceptance, evidence, id) {
      var k: nat, f: nat :| LastFor(evidence, id, k) && FirstWith(acceptance, id, f)
        && evidence[k].status == Passed && LevelOk(evidence[k].level, acceptance[f].requiredLevel);
      assert Lookup(evidence, id).Some? && Find(acceptance, id).Some?;
      var k': nat :| LastFor(evidence, id, k') && evidence[k'] == Lookup(evidence, id).value;
      var f': nat :| FirstWith(acceptance, id, f') && acceptance[f'] == Find(acceptance, id).value;
      assert k == k' && f == f';
    }
  }

  /** The computed gate is the meaning of the gate. */
  lemma GateOkIff(acceptance: seq<Item>, evidence: seq<Evidence>)
    ensures GateOk(acceptance, evidence) <==> GateHolds(acceptance, evidence)
  {
    hide Decides, Satisfied;
    forall i | 0 <= i < |acceptance|
      ensures Decides(acceptance, evidence, acceptance[i].id) <==> Satisfied(acceptance, evidence, acceptance[i].id)
    {
      DecidesIff(acceptance, evidence, acceptance[i].id);
    }
  }

  /** No evidence for a required id, no pass. */
  lemma GateNeedsEvidence(acceptance: seq<Item>, evidence: seq<Evidence>, i: nat)
    requires i < |acceptance| && acceptance[i].required
    requires forall k :: 0 <= k < |evidence| ==> evidence[k].acceptanceId != acceptance[i].id
    ensures !GateOk(acceptance, evidence)
  {
    LookupIsLast(evidence, acceptance[i].id);
    assert !Decides(acceptance, evidence, acceptance[i].id);
  }

  datatype Report = Report(ok: bool, missing: seq<Text>, failed: seq<Text>, levelFailed: seq<Text>, passed: seq<Text>)

  /** What the report says about one required item. */
  datatype Finding = FoundMissing | FoundFailed | FoundBelowLevel | FoundPassed

  ghost predicate JudgedAs(a: Item, evidence: seq<Evidence>, f: Finding) {
    match f
    case FoundMissing => forall k :: 0 <= k < |evidence| ==> evidence[k].acceptanceId != a.id
    case FoundFailed => exists k: nat :: LastFor(evidence, a.id, k) && evidence[k].status != Passed
    case FoundBelowLevel =>
      exists k: nat :: LastFor(evidence, a.id, k) && evidence[k].status == Passed
          && !LevelOk(evidence[k].level, a.requiredLevel)
    case FoundPassed =>
      exists k: nat :: LastFor(evidence, a.id, k) && evidence[k].status == Passed
          && LevelOk(evidence[k].level, a.requiredLevel)
  }

  function Judge(a: Item, evidence: seq<Evidence>): Finding {
    var e := Lookup(evidence, a.id);
    if e.None? then FoundMissing
    else if e.value.status != Passed then FoundFailed
    else if LevelOk(e.value.level, a.requiredLevel) then FoundPassed
    else FoundBelowLevel
  }

  lemma JudgedIff(a: Item, evidence: seq<Evidence>, f: Finding)
    ensures JudgedAs(a, evidence, f) <==> Judge(a, evidence) == f
  {
    LookupIsLast(evidence, a.id);
    if Lookup(evidence, a.id).Some? {
      var k: nat :| LastFor(evidence, a.id, k) && evidence[k] == Lookup(evidence, a.id).value;
      assert forall j: nat :: LastFor(evidence, a.id, j) ==> j == k;
    }
    hide Lookup, LevelOk;
  }

  /** The ids of the required items among the first n that are judged so, in order. */
  ghost function Reported(acceptance: seq<Item>, evidence: seq<Evidence>, n: nat, f: Finding): seq<Text>
    requires n <= |acceptance|
  {
    if n == 0 then []
    else
      Reported(acceptance, evidence, n - 1, f)
      + if acceptance[n - 1].required && JudgedAs(acceptance[n - 1], evidence, f) then [acceptance[n - 1].id] else []
  }

  /** The ids of the required items among the first n, in order. */
  function RequiredIds(acceptance: seq<Item>, n: nat): seq<Text>
    requires n <= |acceptance|
  {
    if n == 0 then []
    else RequiredIds(acceptance, n - 1) + if acceptance[n - 1].required then [acceptance[n - 1].id] else []
  }

  /** evById holds the last evidence of every id. */
  ghost predicate Indexes(evById: map<Text, Evidence>, evidence: seq<Evidence>) {
    && (forall id :: id in evById <==> Lookup(evidence, id).Some?)
    && (forall id :: id in evById ==> Lookup(evidence, id) == Some(evById[id]))
  }

  method IndexEvidence(evidence: seq<Evidence>) returns (evById: map<Text, Evidence>)
    ensures Indexes(evById, evidence)
  {
    evById := map[];
    var n := 0;
    while n < |evidence|
      invariant 0 <= n <= |evidence|
      invariant Indexes(evById, evidence[..n])
    {
      assert evidence[..n + 1][..n] == evidence[..n];
      evById := evById[evidence[n].acceptanceId := evidence[n]];
      n := n + 1;
    }
    assert evidence[..n] == evidence;
  }

  method Verdict(acceptance: seq<Item>, evidence: seq<Evidence>, evById: map<Text, Evidence>) returns (ok: bool)
    requires Indexes(evById, evidence)
    ensures ok <==> GateHolds(acceptance, evidence)
  {
    hide Decides, Satisfied, LevelOk, Lookup;
    ok := true;
    var i := 0;
    while i < |acceptance|
      invariant 0 <= i <= |acceptance|
      invariant ok <==> forall j :: 0 <= j < i && acceptance[j].required ==>
                Decides(acceptance, evidence, acceptance[j].id)
    {
      var id := acceptance[i].id;
      DecidesBy(acceptance, evidence, id, evById);
      var a := Find(acceptance, id);
      if acceptance[i].required {
        ok := ok && id in evById && evById[id].status == Passed
              && a.Some? && LevelOk(evById[id].level, a.value.requiredLevel);
      }
      i := i + 1;
    }
    GateOkIff(acceptance, evidence);
  }

  /** The four lists together hold each id as often as ids does. */
  ghost predicate Tallied(missing: seq<Text>, failed: seq<Text>, levelFailed: seq<Text>, passed: seq<Text>,
                          ids: seq<Text>) {
    multiset(missing) + multiset(failed) + multiset(levelFailed) + multiset(passed) == multiset(ids)
  }

  lemma TallyNothing()
    ensures Tallied([], [], [], [], [])
  {
  }

  lemma TallyOne(missing: seq<Text>, failed: seq<Text>, levelFailed: seq<Text>, passed: seq<Text>, ids: seq<Text>,
                 id: Text)
    requires Tallied(missing, failed, levelFailed, passed, ids)
    ensures Tallied(missing + [id], failed, levelFailed, passed, ids + [id])
    ensures Tallied(missing, failed + [id], levelFailed, passed, ids + [id])
    ensures Tallied(missing, failed, levelFailed + [id], passed, ids + [id])
    ensures Tallied(missing, failed, levelFailed, passed + [id], ids + [id])
  {
  }

  /** evaluateDirectAcceptanceGate: the verdict, and every required item reported exactly once, under what
      the last evidence for it says. */
  method EvaluateDirectAcceptanceGate(acceptance: seq<Item>, evidence: seq<Evidence>) returns (r: Report)
    ensures r.ok <==> GateHolds(acceptance, evidence)
    ensures Tallied(r.missing, r.failed, r.levelFailed, r.passed, RequiredIds(acceptance, |acceptance|))
    ensures r.missing == Reported(acceptance, evidence, |acceptance|, FoundMissing)
    ensures r.failed == Reported(acceptance, evidence, |acceptance|, FoundFailed)
    ensures r.levelFailed == Reported(acceptance, evidence, |acceptance|, FoundBelowLevel)
    ensures r.passed == Reported(acceptance, evidence, |acceptance|, FoundPassed)
  {
    hide Decides, Satisfied, LevelOk, Lookup, GateHolds, Tallied, JudgedAs;
    assert Tallied([], [], [], [], []) by {
      TallyNothing();
    }
    var evById := IndexEvidence(evidence);
    var missing: seq<Text>, failed: seq<Text>, levelFailed: seq<Text>, passed: seq<Text> := [], [], [], [];
    var i := 0;
    while i < |acceptance|
      invariant 0 <= i <= |acceptance|
      invariant Tallied(missing, failed, levelFailed, passed, RequiredIds(acceptance, i))
      invariant missing == Reported(acceptance, evidence, i, FoundMissing)
      invariant failed == Reported(acceptance, evidence, i, FoundFailed)
      invariant levelFailed == Reported(acceptance, evidence, i, FoundBelowLevel)
      invariant passed == Reported(acceptance, evidence, i, FoundPassed)
    {
      var a := acceptance[i];
      TallyOne(missing, failed, levelFailed, passed, RequiredIds(acceptance, i), a.id);
      assert RequiredIds(acceptance, i) + [] == RequiredIds(acceptance, i);
      JudgedIff(a, evidence, FoundMissing);
      JudgedIff(a, evidence, FoundFailed);
      JudgedIff(a, evidence, FoundBelowLevel);
      JudgedIff(a, evidence, FoundPassed);
      if a.required {
        if a.id !in evById {
          missing := missing + [a.id];
        } else if evById[a.id].status != Passed {
          failed := failed + [a.id];
        } else if LevelOk(evById[a.id].level, a.requiredLevel) {
          passed := passed + [a.id];
        } else {
          levelFailed := levelFailed + [a.id];
        }
      }
      i := i + 1;
    }
    var ok := Verdict(acceptance, evidence, evById);
    r := Report(ok, missing, failed, levelFailed, passed);
  }

  lemma DecidesBy(acceptance: seq<Item>, evidence: seq<Evidence>, id: Text, evById: map<Text, Evidence>)
    requires Indexes(evById, evidence)
    ensures Decides(acceptance, evidence, id)
       <==> id in evById && evById[id].status == Passed && Find(acceptance, id).Some?
            && LevelOk(evById[id].level, Find(acceptance, id).value.requiredLevel)
  {
  }
}
