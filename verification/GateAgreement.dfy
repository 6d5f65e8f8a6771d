/**
 When the verdict of the acceptance gate and its report agree: the verdict judges items that share an id
 by the first of them, the report judges each by itself (evaluateDirectAcceptanceGate in
 src/direct-governance.js).
 */
module GateAgreement {
  import opened Wrappers
  import opened JsStrings
  import opened AcceptanceGate

  /** Every required item has passing evidence at its own level. */
  ghost predicate EachItemPasses(acceptance: seq<Item>, evidence: seq<Evidence>) {
    forall i :: 0 <= i < |acceptance| && acceptance[i].required ==> JudgedAs(acceptance[i], evidence, FoundPassed)
  }

  lemma {:induction false} ReportedIff(acceptance: seq<Item>, evidence: seq<Evidence>, n: nat, f: Finding)
    requires n <= |acceptance|
    ensures Reported(acceptance, evidence, n, f) == []
       <==> forall i :: 0 <= i < n && acceptance[i].required ==> !JudgedAs(acceptance[i], evidence, f)
  {
    hide JudgedAs;
    if n > 0 {
      ReportedIff(acceptance, evidence, n - 1, f);
    }
  }

  /** Nothing is reported as missing, failed or below its level exactly when every required item passes. */
  lemma CleanReportIff(acceptance: seq<Item>, evidence: seq<Evidence>)
    ensures var n := |acceptance|;
            && Reported(acceptance, evidence, n, FoundMissing) == []
               && Reported(acceptance, evidence, n, FoundFailed) == []
            && Reported(acceptance, evidence, n, FoundBelowLevel) == []
            <==> EachItemPasses(acceptance, evidence)
  {
    ReportedIff(acceptance, evidence, |acceptance|, FoundMissing);
    ReportedIff(acceptance, evidence, |acceptance|, FoundFailed);
    ReportedIff(acceptance, evidence, |acceptance|, FoundBelowLevel);
    forall i, f | 0 <= i < |acceptance|
      ensures JudgedAs(acceptance[i], evidence, f) <==> Judge(acceptance[i], evidence) == f
    {
      JudgedIff(acceptance[i], evidence, f);
    }
    hide JudgedAs, Judge;
  }

  /** Whatever level satisfies a also satisfies b. */
  ghost predicate AsStrict(a: Option<Level>, b: Option<Level>) {
    forall level :: LevelOk(level, a) ==> LevelOk(level, b)
  }

  /** The level that decides for an id: that of the first item with it, required or not. */
  function FirstLevel(acceptance: seq<Item>, id: Text): Option<Level> {
    if Find(acceptance, id).Some? then Find(acceptance, id).value.requiredLevel else None
  }

  /** The first item with its id asks for at least as much as every required item that shares the id. */
  ghost predicate FirstIsStrictest(acceptance: seq<Item>) {
    forall i :: 0 <= i < |acceptance| && acceptance[i].required ==>
      AsStrict(FirstLevel(acceptance, acceptance[i].id), acceptance[i].requiredLevel)
  }

  ghost predicate MeetsAll(acceptance: seq<Item>, id: Text, level: Option<Level>) {
    forall j :: 0 <= j < |acceptance| && acceptance[j].required && acceptance[j].id == id ==>
           LevelOk(level, acceptance[j].requiredLevel)
  }

  /** The first item with an id asks for no more than the required items that share the id. */
  ghost predicate FirstIsNeeded(acceptance: seq<Item>) {
    forall i, level ::
      0 <= i < |acceptance| && acceptance[i].required && MeetsAll(acceptance, acceptance[i].id, level) ==>
      LevelOk(level, FirstLevel(acceptance, acceptance[i].id))
  }

  lemma DecidesByLevels(acceptance: seq<Item>, evidence: seq<Evidence>, i: nat)
    requires i < |acceptance|
    ensures var e := Lookup(evidence, acceptance[i].id);
            && (Decides(acceptance, evidence, acceptance[i].id)
                <==> && e.Some? && e.value.status == Passed
                     && LevelOk(e.value.level, FirstLevel(acceptance, acceptance[i].id)))
            && (JudgedAs(acceptance[i], evidence, FoundPassed)
                <==> e.Some? && e.value.status == Passed && LevelOk(e.value.level, acceptance[i].requiredLevel))
  {
    JudgedIff(acceptance[i], evidence, FoundPassed);
    FindIsFirst(acceptance, acceptance[i].id);
    hide Lookup, LevelOk, Find;
  }

  // ---------------------------------------------------------------------------------------
  // Evidence that tells the two apart
  // ---------------------------------------------------------------------------------------

  /** Passing evidence at the highest level for every item. */
  function AllObserved(acceptance: seq<Item>): seq<Evidence> {
    if acceptance == [] then []
    else
      var last := |acceptance| - 1;
      AllObserved(acceptance[..last]) + [Evidence(acceptance[last].id, Passed, Some(Observed))]
  }

  lemma {:induction false} ObservedLookup(acceptance: seq<Item>, i: nat)
    requires i < |acceptance|
    ensures Lookup(AllObserved(acceptance), acceptance[i].id)
            == Some(Evidence(acceptance[i].id, Passed, Some(Observed)))
  {
    var last := |acceptance| - 1;
    var all := AllObserved(acceptance);
    assert all[..|all| - 1] == AllObserved(acceptance[..last]);
    if acceptance[i].id != acceptance[last].id {
      ObservedLookup(acceptance[..last], i);
    }
  }

  /** The same, and passing evidence at one level for one id. */
  function Probe(acceptance: seq<Item>, id: Text, level: Option<Level>): seq<Evidence> {
    AllObserved(acceptance) + [Evidence(id, Passed, level)]
  }

  lemma ProbeLookup(acceptance: seq<Item>, id: Text, level: Option<Level>, i: nat)
    requires i < |acceptance|
    ensures Lookup(Probe(acceptance, id, level), acceptance[i].id)
         == Some(Evidence(acceptance[i].id, Passed, if acceptance[i].id == id then level else Some(Observed)))
  {
    var all := Probe(acceptance, id, level);
    assert all[..|all| - 1] == AllObserved(acceptance);
    ObservedLookup(acceptance, i);
  }

  lemma ObservedSatisfies(required: Option<Level>)
    ensures LevelOk(Some(Observed), required)
  {
  }

  lemma ProbeVerdicts(acceptance: seq<Item>, id: Text, level: Option<Level>)
    ensures LevelOk(level, FirstLevel(acceptance, id)) ==> GateOk(acceptance, Probe(acceptance, id, level))
    ensures MeetsAll(acceptance, id, level) ==> EachItemPasses(acceptance, Probe(acceptance, id, level))
  {
    forall i | 0 <= i < |acceptance|
      ensures LevelOk(level, FirstLevel(acceptance, id)) ==>
              Decides(acceptance, Probe(acceptance, id, level), acceptance[i].id)
      ensures MeetsAll(acceptance, id, level) && acceptance[i].required ==>
                JudgedAs(acceptance[i], Probe(acceptance, id, level), FoundPassed)
    {
      DecidesByLevels(acceptance, Probe(acceptance, id, level), i);
      ProbeLookup(acceptance, id, level, i);
      ObservedSatisfies(FirstLevel(acceptance, acceptance[i].id));
      ObservedSatisfies(acceptance[i].requiredLevel);
      hide Lookup, LevelOk, Find, Decides, JudgedAs, Probe;
    }
  }

  // ---------------------------------------------------------------------------------------
  // Main results
  // ---------------------------------------------------------------------------------------

  /** A passing verdict means that every required item passes at its own level, whatever the evidence, if
      and only if the first item with each id is the strictest one. */
  lemma VerdictImpliesItemsIff(acceptance: seq<Item>)
    ensures (forall evidence :: GateOk(acceptance, evidence) ==> EachItemPasses(acceptance, evidence))
            <==> FirstIsStrictest(acceptance)
  {
    forall evidence, i | 0 <= i < |acceptance|
      ensures FirstIsStrictest(acceptance) && acceptance[i].required && Decides(acceptance, evidence, acceptance[i].id)
              ==> JudgedAs(acceptance[i], evidence, FoundPassed)
    {
      DecidesByLevels(acceptance, evidence, i);
      hide Lookup, LevelOk, FirstLevel, Decides, JudgedAs;
    }
    if !FirstIsStrictest(acceptance) {
      var i :| 0 <= i < |acceptance| && acceptance[i].required
               && !AsStrict(FirstLevel(acceptance, acceptance[i].id), acceptance[i].requiredLevel);
      var id := acceptance[i].id;
      var level :| LevelOk(level, FirstLevel(acceptance, id)) && !LevelOk(level, acceptance[i].requiredLevel);
      ProbeVerdicts(acceptance, id, level);
      ProbeLookup(acceptance, id, level, i);
      DecidesByLevels(acceptance, Probe(acceptance, id, level), i);
      hide Lookup, LevelOk, FirstLevel, Decides, JudgedAs, Probe;
      assert !EachItemPasses(acceptance, Probe(acceptance, id, level));
    }
    hide Decides, JudgedAs, FirstIsStrictest;
  }

  /** Verdict and report agree on all evidence if and only if, in addition, the first item with an id asks
      for no more than the required ones do. */
  lemma VerdictMatchesReportIff(acceptance: seq<Item>)
    ensures (forall evidence :: GateOk(acceptance, evidence) <==> EachItemPasses(acceptance, evidence))
       <==> FirstIsStrictest(acceptance) && FirstIsNeeded(acceptance)
  {
    VerdictImpliesItemsIff(acceptance);
    forall evidence
      ensures FirstIsNeeded(acceptance) && EachItemPasses(acceptance, evidence) ==> GateOk(acceptance, evidence)
    {
      if FirstIsNeeded(acceptance) && EachItemPasses(acceptance, evidence) {
        ItemsDecide(acceptance, evidence);
      }
    }
    if !FirstIsNeeded(acceptance) {
      var i, level :| 0 <= i < |acceptance| && acceptance[i].required && MeetsAll(acceptance, acceptance[i].id, level)
                      && !LevelOk(level, FirstLevel(acceptance, acceptance[i].id));
      var id := acceptance[i].id;
      ProbeVerdicts(acceptance, id, level);
      ProbeLookup(acceptance, id, level, i);
      DecidesByLevels(acceptance, Probe(acceptance, id, level), i);
      hide Lookup, LevelOk, FirstLevel, Decides, JudgedAs, Probe;
      assert !GateOk(acceptance, Probe(acceptance, id, level));
    }
    hide GateOk, EachItemPasses, FirstIsStrictest, FirstIsNeeded;
  }

  lemma ItemsDecide(acceptance: seq<Item>, evidence: seq<Evidence>)
    requires FirstIsNeeded(acceptance) && EachItemPasses(acceptance, evidence)
    ensures GateOk(acceptance, evidence)
  {
    forall i | 0 <= i < |acceptance| && acceptance[i].required ensures Decides(acceptance, evidence, acceptance[i].id) {
      DecidesByLevels(acceptance, evidence, i);
      var level := Lookup(evidence, acceptance[i].id).value.level;
      forall j | 0 <= j < |acceptance| && acceptance[j].required && acceptance[j].id == acceptance[i].id
        ensures LevelOk(level, acceptance[j].requiredLevel)
      {
        DecidesByLevels(acceptance, evidence, j);
      }
      hide Lookup, LevelOk, FirstLevel, Decides, JudgedAs;
      assert MeetsAll(acceptance, acceptance[i].id, level);
    }
  }

  /** With two items for one id the gate can pass while the report lists the id below its level. */
  lemma FirstItemDecides(id: Text)
    ensures var acceptance := [Item(id, true, None), Item(id, true, Some(Observed))];
            var evidence := [Evidence(id, Passed, Some(Inferred))];
            GateOk(acceptance, evidence) && Reported(acceptance, evidence, 2, FoundBelowLevel) == [id]
  {
    var acceptance := [Item(id, true, None), Item(id, true, Some(Observed))];
    var evidence := [Evidence(id, Passed, Some(Inferred))];
    assert Find(acceptance, id) == Some(acceptance[0]);
    JudgedIff(acceptance[0], evidence, FoundBelowLevel);
    JudgedIff(acceptance[1], evidence, FoundBelowLevel);
    assert Reported(acceptance, evidence, 1, FoundBelowLevel) == [];
  }
}
