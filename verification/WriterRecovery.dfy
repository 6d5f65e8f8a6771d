/**
 Recovery of the writer slot: exactly when a writer on its own can take it, how it is handed over,
 and which leftovers of a crash nobody ever clears.
 */
module WriterRecovery {
  import opened WriterGuard
  import opened WriterExclusion

  // ---------------------------------------------------------------------------------------
  // A call of one writer alone
  // ---------------------------------------------------------------------------------------

  /** How many more file-system calls acquire or release can take from a place. */
  function Rank(p: Place): nat {
    match p
    case Idle => 0
    case Open(a) => 10 * (3 - Round(a)) + 8
    case Look(a) => 10 * (3 - Round(a)) + 7
    case Judge(a, _) => 10 * (3 - Round(a)) + 6
    case Elect(a, _) => 10 * (3 - Round(a)) + 5
    case ElectFill(a, _) => 10 * (3 - Round(a)) + 4
    case ElectLook(a, _) => 10 * (3 - Round(a)) + 4
    case Revalidate(a, _) => 10 * (3 - Round(a)) + 3
    case Remove(a, _) => 10 * (3 - Round(a)) + 2
    case Create(a) => 10 * (3 - Round(a)) + 1
    case ClaimFill(a) => 10 * (3 - Round(a))
    case Finally(a, _) => 10 * (3 - Round(a)) - 1
    case Fill => 1
    case Critical => 6
    case RefreshLook => 5
    case RefreshOpen => 4
    case RefreshFill => 3
    case RefreshRename => 2
    case ReleaseLook => 3
    case ReleaseRemove => 2
    case ReleaseClear => 1
  }

  // acquire makes no fourth round
  function Round(attempt: nat): nat { if attempt < 3 then attempt else 2 }

  lemma AcquireRunsOut(s: State, w: Writer, i: Input)
    requires w in s.locals && i.call != Commit
    requires var p := s.locals[w].place; p.Open? || p.Fill? || p.Look? || p.Judge?
    ensures Rank(AcquireStep(s, w, i).locals[w].place) < Rank(s.locals[w].place) <= 38
  {
  }

  lemma ClaimRunsOut(s: State, w: Writer, i: Input)
    requires w in s.locals && i.call != Commit
    requires Elected(s.locals[w].place) || Carries(s.locals[w].place)
    ensures Rank(ClaimStep(s, w, i).locals[w].place) < Rank(s.locals[w].place) <= 38
  {
  }

  /** Every step of a call brings the call closer to its end, whatever the files hold and whatever
      fails: no call of the guard waits for another writer. */
  lemma StepsRunOut(s: State, w: Writer, i: Input)
    requires w in s.locals && s.locals[w].place != Idle && i.call != Commit
    ensures Rank(WriterStep(s, w, i).locals[w].place) < Rank(s.locals[w].place)
    ensures Rank(s.locals[w].place) <= 38
  {
    var p := s.locals[w].place;
    if p.Open? || p.Fill? || p.Look? || p.Judge? {
      hide Rank;
      AcquireRunsOut(s, w, i);
    } else if Elected(p) || Carries(p) {
      hide Rank;
      ClaimRunsOut(s, w, i);
    }
  }

  /** The call in progress, run to its end with no other writer moving. */
  function Finish(s: State, w: Writer, i: Input): State
    requires w in s.locals && i.call != Commit
    ensures w in Finish(s, w, i).locals
    decreases Rank(s.locals[w].place)
  {
    if s.locals[w].place == Idle then s
    else
      StepsRunOut(s, w, i);
      Finish(WriterStep(s, w, i), w, i)
  }

  function Alone(s: State, w: Writer, i: Input): State
    requires w in s.locals && i.call != Commit
  {
    Finish(WriterStep(s, w, i), w, i)
  }

  /** The slot is free, or its owner died and no other writer's election token is in the way. */
  predicate Claimable(s: State, w: Writer) {
    || s.slot.Missing?
    || (s.slot.Record? && s.slot.writer != w && s.slot.writer.pid in s.dead
        && (s.token.Missing? || OwnRecord(s.token, w)))
  }

  predicate AcquiringAlone(s: State, w: Writer, i: Input) {
    w in s.locals && !s.locals[w].held && i.fault == NoFault && i.call == Acquire
  }

  lemma FinishStep(s: State, w: Writer, i: Input)
    requires w in s.locals && i.call != Commit
    ensures s.locals[w].place == Idle ==> Finish(s, w, i) == s
    ensures s.locals[w].place != Idle ==> Finish(s, w, i) == Finish(WriterStep(s, w, i), w, i)
  {
    hide WriterStep;
    if s.locals[w].place != Idle {
      StepsRunOut(s, w, i);
    }
  }

  lemma FreeSlotTaken(s: State, w: Writer, i: Input, attempt: nat)
    requires AcquiringAlone(s, w, i) && s.locals[w].place == Open(attempt) && s.slot.Missing?
    ensures Finish(s, w, i) == SetHeld(s.(slot := Record(w, i.time, i.time)), w, true)
  {
    var created := WriterStep(s, w, i);
    assert created == Move(s.(slot := Blank(w)), w, Fill);
    var filled := WriterStep(created, w, i);
    hide Finish;
    FinishStep(s, w, i);
    FinishStep(created, w, i);
    FinishStep(filled, w, i);
    assert filled.locals == SetHeld(s, w, true).locals;
  }

  /** One round of acquire up to the place where it decides to reclaim. */
  lemma ReachesElect(s: State, w: Writer, i: Input, attempt: nat)
    requires AcquiringAlone(s, w, i) && s.locals[w].place == Open(attempt)
    requires s.slot.Record? && s.slot.writer != w && s.slot.writer.pid in s.dead
    ensures Finish(s, w, i) == Finish(Move(s, w, Elect(attempt, s.slot)), w, i)
  {
    hide Finish;
    var s1 := WriterStep(s, w, i);
    assert s1 == Move(s, w, Look(attempt));
    var s2 := WriterStep(s1, w, i);
    var s3 := WriterStep(s2, w, i);
    FinishStep(s, w, i);
    FinishStep(s1, w, i);
    FinishStep(s2, w, i);
    assert s3.locals == Move(s, w, Elect(attempt, s.slot)).locals;
  }

  lemma ReachesRevalidate(s: State, w: Writer, i: Input, attempt: nat)
    requires AcquiringAlone(s, w, i) && s.locals[w].place == Elect(attempt, s.slot)
    requires s.token.Missing? || OwnRecord(s.token, w)
    ensures exists t :: OwnRecord(t, w)
              && Finish(s, w, i) == Finish(Move(s.(token := t), w, Revalidate(attempt, s.slot)), w, i)
  {
    hide Finish;
    var s1 := WriterStep(s, w, i);
    var s2 := WriterStep(s1, w, i);
    FinishStep(s, w, i);
    FinishStep(s1, w, i);
    assert s2.locals == Move(s, w, Revalidate(attempt, s.slot)).locals;
    assert s2 == Move(s.(token := s2.token), w, Revalidate(attempt, s.slot));
  }

  lemma CreateFinishes(s: State, w: Writer, i: Input, attempt: nat)
    requires AcquiringAlone(s, w, i) && s.locals[w].place == Create(attempt) && s.slot.Missing?
    requires OwnRecord(s.token, w)
    ensures Finish(s, w, i) == SetHeld(s.(slot := Record(w, i.time, i.time), token := Missing), w, true)
  {
    hide Finish;
    var s1 := WriterStep(s, w, i);
    assert s1 == Move(s.(slot := Blank(w)), w, ClaimFill(attempt));
    var s2 := WriterStep(s1, w, i);
    assert s2 == Move(s1.(slot := Record(w, i.time, i.time)), w, Finally(attempt, Won));
    var s3 := WriterStep(s2, w, i);
    assert s3.locals == SetHeld(s, w, true).locals;
    hide WriterStep;
    FinishStep(s, w, i);
    FinishStep(s1, w, i);
    FinishStep(s2, w, i);
    FinishStep(s3, w, i);
  }

  lemma ReclaimFinishes(s: State, w: Writer, i: Input, attempt: nat)
    requires AcquiringAlone(s, w, i) && s.locals[w].place == Revalidate(attempt, s.slot)
    requires OwnRecord(s.token, w)
    ensures Finish(s, w, i) == SetHeld(s.(slot := Record(w, i.time, i.time), token := Missing), w, true)
  {
    hide Finish;
    var s1 := WriterStep(s, w, i);
    assert s1 == Move(s, w, Remove(attempt, s.slot));
    var s2 := WriterStep(s1, w, i);
    assert s2 == Move(s1.(slot := Missing), w, Create(attempt));
    hide WriterStep;
    FinishStep(s, w, i);
    FinishStep(s1, w, i);
    CreateFinishes(s2, w, i, attempt);
    assert SetHeld(s2, w, true).locals == SetHeld(s, w, true).locals;
  }

  /** What a failing acquire leaves behind: everything as it was. */
  predicate LeftAlone(s: State, t: State, w: Writer) {
    && t.slot == s.slot && t.token == s.token && t.commits == s.commits
    && w in t.locals && t.locals[w] == Local(Idle, false)
  }

  lemma RoundRefused(s: State, w: Writer, i: Input, attempt: nat)
    requires AcquiringAlone(s, w, i) && s.locals[w].place == Open(attempt) && attempt < 3
    requires !Claimable(s, w)
    ensures LeftAlone(s, Finish(s, w, i), w)
    decreases 3 - attempt, 2
  {
    hide Finish;
    var s1 := WriterStep(s, w, i);
    assert s1 == Move(s, w, Look(attempt));
    FinishStep(s, w, i);
    FinishStep(s1, w, i);
    if s.slot.Blank? {
      RoundEnds(s, WriterStep(s1, w, i), w, i, attempt);
    } else {
      assert WriterStep(s1, w, i).locals == Move(s, w, Judge(attempt, s.slot)).locals;
      JudgeRefused(s, w, i, attempt);
    }
  }

  lemma JudgeRefused(s: State, w: Writer, i: Input, attempt: nat)
    requires AcquiringAlone(s, w, i) && s.locals[w].place == Open(attempt) && attempt < 3
    requires !Claimable(s, w) && s.slot.Record?
    ensures LeftAlone(s, Finish(Move(s, w, Judge(attempt, s.slot)), w, i), w)
    decreases 3 - attempt, 1
  {
    hide Finish;
    var s2 := Move(s, w, Judge(attempt, s.slot));
    var s3 := WriterStep(s2, w, i);
    FinishStep(s2, w, i);
    FinishStep(s3, w, i);
    if s.slot.writer != w && s.slot.writer.pid in s.dead {
      assert s3 == Move(s2, w, Elect(attempt, s.slot));
      var s4 := WriterStep(s3, w, i);
      assert s4 == Move(s3, w, ElectLook(attempt, s.slot));
      FinishStep(s4, w, i);
      RoundEnds(s, WriterStep(s4, w, i), w, i, attempt);
    }
  }

  lemma RoundEnds(s: State, t: State, w: Writer, i: Input, attempt: nat)
    requires AcquiringAlone(s, w, i) && attempt < 3 && !Claimable(s, w) && w in t.locals
    requires t.slot == s.slot && t.token == s.token && t.commits == s.commits && t.dead == s.dead
    requires t.locals[w] == Local(if attempt + 1 < 3 then Open(attempt + 1) else Idle, false)
    ensures LeftAlone(s, Finish(t, w, i), w)
    decreases 3 - attempt, 0
  {
    hide Finish;
    FinishStep(t, w, i);
    if attempt + 1 < 3 {
      RoundRefused(t, w, i, attempt + 1);
    }
  }

  /** An acquire that runs alone and meets no failing call gets the slot if and only if the slot is
      claimable, and leaves the files as they were otherwise. */
  lemma AcquireAloneIff(s: State, w: Writer, i: Input)
    requires AcquiringAlone(s, w, i) && s.locals[w].place == Idle
    ensures Alone(s, w, i).locals[w].held <==> Claimable(s, w)
    ensures Claimable(s, w) ==> Alone(s, w, i).slot == Record(w, i.time, i.time)
    ensures Claimable(s, w) && s.slot.Record? ==> Alone(s, w, i).token.Missing?
    ensures !Claimable(s, w) ==> LeftAlone(s, Alone(s, w, i), w)
  {
    hide Finish;
    var created := WriterStep(s, w, i);
    assert created == Move(s, w, Open(0));
    assert !Claimable(s, w) ==> !Claimable(created, w);
    if !Claimable(s, w) {
      RoundRefused(created, w, i, 0);
    } else if s.slot.Missing? {
      FreeSlotTaken(created, w, i, 0);
    } else {
      ReachesElect(created, w, i, 0);
      var electing := Move(created, w, Elect(0, s.slot));
      ReachesRevalidate(electing, w, i, 0);
      var t :| OwnRecord(t, w)
            && Finish(electing, w, i) == Finish(Move(electing.(token := t), w, Revalidate(0, s.slot)), w, i);
      ReclaimFinishes(Move(electing.(token := t), w, Revalidate(0, s.slot)), w, i, 0);
    }
  }

  /** A clean shutdown hands over: after release, the next writer that acquires gets the slot. */
  lemma HandOver(s: State, w: Writer, v: Writer, i: Input, j: Input)
    requires Inv(s) && Live(s, w) && s.locals[w] == Local(Idle, true) && i == Input(Release, i.time, NoFault)
    requires v in s.locals && v != w && s.locals[v] == Local(Idle, false) && j == Input(Acquire, j.time, NoFault)
    ensures var released := Alone(s, w, i);
            && released.slot.Missing? && !released.locals[w].held
            && v in released.locals && OwnRecord(Alone(released, v, j).slot, v) && Alone(released, v, j).locals[v].held
  {
    hide Finish;
    var released := Alone(s, w, i);
    ReleaseAlone(s, w, i);
    AcquireAloneIff(released, v, j);
  }

  lemma ReleaseAlone(s: State, w: Writer, i: Input)
    requires Inv(s) && Live(s, w) && s.locals[w] == Local(Idle, true) && i == Input(Release, i.time, NoFault)
    ensures Alone(s, w, i) == SetHeld(s.(slot := Missing), w, false)
  {
    hide Finish;
    assert Good(s, w);
    var s1 := WriterStep(s, w, i);
    assert s1 == Move(s, w, ReleaseLook);
    var s2 := WriterStep(s1, w, i);
    assert s2 == Move(s1, w, ReleaseRemove);
    var s3 := WriterStep(s2, w, i);
    var s4 := WriterStep(s3, w, i);
    FinishStep(s1, w, i);
    FinishStep(s2, w, i);
    FinishStep(s3, w, i);
    FinishStep(s4, w, i);
    assert s4.locals == SetHeld(s, w, false).locals;
  }

  // ---------------------------------------------------------------------------------------
  // What stays behind after a crash
  // ---------------------------------------------------------------------------------------

  /** Two leftovers that no writer clears: a slot that was created and never written, and the slot
      of a dead owner whose elected reclaimer died as well. */
  predicate Stuck(s: State) {
    || (s.slot.Blank? && s.slot.creator.pid in s.dead)
    || (s.slot.Record? && s.slot.writer.pid in s.dead && DeadToken(s))
  }

  predicate DeadToken(s: State) {
    (s.token.Blank? && s.token.creator.pid in s.dead) || (s.token.Record? && s.token.writer.pid in s.dead)
  }

  lemma StuckStep(s: State, e: Event)
    requires Inv(s) && Stuck(s)
    ensures Next(s, e).slot == s.slot && Stuck(Next(s, e))
    ensures DeadToken(s) ==> Next(s, e).token == s.token
    ensures Next(s, e).commits == s.commits
  {
    hide WriterStep;
    if e.Step? && Live(s, e.w) {
      assert Good(s, e.w);
      StepHarmless(s, e.w, e.input);
      NoCommit(s, e.w, e.input);
    }
  }

  lemma NoCommit(s: State, w: Writer, i: Input)
    requires Live(s, w) && Good(s, w) && !OwnRecord(s.slot, w)
    ensures WriterStep(s, w, i).commits == s.commits
  {
  }

  /** After such a crash the namespace stays without a writer: in no run does anyone take the slot
      or make a durable write. */
  lemma {:induction false} StuckForever(s: State, events: seq<Event>)
    requires Inv(s) && Stuck(s)
    ensures Run(s, events).slot == s.slot && Run(s, events).commits == s.commits
    ensures Stuck(Run(s, events))
    ensures forall w :: Live(Run(s, events), w) ==> !OwnRecord(Run(s, events).slot, w)
    decreases |events|
  {
    hide Inv, Next;
    if events != [] {
      var before := events[..|events| - 1];
      StuckForever(s, before);
      InvRun(s, before);
      StuckStep(Run(s, before), events[|events| - 1]);
    }
  }

  /** A process that dies between the exclusive create of the slot and the write into it leaves
      the namespace without a writer for good, although its owner is dead. */
  lemma CrashAfterCreate(s: State, w: Writer, i: Input, events: seq<Event>)
    requires Fresh(s) && w in s.locals && i == Input(Acquire, i.time, NoFault)
    ensures var crashed := Next(Next(Next(s, Step(w, i)), Step(w, i)), Crash(w.pid));
            && crashed.slot == Blank(w) && w.pid in crashed.dead
            && Run(crashed, events).slot == Blank(w) && Run(crashed, events).commits == []
  {
    FreshInv(s);
    var opening := Next(s, Step(w, i));
    var created := Next(opening, Step(w, i));
    var crashed := Next(created, Crash(w.pid));
    InvStep(s, Step(w, i));
    InvStep(opening, Step(w, i));
    InvStep(created, Crash(w.pid));
    assert crashed.slot == Blank(w) && crashed.commits == [];
    hide Run, Next, Inv;
    StuckForever(crashed, events);
  }
}
