/**
 What the durable runtime guarantees over every run with restarts, failing writes and failing reads:
 fencing, generations, DONE tasks, and one task in progress at a time.
 */
module DurableTheorems {
  import opened Wrappers
  import opened JsStrings
  import opened ComponentNames
  import opened Lifecycle
  import opened DurableModel
  import opened DurableInvariant
  import opened DurableWrites

  /** What relates the record of a task in an earlier store to the one in a later store. */
  predicate Forward(before: TaskRecord, r: TaskRecord) {
    && GenerationOf(r.authority) >= GenerationOf(before.authority)
    && ClaimGeneration(r.authority) >= ClaimGeneration(before.authority)
    && (TerminalDone(before.state) ==> r.state == before.state)
  }

  lemma StepForward(s: Sys, e: Event, id: Text)
    requires Inv(s) && Fair(s, e) && id in s.store
    ensures id in Next(s, e).store && Forward(s.store[id], Next(s, e).store[id])
  {
    hide Inv, Next;
    StepAllowed(s, e);
  }

  /** Over every run: a task is never lost, its Parent generation and its claim generation never
      decrease, and once it is DONE its lifecycle state stays the same, through repeated DONE,
      takeover, restart, failed writes and new tasks. */
  lemma {:induction false} TasksMoveForward(s: Sys, events: seq<Event>, id: Text)
    requires Inv(s) && FairRun(s, events) && id in s.store
    ensures id in RunAll(s, events).store && Forward(s.store[id], RunAll(s, events).store[id])
    decreases |events|
  {
    hide Inv, Next;
    if events != [] {
      var before := events[..|events| - 1];
      TasksMoveForward(s, before, id);
      RunInv(s, before);
      StepForward(RunAll(s, before), events[|events| - 1], id);
    }
  }

  /** The call commits a write of the task. */
  predicate Commits(s: Sys, e: Event, id: Text) { Next(s, e).writes == s.writes + [id] }

  lemma CommitWrites(s: Sys, e: Event, id: Text)
    requires Inv(s) && Fair(s, e) && Commits(s, e, id)
    ensures var t := Next(s, e);
            && id in t.store && t.meta.Some? && t.meta.value.taskId == id
            && t.store[id] == RecordOf(t.meta.value, t.svc)
            && Writes(s, e, id, t.store[id])
            && (forall j :: j in t.store && j != id ==> j in s.store && t.store[j] == s.store[j])
  {
    hide Inv, Next, Writes;
    StepAllowed(s, e);
    var t := Next(s, e);
    assert (s.writes + [id])[|s.writes|] == id;
    assert |s.writes + [id]| != |s.writes|;
    if WriteStep(s, t) {
      assert (s.writes + [t.meta.value.taskId])[|s.writes|] == t.meta.value.taskId;
    }
  }

  /** The call may replace the authority of a task by now, given what the store held. */
  predicate Authorized(s: Sys, e: Event, held: Option<Authority>, now: Option<Authority>) {
    match e
    case OnControl(c, _) => c.authorityToken.Some? && c.authorityToken == TokenOf(held) == TokenOf(now)
    case OnResult(c, _) =>
      || (c.authorityToken.Some? && c.authorityToken == TokenOf(held) == TokenOf(now))
      || (c.executionToken.Some? && c.executionToken == ClaimToken(held))
    case OnTakeover(_, _) => GenerationOf(now) > GenerationOf(held) && TokenOf(now) == Some(s.next)
    case OnClaim(_, _) =>
      && GenerationOf(now) == GenerationOf(held) && TokenOf(now) == TokenOf(held)
      && ClaimGeneration(now) > ClaimGeneration(held) && ClaimToken(now) == Some(s.next)
    case _ => false
  }

  /** Every committed write of a persisted task was authorized by what the store held before it: the
      current Parent token, for a RESULT also the current execution token; a takeover raises the
      generation and mints a new token; a claim leaves the Parent authority as it was. */
  lemma WritesAreAuthorized(s: Sys, e: Event, id: Text)
    requires Inv(s) && Fair(s, e) && Commits(s, e, id) && id in s.store
    ensures id in Next(s, e).store && Authorized(s, e, s.store[id].authority, Next(s, e).store[id].authority)
  {
    hide Inv, Next, Writes, Commits, Fair, Authorized;
    CommitWrites(s, e, id);
    AuthorizedCases(s, e, id, Next(s, e).store[id]);
  }

  lemma AuthorizedCases(s: Sys, e: Event, id: Text, r: TaskRecord)
    requires Writes(s, e, id, r) && id in s.store
    ensures Authorized(s, e, s.store[id].authority, r.authority)
  {
  }

  /** A call that returns normally leaves in the store what memory shows. */
  lemma ReturnedIsCommitted(s: Sys, e: Event)
    requires Inv(s) && Fair(s, e) && Mutates(e) && Perform(s, e).0.Returned?
    ensures var t := Next(s, e);
            && t.meta.Some? && t.meta.value.taskId in t.store
            && t.store[t.meta.value.taskId] == RecordOf(t.meta.value, t.svc)
  {
    hide Inv, Perform, Writes;
    StepAllowed(s, e);
  }

  // ---------------------------------------------------------------------------------------
  // Fencing
  // ---------------------------------------------------------------------------------------

  ghost predicate Retired(s: Sys, t: Token) {
    t < s.next && forall id :: !ParentToken(s, id, t) && !ExecutionToken(s, id, t)
  }

  lemma {:induction false} RunFresh(s: Sys, events: seq<Event>)
    requires Inv(s) && FairRun(s, events)
    ensures OnlyFresh(s, RunAll(s, events))
    decreases |events|
  {
    hide Inv, Next, OnlyFresh;
    if events == [] {
      SameFresh(s, s);
    } else {
      var before := events[..|events| - 1];
      RunFresh(s, before);
      RunInv(s, before);
      StepInv(RunAll(s, before), events[|events| - 1]);
      OnlyFreshTrans(s, RunAll(s, before), RunAll(s, events));
    }
  }

  /** Some gate of the runtime lets the token through. */
  ghost predicate Accepted(s: Sys, t: Token) {
    || (s.meta.Some? && AuthorityOk(s, Some(t)))
    || (exists taskId, root :: AuthorizesMutation(s, taskId, Some(t), root))
    || (exists taskId, stepId :: ExecutionOk(s, taskId, stepId, Some(t)))
    || (exists taskId, root :: AuthorizesExecution(s, taskId, Some(t), root))
  }

  lemma AcceptedIsHeld(s: Sys, t: Token)
    requires Accepted(s, t)
    ensures s.meta.Some? && (ParentToken(s, s.meta.value.taskId, t) || ExecutionToken(s, s.meta.value.taskId, t))
  {
    var m := s.meta.value;
    assert m.authority.Some? ==> HoldsAuthority(s, m.taskId, m.authority.value);
  }

  /** A token that no task holds any more is never accepted again, at any gate, in any later state. */
  lemma RetiredStaysRetired(s: Sys, events: seq<Event>, t: Token)
    requires Inv(s) && FairRun(s, events) && Retired(s, t)
    ensures Retired(RunAll(s, events), t) && !Accepted(RunAll(s, events), t)
  {
    hide Inv, RunAll, FairRun, ParentToken, ExecutionToken, Accepted;
    RunFresh(s, events);
    if Accepted(RunAll(s, events), t) {
      AcceptedIsHeld(RunAll(s, events), t);
    }
  }

  /** After a committed write, memory and store hold the same authority for the task. */
  lemma HeldAfterCommit(s: Sys, e: Event, id: Text, a: Authority)
    requires Inv(s) && Fair(s, e) && Commits(s, e, id) && HoldsAuthority(Next(s, e), id, a)
    ensures id in Next(s, e).store && Next(s, e).store[id].authority == Some(a)
            && Writes(s, e, id, Next(s, e).store[id])
  {
    hide Inv, Next, Writes, Fair;
    CommitWrites(s, e, id);
  }

  lemma StoreHolds(s: Sys, id: Text)
    requires id in s.store
    ensures TokenOf(s.store[id].authority).Some? ==> ParentToken(s, id, TokenOf(s.store[id].authority).value)
    ensures ClaimToken(s.store[id].authority).Some? ==> ExecutionToken(s, id, ClaimToken(s.store[id].authority).value)
  {
    if s.store[id].authority.Some? {
      assert HoldsAuthority(s, id, s.store[id].authority.value);
    }
  }

  /** A committed takeover retires the Parent token it replaces. */
  lemma TakeoverRetires(s: Sys, e: Event, id: Text)
    requires Inv(s) && Fair(s, e) && e.OnTakeover? && Commits(s, e, id) && id in s.store
    requires TokenOf(s.store[id].authority).Some?
    ensures Retired(Next(s, e), TokenOf(s.store[id].authority).value)
  {
    hide Next, HoldsAuthority, Fair, StoreOk, MemoryOk, Agreement, DoneInStep, Commits;
    var n, t := Next(s, e), TokenOf(s.store[id].authority).value;
    StoreHolds(s, id);
    StepInv(s, e);
    forall j ensures !ParentToken(n, j, t) && !ExecutionToken(n, j, t) {
      if ParentToken(n, j, t) {
        var a :| HoldsAuthority(n, j, a) && a.token == Some(t);
        HeldAfterCommit(s, e, id, a);
      }
    }
  }

  /** Every committed write of a task retires the execution token that the task had. */
  lemma WritesRetireClaims(s: Sys, e: Event, id: Text, t: Token)
    requires Inv(s) && Fair(s, e) && Commits(s, e, id) && t < s.next
    ensures !ExecutionToken(Next(s, e), id, t)
  {
    hide Inv, Next, HoldsAuthority, Fair, Commits;
    var n := Next(s, e);
    if ExecutionToken(n, id, t) {
      var a :| HoldsAuthority(n, id, a) && ClaimToken(Some(a)) == Some(t);
      HeldAfterCommit(s, e, id, a);
    }
  }

  /** No write of the task from s to t. */
  predicate Unwritten(s: Sys, t: Sys, id: Text) { s.writes <= t.writes && id !in t.writes[|s.writes|..] }

  lemma StepWrites(s: Sys, e: Event)
    requires Inv(s) && Fair(s, e)
    ensures s.writes <= Next(s, e).writes
    ensures forall id :: id in s.store ==>
              id in Next(s, e).store && (Next(s, e).store[id] == s.store[id] || id in Next(s, e).writes[|s.writes|..])
  {
    hide Inv, Next, Writes;
    StepAllowed(s, e);
    var t := Next(s, e);
    if WriteStep(s, t) {
      assert t.writes[|s.writes|..] == [t.meta.value.taskId];
    }
  }

  /** A task that no call writes stays as it is in the store. */
  lemma {:induction false} UnwrittenStays(s: Sys, events: seq<Event>, id: Text)
    requires Inv(s) && FairRun(s, events) && id in s.store
    ensures s.writes <= RunAll(s, events).writes
    ensures Unwritten(s, RunAll(s, events), id) ==>
            id in RunAll(s, events).store && RunAll(s, events).store[id] == s.store[id]
    decreases |events|
  {
    hide Inv, Next;
    if events != [] {
      var before, e := events[..|events| - 1], events[|events| - 1];
      UnwrittenStays(s, before, id);
      RunInv(s, before);
      var mid, end := RunAll(s, before), RunAll(s, events);
      StepWrites(mid, e);
      assert end.writes[|s.writes|..] == mid.writes[|s.writes|..] + end.writes[|mid.writes|..];
    }
  }

  /** Over every run: an execution token that passes for a task was not minted before any committed write of
      the task. If e is the most recent one, and the token was given to a caller, then e is the claim that
      minted it. */
  lemma ExecutionTokenIsLatest(s: Sys, before: seq<Event>, e: Event, after: seq<Event>, id: Text,
                               taskId: Option<Text>, stepId: Option<Text>, t: Token)
    requires Inv(s) && FairRun(s, before) && Fair(RunAll(s, before), e)
    requires Commits(RunAll(s, before), e, id) && FairRun(Next(RunAll(s, before), e), after)
    requires var end := RunAll(Next(RunAll(s, before), e), after);
             ExecutionOk(end, taskId, stepId, Some(t)) && end.meta.value.taskId == id
    ensures t >= RunAll(s, before).next
    ensures var n := Next(RunAll(s, before), e);
            var end := RunAll(n, after);
            t in end.issued && Unwritten(n, end, id) ==> e.OnClaim? && t == RunAll(s, before).next < n.next
  {
    hide Inv, Next, RunAll, FairRun, Commits, HoldsAuthority, Writes;
    var mid := RunAll(s, before);
    var n := Next(mid, e);
    var end := RunAll(n, after);
    RunInv(s, before);
    StepInv(mid, e);
    RunFresh(n, after);
    var a := end.meta.value.authority.value;
    assert HoldsAuthority(end, id, a) by {
      MetaHolds(end);
    }
    assert ExecutionToken(end, id, t);
    if t < mid.next {
      WritesRetireClaims(mid, e, id, t);
    }
    CommitWrites(mid, e, id);
    UnwrittenStays(n, after, id);
    RunInv(n, after);
    if t in end.issued && Unwritten(n, end, id) {
      IssuedIsStored(end, t);
      ClaimMinted(mid, e, id, n.store[id], t);
    }
  }

  lemma IssuedIsStored(s: Sys, t: Token)
    requires Inv(s) && t in s.issued && s.meta.Some? && ClaimToken(s.meta.value.authority) == Some(t)
             && s.meta.value.taskId in s.store
    ensures ClaimToken(s.store[s.meta.value.taskId].authority) == Some(t)
  {
    hide StoreOk, TokensOk, DoneInStep;
  }

  lemma ClaimMinted(s: Sys, e: Event, id: Text, r: TaskRecord, t: Token)
    requires Inv(s) && Fair(s, e) && Commits(s, e, id) && Writes(s, e, id, r) && ClaimToken(r.authority) == Some(t)
    ensures e.OnClaim? && t == s.next < Next(s, e).next
  {
    assert e.OnClaim? && t == s.next;
    ClaimSpends(s, e.claim, e.world);
  }

  /** A claim that writes uses up its number. */
  lemma ClaimSpends(s: Sys, c: ClaimRequest, w: World)
    requires DoClaim(s, c, w).1.writes != s.writes
    ensures DoClaim(s, c, w).1.next > s.next
  {
    hide Matches, Active, Single, ExecutionClaimable, SafeTaskId;
  }

  lemma MetaHolds(s: Sys)
    requires s.meta.Some? && s.meta.value.authority.Some?
    ensures HoldsAuthority(s, s.meta.value.taskId, s.meta.value.authority.value)
  {
  }

  /** A token of another task passes no gate of the task in memory, and a Parent token never passes
      as an execution token. */
  lemma OtherTokensRejected(s: Sys, id: Text, t: Token)
    requires Inv(s) && s.meta.Some? && (ParentToken(s, id, t) || ExecutionToken(s, id, t))
    ensures id != s.meta.value.taskId ==> !Accepted(s, t)
    ensures ParentToken(s, id, t) ==> forall taskId, stepId :: !ExecutionOk(s, taskId, stepId, Some(t))
    ensures ExecutionToken(s, id, t) ==> !AuthorityOk(s, Some(t))
  {
    hide StoreOk, MemoryOk, Agreement, DoneInStep, HoldsAuthority, ExecutionClaimable;
    var m := s.meta.value;
    if m.authority.Some? {
      MetaHolds(s);
      if ClaimToken(m.authority) == Some(t) {
        assert ExecutionToken(s, m.taskId, t);
      }
      if TokenOf(m.authority) == Some(t) {
        assert ParentToken(s, m.taskId, t);
      }
    }
  }

  // ---------------------------------------------------------------------------------------
  // One task in progress
  // ---------------------------------------------------------------------------------------

  /** At most one persisted task is not DONE, and an id bound without a task waits for none. */
  ghost predicate OneInProgress(s: Sys) {
    && (forall a, b :: a in Active(s.store) && b in Active(s.store) ==> a == b)
    && (s.meta.None? && s.svc.taskId.Some? ==> Active(s.store) == {})
  }

  /** A RESULT on an unbound runtime that names a task which is not persisted, while another task is
      in progress: it throws, and leaves the runtime bound to the named task. */
  predicate BindsUnpersisted(s: Sys, e: Event) {
    && e.OnResult? && Usable(s, e.world) && s.svc.taskId.None?
    && e.result.args.taskId.Some? && !Unsafe(e.result.args.taskId) && !Has(s.store, e.result.args.taskId.value)
    && e.result.executionToken.None? && Active(s.store) != {}
  }

  lemma LoadedKeepsMeta(s: Sys, c: ControlRequest, r: ResultRequest, w: World)
    requires s.meta.Some?
    ensures ControlLoaded(s, c, w).1.meta.Some? && ResultLoaded(s, r, w).1.meta.Some?
  {
    hide Transition, RecordResult, Active, RootCompatible, FreshStart, AuthorityOk, ExecutionOk, MetaFor, RecordOf;
  }

  lemma ControlBinding(s: Sys, c: ControlRequest, r: ResultRequest, w: World)
    requires Inv(s) && c.args.taskId != Some([]) && s.svc.taskId.None?
    requires DoControl(s, c, w).1.meta.None? && DoControl(s, c, w).1.svc.taskId.Some?
    ensures Active(s.store) == {}
  {
    hide Inv, Persist, Active, SafeTaskId, Transition, RootCompatible;
    NoTaskNoMeta(s);
    if c.args.taskId.None? {
      TransitionKeepsNone(s.svc, c.args, s.allowPublish);
    } else if NeedsHydration(s, c.args.taskId) && Load(s.store, c.args.taskId.value).Some? {
      LoadedKeepsMeta(Hydrate(s, c.args.taskId.value), c, r, w);
    } else {
      assert NeedsHydration(s, c.args.taskId) || FreshStart(s, c);
    }
  }

  lemma NoTaskNoMeta(s: Sys)
    requires Inv(s) && s.svc.taskId.None?
    ensures s.meta.None? && Untouched(s.svc)
  {
  }

  lemma TransitionKeepsNone(svc: GovState, a: ControlArgs, allowPublish: bool)
    requires svc.taskId.None? && a.taskId.None?
    ensures Transition(svc, a, allowPublish).1.taskId.None?
  {
  }

  lemma ResultKeepsNone(s: Sys, c: ResultRequest, r: ControlRequest, w: World)
    requires Inv(s) && s.svc.taskId.None? && c.args.taskId != Some([])
    requires DoResult(s, c, w).1.meta.None? && DoResult(s, c, w).1.svc.taskId.Some?
    ensures Active(s.store) == {} || BindsUnpersisted(s, OnResult(c, w))
  {
    hide Inv, Persist, Active, SafeTaskId, ExecutionClaimable, RecordResult;
    NoTaskNoMeta(s);
    ResultBinding(s.svc, c.args);
    if NeedsHydration(s, c.args.taskId) && Load(s.store, c.args.taskId.value).Some? {
      LoadedKeepsMeta(Hydrate(s, c.args.taskId.value), r, c, w);
    }
  }

  lemma OtherCallsBind(s: Sys, e: Event)
    requires !e.OnControl? && !e.OnResult? && !e.OnRestart?
    ensures Next(s, e).meta.Some? || Next(s, e).svc == s.svc
  {
    hide Matches, Single, Active, SafeTaskId, ExecutionClaimable, RecordOf, Fence;
  }

  lemma LooseStep(s: Sys, e: Event)
    requires Inv(s) && Fair(s, e) && OneInProgress(s) && !BindsUnpersisted(s, e)
    requires Next(s, e).meta.None? && Next(s, e).svc.taskId.Some? && !e.OnRestart?
    ensures Active(s.store) == {}
  {
    hide Inv, DoControl, DoResult, Persist, Active, Matches, Single, SafeTaskId, BindsEmpty;
    if NamedTask(e) == Some([]) {
      EmptyCallQuiet(s, e);
    } else if s.svc.taskId.None? {
      NoTaskNoMeta(s);
      if e.OnControl? {
        ControlBinding(s, e.control, ResultWith([], None).result, e.world);
      } else if e.OnResult? {
        ResultKeepsNone(s, e.result, Plan([]).control, e.world);
        assert e == OnResult(e.result, e.world);
      } else {
        OtherCallsBind(s, e);
      }
    } else if s.meta.Some? {
      MetaStays(s, e);
    }
  }

  lemma MetaStays(s: Sys, e: Event)
    requires s.meta.Some? && !e.OnRestart?
    ensures Next(s, e).meta.Some?
  {
    hide Transition, RecordResult, Matches, Single, Active, SafeTaskId, ExecutionClaimable, ExecutionOk, AuthorityOk,
         RootCompatible, FreshStart;
  }

  lemma ActiveAfterWrite(s: Sys, e: Event, id: Text, t: Sys)
    requires WriteStep(s, t) && t.meta.value.taskId == id && Writes(s, e, id, RecordOf(t.meta.value, t.svc))
    ensures Active(t.store) <= Active(s.store)
            || (id !in s.store && Active(t.store) <= Active(s.store) + {id} && e.OnControl?
                && (Active(s.store) == {} || (s.meta.None? && s.svc.taskId == Some(id))))
  {
    hide Fenced;
  }

  lemma StepOneInProgress(s: Sys, e: Event)
    requires Inv(s) && Fair(s, e) && OneInProgress(s) && !BindsUnpersisted(s, e)
    ensures OneInProgress(Next(s, e))
  {
    hide Inv, Next, Writes, Active, BindsUnpersisted, Fair;
    StepAllowed(s, e);
    var t := Next(s, e);
    if WriteStep(s, t) {
      ActiveAfterWrite(s, e, t.meta.value.taskId, t);
    } else if t.meta.None? && t.svc.taskId.Some? {
      if e.OnRestart? {
        RestartUnbound(s, e);
      } else {
        LooseStep(s, e);
      }
    }
  }

  lemma RestartUnbound(s: Sys, e: Event)
    requires e.OnRestart?
    ensures Next(s, e).svc.taskId.None?
  {
  }

  ghost predicate NeverBindsUnpersisted(s: Sys, events: seq<Event>)
    decreases |events|
  {
    events != [] ==>
      && NeverBindsUnpersisted(s, events[..|events| - 1])
      && !BindsUnpersisted(RunAll(s, events[..|events| - 1]), events[|events| - 1])
  }

  /** Over every run with restarts in which no RESULT binds an unbound runtime to a task that is not
      persisted, at most one persisted task is not DONE. */
  lemma {:induction false} AtMostOneInProgress(s: Sys, events: seq<Event>)
    requires Inv(s) && OneInProgress(s) && FairRun(s, events) && NeverBindsUnpersisted(s, events)
    ensures OneInProgress(RunAll(s, events))
    decreases |events|
  {
    hide Inv, Next, OneInProgress, BindsUnpersisted;
    if events != [] {
      var before := events[..|events| - 1];
      AtMostOneInProgress(s, before);
      RunInv(s, before);
      StepOneInProgress(RunAll(s, before), events[|events| - 1]);
    }
  }

  const GOOD_WORLD := World(true, true, true, true, true, true)

  function PlanWith(id: Text, token: Option<Token>): Event {
    OnControl(ControlRequest(ControlArgs(Some(id), None, Some(PLAN), None, None, None, None), None, None, None, token),
              GOOD_WORLD)
  }

  function ResultWith(id: Text, token: Option<Token>): Event {
    OnResult(ResultRequest(ResultArgs(Some(id), None, ExecutorUnknown, None, None, None), token, None), GOOD_WORLD)
  }

  function Plan(id: Text): Event { PlanWith(id, None) }

  lemma BindsAndThrows(s: Sys, e: Event)
    requires Inv(s) && BindsUnpersisted(s, e) && e.result.args.taskId != Some([])
    ensures Next(s, e) == s.(svc := s.svc.(taskId := e.result.args.taskId))
  {
    hide Inv, Persist, SafeTaskId, Active;
    NoTaskNoMeta(s);
  }

  /** The condition is exact: after any such RESULT, a PLAN for the same task is admitted without a
      look at the namespace, and a second task is in progress. */
  lemma UnpersistedBindBreaks(s: Sys, e: Event)
    requires Inv(s) && BindsUnpersisted(s, e) && e.result.args.taskId != Some([])
    ensures var id := e.result.args.taskId.value;
            var end := Next(Next(s, e), Plan(id));
            id !in Active(s.store) && Active(end.store) == Active(s.store) + {id}
  {
    hide Inv, Active, Next;
    var id, n := e.result.args.taskId.value, Next(s, e);
    NoTaskNoMeta(s);
    BindsAndThrows(s, e);
    PlanBound(n, id);
    var end := Next(n, Plan(id));
    ActiveWith(s.store, id, end.store[id]);
  }

  lemma ActiveWith(store: TaskStore, id: Text, r: TaskRecord)
    requires id !in store && !TerminalDone(r.state)
    ensures id !in Active(store) && Active(store[id := r]) == Active(store) + {id}
  {
  }

  /** A runtime that is bound to an id without a task takes a PLAN for it without any token. */
  lemma PlanBound(n: Sys, id: Text)
    requires Usable(n, GOOD_WORLD) && n.meta.None? && n.svc.taskId == Some(id) && Untouched(n.svc)
    requires id != [] && SafeTaskId(id)
    ensures var end := Next(n, Plan(id));
            && id in end.store && end.store == n.store[id := end.store[id]]
            && end.store[id].state.control == Some(PLAN)
  {
    hide SafeTaskId, Active;
  }

  // ---------------------------------------------------------------------------------------
  // The empty task id
  // ---------------------------------------------------------------------------------------

  /** The token that the calls after an empty binding present: that of the task in memory, if there is one. */
  function MemoryToken(s: Sys): Option<Token> { if s.meta.Some? then TokenOf(s.meta.value.authority) else None }

  /** What the call e and then a RESULT for the task id leave behind. */
  function AfterEmptyBinding(s: Sys, e: Event, id: Text): Sys { Next(Next(s, e), ResultWith(id, MemoryToken(s))) }

  lemma EmptyBindingToken(s: Sys, e: Event)
    requires Inv(s) && BindsEmpty(s, e)
    ensures AuthorityOk(s, MemoryToken(s))
  {
    hide TokensOk, Sound, Agreement, DoneInStep, SafeTaskId, RootCompatible;
  }

  /** Memory that is bound to an empty id takes any other id from a RESULT that throws. */
  lemma EmptyRebinds(n: Sys, id: Text)
    requires Usable(n, GOOD_WORLD) && n.svc.taskId == Some([]) && Untouched(n.svc)
    requires id != [] && SafeTaskId(id) && AuthorityOk(n, MemoryToken(n))
    ensures Next(n, ResultWith(id, MemoryToken(n))) == n.(svc := n.svc.(taskId := Some(id)))
  {
    hide SafeTaskId;
  }

  lemma ReboundPlans(n: Sys, id: Text)
    requires Usable(n, GOOD_WORLD) && n.svc.taskId == Some(id) && Untouched(n.svc)
    requires id != [] && SafeTaskId(id) && AuthorityOk(n, MemoryToken(n))
    ensures var end := Next(n, PlanWith(id, MemoryToken(n)));
            && id in end.store && end.store == n.store[id := end.store[id]]
            && end.store[id].state.control == Some(PLAN) && end.store[id].state.steps == map[]
  {
    hide SafeTaskId, Active;
  }

  /** After every call that binds the runtime to the empty id, two more calls write a PLAN that knows no step
      under any id, over a persisted task too, DONE or not. They present the token of the task in memory, or
      none: never that of the task they overwrite, unless it is the one in memory. */
  lemma EmptyIdOverwrites(s: Sys, e: Event, id: Text)
    requires Inv(s) && BindsEmpty(s, e) && id != [] && SafeTaskId(id)
    ensures var end := Next(AfterEmptyBinding(s, e, id), PlanWith(id, MemoryToken(s)));
            && id in end.store && end.store == s.store[id := end.store[id]]
            && end.store[id].state.control == Some(PLAN) && end.store[id].state.steps == map[]
    ensures id in s.store && (s.meta.Some? ==> s.meta.value.taskId != id) && TokenOf(s.store[id].authority).Some?
            ==> TokenOf(s.store[id].authority) != MemoryToken(s)
  {
    EmptyBinding(s, e);
    EmptyBindingToken(s, e);
    assert Usable(s, GOOD_WORLD);
    if id in s.store {
      StoreHolds(s, id);
    }
    if MemoryToken(s).Some? {
      MetaHolds(s);
      assert ParentToken(s, s.meta.value.taskId, MemoryToken(s).value);
    }
    hide Inv, Next, BindsEmpty, SafeTaskId, ParentToken;
    var n := Next(s, e);
    EmptyRebinds(n, id);
    ReboundPlans(Next(n, ResultWith(id, MemoryToken(n))), id);
  }

  /** So every such call lets a second task be in progress, and lets a task that is DONE be in progress again. */
  lemma EmptyBindBreaks(s: Sys, e: Event, id: Text)
    requires Inv(s) && BindsEmpty(s, e) && id != [] && SafeTaskId(id)
    ensures var end := Next(AfterEmptyBinding(s, e, id), PlanWith(id, MemoryToken(s)));
            Active(end.store) == Active(s.store) + {id}
  {
    hide Inv, Next, BindsEmpty, SafeTaskId, AfterEmptyBinding;
    EmptyIdOverwrites(s, e, id);
  }

  /** Such calls exist on every fresh runtime, without a token, and on every runtime that is bound to a task
      that is DONE, with the token of that task. */
  lemma EmptyPlanBinds(s: Sys)
    requires !s.closed && !s.recovery && [UNDERSCORE] !in s.store
    ensures s.svc == FRESH && s.meta.None? ==> BindsEmpty(s, PlanWith([], None))
    ensures s.meta.Some? && TokenOf(s.meta.value.authority).Some? && TerminalDone(s.svc) ==>
              BindsEmpty(s, PlanWith([], MemoryToken(s)))
  {
  }
}
