/**
 What a single call of the durable runtime can write, and what it leaves of the tokens.
 */
module DurableWrites {
  import opened Wrappers
  import opened JsStrings
  import opened ComponentNames
  import opened AcceptanceGate
  import opened Lifecycle
  import opened DurableModel
  import opened DurableInvariant

  /** t is s after one committed write, of what memory holds. */
  predicate WriteStep(s: Sys, t: Sys) {
    && t.meta.Some?
    && t.writes == s.writes + [t.meta.value.taskId]
    && t.store == s.store[t.meta.value.taskId := RecordOf(t.meta.value, t.svc)]
  }

  predicate Quiet(s: Sys, t: Sys) { t.writes == s.writes && t.store == s.store }

  lemma PersistShape(s: Sys, w: World, minted: Option<Token>)
    requires s.meta.Some?
    ensures var (answer, t) := Persist(s, w, minted);
            && (Quiet(s, t) || (WriteStep(s, t) && t.meta == s.meta && t.svc == s.svc))
            && (answer.Returned? ==> WriteStep(s, t) && answer.token == minted)
            && (t.writes != s.writes ==> !Quiet(s, t))
            && t.next == s.next
  {
    var t := Persist(s, w, minted).1;
    assert |s.writes + [s.meta.value.taskId]| == |s.writes| + 1;
  }

  // ---------------------------------------------------------------------------------------
  // Who may write what
  // ---------------------------------------------------------------------------------------

  predicate DoneKept(s: Sys, id: Text, r: TaskRecord) {
    id in s.store && TerminalDone(s.store[id].state) ==> r.state == s.store[id].state
  }

  /** Authority only moves forward, and no execution token survives. */
  predicate Fenced(before: TaskRecord, r: TaskRecord) {
    && TokenOf(r.authority) == TokenOf(before.authority)
    && GenerationOf(r.authority) >= GenerationOf(before.authority)
    && ClaimGeneration(r.authority) >= ClaimGeneration(before.authority)
    && ClaimToken(r.authority).None?
  }

  /** A control writes a new task with fresh authority, or a task whose current token it presented. */
  predicate ControlWrites(s: Sys, c: ControlRequest, id: Text, r: TaskRecord) {
    if id !in s.store then
      && r.authority == Some(Authority(0, Some(s.next), None))
      && (Active(s.store) == {} || (s.meta.None? && s.svc.taskId == Some(id)))
    else
      && c.authorityToken.Some? && TokenOf(s.store[id].authority) == c.authorityToken
      && Fenced(s.store[id], r)
  }

  /** A RESULT writes a task whose current Parent token or execution token it presented. */
  predicate ResultWrites(s: Sys, c: ResultRequest, id: Text, r: TaskRecord) {
    && id in s.store && Fenced(s.store[id], r)
    && ((c.authorityToken.Some? && TokenOf(s.store[id].authority) == c.authorityToken)
        || (c.executionToken.Some? && ClaimToken(s.store[id].authority) == c.executionToken))
  }

  /** A takeover keeps the task, raises the generation and mints the next token. */
  predicate TakeoverWrites(s: Sys, id: Text, r: TaskRecord) {
    && id in s.store && r.state == s.store[id].state
    && TokenOf(r.authority) == Some(s.next)
    && GenerationOf(r.authority) == GenerationOf(s.store[id].authority) + 1
    && ClaimToken(r.authority).None?
    && ClaimGeneration(r.authority) >= ClaimGeneration(s.store[id].authority)
  }

  /** A claim keeps the task and its Parent authority, and mints the next token as execution token. */
  predicate ClaimWrites(s: Sys, id: Text, r: TaskRecord) {
    && id in s.store && r.state == s.store[id].state && !TerminalDone(r.state)
    && TokenOf(r.authority) == TokenOf(s.store[id].authority)
    && GenerationOf(r.authority) == GenerationOf(s.store[id].authority)
    && ClaimToken(r.authority) == Some(s.next)
    && ClaimGeneration(r.authority) == ClaimGeneration(s.store[id].authority) + 1
    && r.projectKey == s.store[id].projectKey && r.identity == s.store[id].identity && r.root == s.store[id].root
  }

  predicate Writes(s: Sys, e: Event, id: Text, r: TaskRecord) {
    && DoneKept(s, id, r)
    && match e
       case OnControl(c, _) => ControlWrites(s, c, id, r)
       case OnResult(c, _) => ResultWrites(s, c, id, r)
       case OnTakeover(_, _) => TakeoverWrites(s, id, r)
       case OnClaim(_, _) => ClaimWrites(s, id, r)
       case _ => false
  }

  /** The call writes nothing, or exactly one task, as Writes allows. */
  predicate Allowed(s: Sys, e: Event, t: Sys) {
    Quiet(s, t) || (WriteStep(s, t) && Writes(s, e, t.meta.value.taskId, RecordOf(t.meta.value, t.svc)))
  }

  lemma CommitShape(t: Sys, c: ControlRequest, w: World)
    requires t.svc.taskId.Some? && t.svc.taskId.value != []
    requires (t.meta.Some? && t.meta.value.taskId == t.svc.taskId.value) || t.svc.taskId.value !in t.store
    ensures exists minted :: CommitControl(t, c, w) == Persist(Prepared(t, c), w, minted)
                          && (minted.None? || minted == Some(t.next))
  {
    hide Persist;
    var p := Prepared(t, c);
    var minted := if p.next > t.next then Some(t.next) else None;
    assert CommitControl(t, c, w) == Persist(p, w, minted);
  }

  lemma PreparedWrites(s: Sys, svc: GovState, c: ControlRequest, w: World)
    requires Inv(s) && IssuedTo(s, c.authorityToken) && svc.taskId.Some?
    requires FreshStart(s, c) ==> Admits(s, w)
    requires FreshStart(s, c) || AuthorityOk(s, c.authorityToken)
    requires s.meta.None? ==> svc.taskId == s.svc.taskId || FreshStart(s, c)
    requires var id := svc.taskId.value;
             || (s.meta.Some? && s.meta.value.taskId == id && TokenOf(s.meta.value.authority).Some?
                 && (TerminalDone(s.svc) ==> svc == s.svc) && !FreshStart(s, c))
             || (!(s.meta.Some? && s.meta.value.taskId == id) && id !in s.store && (s.meta.Some? ==> FreshStart(s, c)))
    ensures var p := Prepared(s.(svc := svc), c);
            && p.meta.value.taskId == svc.taskId.value
            && Writes(s, OnControl(c, w), p.meta.value.taskId, RecordOf(p.meta.value, svc))
  {
    hide TokensOk, Sound, SafeTaskId, StoreOk;
    var id := svc.taskId.value;
    if s.meta.Some? && s.meta.value.taskId == id {
      assert Agrees(s, s.meta.value.authority, Load(s.store, id));
    }
  }

  lemma ControlLoadedAllowed(s: Sys, c: ControlRequest, w: World)
    requires Inv(s) && Plain(c.args.taskId) && Reaches(s, c.args.taskId) && IssuedTo(s, c.authorityToken)
    ensures Allowed(s, OnControl(c, w), ControlLoaded(s, c, w).1)
    ensures ControlLoaded(s, c, w).0.Returned? ==> WriteStep(s, ControlLoaded(s, c, w).1)
  {
    hide Transition, TokensOk, Sound, SafeTaskId, Prepared, Persist, DoneInStep, Agreement, StoreOk, Writes,
         CommitControl;
    var (reply, svc) := Transition(s.svc, c.args, s.allowPublish);
    if (FreshStart(s, c) || AuthorityOk(s, c.authorityToken)) && reply.Answered? {
      TransitionAnswered(s.svc, c.args, s.allowPublish);
      ControlMemory(s, c, w);
      CommitShape(s.(svc := svc), c, w);
      var p := Prepared(s.(svc := svc), c);
      PreparedStore(s.(svc := svc), c);
      var minted :| CommitControl(s.(svc := svc), c, w) == Persist(p, w, minted)
          && (minted.None? || minted == Some(s.next));
      PersistShape(p, w, minted);
      if FreshStart(s, c) ==> Admits(s, w) {
        PreparedWrites(s, svc, c, w);
      }
    }
  }

  lemma PreparedStore(t: Sys, c: ControlRequest)
    requires t.svc.taskId.Some?
    ensures var p := Prepared(t, c); p.store == t.store && p.writes == t.writes && p.svc == t.svc && p.meta.Some?
  {
  }

  /** A loaded task writes as it would have written from the store itself. */
  lemma HydratedWrites(s: Sys, id: Text, e: Event, t: Sys)
    requires Inv(s) && id in s.store && s.svc.taskId.None?
    requires Allowed(Hydrate(s, id), e, t)
    ensures Allowed(s, e, t)
  {
    hide TokensOk, Sound, SafeTaskId, StoreOk;
  }

  lemma ControlAllowed(s: Sys, c: ControlRequest, w: World)
    requires Inv(s) && Honest(s, OnControl(c, w)) && c.args.taskId != Some([])
    ensures Allowed(s, OnControl(c, w), DoControl(s, c, w).1)
    ensures DoControl(s, c, w).0.Returned? ==> WriteStep(s, DoControl(s, c, w).1)
  {
    hide ControlLoaded, TokensOk, Sound, SafeTaskId, Agreement, DoneInStep, Writes;
    if Usable(s, w) && !Unsafe(c.args.taskId) {
      if NeedsHydration(s, c.args.taskId) {
        if w.readable && Load(s.store, c.args.taskId.value).Some? {
          var h := Hydrate(s, c.args.taskId.value);
          HydrateInv(s, c.args.taskId.value);
          ControlLoadedAllowed(h, c, w);
          HydratedWrites(s, c.args.taskId.value, OnControl(c, w), ControlLoaded(h, c, w).1);
        }
      } else if Reaches(s, c.args.taskId) {
        ControlLoadedAllowed(s, c, w);
      }
    }
  }

  lemma FencedWrites(s: Sys, svc: GovState, c: ResultRequest, w: World)
    requires Inv(s) && s.meta.Some? && !TerminalDone(s.svc) && svc.taskId == s.svc.taskId
    requires IssuedTo(s, c.authorityToken) && IssuedTo(s, c.executionToken) && ResultAuthorized(s, c)
    ensures Writes(s, OnResult(c, w), s.meta.value.taskId, RecordOf(FenceMeta(s.meta.value), svc))
  {
    hide TokensOk, Sound, SafeTaskId, StoreOk, ExecutionClaimable;
    assert Agrees(s, s.meta.value.authority, Load(s.store, s.meta.value.taskId));
  }

  lemma ResultLoadedAllowed(s: Sys, c: ResultRequest, w: World)
    requires Inv(s) && Plain(c.args.taskId)
    requires IssuedTo(s, c.authorityToken) && IssuedTo(s, c.executionToken)
    ensures Allowed(s, OnResult(c, w), ResultLoaded(s, c, w).1)
    ensures ResultLoaded(s, c, w).0.Returned? ==> WriteStep(s, ResultLoaded(s, c, w).1)
  {
    hide RecordResult, TokensOk, Sound, SafeTaskId, Persist, StoreOk, ResultAuthorized, Writes, DoneInStep, Agreement;
    var (reply, svc) := RecordResult(s.svc, c.args);
    ResultBinding(s.svc, c.args);
    if ResultAuthorized(s, c) && reply.Answered? {
      var t := s.(svc := svc, meta := Some(FenceMeta(s.meta.value)));
      PersistShape(t, w, None);
      FencedWrites(s, svc, c, w);
    }
  }

  lemma ResultAllowed(s: Sys, c: ResultRequest, w: World)
    requires Inv(s) && Honest(s, OnResult(c, w)) && c.args.taskId != Some([])
    ensures Allowed(s, OnResult(c, w), DoResult(s, c, w).1)
    ensures DoResult(s, c, w).0.Returned? ==> WriteStep(s, DoResult(s, c, w).1)
  {
    hide ResultLoaded, TokensOk, Sound, SafeTaskId, Agreement, DoneInStep, Writes;
    if Usable(s, w) && !Unsafe(c.args.taskId) {
      if NeedsHydration(s, c.args.taskId) {
        if w.readable && Load(s.store, c.args.taskId.value).Some? {
          var h := Hydrate(s, c.args.taskId.value);
          HydrateInv(s, c.args.taskId.value);
          ResultLoadedAllowed(h, c, w);
          HydratedWrites(s, c.args.taskId.value, OnResult(c, w), ResultLoaded(h, c, w).1);
        }
      } else {
        ResultLoadedAllowed(s, c, w);
      }
    }
  }

  lemma TakeoverAllowed(s: Sys, c: TakeoverRequest, w: World)
    requires Inv(s)
    ensures Allowed(s, OnTakeover(c, w), DoTakeover(s, c, w).1)
    ensures DoTakeover(s, c, w).0.Returned? ==> WriteStep(s, DoTakeover(s, c, w).1)
  {
    hide Inv, Persist, Matches, Single, SafeTaskId;
    var target := Single(Matches(s.store, c.scope));
    if target.Some? && target.value in s.store {
      PersistShape(TakenOver(s, target.value, c), w, Some(s.next));
    }
  }

  lemma ClaimAllowed(s: Sys, c: ClaimRequest, w: World)
    requires Inv(s)
    ensures Allowed(s, OnClaim(c, w), DoClaim(s, c, w).1)
    ensures DoClaim(s, c, w).0.Returned? ==> WriteStep(s, DoClaim(s, c, w).1)
  {
    hide Inv, Persist, Matches, Single, SafeTaskId;
    var target := Single(Matches(s.store, c.scope) * Active(s.store));
    if target.Some? && target.value in s.store && Truthy(c.stepId) {
      var r := s.store[target.value];
      if TokenOf(r.authority).Some? && r.root.Some? && ExecutionClaimable(r.state, c.stepId.value) {
        PersistShape(Claimed(s, target.value, c.stepId.value), w, Some(s.next));
      }
    }
  }

  predicate Mutates(e: Event) { e.OnControl? || e.OnResult? || e.OnTakeover? || e.OnClaim? }

  /** Every call writes nothing or one task, as it is allowed to; and when a mutating call returns,
      what memory holds is what the store holds. */
  lemma StepAllowed(s: Sys, e: Event)
    requires Inv(s) && Fair(s, e)
    ensures Allowed(s, e, Next(s, e))
    ensures Mutates(e) && Perform(s, e).0.Returned? ==> WriteStep(s, Next(s, e))
  {
    hide Inv, DoControl, DoResult, DoTakeover, DoClaim, Writes, BindsEmpty;
    if NamedTask(e) == Some([]) {
      EmptyCallQuiet(s, e);
      return;
    }
    match e
    case OnControl(c, w) => ControlAllowed(s, c, w);
    case OnResult(c, w) => ResultAllowed(s, c, w);
    case OnTakeover(c, w) => TakeoverAllowed(s, c, w);
    case OnClaim(c, w) => ClaimAllowed(s, c, w);
    case OnLoad(id, w) =>
    case OnClose =>
    case OnRestart(_) =>
  }
}
