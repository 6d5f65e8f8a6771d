/**
 What the durable runtime keeps in every reachable state: how its memory relates to the store, and
 to whom each token belongs.
 */
module DurableInvariant {
  import opened Wrappers
  import opened JsStrings
  import opened ComponentNames
  import opened AcceptanceGate
  import opened Lifecycle
  import opened DurableModel

  /** Every record is a sound task under its own id. */
  ghost predicate StoreOk(store: TaskStore) {
    forall id :: id in store ==>
      id != [] && SafeTaskId(id) && store[id].state.taskId == Some(id) && Sound(store[id].state)
  }

  /** No control was ever applied. */
  predicate Untouched(svc: GovState) {
    svc.control.None? && svc.currentStepId.None? && svc.steps == map[]
  }

  /** Memory is bound to the task of its meta data; without meta data it holds no more than an id
      that is not persisted. */
  ghost predicate MemoryOk(s: Sys) {
    && Sound(s.svc)
    && (s.meta.Some? ==>
          && s.meta.value.taskId != [] && SafeTaskId(s.meta.value.taskId)
          && s.svc.taskId == Some(s.meta.value.taskId))
    && (s.meta.None? ==> Untouched(s.svc))
    && (s.meta.None? && s.svc.taskId.Some? ==>
          s.svc.taskId.value != [] && SafeTaskId(s.svc.taskId.value) && s.svc.taskId.value !in s.store)
  }

  /** The authority of a task, as the store or as memory has it. */
  predicate HoldsAuthority(s: Sys, id: Text, a: Authority) {
    || (id in s.store && s.store[id].authority == Some(a))
    || (s.meta.Some? && s.meta.value.taskId == id && s.meta.value.authority == Some(a))
  }

  /** The token is the task's Parent token, in the store or in memory. */
  ghost predicate ParentToken(s: Sys, id: Text, t: Token) {
    exists a :: HoldsAuthority(s, id, a) && a.token == Some(t)
  }

  /** The token is the task's execution token, in the store or in memory. */
  ghost predicate ExecutionToken(s: Sys, id: Text, t: Token) {
    exists a :: HoldsAuthority(s, id, a) && ClaimToken(Some(a)) == Some(t)
  }

  ghost predicate TokensOk(s: Sys) {
    && (forall id, t: Token :: ParentToken(s, id, t) ==> t < s.next)
    && (forall id, t: Token :: ExecutionToken(s, id, t) ==> t < s.next)
    && (forall t :: t in s.issued ==> t < s.next)
    && (forall i, j, t :: ParentToken(s, i, t) && ParentToken(s, j, t) ==> i == j)
    && (forall i, j, t :: ExecutionToken(s, i, t) && ExecutionToken(s, j, t) ==> i == j)
    && (forall i, j, t :: ParentToken(s, i, t) ==> !ExecutionToken(s, j, t))
  }

  /** The authority in memory against the record of its task: issued tokens are the committed ones,
      and generations never lag. */
  predicate Agrees(s: Sys, a: Option<Authority>, r: Option<TaskRecord>) {
    && (TokenOf(a).Some? && TokenOf(a).value in s.issued ==> r.Some? && TokenOf(r.value.authority) == TokenOf(a))
    && (ClaimToken(a).Some? && ClaimToken(a).value in s.issued ==>
          r.Some? && ClaimToken(r.value.authority) == ClaimToken(a) && TokenOf(r.value.authority) == TokenOf(a))
    && (r.Some? ==> GenerationOf(a) >= GenerationOf(r.value.authority))
    && (r.Some? ==> ClaimGeneration(a) >= ClaimGeneration(r.value.authority))
  }

  predicate Agreement(s: Sys) {
    s.meta.Some? ==> Agrees(s, s.meta.value.authority, Load(s.store, s.meta.value.taskId))
  }

  /** A task that is DONE in the store is the same in memory. */
  predicate DoneInStep(s: Sys) {
    (s.meta.Some? && s.meta.value.taskId in s.store && TerminalDone(s.store[s.meta.value.taskId].state)) ==>
      s.svc == s.store[s.meta.value.taskId].state
  }

  ghost predicate Inv(s: Sys) {
    StoreOk(s.store) && MemoryOk(s) && TokensOk(s) && Agreement(s) && DoneInStep(s)
  }

  // ---------------------------------------------------------------------------------------
  // Hydration
  // ---------------------------------------------------------------------------------------

  /** Nobody gains a token. */
  ghost predicate NoNewTokens(s: Sys, t: Sys) {
    && t.next >= s.next && t.issued == s.issued
    && (forall id, k :: ParentToken(t, id, k) ==> ParentToken(s, id, k))
    && (forall id, k :: ExecutionToken(t, id, k) ==> ExecutionToken(s, id, k))
  }

  lemma NoNewTokensOk(s: Sys, t: Sys)
    requires TokensOk(s) && NoNewTokens(s, t)
    ensures TokensOk(t)
  {
    hide ParentToken, ExecutionToken;
  }

  lemma HydrateTokens(s: Sys, id: Text)
    requires id in s.store
    ensures NoNewTokens(s, Hydrate(s, id))
  {
    var t := Hydrate(s, id);
    forall i, a | HoldsAuthority(t, i, a) ensures HoldsAuthority(s, i, a) {
    }
  }

  lemma SubTokens(s: Sys, t: Sys)
    requires forall i, a :: HoldsAuthority(t, i, a) ==> HoldsAuthority(s, i, a)
    ensures forall id, k :: ParentToken(t, id, k) ==> ParentToken(s, id, k)
    ensures forall id, k :: ExecutionToken(t, id, k) ==> ExecutionToken(s, id, k)
  {
    hide HoldsAuthority;
  }

  /** A token of t that is older than s was already there. */
  ghost predicate OnlyFresh(s: Sys, t: Sys) {
    && t.next >= s.next
    && (forall i, k: Token :: ParentToken(t, i, k) ==> ParentToken(s, i, k) || k >= s.next)
    && (forall i, k: Token :: ExecutionToken(t, i, k) ==> ExecutionToken(s, i, k) || k >= s.next)
  }

  lemma OnlyFreshTrans(s: Sys, t: Sys, u: Sys)
    requires OnlyFresh(s, t) && OnlyFresh(t, u)
    ensures OnlyFresh(s, u)
  {
    hide ParentToken, ExecutionToken;
  }

  lemma SubFresh(s: Sys, t: Sys)
    requires t.next >= s.next && forall i, a :: HoldsAuthority(t, i, a) ==> HoldsAuthority(s, i, a)
    ensures OnlyFresh(s, t)
  {
    SubTokens(s, t);
    hide ParentToken, ExecutionToken, HoldsAuthority;
  }

  lemma SameFresh(s: Sys, t: Sys)
    requires t.store == s.store && (t.meta == s.meta || t.meta.None?) && t.next >= s.next
    ensures OnlyFresh(s, t)
  {
    forall i, a ensures HoldsAuthority(t, i, a) ==> HoldsAuthority(s, i, a) {
    }
    SubFresh(s, t);
  }

  lemma HydrateFresh(s: Sys, id: Text)
    requires id in s.store
    ensures OnlyFresh(s, Hydrate(s, id))
  {
    hide ParentToken, ExecutionToken;
    HydrateTokens(s, id);
  }

  lemma HydrateInv(s: Sys, id: Text)
    requires Inv(s) && id in s.store
    ensures Inv(Hydrate(s, id)) && OnlyFresh(s, Hydrate(s, id))
  {
    HydrateFresh(s, id);
    hide TokensOk, NoNewTokens, OnlyFresh, Sound, SafeTaskId;
    HydrateTokens(s, id);
    NoNewTokensOk(s, Hydrate(s, id));
  }

  // ---------------------------------------------------------------------------------------
  // The write
  // ---------------------------------------------------------------------------------------

  lemma PersistTokens(s: Sys, w: World, minted: Option<Token>)
    requires Inv(s) && s.meta.Some?
    ensures var t := Persist(s, w, minted).1;
            forall i, a :: HoldsAuthority(t, i, a) ==> HoldsAuthority(s, i, a)
  {
  }

  lemma PersistFresh(s: Sys, w: World, minted: Option<Token>)
    requires Inv(s) && s.meta.Some?
    ensures OnlyFresh(s, Persist(s, w, minted).1)
  {
    hide Inv, HoldsAuthority;
    PersistTokens(s, w, minted);
    SubFresh(s, Persist(s, w, minted).1);
  }

  lemma PersistTokensOk(s: Sys, w: World, minted: Option<Token>)
    requires Inv(s) && s.meta.Some?
    requires minted.Some? ==> minted.value < s.next
    ensures TokensOk(Persist(s, w, minted).1)
  {
    var t := Persist(s, w, minted).1;
    PersistTokens(s, w, minted);
    SubTokens(s, t);
    assert t.next == s.next && (forall k :: k in t.issued ==> k < t.next);
    hide ParentToken, ExecutionToken, HoldsAuthority, Persist;
  }

  /** The state after the write itself. */
  function Written(s: Sys, minted: Option<Token>, refreshed: bool): Sys
    requires s.meta.Some?
  {
    s.(store := s.store[s.meta.value.taskId := RecordOf(s.meta.value, s.svc)],
       writes := s.writes + [s.meta.value.taskId],
       issued := if refreshed && minted.Some? then s.issued + {minted.value} else s.issued)
  }

  lemma WrittenInv(s: Sys, minted: Option<Token>, refreshed: bool)
    requires Inv(s) && s.meta.Some?
    requires TokensOk(Written(s, minted, refreshed))
    ensures Inv(Written(s, minted, refreshed))
  {
    hide TokensOk, Sound, SafeTaskId;
  }

  lemma PersistInv(s: Sys, w: World, minted: Option<Token>)
    requires Inv(s) && s.meta.Some?
    requires minted.Some? ==> minted.value < s.next
    ensures Inv(Persist(s, w, minted).1) && OnlyFresh(s, Persist(s, w, minted).1)
  {
    PersistFresh(s, w, minted);
    hide TokensOk, OnlyFresh, Sound, SafeTaskId, StoreOk, MemoryOk, Agreement, DoneInStep;
    PersistTokensOk(s, w, minted);
    if w.ownedAgain && w.saved {
      assert Persist(s, w, minted).1 == Written(s, minted, w.refreshed);
      WrittenInv(s, minted, w.refreshed);
    } else if w.ownedAgain && w.restored && s.meta.value.taskId in s.store {
      HydrateInv(s, s.meta.value.taskId);
      FlagsInv(Hydrate(s, s.meta.value.taskId), false);
    } else {
      FlagsInv(s, true);
    }
  }

  lemma FlagsInv(s: Sys, recovery: bool)
    requires Inv(s)
    ensures Inv(s.(recovery := recovery))
  {
    hide Sound, SafeTaskId, TokensOk;
    SameAuthorities(s, s.(recovery := recovery));
  }

  // ---------------------------------------------------------------------------------------
  // New memory in front of a write
  // ---------------------------------------------------------------------------------------

  /** t is s with the authority of task id replaced in memory: same tokens, or a fresh one. */
  ghost predicate Reauthorized(s: Sys, t: Sys, id: Text, held: Option<Authority>, now: Authority) {
    && t.store == s.store && t.issued == s.issued && t.next >= s.next
    && t.meta.Some? && t.meta.value.taskId == id && t.meta.value.authority == Some(now)
    && (held.Some? ==> HoldsAuthority(s, id, held.value))
    && (now.token == TokenOf(held) || now.token == Some(s.next))
    && (ClaimToken(Some(now)).None? || ClaimToken(Some(now)) == ClaimToken(held)
        || ClaimToken(Some(now)) == Some(s.next))
    && (now.token == Some(s.next) ==> t.next > s.next && ClaimToken(Some(now)) != Some(s.next))
    && (ClaimToken(Some(now)) == Some(s.next) ==> t.next > s.next)
  }

  lemma ReauthorizedHolds(s: Sys, t: Sys, id: Text, held: Option<Authority>, now: Authority)
    requires Reauthorized(s, t, id, held, now)
    ensures forall i, a :: HoldsAuthority(t, i, a) ==> HoldsAuthority(s, i, a) || (i == id && a == now)
  {
  }

  lemma ReauthorizedParents(s: Sys, t: Sys, id: Text, held: Option<Authority>, now: Authority)
    requires Reauthorized(s, t, id, held, now)
    ensures forall i, k :: ParentToken(t, i, k) ==>
            ParentToken(s, i, k) || (i == id && k == s.next && now.token == Some(s.next))
    ensures forall i, k :: ExecutionToken(t, i, k) ==>
              ExecutionToken(s, i, k) || (i == id && k == s.next && ClaimToken(Some(now)) == Some(s.next))
  {
    ReauthorizedHolds(s, t, id, held, now);
    hide HoldsAuthority;
  }

  lemma ReauthorizedTokensOk(s: Sys, t: Sys, id: Text, held: Option<Authority>, now: Authority)
    requires TokensOk(s) && Reauthorized(s, t, id, held, now)
    ensures TokensOk(t)
  {
    ReauthorizedParents(s, t, id, held, now);
    hide ParentToken, ExecutionToken, HoldsAuthority;
  }

  lemma ReauthorizedFresh(s: Sys, t: Sys, id: Text, held: Option<Authority>, now: Authority)
    requires Reauthorized(s, t, id, held, now)
    ensures OnlyFresh(s, t)
  {
    ReauthorizedParents(s, t, id, held, now);
    hide ParentToken, ExecutionToken, HoldsAuthority;
  }

  // ---------------------------------------------------------------------------------------
  // The lifecycle calls inside
  // ---------------------------------------------------------------------------------------

  lemma TransitionThrew(svc: GovState, a: ControlArgs, allowPublish: bool)
    requires Transition(svc, a, allowPublish).0.Threw? && svc.taskId != Some([]) && a.taskId != Some([])
    ensures var t := Transition(svc, a, allowPublish).1;
            && (t.taskId == svc.taskId || (svc.taskId.None? && t.taskId == a.taskId))
            && (TerminalDone(svc) && svc.taskId.Some? ==> t == svc)
            && (Untouched(svc) ==> Untouched(t))
  {
    hide Apply;
    if a.control.Some? {
      ApplyThrew(Routed(Begun(svc, a), a), a.control.value, a, allowPublish);
    }
  }

  lemma ApplyThrew(svc: GovState, c: Control, a: ControlArgs, allowPublish: bool)
    ensures Apply(svc, c, a, allowPublish).0.Threw? ==>
              && c != PLAN
              && Apply(svc, c, a, allowPublish).1 == svc.(awaitingUser := Apply(svc, c, a, allowPublish).1.awaitingUser)
  {
    hide Advance, NewStep, HasResult, RevisedStep;
  }

  lemma ApplyBinding(svc: GovState, c: Control, a: ControlArgs, allowPublish: bool)
    ensures Apply(svc, c, a, allowPublish).1.taskId == svc.taskId
  {
  }

  lemma TransitionAnswered(svc: GovState, a: ControlArgs, allowPublish: bool)
    requires Transition(svc, a, allowPublish).0.Answered? && svc.taskId != Some([]) && a.taskId != Some([])
    ensures var t := Transition(svc, a, allowPublish).1;
            && t.taskId.Some? && t.taskId != Some([])
            && t.taskId == (if svc.taskId.None? || OtherTask(svc, a.taskId) then a.taskId else svc.taskId)
            && (OtherTask(svc, a.taskId) ==> TerminalDone(svc) && a.control == Some(PLAN))
            && (TerminalDone(svc) && svc.taskId.Some? && !OtherTask(svc, a.taskId) ==>
                t == svc && a.control == Some(DONE))
  {
    hide Apply;
    if a.control.Some? {
      ApplyBinding(Routed(Begun(svc, a), a), a.control.value, a, allowPublish);
    }
  }

  lemma ResultBinding(svc: GovState, a: ResultArgs)
    requires svc.taskId != Some([]) && a.taskId != Some([])
    ensures var (reply, t) := RecordResult(svc, a);
            && (t.taskId == svc.taskId || (svc.taskId.None? && reply.Threw? && t.taskId == a.taskId)
                || (svc.taskId.None? && t.taskId == a.taskId && !Untouched(svc)))
            && (TerminalDone(svc) ==> reply.Threw? && t == svc)
            && (Untouched(svc) ==> reply.Threw? && Untouched(t))
            && (reply.Threw? && svc.taskId.Some? ==> t == svc)
  {
  }

  // ---------------------------------------------------------------------------------------
  // Every call keeps the invariant
  // ---------------------------------------------------------------------------------------

  /** The call names no persisted task other than the one in memory. */
  predicate Reaches(s: Sys, taskId: Option<Text>) {
    taskId.Some? && taskId != s.svc.taskId ==> taskId.value !in s.store
  }

  predicate Plain(taskId: Option<Text>) { taskId != Some([]) && !Unsafe(taskId) }

  /** Memory after a lifecycle call that threw. */
  lemma ThrownInv(s: Sys, svc: GovState, taskId: Option<Text>)
    requires Inv(s) && Plain(taskId) && Reaches(s, taskId) && Sound(svc)
    requires svc.taskId == s.svc.taskId || (s.svc.taskId.None? && svc.taskId == taskId)
    requires TerminalDone(s.svc) && s.svc.taskId.Some? ==> svc == s.svc
    requires Untouched(s.svc) ==> Untouched(svc)
    ensures Inv(s.(svc := svc)) && OnlyFresh(s, s.(svc := svc))
  {
    SameFresh(s, s.(svc := svc));
    hide TokensOk, OnlyFresh, Sound, SafeTaskId;
    var t := s.(svc := svc);
    SameAuthorities(s, t);
  }

  lemma SameAuthorities(s: Sys, t: Sys)
    requires TokensOk(s) && t.store == s.store && t.meta == s.meta && t.next >= s.next && t.issued == s.issued
    ensures TokensOk(t)
  {
    forall i, a ensures HoldsAuthority(t, i, a) ==> HoldsAuthority(s, i, a) {
    }
    SubTokens(s, t);
    hide ParentToken, ExecutionToken;
  }

  /** What transition writes: memory of the task it applied to, reauthorized. */
  lemma ControlMemory(s: Sys, c: ControlRequest, w: World)
    requires Inv(s) && Plain(c.args.taskId) && Reaches(s, c.args.taskId)
    requires FreshStart(s, c) || AuthorityOk(s, c.authorityToken)
    requires Transition(s.svc, c.args, s.allowPublish).0.Answered?
    ensures var t := s.(svc := Transition(s.svc, c.args, s.allowPublish).1);
            && t.svc.taskId.Some?
            && var id := t.svc.taskId.value;
            && id != [] && SafeTaskId(id)
            && ((s.meta.Some? && s.meta.value.taskId == id && TokenOf(s.meta.value.authority).Some?
                 && (TerminalDone(s.svc) ==> t.svc == s.svc) && !FreshStart(s, c))
                || (!(s.meta.Some? && s.meta.value.taskId == id) && id !in s.store))
  {
    hide Transition, Sound, SafeTaskId, TokensOk;
    TransitionAnswered(s.svc, c.args, s.allowPublish);
  }

  /** The memory that transition hands to the write. */
  function Prepared(s: Sys, c: ControlRequest): Sys
    requires s.svc.taskId.Some?
  {
    var m := MetaFor(s, s.svc.taskId.value, c);
    var minted := TokenOf(m.authority).None?;
    var authority := if minted then Authority(0, Some(s.next), None) else FenceAuthority(m.authority.value);
    s.(meta := Some(m.(authority := Some(authority), root := if m.root.None? then c.root else m.root)),
       next := if minted then s.next + 1 else s.next)
  }

  lemma PreparedInv(s: Sys, svc: GovState, c: ControlRequest)
    requires Inv(s) && Sound(svc) && svc.taskId.Some? && svc.taskId.value != [] && SafeTaskId(svc.taskId.value)
    requires var id := svc.taskId.value;
             || (s.meta.Some? && s.meta.value.taskId == id && TokenOf(s.meta.value.authority).Some?
                 && (TerminalDone(s.svc) ==> svc == s.svc))
             || (!(s.meta.Some? && s.meta.value.taskId == id) && id !in s.store)
    ensures Inv(Prepared(s.(svc := svc), c)) && OnlyFresh(s, Prepared(s.(svc := svc), c))
  {
    hide TokensOk, OnlyFresh, Sound, SafeTaskId;
    var t, id := Prepared(s.(svc := svc), c), svc.taskId.value;
    var now := t.meta.value.authority.value;
    var held := if s.meta.Some? && s.meta.value.taskId == id then s.meta.value.authority else None;
    if held.Some? {
      HeldBelow(s, id, held.value);
    }
    assert Reauthorized(s, t, id, held, now);
    ReauthorizedTokensOk(s, t, id, held, now);
    ReauthorizedFresh(s, t, id, held, now);
    FreshUnissued(s);
  }

  lemma HeldBelow(s: Sys, id: Text, a: Authority)
    requires TokensOk(s) && HoldsAuthority(s, id, a)
    ensures a.token != Some(s.next) && ClaimToken(Some(a)) != Some(s.next)
  {
    if a.token.Some? {
      assert ParentToken(s, id, a.token.value);
    }
    if ClaimToken(Some(a)).Some? {
      assert ExecutionToken(s, id, ClaimToken(Some(a)).value);
    }
  }

  lemma FreshUnissued(s: Sys)
    requires TokensOk(s)
    ensures s.next !in s.issued
  {
  }

  lemma ControlAnswered(s: Sys, c: ControlRequest, w: World)
    requires Inv(s) && Plain(c.args.taskId) && Reaches(s, c.args.taskId)
    requires FreshStart(s, c) || AuthorityOk(s, c.authorityToken)
    requires Transition(s.svc, c.args, s.allowPublish).0.Answered?
    ensures var svc := Transition(s.svc, c.args, s.allowPublish).1;
            && svc.taskId.Some?
            && Inv(CommitControl(s.(svc := svc), c, w).1) && OnlyFresh(s, CommitControl(s.(svc := svc), c, w).1)
  {
    var svc := Transition(s.svc, c.args, s.allowPublish).1;
    assert Sound(s.svc);
    hide Inv, OnlyFresh, Transition, Sound, SafeTaskId, Prepared, CommitControl, FreshStart, AuthorityOk;
    TransitionSound(s.svc, c.args, s.allowPublish);
    ControlMemory(s, c, w);
    PreparedInv(s, svc, c);
    CommitInv(s.(svc := svc), c, w);
    OnlyFreshTrans(s, Prepared(s.(svc := svc), c), CommitControl(s.(svc := svc), c, w).1);
  }

  lemma ControlLoadedInv(s: Sys, c: ControlRequest, w: World)
    requires Inv(s) && Plain(c.args.taskId) && Reaches(s, c.args.taskId)
    ensures Inv(ControlLoaded(s, c, w).1) && OnlyFresh(s, ControlLoaded(s, c, w).1)
  {
    SameFresh(s, s);
    hide OnlyFresh, Transition, TokensOk, Sound, SafeTaskId, Prepared, Persist, DoneInStep, Agreement, StoreOk,
         FreshStart, AuthorityOk, RootCompatible, Admits, CommitControl, Active;
    var (reply, svc) := Transition(s.svc, c.args, s.allowPublish);
    if FreshStart(s, c) || AuthorityOk(s, c.authorityToken) {
      if reply.Threw? {
        TransitionSound(s.svc, c.args, s.allowPublish);
        TransitionThrew(s.svc, c.args, s.allowPublish);
        ThrownInv(s, svc, c.args.taskId);
      } else {
        hide Inv;
        ControlAnswered(s, c, w);
      }
    }
  }

  lemma CommitInv(t: Sys, c: ControlRequest, w: World)
    requires t.svc.taskId.Some? && t.svc.taskId.value != []
    requires Inv(Prepared(t, c))
    requires (t.meta.Some? && t.meta.value.taskId == t.svc.taskId.value) || t.svc.taskId.value !in t.store
    ensures Inv(CommitControl(t, c, w).1) && OnlyFresh(Prepared(t, c), CommitControl(t, c, w).1)
  {
    hide Inv, Persist, OnlyFresh;
    var p := Prepared(t, c);
    var minted := if p.next > t.next then Some(t.next) else None;
    assert CommitControl(t, c, w) == Persist(p, w, minted);
    PersistInv(p, w, minted);
  }

  lemma ControlInv(s: Sys, c: ControlRequest, w: World)
    requires Inv(s) && c.args.taskId != Some([])
    ensures Inv(DoControl(s, c, w).1) && OnlyFresh(s, DoControl(s, c, w).1)
  {
    SameFresh(s, s);
    hide OnlyFresh, ControlLoaded, TokensOk, Sound, SafeTaskId, Agreement, DoneInStep;
    if Usable(s, w) && !Unsafe(c.args.taskId) {
      if NeedsHydration(s, c.args.taskId) {
        if w.readable && Load(s.store, c.args.taskId.value).Some? {
          HydrateInv(s, c.args.taskId.value);
          ControlLoadedInv(Hydrate(s, c.args.taskId.value), c, w);
          OnlyFreshTrans(s, Hydrate(s, c.args.taskId.value), DoControl(s, c, w).1);
        }
      } else if Reaches(s, c.args.taskId) {
        ControlLoadedInv(s, c, w);
      }
    }
  }

  lemma ResultLoadedInv(s: Sys, c: ResultRequest, w: World)
    requires Inv(s) && Plain(c.args.taskId)
    requires s.svc.taskId.None? ==> Reaches(s, c.args.taskId)
    ensures Inv(ResultLoaded(s, c, w).1) && OnlyFresh(s, ResultLoaded(s, c, w).1)
  {
    SameFresh(s, s);
    hide OnlyFresh, RecordResult, TokensOk, Sound, SafeTaskId, Persist, StoreOk;
    var (reply, svc) := RecordResult(s.svc, c.args);
    ResultBinding(s.svc, c.args);
    RecordResultSound(s.svc, c.args);
    if ResultAuthorized(s, c) {
      if reply.Threw? {
        var named := if s.svc.taskId.None? then c.args.taskId else None;
        ThrownInv(s, svc, named);
      } else {
        var t := s.(svc := svc, meta := Some(FenceMeta(s.meta.value)));
        FencedInv(s, t);
        PersistInv(t, w, None);
        OnlyFreshTrans(s, t, Persist(t, w, None).1);
      }
    }
  }

  lemma FencedInv(s: Sys, t: Sys)
    requires Inv(s) && s.meta.Some? && Sound(t.svc) && t.svc.taskId == s.svc.taskId && !TerminalDone(s.svc)
    requires t == s.(svc := t.svc, meta := Some(FenceMeta(s.meta.value)))
    ensures Inv(t) && OnlyFresh(s, t)
  {
    hide TokensOk, Sound, SafeTaskId, OnlyFresh;
    if s.meta.value.authority.Some? {
      var now := t.meta.value.authority.value;
      HeldBelow(s, s.meta.value.taskId, s.meta.value.authority.value);
      assert Reauthorized(s, t, t.meta.value.taskId, s.meta.value.authority, now);
      ReauthorizedTokensOk(s, t, t.meta.value.taskId, s.meta.value.authority, now);
      ReauthorizedFresh(s, t, t.meta.value.taskId, s.meta.value.authority, now);
    } else {
      SameAuthorities(s, t);
      SameFresh(s, t);
    }
  }

  lemma ResultInv(s: Sys, c: ResultRequest, w: World)
    requires Inv(s) && c.args.taskId != Some([])
    ensures Inv(DoResult(s, c, w).1) && OnlyFresh(s, DoResult(s, c, w).1)
  {
    SameFresh(s, s);
    hide OnlyFresh, ResultLoaded, TokensOk, Sound, SafeTaskId, Agreement, DoneInStep;
    if Usable(s, w) && !Unsafe(c.args.taskId) {
      if NeedsHydration(s, c.args.taskId) {
        if w.readable && Load(s.store, c.args.taskId.value).Some? {
          HydrateInv(s, c.args.taskId.value);
          ResultLoadedInv(Hydrate(s, c.args.taskId.value), c, w);
          OnlyFreshTrans(s, Hydrate(s, c.args.taskId.value), DoResult(s, c, w).1);
        }
      } else {
        ResultLoadedInv(s, c, w);
      }
    }
  }

  lemma TakenOverInv(s: Sys, id: Text, c: TakeoverRequest)
    requires Inv(s) && id in s.store
    ensures Inv(TakenOver(s, id, c)) && OnlyFresh(s, TakenOver(s, id, c))
  {
    hide OnlyFresh, TokensOk, Sound, SafeTaskId;
    var t := TakenOver(s, id, c);
    var now := t.meta.value.authority.value;
    var held := s.store[id].authority;
    assert Reauthorized(s, t, id, held, now);
    ReauthorizedTokensOk(s, t, id, held, now);
    ReauthorizedFresh(s, t, id, held, now);
    FreshUnissued(s);
  }

  lemma ClaimedInv(s: Sys, id: Text, stepId: Text)
    requires Inv(s) && id in s.store && s.store[id].authority.Some? && s.store[id].root.Some?
    ensures Inv(Claimed(s, id, stepId)) && OnlyFresh(s, Claimed(s, id, stepId))
  {
    hide OnlyFresh, TokensOk, Sound, SafeTaskId;
    var t := Claimed(s, id, stepId);
    var now := t.meta.value.authority.value;
    var held := s.store[id].authority;
    HeldBelow(s, id, held.value);
    assert Reauthorized(s, t, id, held, now);
    ReauthorizedTokensOk(s, t, id, held, now);
    ReauthorizedFresh(s, t, id, held, now);
    FreshUnissued(s);
  }

  /** A call that names the empty task id and does not bind the runtime to it changes nothing. */
  lemma EmptyCallQuiet(s: Sys, e: Event)
    requires Inv(s) && NamedTask(e) == Some([]) && !BindsEmpty(s, e)
    ensures Perform(s, e) == (Refused, s)
  {
    hide TokensOk, Sound, Agreement, DoneInStep, SafeTaskId, Persist, CommitControl, RootCompatible, ExecutionClaimable;
  }

  lemma NamedStepInv(s: Sys, e: Event)
    requires Inv(s) && NamedTask(e) != Some([])
    ensures Inv(Next(s, e)) && OnlyFresh(s, Next(s, e))
  {
    hide OnlyFresh, Inv, DoControl, DoResult, Persist, TakenOver, Claimed, Matches, Active;
    match e
    case OnControl(c, w) => ControlInv(s, c, w);
    case OnResult(c, w) => ResultInv(s, c, w);
    case OnTakeover(c, w) => TakeoverInv(s, c, w);
    case OnClaim(c, w) => ClaimInv(s, c, w);
    case OnLoad(id, w) => LoadInv(s, id, w);
    case OnClose => QuietInv(s, s.allowPublish);
    case OnRestart(allowPublish) => QuietInv(s, allowPublish);
  }

  lemma StepInv(s: Sys, e: Event)
    requires Inv(s) && !BindsEmpty(s, e)
    ensures Inv(Next(s, e)) && OnlyFresh(s, Next(s, e))
  {
    hide OnlyFresh, Inv, Perform, BindsEmpty;
    if NamedTask(e) == Some([]) {
      EmptyCallQuiet(s, e);
      SameFresh(s, s);
    } else {
      NamedStepInv(s, e);
    }
  }

  /** What a call leaves that binds the runtime to the empty id. */
  lemma EmptyBinding(s: Sys, e: Event)
    requires Inv(s) && BindsEmpty(s, e)
    ensures var n := Next(s, e);
            && n == s.(svc := n.svc) && n.svc.taskId == Some([]) && Untouched(n.svc)
  {
    EmptySafe();
    MemoryNamed(s);
    hide Inv, Sound, SafeTaskId, Persist, CommitControl, RootCompatible, ExecutionClaimable;
    if e.OnControl? {
      assert !FreshStart(s, e.control) && !NeedsHydration(s, Some([]));
      assert DoControl(s, e.control, e.world) == ControlLoaded(s, e.control, e.world);
    } else {
      assert DoResult(s, e.result, e.world) == ResultLoaded(s, e.result, e.world);
    }
  }

  lemma EmptySafe()
    ensures SafeTaskId([])
  {
  }

  lemma MemoryNamed(s: Sys)
    requires Inv(s)
    ensures s.svc.taskId.Some? ==> Truthy(s.svc.taskId)
    ensures s.svc.taskId.None? ==> s.meta.None? && Untouched(s.svc)
  {
  }

  /** The invariant of all runs is kept by a call if and only if it does not bind the runtime to the empty
      task id. */
  lemma StepInvIff(s: Sys, e: Event)
    requires Inv(s)
    ensures Inv(Next(s, e)) <==> !BindsEmpty(s, e)
  {
    if BindsEmpty(s, e) {
      EmptyBinding(s, e);
      hide Next, TokensOk, Sound, StoreOk, SafeTaskId;
    } else {
      hide Inv, Next, BindsEmpty;
      StepInv(s, e);
    }
  }

  lemma TakeoverInv(s: Sys, c: TakeoverRequest, w: World)
    requires Inv(s)
    ensures Inv(DoTakeover(s, c, w).1) && OnlyFresh(s, DoTakeover(s, c, w).1)
  {
    SameFresh(s, s);
    hide OnlyFresh, Inv, Persist, Matches, Single, SafeTaskId;
    var target := Single(Matches(s.store, c.scope));
    if target.Some? && target.value in s.store {
      TakenOverInv(s, target.value, c);
      PersistInv(TakenOver(s, target.value, c), w, Some(s.next));
      OnlyFreshTrans(s, TakenOver(s, target.value, c), Persist(TakenOver(s, target.value, c), w, Some(s.next)).1);
    }
  }

  lemma ClaimInv(s: Sys, c: ClaimRequest, w: World)
    requires Inv(s)
    ensures Inv(DoClaim(s, c, w).1) && OnlyFresh(s, DoClaim(s, c, w).1)
  {
    SameFresh(s, s);
    hide OnlyFresh, Inv, Persist, Matches, Single, SafeTaskId, ExecutionClaimable, Active;
    var target := Single(Matches(s.store, c.scope) * Active(s.store));
    if target.Some? && target.value in s.store && Truthy(c.stepId) {
      var id := target.value;
      HydrateInv(s, id);
      if s.store[id].authority.Some? && s.store[id].root.Some? {
        ClaimedInv(s, id, c.stepId.value);
        PersistInv(Claimed(s, id, c.stepId.value), w, Some(s.next));
        OnlyFreshTrans(s, Claimed(s, id, c.stepId.value), Persist(Claimed(s, id, c.stepId.value), w, Some(s.next)).1);
      }
    }
  }

  lemma LoadInv(s: Sys, id: Text, w: World)
    requires Inv(s)
    ensures Inv(DoLoad(s, id, w).1) && OnlyFresh(s, DoLoad(s, id, w).1)
  {
    SameFresh(s, s);
    hide OnlyFresh, TokensOk, Sound, SafeTaskId;
    if id in s.store {
      HydrateInv(s, id);
      SameAuthorities(Hydrate(s, id), Hydrate(s, id).(recovery := false));
      SameFresh(Hydrate(s, id), Hydrate(s, id).(recovery := false));
      OnlyFreshTrans(s, Hydrate(s, id), Hydrate(s, id).(recovery := false));
    }
  }

  lemma QuietInv(s: Sys, allowPublish: bool)
    requires Inv(s)
    ensures Inv(s.(closed := true)) && Inv(Restart(s, allowPublish))
    ensures OnlyFresh(s, s.(closed := true)) && OnlyFresh(s, Restart(s, allowPublish))
  {
    SameFresh(s, s.(closed := true));
    SameFresh(s, Restart(s, allowPublish));
    hide OnlyFresh, TokensOk, SafeTaskId;
    SameAuthorities(s, s.(closed := true));
    FreshSound();
    var t := Restart(s, allowPublish);
    forall i, a ensures HoldsAuthority(t, i, a) ==> HoldsAuthority(s, i, a) {
    }
    SubTokens(s, t);
    NoNewTokensOk(s, t);
  }

  lemma {:induction false} RunInv(s: Sys, events: seq<Event>)
    requires Inv(s) && FairRun(s, events)
    ensures Inv(RunAll(s, events))
    decreases |events|
  {
    hide Inv, Next;
    if events != [] {
      RunInv(s, events[..|events| - 1]);
      StepInv(RunAll(s, events[..|events| - 1]), events[|events| - 1]);
    }
  }

  /** A fresh namespace and its first runtime. */
  predicate Initial(s: Sys) {
    && s.store == map[] && s.svc == FRESH && s.meta.None? && s.issued == {} && s.writes == []
  }

  lemma InitialInv(s: Sys)
    requires Initial(s)
    ensures Inv(s)
  {
    FreshSound();
  }
}
