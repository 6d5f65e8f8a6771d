/**
 The durable governance runtime (src/governance/durable.js) on values: one runtime at a time over
 the task store of a namespace, with fenced Parent authority and fenced execution claims, failing
 writes, and restarts. That there is one runtime at a time is what the writer guard provides.

 The store is a map from task ids to records. Tokens are fresh numbers; a token is issued when the
 call that minted it returns it to the caller. Workspace roots are canonical paths.
 */
module DurableModel {
  import opened Wrappers
  import opened JsStrings
  import opened ComponentNames
  import opened AcceptanceGate
  import opened Lifecycle

  type Token = nat

  datatype Claim = Claim(generation: nat, token: Option<Token>, taskId: Text, stepId: Text, root: Text,
                         parentGeneration: nat)

  datatype Authority = Authority(generation: nat, token: Option<Token>, claim: Option<Claim>)

  datatype TaskRecord = TaskRecord(projectKey: Option<Text>, identity: Option<Text>, root: Option<Text>,
                                   authority: Option<Authority>, state: GovState)

  datatype Meta = Meta(taskId: Text, projectKey: Option<Text>, identity: Option<Text>, root: Option<Text>,
                       authority: Option<Authority>)

  type TaskStore = map<Text, TaskRecord>

  /** The store, the memory of the runtime, and which tokens were minted, issued, and written. */
  datatype Sys = Sys(store: TaskStore, svc: GovState, meta: Option<Meta>, closed: bool, recovery: bool,
                     allowPublish: bool, next: Token, issued: set<Token>, writes: seq<Text>)

  /** What the outside does during one call: whether the slot reads as owned at the start and again
      in front of the write, whether reads work, whether the write commits, whether the committed
      record can be read back after a failed write, and whether the final refresh passes. */
  datatype World = World(owned: bool, readable: bool, ownedAgain: bool, saved: bool, restored: bool, refreshed: bool)

  /** A call either throws or returns, possibly with a token. */
  datatype Answer = Refused | Returned(token: Option<Token>)

  // ---------------------------------------------------------------------------------------
  // Store access
  // ---------------------------------------------------------------------------------------

  /** hasTask: the empty id shares the file of the id "_". */
  predicate Has(store: TaskStore, id: Text) { if id == [] then [UNDERSCORE] in store else id in store }

  /** loadTask: the empty id finds another task's envelope at most, which is an error. */
  function Load(store: TaskStore, id: Text): Option<TaskRecord> {
    if id != [] && id in store then Some(store[id]) else None
  }

  function MetaOf(id: Text, r: TaskRecord): Meta { Meta(id, r.projectKey, r.identity, r.root, r.authority) }

  function RecordOf(m: Meta, svc: GovState): TaskRecord {
    TaskRecord(m.projectKey, m.identity, m.root, m.authority, svc)
  }

  /** _hydrateTask */
  function Hydrate(s: Sys, id: Text): Sys
    requires id in s.store
  {
    s.(svc := s.store[id].state, meta := Some(MetaOf(id, s.store[id])))
  }

  /** Tasks that are not DONE. */
  function Active(store: TaskStore): set<Text> {
    set id | id in store && !TerminalDone(store[id].state)
  }

  /** _persist: assertOwned, saveTask with rollback, refresh. */
  function Persist(s: Sys, w: World, minted: Option<Token>): (Answer, Sys)
    requires s.meta.Some?
  {
    var m := s.meta.value;
    if !w.ownedAgain then (Refused, s)
    else if !w.saved then
      (Refused, if w.restored && m.taskId in s.store then Hydrate(s, m.taskId).(recovery := false)
                else s.(recovery := true))
    else
      var t := s.(store := s.store[m.taskId := RecordOf(m, s.svc)], writes := s.writes + [m.taskId]);
      if !w.refreshed then (Refused, t)
      else (Returned(minted), if minted.Some? then t.(issued := t.issued + {minted.value}) else t)
  }

  // ---------------------------------------------------------------------------------------
  // Authority and claims
  // ---------------------------------------------------------------------------------------

  function TokenOf(a: Option<Authority>): Option<Token> { if a.Some? then a.value.token else None }

  function GenerationOf(a: Option<Authority>): nat { if a.Some? then a.value.generation else 0 }

  function ClaimOf(a: Option<Authority>): Option<Claim> { if a.Some? then a.value.claim else None }

  function ClaimToken(a: Option<Authority>): Option<Token> {
    if ClaimOf(a).Some? then ClaimOf(a).value.token else None
  }

  function ClaimGeneration(a: Option<Authority>): nat {
    if ClaimOf(a).Some? then ClaimOf(a).value.generation else 0
  }

  /** fenceExecutionClaimValue */
  function Fence(claim: Option<Claim>): Option<Claim> {
    if claim.None? || claim.value.token.None? then claim
    else Some(claim.value.(generation := claim.value.generation + 1, token := None))
  }

  function FenceAuthority(a: Authority): Authority { a.(claim := Fence(a.claim)) }

  /** _checkAuthority: an unbound runtime has nothing to check. */
  predicate AuthorityOk(s: Sys, presented: Option<Token>) {
    s.meta.Some? ==> TokenOf(s.meta.value.authority).Some? && presented == TokenOf(s.meta.value.authority)
  }

  predicate DirectLocal(svc: GovState) {
    svc.route == Some(ChatgptDirectLocal) || (svc.route == Some(Hybrid) && svc.localRoute == Some(ChatgptDirectLocal))
  }

  /** _assertExecutionClaimable */
  predicate ExecutionClaimable(svc: GovState, stepId: Text) {
    && Truthy(svc.taskId)
    && (svc.control == Some(TASK) || svc.control == Some(REVISE)) && !svc.awaitingUser
    && stepId != [] && svc.currentStepId == Some(stepId)
    && DirectLocal(svc)
    && stepId in svc.steps
    && svc.steps[stepId].executorStatus == ExecutorUnknown && svc.steps[stepId].machineGate == GatePending
  }

  /** _checkExecutionClaim, without the workspace of the caller. */
  predicate ExecutionOk(s: Sys, taskId: Option<Text>, stepId: Option<Text>, presented: Option<Token>) {
    s.meta.Some? && Truthy(s.svc.taskId) &&
    var m := s.meta.value;
    (taskId.Some? ==> taskId.value == m.taskId) && ClaimOf(m.authority).Some? &&
    var claim := ClaimOf(m.authority).value;
    && (stepId.Some? ==> stepId.value == claim.stepId)
    && claim.token.Some? && presented == claim.token
    && claim.taskId == m.taskId && s.svc.currentStepId == Some(claim.stepId) && m.root == Some(claim.root)
    && claim.parentGeneration == GenerationOf(m.authority)
    && ExecutionClaimable(s.svc, claim.stepId)
  }

  // ---------------------------------------------------------------------------------------
  // transition
  // ---------------------------------------------------------------------------------------

  datatype ControlRequest = ControlRequest(args: ControlArgs, projectKey: Option<Text>, identity: Option<Text>,
                                     root: Option<Text>, authorityToken: Option<Token>)

  predicate Unsafe(id: Option<Text>) { id.Some? && !SafeTaskId(id.value) }

  predicate Usable(s: Sys, w: World) { !s.closed && !s.recovery && w.owned }

  /** Continuing a persisted task on an unbound runtime loads it first. */
  predicate NeedsHydration(s: Sys, taskId: Option<Text>) {
    s.svc.taskId.None? && taskId.Some? && Has(s.store, taskId.value)
  }

  /** _assertRootCompatible */
  predicate RootCompatible(s: Sys, c: ControlRequest, w: World) {
    var id := if Truthy(c.args.taskId) then c.args.taskId else s.svc.taskId;
    c.root.Some? && id.Some? && Has(s.store, id.value) ==>
      && w.readable && Load(s.store, id.value).Some?
      && (Load(s.store, id.value).value.root.Some? ==> Load(s.store, id.value).value.root == c.root)
  }

  /** _isFreshTaskStart */
  predicate FreshStart(s: Sys, c: ControlRequest) {
    && Truthy(c.args.taskId) && !Has(s.store, c.args.taskId.value)
    && (s.svc.taskId.None? || (TerminalDone(s.svc) && c.args.control == Some(PLAN)))
  }

  /** _assertNewTaskAdmission */
  predicate Admits(s: Sys, w: World) { w.readable && Active(s.store) == {} }

  function MetaFor(s: Sys, id: Text, c: ControlRequest): Meta {
    if s.meta.Some? && s.meta.value.taskId == id then
      var m := s.meta.value;
      m.(projectKey := if m.projectKey.None? then c.projectKey else m.projectKey,
         identity := if m.identity.None? then c.identity else m.identity)
    else if Load(s.store, id).Some? then MetaOf(id, Load(s.store, id).value)
    else Meta(id, c.projectKey, c.identity, c.root, None)
  }

  /** The end of transition: authority is minted or the claim fenced, and the result is written. */
  function CommitControl(s: Sys, c: ControlRequest, w: World): (Answer, Sys)
    requires s.svc.taskId.Some?
  {
    var id := s.svc.taskId.value;
    if !(s.meta.Some? && s.meta.value.taskId == id) && Has(s.store, id) && (!w.readable || Load(s.store, id).None?)
    then (Refused, s)
    else
      var m := MetaFor(s, id, c);
      var minted := TokenOf(m.authority).None?;
      var authority := if minted then Authority(0, Some(s.next), None) else FenceAuthority(m.authority.value);
      var root := if m.root.None? then c.root else m.root;
      Persist(s.(meta := Some(m.(authority := Some(authority), root := root)),
                 next := if minted then s.next + 1 else s.next),
              w, if minted then Some(s.next) else None)
  }

  function ControlLoaded(s: Sys, c: ControlRequest, w: World): (Answer, Sys) {
    if !RootCompatible(s, c, w) then (Refused, s)
    else if FreshStart(s, c) && !Admits(s, w) then (Refused, s)
    else if !FreshStart(s, c) && !AuthorityOk(s, c.authorityToken) then (Refused, s)
    else
      var (reply, svc) := Transition(s.svc, c.args, s.allowPublish);
      if reply.Threw? || svc.taskId.None? then (Refused, s.(svc := svc)) else CommitControl(s.(svc := svc), c, w)
  }

  function DoControl(s: Sys, c: ControlRequest, w: World): (Answer, Sys) {
    if !Usable(s, w) || Unsafe(c.args.taskId) then (Refused, s)
    else if s.svc.taskId.Some? && c.args.taskId.Some? && c.args.taskId != s.svc.taskId
        && Has(s.store, c.args.taskId.value)
    then (Refused, s)
    else if NeedsHydration(s, c.args.taskId) then
      if !w.readable || Load(s.store, c.args.taskId.value).None? then (Refused, s)
      else ControlLoaded(Hydrate(s, c.args.taskId.value), c, w)
    else ControlLoaded(s, c, w)
  }

  // ---------------------------------------------------------------------------------------
  // recordResult
  // ---------------------------------------------------------------------------------------

  datatype ResultRequest = ResultRequest(args: ResultArgs, authorityToken: Option<Token>, executionToken: Option<Token>)

  function FenceMeta(m: Meta): Meta {
    if m.authority.Some? then m.(authority := Some(FenceAuthority(m.authority.value))) else m
  }

  predicate ResultAuthorized(s: Sys, c: ResultRequest) {
    if c.executionToken.Some? then c.authorityToken.None?
        && ExecutionOk(s, c.args.taskId, c.args.stepId, c.executionToken)
    else AuthorityOk(s, c.authorityToken)
  }

  function ResultLoaded(s: Sys, c: ResultRequest, w: World): (Answer, Sys) {
    if !ResultAuthorized(s, c) then (Refused, s)
    else
      var (reply, svc) := RecordResult(s.svc, c.args);
      if reply.Threw? || svc.taskId.None? then (Refused, s.(svc := svc))
      else
        var m := if s.meta.Some? then s.meta.value else Meta(svc.taskId.value, None, None, None, None);
        Persist(s.(svc := svc, meta := Some(FenceMeta(m))), w, None)
  }

  function DoResult(s: Sys, c: ResultRequest, w: World): (Answer, Sys) {
    if !Usable(s, w) || Unsafe(c.args.taskId) then (Refused, s)
    else if NeedsHydration(s, c.args.taskId) then
      if !w.readable || Load(s.store, c.args.taskId.value).None? then (Refused, s)
      else ResultLoaded(Hydrate(s, c.args.taskId.value), c, w)
    else ResultLoaded(s, c, w)
  }

  // ---------------------------------------------------------------------------------------
  // takeover and claimExecution
  // ---------------------------------------------------------------------------------------

  datatype Scope = Scope(taskId: Option<Text>, projectKey: Option<Text>, identity: Option<Text>)

  predicate ScopeMatches(id: Text, r: TaskRecord, scope: Scope) {
    && (scope.taskId.Some? ==> scope.taskId.value == id)
    && (scope.projectKey.Some? ==> r.projectKey == scope.projectKey)
    && (scope.identity.Some? ==> r.identity == scope.identity)
  }

  predicate Unbounded(scope: Scope) { scope.taskId.None? && scope.projectKey.None? && scope.identity.None? }

  function Matches(store: TaskStore, scope: Scope): set<Text> {
    set id | id in store && ScopeMatches(id, store[id], scope)
  }

  /** The one element of a set, if it has exactly one. */
  function Single(ids: set<Text>): Option<Text> {
    if exists id :: id in ids && ids == {id} then
      var id :| id in ids && ids == {id};
      Some(id)
    else None
  }

  datatype TakeoverRequest = TakeoverRequest(scope: Scope, authorityToken: Option<Token>, root: Option<Text>)

  function TakenOver(s: Sys, id: Text, c: TakeoverRequest): Sys
    requires id in s.store
  {
    var r := s.store[id];
    var authority := Authority(GenerationOf(r.authority) + 1, Some(s.next), Fence(ClaimOf(r.authority)));
    s.(svc := r.state, next := s.next + 1,
       meta := Some(Meta(id, r.projectKey, r.identity, if c.root.Some? then c.root else r.root, Some(authority))))
  }

  function DoTakeover(s: Sys, c: TakeoverRequest, w: World): (Answer, Sys) {
    var target := Single(Matches(s.store, c.scope));
    if !Usable(s, w) || Unsafe(c.scope.taskId) || Unbounded(c.scope) || !w.readable || target.None?
        || target.value !in s.store
    then (Refused, s)
    else
      var r := s.store[target.value];
      if c.root.Some? && r.root.Some? && c.root != r.root then (Refused, s)
      else if TokenOf(r.authority).Some? && c.authorityToken.Some? && c.authorityToken != TokenOf(r.authority)
          then (Refused, s)
      else Persist(TakenOver(s, target.value, c), w, Some(s.next))
  }

  datatype ClaimRequest = ClaimRequest(scope: Scope, stepId: Option<Text>, root: Option<Text>)

  function Claimed(s: Sys, id: Text, stepId: Text): Sys
    requires id in s.store && s.store[id].authority.Some? && s.store[id].root.Some?
  {
    var r := s.store[id];
    var a := r.authority.value;
    var claim := Claim(ClaimGeneration(r.authority) + 1, Some(s.next), id, stepId, r.root.value, a.generation);
    Hydrate(s, id).(meta := Some(MetaOf(id, r).(authority := Some(a.(claim := Some(claim))))), next := s.next + 1)
  }

  function DoClaim(s: Sys, c: ClaimRequest, w: World): (Answer, Sys) {
    var target := Single(Matches(s.store, c.scope) * Active(s.store));
    if !Usable(s, w) || Unsafe(c.scope.taskId) || Unbounded(c.scope) || !Truthy(c.stepId) || !w.readable
       || target.None? || target.value !in s.store
    then (Refused, s)
    else
      var id := target.value;
      var r := s.store[id];
      if s.svc.taskId.Some? && s.svc.taskId != Some(id) then (Refused, s)
      else if r.root.None? || c.root != r.root then (Refused, s)
      else if TokenOf(r.authority).None? || !ExecutionClaimable(r.state, c.stepId.value) then (Refused, Hydrate(s, id))
      else Persist(Claimed(s, id, c.stepId.value), w, Some(s.next))
  }

  // ---------------------------------------------------------------------------------------
  // Calls that write nothing
  // ---------------------------------------------------------------------------------------

  /** authorizeExecution */
  predicate AuthorizesExecution(s: Sys, taskId: Option<Text>, presented: Option<Token>, root: Option<Text>) {
    && !s.closed && !s.recovery && ExecutionOk(s, taskId, None, presented)
    && root.Some? && root == s.meta.value.root
  }

  /** authorizeMutation */
  predicate AuthorizesMutation(s: Sys, taskId: Option<Text>, presented: Option<Token>, root: Option<Text>) {
    && !s.closed && !s.recovery && s.meta.Some? && Truthy(s.svc.taskId) && !TerminalDone(s.svc)
    && (taskId.Some? ==> taskId.value == s.meta.value.taskId)
    && presented.Some? && presented == TokenOf(s.meta.value.authority)
    && root.Some? && root == s.meta.value.root
  }

  function DoLoad(s: Sys, id: Text, w: World): (Answer, Sys) {
    if s.closed || id == [] || !SafeTaskId(id) || !w.readable || id !in s.store then (Refused, s)
    else (Returned(None), Hydrate(s, id).(recovery := false))
  }

  /** A new runtime over the same namespace. */
  function Restart(s: Sys, allowPublish: bool): Sys {
    s.(svc := FRESH, meta := None, closed := false, recovery := false, allowPublish := allowPublish)
  }

  // ---------------------------------------------------------------------------------------
  // Runs
  // ---------------------------------------------------------------------------------------

  datatype Event =
    | OnControl(control: ControlRequest, world: World)
    | OnResult(result: ResultRequest, world: World)
    | OnTakeover(takeover: TakeoverRequest, world: World)
    | OnClaim(claim: ClaimRequest, world: World)
    | OnLoad(id: Text, world: World)
    | OnClose
    | OnRestart(allowPublish: bool)

  function Perform(s: Sys, e: Event): (Answer, Sys) {
    match e
    case OnControl(c, w) => DoControl(s, c, w)
    case OnResult(c, w) => DoResult(s, c, w)
    case OnTakeover(c, w) => DoTakeover(s, c, w)
    case OnClaim(c, w) => DoClaim(s, c, w)
    case OnLoad(id, w) => DoLoad(s, id, w)
    case OnClose => (Returned(None), s.(closed := true))
    case OnRestart(allowPublish) => (Returned(None), Restart(s, allowPublish))
  }

  function Next(s: Sys, e: Event): Sys { Perform(s, e).1 }

  function RunAll(s: Sys, events: seq<Event>): Sys
    decreases |events|
  {
    if events == [] then s else Next(RunAll(s, events[..|events| - 1]), events[|events| - 1])
  }

  /** The task id that a control or RESULT names. */
  function NamedTask(e: Event): Option<Text> {
    match e
    case OnControl(c, _) => c.args.taskId
    case OnResult(c, _) => c.args.taskId
    case _ => None
  }

  predicate IssuedTo(s: Sys, token: Option<Token>) { token.Some? ==> token.value in s.issued }

  /** A call with the empty task id that gets past every check in front of the lifecycle: it throws there,
      and leaves the runtime bound to the empty id. Everything it takes can be checked before the call. */
  predicate BindsEmpty(s: Sys, e: Event) {
    NamedTask(e) == Some([]) && [UNDERSCORE] !in s.store && Usable(s, e.world) &&
    match e
    case OnControl(c, w) =>
      && c.args.control.Some? && RootCompatible(s, c, w) && AuthorityOk(s, c.authorityToken)
      && (s.svc.taskId.None? || (TerminalDone(s.svc) && c.args.control == Some(PLAN)))
    case OnResult(c, _) => s.svc.taskId.None? && c.executionToken.None?
    case _ => false
  }

  /** Callers present tokens that they were given. */
  predicate Honest(s: Sys, e: Event) {
    match e
    case OnControl(c, _) => IssuedTo(s, c.authorityToken)
    case OnResult(c, _) => IssuedTo(s, c.authorityToken) && IssuedTo(s, c.executionToken)
    case OnTakeover(c, _) => IssuedTo(s, c.authorityToken)
    case _ => true
  }

  predicate Fair(s: Sys, e: Event) { Honest(s, e) && !BindsEmpty(s, e) }

  predicate FairRun(s: Sys, events: seq<Event>)
    decreases |events|
  {
    events != [] ==>
      FairRun(s, events[..|events| - 1]) && Fair(RunAll(s, events[..|events| - 1]), events[|events| - 1])
  }
}
