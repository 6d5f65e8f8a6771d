/**
 DurableGovernanceService of src/governance/durable.js as the object it is: a lifecycle service, the
 authority data in memory and the flags, over the task store. Every method is the function of
 DurableModel that the theorems speak about.
 */
module DurableRuntime {
  import opened Wrappers
  import opened JsStrings
  import opened ComponentNames
  import opened AcceptanceGate
  import L = Lifecycle
  import opened M = DurableModel
  import I = DurableInvariant
  import opened GovernanceServiceObject

  class DurableGovernance {
    const service: GovernanceService
    var store: TaskStore
    var meta: Option<Meta>
    var closed: bool
    var recoveryRequired: bool
    var next: Token
    var issued: set<Token>
    var writes: seq<Text>

    function State(): Sys
      reads this, service
    {
      M.Sys(store, service.State(), meta, closed, recoveryRequired, service.allowPublish, next, issued, writes)
    }

    /** A runtime over an existing namespace: what a restart makes. */
    constructor (before: Sys, allowPublish: bool)
      ensures fresh(service) && State() == Restart(before, allowPublish)
    {
      service := new GovernanceService(allowPublish);
      store, meta, closed, recoveryRequired := before.store, None, false, false;
      next, issued, writes := before.next, before.issued, before.writes;
    }

    method Close()
      modifies this
      ensures State() == old(State()).(closed := true)
    {
      closed := true;
    }

    method HydrateTask(id: Text)
      requires id in store
      modifies this, service
      ensures State() == Hydrate(old(State()), id)
    {
      service.SetState(store[id].state);
      meta := Some(MetaOf(id, store[id]));
    }

    method PersistTask(w: World, minted: Option<Token>) returns (answer: Answer)
      requires meta.Some?
      modifies this, service
      ensures (answer, State()) == Persist(old(State()), w, minted)
    {
      var id := meta.value.taskId;
      if !w.ownedAgain {
        return Refused;
      }
      if !w.saved {
        if w.restored && id in store {
          HydrateTask(id);
          recoveryRequired := false;
        } else {
          recoveryRequired := true;
        }
        return Refused;
      }
      store := store[id := RecordOf(meta.value, service.State())];
      writes := writes + [id];
      if !w.refreshed {
        return Refused;
      }
      if minted.Some? {
        issued := issued + {minted.value};
      }
      answer := Returned(minted);
    }

    /** Fresh authority for a new task, or the fence for an old one. */
    method PrepareAuthority(c: ControlRequest) returns (minted: Option<Token>)
      requires service.State().taskId.Some?
      modifies this`meta, this`next
      ensures State() == I.Prepared(old(State()), c)
      ensures minted == if TokenOf(MetaFor(old(State()), old(service.State().taskId.value), c).authority).None?
                        then Some(old(next)) else None
    {
      hide MetaFor;
      var m := MetaFor(State(), service.State().taskId.value, c);
      if TokenOf(m.authority).None? {
        m := m.(authority := Some(Authority(0, Some(next), None)));
        minted := Some(next);
        next := next + 1;
      } else {
        m := m.(authority := Some(FenceAuthority(m.authority.value)));
        minted := None;
      }
      if c.root.Some? && m.root.None? {
        m := m.(root := c.root);
      }
      meta := Some(m);
    }

    /** The part of transition behind the lifecycle call. */
    method CommitTransition(c: ControlRequest, w: World) returns (answer: Answer)
      requires service.State().taskId.Some?
      modifies this, service
      ensures (answer, State()) == CommitControl(old(State()), c, w)
    {
      hide Persist, MetaFor;
      var id := service.State().taskId.value;
      if !(meta.Some? && meta.value.taskId == id) && Has(store, id) && (!w.readable || Load(store, id).None?) {
        return Refused;
      }
      var minted := PrepareAuthority(c);
      answer := PersistTask(w, minted);
    }

    method TransitionLoaded(c: ControlRequest, w: World) returns (answer: Answer)
      modifies this, service
      ensures (answer, State()) == ControlLoaded(old(State()), c, w)
    {
      hide CommitControl, L.Transition;
      if !RootCompatible(State(), c, w) {
        return Refused;
      }
      var freshStart := FreshStart(State(), c);
      if freshStart && !Admits(State(), w) {
        return Refused;
      }
      if !freshStart && !AuthorityOk(State(), c.authorityToken) {
        return Refused;
      }
      var reply := service.Transition(c.args);
      if reply.Threw? || service.State().taskId.None? {
        return Refused;
      }
      answer := CommitTransition(c, w);
    }

    method Transition(c: ControlRequest, w: World) returns (answer: Answer)
      modifies this, service
      ensures (answer, State()) == DoControl(old(State()), c, w)
    {
      hide ControlLoaded;
      if closed || recoveryRequired || !w.owned || Unsafe(c.args.taskId) {
        return Refused;
      }
      var active := service.State().taskId;
      if active.Some? && c.args.taskId.Some? && c.args.taskId != active && Has(store, c.args.taskId.value) {
        return Refused;
      }
      if active.None? && c.args.taskId.Some? && Has(store, c.args.taskId.value) {
        if !w.readable || Load(store, c.args.taskId.value).None? {
          return Refused;
        }
        HydrateTask(c.args.taskId.value);
      }
      answer := TransitionLoaded(c, w);
    }

    method RecordResult(c: ResultRequest, w: World) returns (answer: Answer)
      modifies this, service
      ensures (answer, State()) == DoResult(old(State()), c, w)
    {
      hide L.RecordResult, Persist, ResultAuthorized;
      if closed || recoveryRequired || !w.owned || Unsafe(c.args.taskId) {
        return Refused;
      }
      if service.State().taskId.None? && c.args.taskId.Some? && Has(store, c.args.taskId.value) {
        if !w.readable || Load(store, c.args.taskId.value).None? {
          return Refused;
        }
        HydrateTask(c.args.taskId.value);
      }
      if !ResultAuthorized(State(), c) {
        return Refused;
      }
      var reply := service.RecordResult(c.args);
      if reply.Threw? || service.State().taskId.None? {
        return Refused;
      }
      if meta.None? {
        meta := Some(Meta(service.State().taskId.value, None, None, None, None));
      }
      meta := Some(FenceMeta(meta.value));
      answer := PersistTask(w, None);
    }

    method Takeover(c: TakeoverRequest, w: World) returns (answer: Answer)
      modifies this, service
      ensures (answer, State()) == DoTakeover(old(State()), c, w)
    {
      hide Persist, Matches, Single;
      var target := Single(Matches(store, c.scope));
      if closed || recoveryRequired || !w.owned || Unsafe(c.scope.taskId) || Unbounded(c.scope) || !w.readable
         || target.None? || target.value !in store {
        return Refused;
      }
      var id, r := target.value, store[target.value];
      if c.root.Some? && r.root.Some? && c.root != r.root {
        return Refused;
      }
      if TokenOf(r.authority).Some? && c.authorityToken.Some? && c.authorityToken != TokenOf(r.authority) {
        return Refused;
      }
      var authority := Authority(GenerationOf(r.authority) + 1, Some(next), Fence(ClaimOf(r.authority)));
      var minted := next;
      next := next + 1;
      service.SetState(r.state);
      meta := Some(Meta(id, r.projectKey, r.identity, if c.root.Some? then c.root else r.root, Some(authority)));
      answer := PersistTask(w, Some(minted));
    }

    method ClaimExecution(c: ClaimRequest, w: World) returns (answer: Answer)
      modifies this, service
      ensures (answer, State()) == DoClaim(old(State()), c, w)
    {
      hide Persist, Matches, Single, Active, ExecutionClaimable;
      var target := Single(Matches(store, c.scope) * Active(store));
      if closed || recoveryRequired || !w.owned || Unsafe(c.scope.taskId) || Unbounded(c.scope)
         || !Truthy(c.stepId) || !w.readable || target.None? || target.value !in store {
        return Refused;
      }
      var id, r := target.value, store[target.value];
      if service.State().taskId.Some? && service.State().taskId != Some(id) {
        return Refused;
      }
      if r.root.None? || c.root != r.root {
        return Refused;
      }
      HydrateTask(id);
      if TokenOf(r.authority).None? || !ExecutionClaimable(r.state, c.stepId.value) {
        return Refused;
      }
      var a := r.authority.value;
      var claim := Claim(ClaimGeneration(r.authority) + 1, Some(next), id, c.stepId.value, r.root.value, a.generation);
      var minted := next;
      next := next + 1;
      meta := Some(meta.value.(authority := Some(a.(claim := Some(claim)))));
      answer := PersistTask(w, Some(minted));
    }

    method LoadTask(id: Text, w: World) returns (answer: Answer)
      modifies this, service
      ensures (answer, State()) == DoLoad(old(State()), id, w)
    {
      if closed || id == [] || !SafeTaskId(id) || !w.readable || id !in store {
        return Refused;
      }
      HydrateTask(id);
      recoveryRequired := false;
      answer := Returned(None);
    }
  }
}
