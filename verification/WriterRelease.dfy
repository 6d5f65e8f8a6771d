/**
 Who may release the workspace writer of a delegated execution (src/executor/app-server-executor.js):
 turns of the app server are bound to mutation units, and an event about a turn releases the writer
 only for the unit that the turn is bound to.

 One writing job over the life of one process. Units are numbered in the order in which they start;
 the app server creates at most one turn for each. A turn is reported as terminal only when it is; a report that it
 still runs may be late. Calls that read the job first and act after waiting keep a snapshot, which may
 be stale by then: replies of the app server arrive in any order.
 Notifications that are held back during an observation are notifications that do not arrive.
 */
module WriterRelease {
  import opened Wrappers

  type Turn = nat
  type Unit = nat

  /** Who owns the workspace; Foreign is the Brain or a unit of another job. */
  datatype Owner = NoOwner | Codex(unit: Unit) | Foreign

  /** What a call remembers of the job, and which turns existed when it read it. */
  datatype Snapshot = Snapshot(unit: Unit, turnUnits: map<Turn, Unit>, existing: set<Turn>)

  datatype State = State(
    owner: Owner,
    unit: Unit,                     // the job's current mutation unit
    turnUnits: map<Turn, Unit>,     // the durable bindings of the job
    cache: map<Turn, Unit>,         // the bindings in memory
    closed: bool,                   // the job ended as never materialized
    snapshots: seq<Snapshot>,
    origin: map<Turn, Unit>,        // app server: the unit each turn was started for
    awaited: set<Unit>,             // app server: units whose turn/start is under way
    terminal: set<Turn>)            // app server: turns that ended

  /** Who reads the turns of the job: get, the bounded reconciliation after an interrupt, or the
      authoritative reconciliation of reconcile and resume. */
  datatype Reader = Get | Bounded | Authoritative

  datatype Event =
    | Continue
    | Create(turn: Turn, unit: Unit)
    | NeverStarts(unit: Unit)
    | End(turn: Turn)
    | StartReply(turn: Turn)
    | Notify(turn: Turn, ended: bool)
    | Read
    | Observe(k: nat, turns: seq<Turn>, over: set<Turn>, reader: Reader)
    | NoRollout(k: nat)
    | ForeignTakes
    | ForeignDrops

  /** _releaseUnitOnTerminal for a unit: only its own writer is released. */
  function Released(s: State, unit: Unit): State {
    if s.owner == Codex(unit) then s.(owner := NoOwner) else s
  }

  /** The unit that a notified turn is bound to: durable first, then the cache. */
  function BoundUnit(s: State, t: Turn): Option<Unit> {
    if t in s.turnUnits then Some(s.turnUnits[t]) else if t in s.cache then Some(s.cache[t]) else None
  }

  function Bind(s: State, t: Turn, unit: Unit): State {
    s.(turnUnits := s.turnUnits[t := unit], cache := s.cache[t := unit])
  }

  /** _handleNotification for turn/started and turn/completed. */
  function HandleNotification(s: State, t: Turn, ended: bool): State {
    var bound := BoundUnit(s, t);
    var now := if bound.None? && !ended then Bind(s, t, s.unit) else s;
    var unit := if bound.None? && !ended then Some(s.unit) else bound;
    if unit != Some(s.unit) then now
    else if ended then Released(now, s.unit)
    else if now.owner == NoOwner then now.(owner := Codex(s.unit))
    else now
  }

  predicate BoundTo(p: Snapshot, t: Turn) { t in p.turnUnits && p.turnUnits[t] == p.unit }

  function FindBound(p: Snapshot, turns: seq<Turn>): (r: Option<Turn>)
    ensures r.Some? ==> r.value in turns && BoundTo(p, r.value)
    ensures r.None? ==> forall t :: t in turns ==> !BoundTo(p, t)
  {
    if turns == [] then None else if BoundTo(p, turns[0]) then Some(turns[0]) else FindBound(p, turns[1..])
  }

  function UnboundTurns(p: Snapshot, turns: seq<Turn>): (r: seq<Turn>)
    ensures forall t :: t in r <==> t in turns && t !in p.turnUnits
  {
    if turns == [] then []
    else (if turns[0] in p.turnUnits then [] else [turns[0]]) + UnboundTurns(p, turns[1..])
  }

  datatype Resolved = Unresolved | Bound(turn: Turn) | Single(turn: Turn)

  /** _resolveCurrentUnitTurn */
  function Resolve(p: Snapshot, turns: seq<Turn>): Resolved {
    var bound := FindBound(p, turns);
    var unbound := UnboundTurns(p, turns);
    if bound.Some? then Bound(bound.value) else if |unbound| == 1 then Single(unbound[0]) else Unresolved
  }

  /** What follows when the unit's turn is known to have ended, or still to run. */
  function Settle(s: State, unit: Unit, over: bool, reader: Reader): State {
    if over then Released(s, unit)
    else if reader == Authoritative && s.owner == NoOwner then s.(owner := Codex(unit))
    else s
  }

  /** The turns of the job as they were reported, acted on with the job as it was read. */
  function ObserveTurns(s: State, p: Snapshot, turns: seq<Turn>, ended: set<Turn>, reader: Reader): State {
    match Resolve(p, turns)
    case Bound(t) => Settle(s, p.unit, t in ended, reader)
    case Single(t) =>
      if reader == Get then s
      else Settle(s.(turnUnits := p.turnUnits[t := p.unit], cache := s.cache[t := p.unit]), p.unit, t in ended, reader)
    case Unresolved => s
  }

  /** Turns that existed when the job was read are reported, and older turns along with newer ones. */
  predicate Complete(s: State, p: Snapshot, turns: seq<Turn>) {
    && (forall t :: t in p.existing ==> t in turns)
    && (forall t, r :: t in turns && t in s.origin && r in s.origin && s.origin[r] < s.origin[t] ==> r in turns)
  }

  /** What can happen; an event that cannot happen changes nothing. */
  predicate Possible(s: State, e: Event) {
    match e
    case Create(t, u) => t !in s.origin && u in s.awaited
    case NeverStarts(u) => u in s.awaited
    case End(t) => t in s.origin
    case StartReply(t) => t in s.origin
    case Notify(t, ended) => t in s.origin && (ended ==> t in s.terminal)
    case Observe(k, turns, ended, _) =>
      // a search that stops at the turn it knows returns that turn alone
      && k < |s.snapshots| && (forall t :: t in turns ==> t in s.origin) && ended <= s.terminal
      && (FindBound(s.snapshots[k], turns).None? ==> Complete(s, s.snapshots[k], turns))
    case NoRollout(k) =>
      k < |s.snapshots| && s.origin == map[] && s.snapshots[k].unit !in s.snapshots[k].turnUnits.Values
    case _ => true
  }

  function Next(s: State, e: Event): State {
    if !Possible(s, e) then s
    else
      match e
      case Continue =>
        // acquire fails unless the workspace is free
        if s.closed || s.owner != NoOwner then s
        else s.(unit := s.unit + 1, owner := Codex(s.unit + 1), awaited := s.awaited + {s.unit + 1})
      case Create(t, u) => s.(origin := s.origin[t := u], awaited := s.awaited - {u})
      case NeverStarts(u) => s.(awaited := s.awaited - {u})
      case End(t) => s.(terminal := s.terminal + {t})
      case StartReply(t) => Bind(s, t, s.origin[t])
      case Notify(t, ended) => HandleNotification(s, t, ended)
      case Read => s.(snapshots := s.snapshots + [Snapshot(s.unit, s.turnUnits, s.origin.Keys)])
      case Observe(k, turns, ended, reader) => ObserveTurns(s, s.snapshots[k], turns, ended, reader)
      case NoRollout(k) =>
        // the exact thread has no rollout: the unit has no turn yet
        Released(s.(closed := true), s.snapshots[k].unit)
      case ForeignTakes => if s.owner == NoOwner then s.(owner := Foreign) else s
      case ForeignDrops => if s.owner == Foreign then s.(owner := NoOwner) else s
  }

  function Run(s: State, events: seq<Event>): State
    decreases |events|
  {
    if events == [] then s else Next(Run(s, events[..|events| - 1]), events[|events| - 1])
  }

  /** start() got as far as dispatching the first turn. */
  predicate Started(s: State) {
    && s.owner == Codex(s.unit) && s.turnUnits == map[] && s.cache == map[] && !s.closed && s.snapshots == []
    && s.origin == map[] && s.awaited == {s.unit} && s.terminal == {}
  }

  // ---------------------------------------------------------------------------------------
  // What fresh bindings keep
  // ---------------------------------------------------------------------------------------

  /** The binding tells the unit that the turn was started for. */
  predicate Right(bindings: map<Turn, Unit>, origin: map<Turn, Unit>) {
    forall t :: t in bindings ==> t in origin && bindings[t] == origin[t]
  }

  /** Every existing turn of another unit is bound. */
  predicate OthersBound(s: State) {
    forall t :: t in s.origin && s.origin[t] != s.unit ==> t in s.turnUnits
  }

  /** The turn of the current unit is bound, or there is none and will be none. */
  predicate CurrentSettled(s: State) {
    s.unit !in s.awaited && forall t :: t in s.origin && s.origin[t] == s.unit ==> t in s.turnUnits
  }

  ghost predicate Inv(s: State) {
    && Right(s.turnUnits, s.origin) && Right(s.cache, s.origin)
    && (forall k :: 0 <= k < |s.snapshots| ==>
          Right(s.snapshots[k].turnUnits, s.origin) && s.snapshots[k].turnUnits.Keys <= s.turnUnits.Keys)
    && s.cache.Keys <= s.turnUnits.Keys
    && (forall t, r :: t in s.origin && r in s.origin && s.origin[t] == s.origin[r] ==> t == r)
    && OthersBound(s) && s.awaited <= {s.unit}
    && (forall t :: t in s.origin ==> s.origin[t] <= s.unit && s.origin[t] !in s.awaited)
    && (s.owner != Codex(s.unit) ==> CurrentSettled(s))
  }

  /** The observation binds the one turn that it found unbound. */
  predicate Binds(s: State, e: Event) {
    Possible(s, e) && e.Observe? && e.reader != Get && Resolve(s.snapshots[e.k], e.turns).Single?
  }

  /** The unit that the job as it is now has for the turn, or would give it. */
  function UnitNow(s: State, t: Turn): Unit { if t in s.turnUnits then s.turnUnits[t] else s.unit }

  /** What the executor can check before it writes: the record that was read holds every other binding of
      the job, and the unit that it binds the turn to is the one that the turn has now. */
  predicate LosesNothing(s: State, e: Event) {
    Binds(s, e) ==>
      var p := s.snapshots[e.k];
      var t := Resolve(p, e.turns).turn;
      s.turnUnits.Keys <= p.turnUnits.Keys + {t} && UnitNow(s, t) == p.unit
  }

  /** A job is not given up as never materialized while the turn of the unit it owns is being started. */
  predicate NonePending(s: State, e: Event) {
    e.NoRollout? && Possible(s, e) && s.owner == Codex(s.snapshots[e.k].unit) ==> s.snapshots[e.k].unit !in s.awaited
  }

  predicate Careful(s: State, e: Event) { LosesNothing(s, e) && NonePending(s, e) }

  lemma BindKeeps(s: State, t: Turn)
    requires Inv(s) && t in s.origin && s.origin[t] == s.unit
    ensures Inv(Bind(s, t, s.unit))
  {
  }

  /** Once the current unit's turn is bound, the writer of the unit may go. */
  lemma ReleaseKeeps(s: State, t: Turn, unit: Unit)
    requires Inv(s) && t in s.turnUnits && s.origin[t] == unit
    ensures Inv(Released(s, unit))
  {
    assert t in s.origin;
  }

  /** Taking a free workspace leaves the current unit's turn settled. */
  lemma TakeKeeps(s: State, unit: Unit)
    requires Inv(s) && s.owner == NoOwner
    ensures Inv(s.(owner := Codex(unit)))
  {
  }

  lemma SettleKeeps(s: State, t: Turn, unit: Unit, over: bool, reader: Reader)
    requires Inv(s) && t in s.turnUnits && s.origin[t] == unit
    ensures Inv(Settle(s, unit, over, reader))
  {
    hide Inv;
    if over {
      ReleaseKeeps(s, t, unit);
    } else if s.owner == NoOwner {
      TakeKeeps(s, unit);
    }
  }

  /** Writing back a record that holds every other binding of the job. */
  lemma RebindKeeps(s: State, bindings: map<Turn, Unit>, t: Turn, unit: Unit)
    requires Inv(s) && Right(bindings, s.origin) && s.turnUnits.Keys <= bindings.Keys + {t}
    requires t in s.origin && s.origin[t] == unit
    ensures Inv(s.(turnUnits := bindings[t := unit], cache := s.cache[t := unit]))
  {
    var more := bindings[t := unit];
    assert s.turnUnits.Keys <= more.Keys && Right(more, s.origin) && Right(s.cache[t := unit], s.origin);
    assert s.cache[t := unit].Keys == s.cache.Keys + {t};
    hide Right;
  }

  lemma ObserveKeeps(s: State, k: nat, turns: seq<Turn>, ended: set<Turn>, reader: Reader)
    requires Inv(s) && Possible(s, Observe(k, turns, ended, reader))
             && LosesNothing(s, Observe(k, turns, ended, reader))
    ensures Inv(ObserveTurns(s, s.snapshots[k], turns, ended, reader))
  {
    var p := s.snapshots[k];
    SnapshotRight(s, k);
    UnboundFound(p, turns);
    hide Inv, Right, OthersBound, FindBound, UnboundTurns, Settle, Complete;
    match Resolve(p, turns)
    case Bound(t) =>
      SettleKeeps(s, t, p.unit, t in ended, reader);
    case Single(t) =>
      if reader != Get {
        UnitNowRight(s, t);
        RebindKeeps(s, p.turnUnits, t, p.unit);
        SettleKeeps(s.(turnUnits := p.turnUnits[t := p.unit], cache := s.cache[t := p.unit]), t, p.unit, t in ended,
                    reader);
      }
    case Unresolved =>
  }

  lemma SnapshotRight(s: State, k: nat)
    requires Inv(s) && k < |s.snapshots|
    ensures forall t :: t in s.snapshots[k].turnUnits ==>
              t in s.turnUnits && t in s.origin && s.snapshots[k].turnUnits[t] == s.origin[t]
    ensures Right(s.snapshots[k].turnUnits, s.origin)
  {
  }

  lemma UnitNowRight(s: State, t: Turn)
    requires Inv(s) && t in s.origin
    ensures UnitNow(s, t) == s.origin[t]
  {
  }

  lemma NotifyKeeps(s: State, t: Turn, ended: bool)
    requires Inv(s) && Possible(s, Notify(t, ended))
    ensures Inv(HandleNotification(s, t, ended))
  {
    NotifiedRight(s, t);
    hide OthersBound, Right, Inv;
    if BoundUnit(s, t).None? {
      BindKeeps(s, t);
      Reacquired(Bind(s, t, s.unit));
    } else if s.origin[t] == s.unit {
      ReleaseKeeps(s, t, s.unit);
      Reacquired(s);
    }
  }

  lemma NotifiedRight(s: State, t: Turn)
    requires Inv(s) && t in s.origin
    ensures BoundUnit(s, t).Some? ==> t in s.turnUnits && BoundUnit(s, t) == Some(s.origin[t])
    ensures BoundUnit(s, t).None? ==> s.origin[t] == s.unit
  {
  }

  lemma Reacquired(s: State)
    requires Inv(s)
    ensures s.owner == NoOwner ==> Inv(s.(owner := Codex(s.unit)))
  {
  }

  lemma ServerKeeps(s: State, e: Event)
    requires Inv(s) && Possible(s, e)
             && (e.Create? || e.NeverStarts? || e.End? || e.Read? || e.ForeignTakes? || e.ForeignDrops?)
    ensures Inv(Next(s, e))
  {
  }

  lemma ContinueKeeps(s: State)
    requires Inv(s)
    ensures Inv(Next(s, Continue))
  {
  }

  lemma NoRolloutKeeps(s: State, k: nat)
    requires Inv(s) && Possible(s, NoRollout(k)) && NonePending(s, NoRollout(k))
    ensures Inv(Next(s, NoRollout(k)))
  {
  }

  lemma ReplyKeeps(s: State, t: Turn)
    requires Inv(s) && t in s.origin
    ensures Inv(Bind(s, t, s.origin[t]))
  {
  }

  lemma StepKeeps(s: State, e: Event)
    requires Inv(s) && Careful(s, e)
    ensures Inv(Next(s, e))
  {
    hide ObserveTurns, HandleNotification, Resolve, Inv, Bind;
    if Possible(s, e) {
      match e
      case Continue => ContinueKeeps(s);
      case StartReply(t) => ReplyKeeps(s, t);
      case Notify(t, ended) => NotifyKeeps(s, t, ended);
      case Observe(k, turns, ended, reader) => ObserveKeeps(s, k, turns, ended, reader);
      case NoRollout(k) => NoRolloutKeeps(s, k);
      case _ => ServerKeeps(s, e);
    }
  }

  ghost predicate AllCareful(s: State, events: seq<Event>)
    decreases |events|
  {
    events != [] ==>
      AllCareful(s, events[..|events| - 1]) && Careful(Run(s, events[..|events| - 1]), events[|events| - 1])
  }

  lemma {:induction false} RunKeeps(s: State, events: seq<Event>)
    requires Inv(s) && AllCareful(s, events)
    ensures Inv(Run(s, events))
    decreases |events|
  {
    hide Inv, Next, LosesNothing, NonePending;
    if events != [] {
      RunKeeps(s, events[..|events| - 1]);
      StepKeeps(Run(s, events[..|events| - 1]), events[|events| - 1]);
    }
  }

  // ---------------------------------------------------------------------------------------
  // Main results
  // ---------------------------------------------------------------------------------------

  /** The unit's own turn ended, or the unit has no turn and gets none. */
  ghost predicate OverFor(s: State, unit: Unit) {
    || (exists t :: t in s.origin && s.origin[t] == unit && t in s.terminal)
    || (unit !in s.awaited && forall t :: t in s.origin ==> s.origin[t] != unit)
  }

  /** In every state of careful runs, a step that loses no binding and releases the writer of a unit does so
      rightly if and only if it does not give the job up while the unit's turn is being started. */
  lemma ReleaseRightIff(s: State, e: Event)
    requires Inv(s) && LosesNothing(s, e) && s.owner.Codex? && Next(s, e).owner != s.owner
    ensures OverFor(Next(s, e), s.owner.unit) <==> NonePending(s, e)
  {
    if e.Observe? {
      SnapshotRight(s, e.k);
      ObserveReleases(s, s.snapshots[e.k], e.turns, e.over, e.reader);
      UnboundFound(s.snapshots[e.k], e.turns);
    } else if e.Notify? {
      NotifiedRight(s, e.turn);
    }
    hide FindBound, UnboundTurns, Resolve, ObserveTurns;
  }

  lemma UnboundFound(p: Snapshot, turns: seq<Turn>)
    ensures Resolve(p, turns).Bound? ==> Resolve(p, turns).turn in turns && BoundTo(p, Resolve(p, turns).turn)
    ensures Resolve(p, turns).Single? ==> Resolve(p, turns).turn in turns && Resolve(p, turns).turn !in p.turnUnits
  {
    if Resolve(p, turns).Single? {
      assert UnboundTurns(p, turns)[0] in UnboundTurns(p, turns);
    }
  }

  /** An observation changes the owner of a job's unit only by releasing the unit that it read. */
  lemma ObserveReleases(s: State, p: Snapshot, turns: seq<Turn>, over: set<Turn>, reader: Reader)
    requires s.owner.Codex?
    ensures var t := ObserveTurns(s, p, turns, over, reader);
            && t.origin == s.origin && t.terminal == s.terminal && t.unit == s.unit && t.awaited == s.awaited
            && (t.owner != s.owner ==>
                  s.owner == Codex(p.unit) && !Resolve(p, turns).Unresolved? && Resolve(p, turns).turn in over)
  {
    hide Resolve;
  }

  /** In every run in which no observation loses a binding and no job is given up while its turn is being
      started: the writer of a unit is released only when the turn started for that very unit has ended, or
      the unit never got a turn. No event of an older unit's turn releases a newer unit. */
  lemma ReleasedWhenOver(s: State, events: seq<Event>, e: Event)
    requires Started(s) && AllCareful(s, events) && Careful(Run(s, events), e)
    requires Run(s, events).owner.Codex? && Next(Run(s, events), e).owner != Run(s, events).owner
    ensures OverFor(Next(Run(s, events), e), Run(s, events).owner.unit)
  {
    hide OverFor, Next, LosesNothing, NonePending, AllCareful, Run;
    RunKeeps(s, events);
    ReleaseRightIff(Run(s, events), e);
  }

  /** Every binding tells the right unit, and none is gone. */
  predicate BindingsKept(s: State, t: State) { Right(t.turnUnits, t.origin) && s.turnUnits.Keys <= t.turnUnits.Keys }

  lemma ObservedBindings(s: State, e: Event)
    requires Inv(s) && Binds(s, e)
    ensures var p := s.snapshots[e.k];
            var t := Resolve(p, e.turns).turn;
            && t in s.origin && t !in p.turnUnits && UnitNow(s, t) == s.origin[t] && Right(p.turnUnits, s.origin)
            && Next(s, e).turnUnits == p.turnUnits[t := p.unit] && Next(s, e).origin == s.origin
  {
    var p := s.snapshots[e.k];
    SnapshotRight(s, e.k);
    UnboundFound(p, e.turns);
    UnitNowRight(s, Resolve(p, e.turns).turn);
    hide Inv, Resolve, Complete;
  }

  lemma BoundKeepsAll(s: State, e: Event)
    requires e.Observe? && !Binds(s, e)
    ensures Next(s, e).turnUnits == s.turnUnits && Next(s, e).origin == s.origin
  {
    hide Resolve, Complete;
  }

  lemma OtherBindings(s: State, e: Event)
    requires Inv(s) && !Binds(s, e)
    ensures BindingsKept(s, Next(s, e))
  {
    if e.Observe? {
      BoundKeepsAll(s, e);
    } else if Possible(s, e) && e.Notify? {
      NotifiedRight(s, e.turn);
    }
    assert Right(s.turnUnits, s.origin);
    hide Inv, Resolve, Complete, ObserveTurns;
  }

  /** In every state of those runs, a step keeps all bindings if and only if it loses none by the check that
      the executor could make: so the condition on the runs is exact. */
  lemma BindingsStayIff(s: State, e: Event)
    requires Inv(s)
    ensures BindingsKept(s, Next(s, e)) <==> LosesNothing(s, e)
  {
    if Binds(s, e) {
      ObservedBindings(s, e);
      var p := s.snapshots[e.k];
      var t := Resolve(p, e.turns).turn;
      hide Next, Inv, Binds, Resolve, Possible;
      assert Right(p.turnUnits[t := p.unit], s.origin) <==> p.unit == s.origin[t];
    } else {
      OtherBindings(s, e);
    }
  }

  /** Over those runs bindings are written once: a turn that is bound stays bound to the unit it was started
      for. */
  lemma {:induction false} BindingsStay(s: State, events: seq<Event>, t: Turn)
    requires Inv(s) && AllCareful(s, events) && t in s.turnUnits
    ensures t in Run(s, events).turnUnits && Run(s, events).turnUnits[t] == s.turnUnits[t]
    decreases |events|
  {
    assert t in s.origin && s.turnUnits[t] == s.origin[t];
    hide Inv, Next, LosesNothing, NonePending;
    if events != [] {
      var before := Run(s, events[..|events| - 1]);
      BindingsStay(s, events[..|events| - 1], t);
      RunKeeps(s, events[..|events| - 1]);
      BindingsStayIff(before, events[|events| - 1]);
      BindingRight(before, t);
      OriginKept(before, events[|events| - 1], t);
    }
  }

  lemma BindingRight(s: State, t: Turn)
    requires Inv(s) && t in s.turnUnits
    ensures t in s.origin && s.turnUnits[t] == s.origin[t]
  {
  }

  lemma OriginKept(s: State, e: Event, t: Turn)
    requires t in s.origin
    ensures t in Next(s, e).origin && Next(s, e).origin[t] == s.origin[t]
  {
    hide Resolve, Complete;
  }

  // ---------------------------------------------------------------------------------------
  // A job that is given up too early
  // ---------------------------------------------------------------------------------------

  /** On every started job a reconciliation that overtakes the pending turn/start gives the job up and releases
      the writer, and the turn of the unit may still come. */
  lemma OvertakenStartReleases(s: State, t: Turn)
    requires Started(s)
    ensures var end := Next(Next(Next(s, Read), NoRollout(0)), Create(t, s.unit));
            end.owner == NoOwner && end.closed && end.origin == map[t := s.unit] && !OverFor(end, s.unit)
  {
    var read := Next(s, Read);
    assert read.snapshots[0] == Snapshot(s.unit, map[], {});
    var given := Next(read, NoRollout(0));
    assert given == read.(owner := NoOwner, closed := true);
  }

  // ---------------------------------------------------------------------------------------
  // A stale observation
  // ---------------------------------------------------------------------------------------

  /** An observation that binds a turn from a stale record writes the whole record of bindings, and the
      newer ones are gone. */
  lemma StaleBindingLoses(s: State, e: Event, t: Turn, r: Turn)
    requires e.Observe? && Possible(s, e) && e.reader != Get && Resolve(s.snapshots[e.k], e.turns) == Single(t)
    requires r in s.turnUnits && r !in s.snapshots[e.k].turnUnits && r != t
    ensures r !in Next(s, e).turnUnits
  {
  }

  lemma {:induction false} NoneUnbound(p: Snapshot, turns: seq<Turn>)
    requires forall u :: u in turns ==> u in p.turnUnits
    ensures UnboundTurns(p, turns) == []
  {
    if turns != [] {
      NoneUnbound(p, turns[1..]);
    }
  }

  lemma {:induction false} OnlyUnbound(p: Snapshot, turns: seq<Turn>, t: Turn)
    requires t in turns && forall u :: u in turns ==> (u in p.turnUnits <==> u != t)
    requires forall i, j :: 0 <= i < j < |turns| ==> turns[i] != turns[j]
    ensures UnboundTurns(p, turns) == [t]
  {
    if turns[0] == t {
      NoneUnbound(p, turns[1..]);
    } else {
      OnlyUnbound(p, turns[1..], t);
    }
  }

  /** With a binding lost, the turn of an older unit can pass for the turn of the current one, and its
      end releases the writer although the current unit's turn is still to come. */
  lemma LostBindingReleases(s: State, lost: Turn, turns: seq<Turn>)
    requires s.owner == Codex(s.unit) && s.unit in s.awaited
    requires lost in s.origin && s.origin[lost] != s.unit && lost in s.terminal
    requires forall t :: t in s.origin ==> (t in s.turnUnits <==> t != lost)
    requires forall t :: t in s.turnUnits ==> s.turnUnits[t] != s.unit
    requires (forall t :: t in turns <==> t in s.origin) && forall i, j :: 0 <= i < j < |turns| ==> turns[i] != turns[j]
    ensures var end := Next(Next(s, Read), Observe(|s.snapshots|, turns, s.terminal, Authoritative));
            end.owner == NoOwner && end.turnUnits[lost] == s.unit && s.unit in end.awaited
            && end.origin == s.origin && end.terminal == s.terminal
  {
    var read := Next(s, Read);
    var p := read.snapshots[|s.snapshots|];
    assert p == Snapshot(s.unit, s.turnUnits, s.origin.Keys);
    OnlyUnbound(p, turns, lost);
    assert FindBound(p, turns).None?;
    assert Possible(read, Observe(|s.snapshots|, turns, s.terminal, Authoritative));
    hide FindBound, UnboundTurns;
  }

  lemma RunMore(s: State, events: seq<Event>, e: Event)
    ensures Run(s, events + [e]) == Next(Run(s, events), e)
  {
    assert (events + [e])[..|events|] == events;
  }

  const START := State(Codex(1), 1, map[], map[], false, [], map[], {1}, {})

  const FIRST_UNIT: seq<Event> :=
    [Read] + [Create(1, 1)] + [StartReply(1)] + [End(1)] + [Read] + [Observe(1, [1], {1}, Get)]

  const SECOND_UNIT: seq<Event> :=
    FIRST_UNIT + [Continue] + [Create(2, 2)] + [StartReply(2)] + [Observe(0, [1], {1}, Authoritative)] + [End(2)]
        + [Notify(2, true)]

  const OLD_READ := Snapshot(1, map[], {})
  const NEXT_READ := Snapshot(1, map[1 := 1], {1})

  lemma FirstUnitEnds()
    ensures Run(START, FIRST_UNIT)
         == State(NoOwner, 1, map[1 := 1], map[1 := 1], false, [OLD_READ, NEXT_READ], map[1 := 1], {}, {1})
  {
    hide ObserveTurns;
    var s1 := Next(START, Read);
    assert s1 == START.(snapshots := [OLD_READ]) by {
      assert START.origin.Keys == {};
      assert START.snapshots + [OLD_READ] == [OLD_READ];
    }
    var s2 := Next(s1, Create(1, 1));
    assert s2 == s1.(origin := map[1 := 1], awaited := {});
    var s3 := Next(s2, StartReply(1));
    assert s3 == s2.(turnUnits := map[1 := 1], cache := map[1 := 1]);
    var s4 := Next(s3, End(1));
    assert s4 == s3.(terminal := {1});
    var s5 := Next(s4, Read);
    assert s5 == s4.(snapshots := [OLD_READ, NEXT_READ]) by {
      assert s4.origin.Keys == {1};
      assert s4.snapshots + [NEXT_READ] == [OLD_READ, NEXT_READ];
    }
    NextReadReleases(s5);
    hide Next, Run;
    FirstUnitRuns();
  }

  lemma NextReadReleases(s: State)
    requires s.snapshots == [OLD_READ, NEXT_READ] && s.owner == Codex(1) && s.origin == map[1 := 1] && s.terminal == {1}
    ensures Next(s, Observe(1, [1], {1}, Get)) == s.(owner := NoOwner)
  {
    assert BoundTo(NEXT_READ, [1][0]);
    assert Resolve(NEXT_READ, [1]) == Bound(1);
    assert Possible(s, Observe(1, [1], {1}, Get));
  }

  lemma FirstUnitRuns()
    ensures Run(START, FIRST_UNIT)
         == Next(Next(Next(Next(Next(Next(START, Read), Create(1, 1)), StartReply(1)), End(1)), Read),
                 Observe(1, [1], {1}, Get))
  {
    hide Next;
    assert Run(START, []) == START;
    RunMore(START, [], Read);
    assert [] + [Read] == [Read];
    RunMore(START, [Read], Create(1, 1));
    RunMore(START, [Read] + [Create(1, 1)], StartReply(1));
    RunMore(START, [Read] + [Create(1, 1)] + [StartReply(1)], End(1));
    RunMore(START, [Read] + [Create(1, 1)] + [StartReply(1)] + [End(1)], Read);
    RunMore(START, [Read] + [Create(1, 1)] + [StartReply(1)] + [End(1)] + [Read], Observe(1, [1], {1}, Get));
  }

  lemma SecondUnitRuns()
    ensures Run(START, SECOND_UNIT)
         == Next(Next(Next(Next(Next(Next(Run(START, FIRST_UNIT), Continue), Create(2, 2)), StartReply(2)),
                                Observe(0, [1], {1}, Authoritative)), End(2)), Notify(2, true))
  {
    hide Next, Run, FIRST_UNIT;
    RunMore(START, FIRST_UNIT, Continue);
    RunMore(START, FIRST_UNIT + [Continue], Create(2, 2));
    RunMore(START, FIRST_UNIT + [Continue] + [Create(2, 2)], StartReply(2));
    RunMore(START, FIRST_UNIT + [Continue] + [Create(2, 2)] + [StartReply(2)], Observe(0, [1], {1}, Authoritative));
    RunMore(START, FIRST_UNIT + [Continue] + [Create(2, 2)] + [StartReply(2)] + [Observe(0, [1], {1}, Authoritative)],
            End(2));
    RunMore(START, FIRST_UNIT + [Continue] + [Create(2, 2)] + [StartReply(2)] + [Observe(0, [1], {1}, Authoritative)]
            + [End(2)], Notify(2, true));
  }

  /** The stale read binds the first turn again and drops the binding of the second. */
  lemma OldReadBinds(s: State)
    requires s.snapshots == [OLD_READ, NEXT_READ] && s.owner == Codex(2) && s.origin == map[1 := 1, 2 := 2]
             && s.terminal == {1}
    ensures Next(s, Observe(0, [1], {1}, Authoritative)) == s.(turnUnits := map[1 := 1], cache := s.cache[1 := 1])
  {
    assert Possible(s, Observe(0, [1], {1}, Authoritative));
    OnlyUnbound(OLD_READ, [1], 1);
    assert map[][1 := 1] == map[1 := 1];
    hide FindBound, UnboundTurns;
  }

  lemma SecondUnitEnds()
    ensures Run(START, SECOND_UNIT)
         == State(NoOwner, 2, map[1 := 1], map[1 := 1, 2 := 2], false, [OLD_READ, NEXT_READ], map[1 := 1, 2 := 2], {},
                  {1, 2})
  {
    FirstUnitEnds();
    SecondUnitRuns();
    var s0 := Run(START, FIRST_UNIT);
    hide Run, ObserveTurns;
    var s1 := Next(s0, Continue);
    assert s1 == s0.(unit := 2, owner := Codex(2), awaited := {2});
    var s2 := Next(s1, Create(2, 2));
    assert s2 == s1.(origin := map[1 := 1, 2 := 2], awaited := {});
    var s3 := Next(s2, StartReply(2));
    assert s3 == s2.(turnUnits := map[1 := 1, 2 := 2], cache := map[1 := 1, 2 := 2]);
    OldReadBinds(s3);
    var s4 := Next(s3, Observe(0, [1], {1}, Authoritative));
    assert s4 == s3.(turnUnits := map[1 := 1], cache := map[1 := 1, 2 := 2]);
    var s5 := Next(s4, End(2));
    assert s5 == s4.(terminal := {1, 2});
    assert Next(s5, Notify(2, true)) == s5.(owner := NoOwner);
  }

  /** The condition on observations is needed: in this run one observation binds from a record that was
      read two units earlier, and in the end the third unit loses its writer before its turn exists. */
  lemma StaleRunReleases()
    ensures Started(START)
    ensures var s := Next(Run(START, SECOND_UNIT), Continue);
            var end := Next(Next(s, Read), Observe(|s.snapshots|, [2, 1], s.terminal, Authoritative));
            s.owner == Codex(3) && end.owner == NoOwner && !OverFor(end, 3)
  {
    SecondUnitEnds();
    var t := Run(START, SECOND_UNIT);
    var s := Next(t, Continue);
    assert s == t.(unit := 3, owner := Codex(3), awaited := {3}) by {
      assert t.awaited + {3} == {3};
    }
    hide Run, Next, ObserveTurns;
    LostBindingReleases(s, 2, [2, 1]);
  }

  // ---------------------------------------------------------------------------------------
  // The executor object
  // ---------------------------------------------------------------------------------------

  /** What the executor and its owner hold for one writing job. s is the whole state, of which the object
      shows the part that the executor can see. */
  class AppServerExecutor {
    var owner: Owner
    var mutationUnitId: Unit
    var turnUnits: map<Turn, Unit>
    var cache: map<Turn, Unit>
    var closed: bool

    ghost predicate Shows(s: State)
      reads this
    {
      owner == s.owner && mutationUnitId == s.unit && turnUnits == s.turnUnits && cache == s.cache && closed == s.closed
    }

    constructor (unit: Unit)
      ensures owner == Codex(unit) && mutationUnitId == unit && turnUnits == map[] && cache == map[] && !closed
    {
      owner, mutationUnitId, turnUnits, cache, closed := Codex(unit), unit, map[], map[], false;
    }

    /** _releaseUnitOnTerminal for the unit of the job record at hand. */
    method ReleaseUnitOnTerminal(unit: Unit, ghost s: State)
      requires Shows(s)
      modifies this`owner
      ensures Shows(Released(s, unit))
    {
      if owner == Codex(unit) {
        owner := NoOwner;
      }
    }

    method BindTurn(t: Turn, bindings: map<Turn, Unit>, unit: Unit)
      modifies this`turnUnits, this`cache
      ensures turnUnits == bindings[t := unit] && cache == old(cache)[t := unit]
    {
      turnUnits := bindings[t := unit];
      cache := cache[t := unit];
    }

    /** _handleNotification for turn/started and turn/completed. */
    method TurnNotified(t: Turn, ended: bool, ghost s: State)
      requires Shows(s)
      modifies this
      ensures Shows(HandleNotification(s, t, ended))
    {
      var notified: Option<Unit> := None;
      if t in turnUnits {
        notified := Some(turnUnits[t]);
      } else if t in cache {
        notified := Some(cache[t]);
      }
      ghost var now := s;
      if notified.None? && !ended {
        notified := Some(mutationUnitId);
        BindTurn(t, turnUnits, mutationUnitId);
        now := Bind(s, t, s.unit);
      }
      if notified != Some(mutationUnitId) {
        return;
      }
      if ended {
        ReleaseUnitOnTerminal(mutationUnitId, now);
      } else if owner == NoOwner {
        owner := Codex(mutationUnitId);
      }
    }

    /** continue: a new unit, if the workspace is free. */
    method StartUnit(ghost s: State) returns (started: bool)
      requires Shows(s)
      modifies this`owner, this`mutationUnitId
      ensures Shows(Next(s, Continue)) && (started <==> Next(s, Continue) != s)
    {
      if closed || owner != NoOwner {
        return false;
      }
      owner := Codex(mutationUnitId + 1);
      mutationUnitId := mutationUnitId + 1;
      started := true;
    }

    /** _terminalizePreTurnNotMaterialized for the unit of the job record at hand. */
    method TerminalizePreTurn(unit: Unit, ghost s: State)
      requires Shows(s)
      modifies this`owner, this`closed
      ensures Shows(Released(s.(closed := true), unit))
    {
      closed := true;
      ReleaseUnitOnTerminal(unit, s.(closed := true));
    }

    /** What get and the reconciling calls do with the turns that were reported to them. */
    method TurnsReported(p: Snapshot, turns: seq<Turn>, over: set<Turn>, reader: Reader, ghost s: State)
      requires Shows(s)
      modifies this
      ensures Shows(ObserveTurns(s, p, turns, over, reader))
    {
      var resolved := Resolve(p, turns);
      hide Resolve;
      if resolved.Unresolved? || (resolved.Single? && reader == Get) {
        return;
      }
      ghost var now := s;
      if resolved.Single? {
        BindTurn(resolved.turn, p.turnUnits, p.unit);
        now := s.(turnUnits := turnUnits, cache := cache);
      }
      if resolved.turn in over {
        ReleaseUnitOnTerminal(p.unit, now);
      } else if reader == Authoritative && owner == NoOwner {
        owner := Codex(p.unit);
      }
    }
  }
}
