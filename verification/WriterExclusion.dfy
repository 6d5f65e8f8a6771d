/**
 Safety of the writer guard over every interleaving: what holds of each live writer at each place
 of the protocol, and from it that no live holder ever loses its slot to another process and that
 no two live writers are ever in the durable write together.
 */
module WriterExclusion {
  import opened WriterGuard

  /** The writer was elected: the token is its own. */
  predicate Elected(p: Place) {
    p.Revalidate? || p.Remove? || p.Create? || p.ClaimFill? || p.Finally?
  }

  predicate Carries(p: Place) {
    p.Elect? || p.ElectFill? || p.ElectLook? || p.Revalidate? || p.Remove?
  }

  /** Places at which the writer has seen its own record in the slot. */
  predicate Owning(p: Place) {
    p.Critical? || p.RefreshOpen? || p.RefreshFill? || p.RefreshRename? || p.ReleaseRemove?
  }

  predicate Acquiring(p: Place) {
    p.Open? || p.Fill? || p.Look? || p.Judge? || Carries(p) || Elected(p)
  }

  /** What a live writer can rely on where it stands. */
  predicate Good(s: State, w: Writer)
    requires w in s.locals
  {
    var l := s.locals[w];
    && (l.held && !l.place.ReleaseClear? ==> OwnRecord(s.slot, w))
    && (Owning(l.place) || l.place.ReleaseLook? || l.place.ReleaseClear? ==> l.held)
    && (l.place.Fill? || l.place.ClaimFill? ==> s.slot == Blank(w))
    && (l.place.ElectFill? ==> s.token == Blank(w))
    && (Elected(l.place) ==> OwnRecord(s.token, w))
    && (Carries(l.place) ==> l.place.seen.Record? && l.place.seen.writer.pid in s.dead)
    && (l.place.Remove? ==> s.slot == l.place.seen)
    && (l.place.Finally? && l.place.outcome == Won ==> OwnRecord(s.slot, w))
    && (l.place.RefreshFill? ==> s.tmp == Blank(w))
    && (l.place.RefreshRename? ==> OwnRecord(s.tmp, w))
    && (Acquiring(l.place) ==> !l.held)
  }

  ghost predicate Inv(s: State) {
    forall w :: Live(s, w) ==> Good(s, w)
  }

  /** Who the files belong to, as far as the places of a live writer can tell. */
  predicate SameFor(s: State, t: State, v: Writer) {
    && t.locals.Keys == s.locals.Keys && v in s.locals && t.locals[v] == s.locals[v]
    && t.dead == s.dead
  }

  lemma SelfKeepsAcquire(s: State, w: Writer, i: Input)
    requires Live(s, w) && Good(s, w)
    requires var p := s.locals[w].place; p.Open? || p.Fill? || p.Look? || p.Judge?
    ensures Good(AcquireStep(s, w, i), w)
  {
  }

  lemma SelfKeepsClaim(s: State, w: Writer, i: Input)
    requires Live(s, w) && Good(s, w)
    requires Elected(s.locals[w].place) || Carries(s.locals[w].place)
    ensures Good(ClaimStep(s, w, i), w)
  {
  }

  lemma SelfKeepsHolder(s: State, w: Writer, i: Input)
    requires Live(s, w) && Good(s, w)
    requires var p := s.locals[w].place;
             Owning(p) || p.RefreshLook? || p.ReleaseLook? || p.ReleaseClear?
    ensures Good(HolderStep(s, w, i), w)
  {
  }

  /** A step keeps what the stepping writer relies on. */
  lemma SelfKeeps(s: State, w: Writer, i: Input)
    requires Live(s, w) && Good(s, w)
    ensures Good(WriterStep(s, w, i), w)
  {
    var place := s.locals[w].place;
    if place.Idle? {
    } else if place.Open? || place.Fill? || place.Look? || place.Judge? {
      SelfKeepsAcquire(s, w, i);
    } else if Elected(place) || Carries(place) {
      SelfKeepsClaim(s, w, i);
    } else {
      SelfKeepsHolder(s, w, i);
    }
  }

  /** How a step of w may change the files: never one that a live writer v depends on. */
  predicate Harmless(s: State, t: State, w: Writer) {
    && (t.slot != s.slot ==>
          || s.slot == Missing
          || s.slot == Blank(w)
          || OwnRecord(s.slot, w)
          || (s.slot.Record? && s.slot.writer.pid in s.dead && OwnRecord(s.token, w)))
    && (t.token != s.token ==> s.token == Missing || s.token == Blank(w) || OwnRecord(s.token, w))
    && (t.tmp != s.tmp ==> OwnRecord(s.slot, w))
  }

  lemma StepHarmless(s: State, w: Writer, i: Input)
    requires Live(s, w) && Good(s, w)
    ensures Harmless(s, WriterStep(s, w, i), w)
    ensures WriterStep(s, w, i).dead == s.dead
    ensures WriterStep(s, w, i).locals.Keys == s.locals.Keys
    ensures forall v :: v in s.locals && v != w ==> WriterStep(s, w, i).locals[v] == s.locals[v]
  {
  }

  /** A harmless step keeps what every other live writer relies on. */
  lemma OthersKeep(s: State, t: State, w: Writer, v: Writer)
    requires Live(s, v) && Good(s, v) && Live(s, w) && v != w
    requires Harmless(s, t, w) && SameFor(s, t, v)
    ensures Good(t, v)
  {
  }

  lemma InvStep(s: State, e: Event)
    requires Inv(s)
    ensures Inv(Next(s, e))
  {
    hide Good, Harmless, WriterStep;
    var t := Next(s, e);
    if e.Step? && Live(s, e.w) {
      StepHarmless(s, e.w, e.input);
      SelfKeeps(s, e.w, e.input);
      forall v | Live(t, v) ensures Good(t, v) {
        if v != e.w {
          OthersKeep(s, t, e.w, v);
        }
      }
    } else if e.Crash? {
      CrashKeeps(s, e.pid);
    }
  }

  lemma CrashKeeps(s: State, pid: nat)
    requires Inv(s)
    ensures Inv(s.(dead := s.dead + {pid}))
  {
    var t := s.(dead := s.dead + {pid});
    forall v | Live(t, v) ensures Good(t, v) {
      assert Live(s, v);
    }
  }

  lemma {:induction false} InvRun(s: State, events: seq<Event>)
    requires Inv(s)
    ensures Inv(Run(s, events))
    decreases |events|
  {
    hide Inv, Next;
    if events != [] {
      InvRun(s, events[..|events| - 1]);
      InvStep(Run(s, events[..|events| - 1]), events[|events| - 1]);
    }
  }

  lemma FreshInv(s: State)
    requires Fresh(s)
    ensures Inv(s)
  {
  }

  // ---------------------------------------------------------------------------------------
  // Main results
  // ---------------------------------------------------------------------------------------

  predicate Committing(s: State, w: Writer) { Live(s, w) && s.locals[w].place.Critical? }

  /** In every interleaving with crashes anywhere, two live writers are never both between a
      passing assertOwned and the end of the durable write it guards. */
  lemma OneCommitter(s: State, events: seq<Event>, v: Writer, w: Writer)
    requires Fresh(s)
    requires Committing(Run(s, events), v) && Committing(Run(s, events), w)
    ensures v == w
  {
    FreshInv(s);
    InvRun(s, events);
    var now := Run(s, events);
    assert Good(now, v) && Good(now, w);
  }

  /** The slot of a live holder changes by its own steps alone; nobody removes or replaces it. */
  lemma HolderKeepsSlot(s: State, events: seq<Event>, e: Event)
    requires Fresh(s)
    requires var f := Run(s, events).slot;
             f.Record? && f.writer.pid !in Run(s, events).dead && e.Step? && e.w != f.writer
    ensures Next(Run(s, events), e).slot == Run(s, events).slot
  {
    FreshInv(s);
    InvRun(s, events);
    var now := Run(s, events);
    if Live(now, e.w) {
      StepHarmless(now, e.w, e.input);
    }
  }

  predicate Spares(e: Event, w: Writer) {
    if e.Step? then e.w != w else e.pid != w.pid
  }

  /** A live writer that holds the slot and does not move keeps it through any run of the others,
      and its next assertOwned passes. */
  lemma {:induction false} HolderStaysOwner(s: State, w: Writer, events: seq<Event>, i: Input)
    requires Inv(s) && Live(s, w) && s.locals[w] == Local(Idle, true)
    requires forall k :: 0 <= k < |events| ==> Spares(events[k], w)
    ensures Live(Run(s, events), w) && Run(s, events).slot == s.slot && Run(s, events).locals[w] == Local(Idle, true)
    ensures OwnRecord(s.slot, w)
    ensures i.call == Assert && i.fault == NoFault ==> Committing(Next(Run(s, events), Step(w, i)), w)
    decreases |events|
  {
    assert Good(s, w);
    if events != [] {
      var before, e := events[..|events| - 1], events[|events| - 1];
      HolderStaysOwner(s, w, before, i);
      InvRun(s, before);
      hide Inv, WriterStep, Next;
    }
  }

  /** Every durable write is made by the live writer that the slot names. */
  lemma CommitUnderSlot(s: State, events: seq<Event>, e: Event)
    requires Fresh(s)
    requires Next(Run(s, events), e).commits != Run(s, events).commits
    ensures e.Step? && Live(Run(s, events), e.w) && OwnRecord(Run(s, events).slot, e.w)
    ensures Next(Run(s, events), e).commits == Run(s, events).commits + [e.w]
  {
    FreshInv(s);
    InvRun(s, events);
    assert Live(Run(s, events), e.w);
    assert Good(Run(s, events), e.w);
  }

  /** An election token that exists is taken away by its creator and by nobody else. */
  lemma TokenKept(s: State, events: seq<Event>, e: Event, creator: Writer)
    requires Fresh(s)
    requires var f := Run(s, events).token; f == Blank(creator) || OwnRecord(f, creator)
    requires e.Step? ==> e.w != creator
    ensures Next(Run(s, events), e).token == Run(s, events).token
  {
    FreshInv(s);
    InvRun(s, events);
    var now := Run(s, events);
    if e.Step? && Live(now, e.w) {
      StepHarmless(now, e.w, e.input);
    }
  }
}
