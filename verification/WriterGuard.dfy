/**
 The one-writer guard of a governance namespace (src/governance/writer-guard.js) as an interleaved
 protocol. Every file-system call and every look at the process table is one step of its own, the
 steps of any number of writers interleave freely, and a process may die in front of any step.
 Processes that died stay dead, and every record names the process that wrote it.
 */
module WriterGuard {
  /** A writer identity: its process and what makes it unique. Writers may share a process. */
  datatype Writer = Writer(pid: nat, serial: nat)

  /** A lock file at its path. Blank is what an exclusive create leaves until the record is written
      through the open descriptor: no reader can parse it. */
  datatype File = Missing | Blank(creator: Writer) | Record(writer: Writer, at: int, heartbeat: int)

  datatype Outcome = Won | Lost | Thrown

  /** Where a writer stands: the file-system call it makes next. */
  datatype Place =
    | Idle
    // acquire: attempts 0, 1, 2
    | Open(attempt: nat)
    | Fill
    | Look(attempt: nat)
    | Judge(attempt: nat, seen: File)
    // _claimStaleSlot
    | Elect(attempt: nat, seen: File)
    | ElectFill(attempt: nat, seen: File)
    | ElectLook(attempt: nat, seen: File)
    | Revalidate(attempt: nat, seen: File)
    | Remove(attempt: nat, seen: File)
    | Create(attempt: nat)
    | ClaimFill(attempt: nat)
    | Finally(attempt: nat, outcome: Outcome)
    // between assertOwned and the end of the durable write
    | Critical
    // refresh
    | RefreshLook
    | RefreshOpen
    | RefreshFill
    | RefreshRename
    // release
    | ReleaseLook
    | ReleaseRemove
    | ReleaseClear

  datatype Local = Local(place: Place, held: bool)

  datatype State = State(
    slot: File,                  // writer.json
    token: File,                 // writer.json.elect
    tmp: File,                   // writer.json.tmp
    dead: set<nat>,
    locals: map<Writer, Local>,
    commits: seq<Writer>)        // who made each durable write

  datatype Call = Acquire | Assert | Refresh | Release | Commit

  /** Late: the bytes arrived and the call failed nevertheless. */
  datatype Fault = NoFault | Fails | Late

  /** What is open before a step: the call an idle writer makes, the clock, and a failing call. */
  datatype Input = Input(call: Call, time: int, fault: Fault)

  datatype Event = Step(w: Writer, input: Input) | Crash(pid: nat)

  predicate Live(s: State, w: Writer) { w in s.locals && w.pid !in s.dead }

  predicate OwnRecord(f: File, w: Writer) { f.Record? && f.writer == w }

  function Move(s: State, w: Writer, place: Place): State
    requires w in s.locals
  {
    s.(locals := s.locals[w := s.locals[w].(place := place)])
  }

  function SetHeld(s: State, w: Writer, held: bool): State
    requires w in s.locals
  {
    s.(locals := s.locals[w := Local(Idle, held)])
  }

  /** The next round of acquire, or the throw after three. */
  function Retry(s: State, w: Writer, attempt: nat): State
    requires w in s.locals
  {
    Move(s, w, if attempt + 1 < 3 then Open(attempt + 1) else Idle)
  }

  // Writing through a descriptor reaches the path only while the created file is still there.
  function Filled(f: File, w: Writer, time: int): File {
    if f == Blank(w) then Record(w, time, time) else f
  }

  function AcquireStep(s: State, w: Writer, i: Input): State
    requires w in s.locals
  {
    match s.locals[w].place
    case Open(attempt) =>
      if i.fault != NoFault then Move(s, w, Idle)
      else if s.slot.Missing? then Move(s.(slot := Blank(w)), w, Fill)
      else Move(s, w, Look(attempt))
    case Fill =>
      if i.fault == Fails then Move(s, w, Idle)
      else
        var filled := s.(slot := Filled(s.slot, w, i.time));
        if i.fault == Late then Move(filled, w, Idle) else SetHeld(filled, w, true)
    case Look(attempt) =>
      // a file that is missing, blank or unreadable reads as null
      if i.fault != NoFault || !s.slot.Record? then Retry(s, w, attempt)
      else Move(s, w, Judge(attempt, s.slot))
    case Judge(attempt, seen) =>
      // an own record sends acquire into _refresh, whose assertOwned throws since _held is false;
      // a live owner is a conflict
      if !seen.Record? || seen.writer == w || seen.writer.pid !in s.dead then Move(s, w, Idle)
      else Move(s, w, Elect(attempt, seen))
    case _ => s
  }

  function ClaimStep(s: State, w: Writer, i: Input): State
    requires w in s.locals
  {
    match s.locals[w].place
    case Elect(attempt, seen) =>
      if i.fault != NoFault then Move(s, w, Idle)
      else if s.token.Missing? then Move(s.(token := Blank(w)), w, ElectFill(attempt, seen))
      else Move(s, w, ElectLook(attempt, seen))
    case ElectFill(attempt, seen) =>
      if i.fault == Fails then Move(s, w, Idle)
      else
        var filled := s.(token := Filled(s.token, w, i.time));
        Move(filled, w, if i.fault == Late then Idle else Revalidate(attempt, seen))
    case ElectLook(attempt, seen) =>
      if i.fault == NoFault && OwnRecord(s.token, w) then Move(s, w, Revalidate(attempt, seen))
      else Retry(s, w, attempt)
    case Revalidate(attempt, seen) =>
      Move(s, w, if i.fault == NoFault && s.slot == seen then Remove(attempt, seen) else Finally(attempt, Lost))
    case Remove(attempt, seen) =>
      Move(if i.fault == NoFault then s.(slot := Missing) else s, w, Create(attempt))
    case Create(attempt) =>
      if i.fault != NoFault then Move(s, w, Finally(attempt, Thrown))
      else if s.slot.Missing? then Move(s.(slot := Blank(w)), w, ClaimFill(attempt))
      else Move(s, w, Finally(attempt, Lost))
    case ClaimFill(attempt) =>
      if i.fault == Fails then Move(s, w, Finally(attempt, Thrown))
      else
        var filled := s.(slot := Filled(s.slot, w, i.time));
        Move(filled, w, Finally(attempt, if i.fault == Late then Thrown else Won))
    case Finally(attempt, outcome) =>
      var cleared := if i.fault == NoFault then s.(token := Missing) else s;
      if outcome == Won then SetHeld(cleared, w, true)
      else if outcome == Thrown then Move(cleared, w, Idle)
      else Retry(cleared, w, attempt)
    case _ => s
  }

  /** assertOwned: the writer believes it holds the slot, and the slot says so too. */
  predicate AssertPasses(s: State, w: Writer, i: Input)
    requires w in s.locals
  {
    s.locals[w].held && i.fault == NoFault && OwnRecord(s.slot, w)
  }

  function HolderStep(s: State, w: Writer, i: Input): State
    requires w in s.locals
  {
    match s.locals[w].place
    case Critical =>
      if i.call == Commit then s.(commits := s.commits + [w])
      else Move(s, w, if i.fault == NoFault then RefreshLook else Idle)
    case RefreshLook => Move(s, w, if AssertPasses(s, w, i) then RefreshOpen else Idle)
    case RefreshOpen =>
      if i.fault != NoFault then Move(s, w, Idle) else Move(s.(tmp := Blank(w)), w, RefreshFill)
    case RefreshFill =>
      if i.fault == Fails then Move(s, w, Idle)
      else
        var filled := s.(tmp := Filled(s.tmp, w, i.time));
        Move(filled, w, if i.fault == Late then Idle else RefreshRename)
    case RefreshRename =>
      if i.fault != NoFault then Move(s, w, Idle)
      else SetHeld(s.(slot := s.tmp, tmp := Missing), w, true)
    case ReleaseLook =>
      Move(s, w, if i.fault == NoFault && OwnRecord(s.slot, w) then ReleaseRemove else ReleaseClear)
    case ReleaseRemove =>
      Move(if i.fault == NoFault then s.(slot := Missing) else s, w, ReleaseClear)
    case ReleaseClear => SetHeld(s, w, false)
    case _ => s
  }

  function CallStep(s: State, w: Writer, i: Input): State
    requires w in s.locals
  {
    match i.call
    case Acquire => if s.locals[w].held then s else Move(s, w, Open(0))
    case Assert => if AssertPasses(s, w, i) then Move(s, w, Critical) else s
    case Refresh => Move(s, w, RefreshLook)
    case Release => if s.locals[w].held then Move(s, w, ReleaseLook) else s
    case Commit => s
  }

  function WriterStep(s: State, w: Writer, i: Input): State
    requires w in s.locals
  {
    var place := s.locals[w].place;
    if place.Idle? then CallStep(s, w, i)
    else if place.Open? || place.Fill? || place.Look? || place.Judge? then AcquireStep(s, w, i)
    else if place.Elect? || place.ElectFill? || place.ElectLook? || place.Revalidate? || place.Remove?
         || place.Create? || place.ClaimFill? || place.Finally? then ClaimStep(s, w, i)
    else HolderStep(s, w, i)
  }

  function Next(s: State, e: Event): State {
    match e
    case Crash(pid) => s.(dead := s.dead + {pid})
    case Step(w, input) => if Live(s, w) then WriterStep(s, w, input) else s
  }

  function Run(s: State, events: seq<Event>): State
    decreases |events|
  {
    if events == [] then s else Next(Run(s, events[..|events| - 1]), events[|events| - 1])
  }

  /** A fresh namespace: no lock files, no process has died, every writer is idle. */
  predicate Fresh(s: State) {
    && s.slot == Missing && s.token == Missing && s.tmp == Missing
    && s.dead == {} && s.commits == []
    && forall w :: w in s.locals ==> s.locals[w] == Local(Idle, false)
  }
}
