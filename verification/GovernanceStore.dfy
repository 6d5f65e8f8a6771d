/**
 The governance store (src/governance/store.js) as a map from file names to contents: a task is a
 primary file and its backup, written through a temporary file and an atomic rename. Writes and
 copies are not atomic; a crash or a failing call can leave them torn.
 */
module GovernanceStore {
  import opened Wrappers
  import opened JsStrings
  import opened ComponentNames

  const JSON_SUFFIX: Text := [46, 106, 115, 111, 110]              // .json
  const BAK_SUFFIX: Text := [46, 98, 97, 107]                      // .bak
  const TMP_SUFFIX: Text := [46, 116, 109, 112]                    // .tmp

  // ---------------------------------------------------------------------------------------
  // Contents
  // ---------------------------------------------------------------------------------------

  /** schemaVersion of a parsed file; NoNumber covers every value that is not a number. */
  datatype Version = Integer(v: int) | Fraction(newer: bool) | NoNumber

  datatype KindTag = NoKind | TaskKind | ForeignKind

  /** A property that may be missing, null, of another type, or a JSON value given by its text. */
  datatype Field = Undefined | Null | Other | Value(text: Text)

  datatype StoredState = NoState | State(taskId: Option<Text>, body: Text)

  datatype Envelope = Envelope(version: Version, kind: KindTag, taskId: Option<Text>, projectKey: Field,
                               identity: Field, workspaceRoot: Field, authority: Field, state: StoredState)

  /** Torn is any text that does not parse to an object. */
  datatype Content = Torn | Parsed(envelope: Envelope)

  type Files = map<Text, Content>

  datatype Code = Corrupt | SchemaUnsupported

  datatype Loaded = Found(envelope: Envelope) | Failed(code: Code)

  predicate Newer(v: Version) { (v.Integer? && v.v > 1) || (v.Fraction? && v.newer) }

  /** migrateEnvelope, with the one migration from version 0 to version 1. */
  function Migrate(e: Envelope): Loaded {
    if e.version == Integer(1) then Found(e)
    else if e.version != Integer(0) then Failed(SchemaUnsupported)
    else Found(e.(version := Integer(1),
                  kind := if e.kind == NoKind then TaskKind else e.kind,
                  authority := if e.authority.Value? then e.authority else Null,
                  projectKey := if e.projectKey.Undefined? then Null else e.projectKey,
                  identity := if e.identity.Undefined? then Null else e.identity))
  }

  /** validateEnvelope; expected is the id asked for, if any. */
  predicate ValidEnvelope(e: Envelope, expected: Option<Text>) {
    && e.kind != ForeignKind
    && e.taskId.Some? && e.taskId.value != []
    && (expected.Some? ==> e.taskId == expected)
    && e.state.State? && e.state.taskId == e.taskId
  }

  /** _loadCandidate: None when there is no such file. */
  function LoadCandidate(files: Files, name: Text, expected: Option<Text>): Option<Loaded> {
    if name !in files then None
    else if files[name].Torn? then Some(Failed(Corrupt))
    else
      var e := files[name].envelope;
      if Newer(e.version) then Some(Failed(SchemaUnsupported))
      else if !ValidEnvelope(e, expected) then Some(Failed(Corrupt))
      else Some(Migrate(e))
  }

  /** _resolveStateFile: primary, then backup, and a newer schema is never replaced by a backup. */
  function Resolve(files: Files, primary: Text, backup: Text, expected: Option<Text>): Loaded {
    var p := LoadCandidate(files, primary, expected);
    if p.Some? && (p.value.Found? || p.value.code == SchemaUnsupported) then p.value
    else
      var b := LoadCandidate(files, backup, expected);
      if b.Some? && (b.value.Found? || b.value.code == SchemaUnsupported) then b.value
      else Failed(Corrupt)
  }

  function Primary(component: Text): Text { component + JSON_SUFFIX }

  function Backup(component: Text): Text { component + JSON_SUFFIX + BAK_SUFFIX }

  function Temporary(component: Text): Text { component + JSON_SUFFIX + TMP_SUFFIX }

  function Component(id: Text): Text
    requires SafeTaskId(id)
  {
    EncodeComponent(id, ForTask).value
  }

  function LoadTask(files: Files, id: Text): Loaded
    requires SafeTaskId(id)
  {
    Resolve(files, Primary(Component(id)), Backup(Component(id)), Some(id))
  }

  predicate HasTask(files: Files, id: Text)
    requires SafeTaskId(id)
  {
    Primary(Component(id)) in files || Backup(Component(id)) in files
  }

  // ---------------------------------------------------------------------------------------
  // Saving
  // ---------------------------------------------------------------------------------------

  /** How far saveTask gets before a crash or a failing call stops it. A failing copy is swallowed. */
  datatype Fate = NotStarted | TmpTorn | TmpWritten | Renamed | BackupTorn | Complete

  predicate Commits(fate: Fate) { fate.Renamed? || fate.BackupTorn? || fate.Complete? }

  /** The files after atomicWriteJsonWithBackup got that far. */
  function Saved(files: Files, component: Text, content: Content, fate: Fate): Files {
    match fate
    case NotStarted => files
    case TmpTorn => files[Temporary(component) := Torn]
    case TmpWritten => files[Temporary(component) := content]
    case Renamed => (files - {Temporary(component)})[Primary(component) := content]
    case BackupTorn =>
      (files - {Temporary(component)})[Primary(component) := content][Backup(component) := Torn]
    case Complete =>
      (files - {Temporary(component)})[Primary(component) := content][Backup(component) := content]
  }

  /** An envelope as makeGovernanceEnvelope writes it for a task. */
  predicate Canonical(e: Envelope, id: Text) {
    e.version == Integer(1) && e.kind == TaskKind && ValidEnvelope(e, Some(id))
  }

  // ---------------------------------------------------------------------------------------
  // File names
  // ---------------------------------------------------------------------------------------

  predicate EndsWith(s: Text, suffix: Text) {
    |suffix| <= |s| && s[|s| - |suffix|..] == suffix
  }

  predicate Internal(name: Text) {
    name == WRITER + JSON_SUFFIX || [DOT] + WRITER <= name || EndsWith(name, TMP_SUFFIX)
  }

  /** The stem that scanStrict takes from a file name, if any. */
  function ScanKey(name: Text): Option<Text> {
    if Internal(name) then None
    else if EndsWith(name, JSON_SUFFIX + BAK_SUFFIX) then Some(name[..|name| - 9])
    else if EndsWith(name, JSON_SUFFIX) then Some(name[..|name| - 5])
    else None
  }

  lemma NotInternalStem(component: Text, rest: Text)
    requires component != [] && component != WRITER && !([DOT] + WRITER <= component)
    ensures !([DOT] + WRITER <= component + JSON_SUFFIX + rest)
    ensures component + JSON_SUFFIX != WRITER + JSON_SUFFIX
  {
    var name, stem := component + JSON_SUFFIX + rest, [DOT] + WRITER;
    assert name[|component|] == DOT;
    assert |component| >= |stem| ==> component[..|stem|] == name[..|stem|];
    assert (component + JSON_SUFFIX)[..|component|] == component;
    assert (WRITER + JSON_SUFFIX)[..|WRITER|] == WRITER;
  }

  lemma LastUnit(s: Text, suffix: Text)
    requires suffix != []
    ensures EndsWith(s, suffix) ==> s[|s| - 1] == suffix[|suffix| - 1]
  {
    if EndsWith(s, suffix) {
      assert s[|s| - 1] == s[|s| - |suffix|..][|suffix| - 1];
    }
  }

  lemma JsonNotBak(component: Text)
    ensures !EndsWith(Primary(component), JSON_SUFFIX + BAK_SUFFIX)
    ensures !EndsWith(Primary(component), TMP_SUFFIX)
  {
    LastUnit(Primary(component), JSON_SUFFIX + BAK_SUFFIX);
    LastUnit(Primary(component), TMP_SUFFIX);
  }

  /** Both files of a task scan to its component. */
  lemma TaskKeys(id: Text)
    requires SafeTaskId(id)
    ensures ScanKey(Primary(Component(id))) == Some(Component(id))
    ensures ScanKey(Backup(Component(id))) == Some(Component(id))
    ensures ScanKey(Temporary(Component(id))) == None
  {
    hide EncodeComponent;
    var c := Component(id);
    ComponentContained(id, ForTask);
    NotInternalStem(c, []);
    NotInternalStem(c, BAK_SUFFIX);
    assert c + JSON_SUFFIX + [] == c + JSON_SUFFIX;
    JsonNotBak(c);
    assert Backup(c) == c + (JSON_SUFFIX + BAK_SUFFIX);
    assert |Backup(c)| != |WRITER + JSON_SUFFIX|
           || Backup(c)[|Backup(c)| - 1] != (WRITER + JSON_SUFFIX)[|Backup(c)| - 1];
  }

  /** Primaries, backups and temporaries of tasks never share a name. */
  lemma NamesApart(a: Text, b: Text)
    ensures Primary(a) != Backup(b) && Primary(a) != Temporary(b) && Backup(a) != Temporary(b)
    ensures Primary(a) == Primary(b) <==> a == b
    ensures Backup(a) == Backup(b) <==> a == b
  {
    var p, q, t := Primary(a), Backup(b), Temporary(b);
    assert p[|p| - 1] == 110 && q[|q| - 1] == 107 && t[|t| - 1] == 112;
    assert Backup(a)[|Backup(a)| - 1] == 107;
    assert p[..|p| - 5] == a && Primary(b)[..|Primary(b)| - 5] == b;
    assert Backup(a)[..|Backup(a)| - 9] == a && Backup(b)[..|Backup(b)| - 9] == b;
  }

  // ---------------------------------------------------------------------------------------
  // The store as a map from task ids to envelopes
  // ---------------------------------------------------------------------------------------

  /** Files that the store and the writer guard leave behind: whole primaries of tasks, backups and
      temporaries beside them, and files that a scan passes over. */
  ghost predicate Kept(files: Files) {
    forall name :: name in files && ScanKey(name).Some? ==>
      exists id :: id != [] && SafeTaskId(id) && ScanKey(name) == Some(Component(id)) && Stored(files, id)
  }

  /** The primary of the task is there, whole and canonical. */
  predicate Stored(files: Files, id: Text)
    requires SafeTaskId(id)
  {
    var name := Primary(Component(id));
    name in files && files[name].Parsed? && Canonical(files[name].envelope, id)
  }

  lemma StoredLoads(files: Files, id: Text)
    requires SafeTaskId(id) && Stored(files, id)
    ensures LoadTask(files, id) == Found(files[Primary(Component(id))].envelope)
    ensures Resolve(files, Primary(Component(id)), Backup(Component(id)), None) == LoadTask(files, id)
    ensures HasTask(files, id)
  {
    hide EncodeComponent;
  }

  /** One save of one task, whatever becomes of it. */
  datatype Save = Save(id: Text, envelope: Envelope, fate: Fate)

  predicate SaveOk(s: Save) {
    s.id != [] && SafeTaskId(s.id) && Canonical(s.envelope, s.id)
  }

  function AfterSave(files: Files, s: Save): Files
    requires SaveOk(s)
  {
    Saved(files, Component(s.id), Parsed(s.envelope), s.fate)
  }

  /** A crash or failure at any point of saveTask leaves the task with the old or with the new
      envelope, and every other task with its own. */
  lemma SaveIsAtomic(files: Files, s: Save, id: Text)
    requires Kept(files) && SaveOk(s) && id != [] && SafeTaskId(id)
    ensures id == s.id && Commits(s.fate) ==> LoadTask(AfterSave(files, s), id) == Found(s.envelope)
    ensures id == s.id && Commits(s.fate) ==> HasTask(AfterSave(files, s), id)
    ensures id != s.id || !Commits(s.fate) ==> LoadTask(AfterSave(files, s), id) == LoadTask(files, id)
    ensures id != s.id || !Commits(s.fate) ==> HasTask(AfterSave(files, s), id) == HasTask(files, id)
  {
    hide EncodeComponent, Primary, Backup, Temporary, Kept;
    var c, d := Component(s.id), Component(id);
    NamesApart(c, d);
    NamesApart(d, c);
    NamesApart(c, c);
    if id != s.id {
      ComponentsDistinct(s.id, id, ForTask);
    }
  }

  /** A save keeps the files in order. */
  lemma SaveKeeps(files: Files, s: Save)
    requires Kept(files) && SaveOk(s)
    ensures Kept(AfterSave(files, s))
  {
    hide EncodeComponent, Primary, Backup, Temporary, ScanKey, Canonical;
    var after, c := AfterSave(files, s), Component(s.id);
    TaskKeys(s.id);
    NamesApart(c, c);
    forall name | name in after && ScanKey(name).Some?
      ensures exists id :: id != [] && SafeTaskId(id) && ScanKey(name) == Some(Component(id)) && Stored(after, id)
    {
      if Commits(s.fate) && (name == Primary(c) || name == Backup(c)) {
        assert Stored(after, s.id);
      } else {
        assert name in files;
        var id :| id != [] && SafeTaskId(id) && ScanKey(name) == Some(Component(id)) && Stored(files, id);
        NamesApart(c, Component(id));
        NamesApart(Component(id), c);
        if id != s.id {
          ComponentsDistinct(id, s.id, ForTask);
        }
        assert Stored(after, id);
      }
    }
  }

  function AfterSaves(files: Files, saves: seq<Save>): Files
    requires forall k :: 0 <= k < |saves| ==> SaveOk(saves[k])
  {
    if saves == [] then files
    else AfterSave(AfterSaves(files, saves[..|saves| - 1]), saves[|saves| - 1])
  }

  /** The last committed envelope of a task. */
  function LastCommitted(saves: seq<Save>, id: Text): Option<Envelope> {
    if saves == [] then None
    else
      var last := saves[|saves| - 1];
      if last.id == id && Commits(last.fate) then Some(last.envelope)
      else LastCommitted(saves[..|saves| - 1], id)
  }

  /** Over every run of saves, crashing wherever they like, the store is the map from each task id to
      its last committed envelope. */
  lemma {:induction false} StoreIsMap(saves: seq<Save>, id: Text)
    requires forall k :: 0 <= k < |saves| ==> SaveOk(saves[k])
    requires id != [] && SafeTaskId(id)
    ensures Kept(AfterSaves(map[], saves))
    ensures LastCommitted(saves, id).Some? ==>
            LoadTask(AfterSaves(map[], saves), id) == Found(LastCommitted(saves, id).value)
    ensures LastCommitted(saves, id).None? ==> LoadTask(AfterSaves(map[], saves), id) == Failed(Corrupt)
    ensures HasTask(AfterSaves(map[], saves), id) <==> LastCommitted(saves, id).Some?
  {
    hide EncodeComponent, Kept, LoadTask, HasTask, AfterSave, SaveOk;
    if saves == [] {
      EmptyStore(id);
    } else {
      var before, last := saves[..|saves| - 1], saves[|saves| - 1];
      StoreIsMap(before, id);
      SaveKeeps(AfterSaves(map[], before), last);
      SaveIsAtomic(AfterSaves(map[], before), last, id);
    }
  }

  lemma EmptyStore(id: Text)
    requires SafeTaskId(id)
    ensures Kept(map[]) && LoadTask(map[], id) == Failed(Corrupt) && !HasTask(map[], id)
  {
  }

  // ---------------------------------------------------------------------------------------
  // Losing a primary
  // ---------------------------------------------------------------------------------------

  /** A backup is torn, or an envelope that some save of the task committed. */
  lemma {:induction false} BackupWasCommitted(saves: seq<Save>, id: Text)
    requires forall k :: 0 <= k < |saves| ==> SaveOk(saves[k])
    requires id != [] && SafeTaskId(id) && Backup(Component(id)) in AfterSaves(map[], saves)
    ensures var b := AfterSaves(map[], saves)[Backup(Component(id))];
            b.Parsed? ==> exists k :: 0 <= k < |saves| && saves[k].id == id && saves[k].fate == Complete
                                   && saves[k].envelope == b.envelope
  {
    hide EncodeComponent, Primary, Backup, Temporary, Canonical;
    var before, last := saves[..|saves| - 1], saves[|saves| - 1];
    var c, d := Component(last.id), Component(id);
    NamesApart(c, d);
    NamesApart(d, c);
    NamesApart(c, c);
    if last.id != id {
      ComponentsDistinct(last.id, id, ForTask);
    }
    var b := AfterSaves(map[], saves)[Backup(d)];
    if last.id == id && last.fate == Complete {
      assert saves[|saves| - 1].envelope == b.envelope;
    } else if b.Parsed? {
      BackupWasCommitted(before, id);
      var k :| 0 <= k < |before| && before[k].id == id && before[k].fate == Complete
          && before[k].envelope == b.envelope;
      assert saves[k] == before[k];
    }
  }

  /** After the primary is destroyed, loading gives an envelope that was committed for this task or
      fails as corrupt; it never gives another task's envelope or one that was not committed. */
  lemma LoadAfterLoss(saves: seq<Save>, id: Text)
    requires forall k :: 0 <= k < |saves| ==> SaveOk(saves[k])
    requires id != [] && SafeTaskId(id)
    ensures var lost := AfterSaves(map[], saves)[Primary(Component(id)) := Torn];
            || LoadTask(lost, id) == Failed(Corrupt)
            || (LoadTask(lost, id).Found?
                && exists k :: 0 <= k < |saves| && saves[k].id == id && Commits(saves[k].fate)
                            && saves[k].envelope == LoadTask(lost, id).envelope)
  {
    hide EncodeComponent, Primary, Backup, AfterSaves;
    var files, c := AfterSaves(map[], saves), Component(id);
    NamesApart(c, c);
    if Backup(c) in files {
      BackupWasCommitted(saves, id);
      if files[Backup(c)].Parsed? {
        var k :| 0 <= k < |saves| && saves[k].id == id && saves[k].fate == Complete
              && saves[k].envelope == files[Backup(c)].envelope;
        assert SaveOk(saves[k]);
      }
    }
  }

  /** After a committed save the backup holds what was committed exactly when the copy ran through, or
      the copy did not start and an earlier save had left the same envelope there. */
  lemma BackupCurrentIff(saves: seq<Save>, s: Save)
    requires forall k :: 0 <= k < |saves| ==> SaveOk(saves[k])
    requires SaveOk(s) && Commits(s.fate)
    ensures var files, c := AfterSaves(map[], saves), Component(s.id);
            LoadTask(AfterSave(files, s)[Primary(c) := Torn], s.id) == Found(s.envelope)
            <==> s.fate == Complete || (s.fate == Renamed && Backup(c) in files
                                        && files[Backup(c)] == Parsed(s.envelope))
  {
    hide EncodeComponent, Primary, Backup, Temporary, AfterSaves;
    var files, c := AfterSaves(map[], saves), Component(s.id);
    NamesApart(c, c);
    if Backup(c) in files {
      BackupWasCommitted(saves, s.id);
      if files[Backup(c)].Parsed? {
        var k :| 0 <= k < |saves| && saves[k].id == s.id && saves[k].envelope == files[Backup(c)].envelope;
        assert SaveOk(saves[k]);
      }
    }
  }

  /** A copy that fails without a word leaves an older backup behind: the backup does not always
      equal the last committed state. */
  lemma FailedCopyLeavesOldBackup(files: Files, first: Save, second: Save)
    requires Kept(files) && SaveOk(first) && SaveOk(second) && first.id == second.id
    requires first.fate == Complete && second.fate == Renamed
    ensures var lost := AfterSave(AfterSave(files, first), second)[Primary(Component(first.id)) := Torn];
            LoadTask(lost, first.id) == Found(first.envelope)
  {
    hide EncodeComponent, Primary, Backup, Temporary, Kept;
    NamesApart(Component(first.id), Component(first.id));
  }

  // ---------------------------------------------------------------------------------------
  // The store object
  // ---------------------------------------------------------------------------------------

  /** The key stands for a stored task, and this is its envelope. */
  ghost predicate TaskOfKey(files: Files, key: Text, task: Envelope) {
    exists id :: id != [] && SafeTaskId(id) && Component(id) == key && Stored(files, id)
              && task == files[Primary(key)].envelope
  }

  lemma KeyResolves(files: Files, name: Text)
    requires Kept(files) && name in files && ScanKey(name).Some?
    ensures var key := ScanKey(name).value;
            && Resolve(files, Primary(key), Backup(key), None).Found?
            && TaskOfKey(files, key, Resolve(files, Primary(key), Backup(key), None).envelope)
  {
    hide EncodeComponent, Resolve;
    var id :| id != [] && SafeTaskId(id) && ScanKey(name) == Some(Component(id)) && Stored(files, id);
    StoredLoads(files, id);
  }

  lemma SameKeySameTask(files: Files, j: Text, k: Text, a: Envelope, b: Envelope)
    requires TaskOfKey(files, j, a) && TaskOfKey(files, k, b)
    ensures a.taskId == b.taskId ==> j == k
  {
    hide EncodeComponent;
  }

  /** Why nothing was committed. */
  datatype Reason = InvalidComponent | Stopped

  class Store {
    var files: Files

    constructor ()
      ensures files == map[]
    {
      files := map[];
    }

    /** saveTask: temporary file, rename, copy to the backup, stopped where fate says. */
    method SaveTask(id: Text, envelope: Envelope, fate: Fate) returns (saved: Result<(), Reason>)
      modifies this
      ensures saved.Failure? || Commits(fate)
      ensures !SafeTaskId(id) ==> saved.Failure? && files == old(files)
      ensures SafeTaskId(id) ==> files == Saved(old(files), Component(id), Parsed(envelope), fate)
      ensures SafeTaskId(id) && Commits(fate) ==> saved.Success?
    {
      hide EncodeComponent;
      if !SafeTaskId(id) {
        return Failure(InvalidComponent);
      }
      if fate == NotStarted {
        return Failure(Stopped);
      }
      var component := Component(id);
      var file, tmp, bak := Primary(component), Temporary(component), Backup(component);
      if fate == TmpTorn {
        files := files[tmp := Torn];
        return Failure(Stopped);
      }
      files := files[tmp := Parsed(envelope)];
      if fate == TmpWritten {
        return Failure(Stopped);
      }
      NamesApart(component, component);
      files := (files - {tmp})[file := files[tmp]];
      assert files == Saved(old(files), component, Parsed(envelope), Renamed);
      if fate == BackupTorn {
        files := files[bak := Torn];
      } else if fate == Complete {
        files := files[bak := files[file]];
      }
      saved := Success(());
    }

    /** scanStrict over a directory listing: on files that the store keeps, nothing counts as corrupt,
        and every stored task is listed once, whole. */
    method ScanStrict(names: seq<Text>) returns (tasks: seq<Envelope>, corruptCount: nat)
      requires forall name :: name in names <==> name in files
      ensures Kept(files) ==> corruptCount == 0
      ensures Kept(files) ==> forall id :: id != [] && SafeTaskId(id) && Stored(files, id) ==>
                files[Primary(Component(id))].envelope in tasks
      ensures Kept(files) ==> forall k :: 0 <= k < |tasks| ==>
                tasks[k].taskId.Some? && SafeTaskId(tasks[k].taskId.value)
                && LoadTask(files, tasks[k].taskId.value) == Found(tasks[k])
      ensures Kept(files) ==> forall j, k :: 0 <= j < k < |tasks| ==> tasks[j].taskId != tasks[k].taskId
    {
      hide EncodeComponent, ScanKey, Resolve, Kept, LoadTask, Primary, Backup;
      var keys: seq<Text> := [];
      var i := 0;
      while i < |names|
        invariant 0 <= i <= |names|
        invariant forall j, k :: 0 <= j < k < |keys| ==> keys[j] != keys[k]
        invariant forall key :: key in keys ==> exists name :: name in files && ScanKey(name) == Some(key)
        invariant forall j :: 0 <= j < i && ScanKey(names[j]).Some? ==> ScanKey(names[j]).value in keys
      {
        var key := ScanKey(names[i]);
        if key.Some? && key.value !in keys {
          keys := keys + [key.value];
        }
        i := i + 1;
      }
      tasks := [];
      corruptCount := 0;
      i := 0;
      while i < |keys|
        invariant 0 <= i <= |keys|
        invariant Kept(files) ==> corruptCount == 0 && |tasks| == i
        invariant Kept(files) ==> forall j :: 0 <= j < |tasks| ==> TaskOfKey(files, keys[j], tasks[j])
      {
        var task := Resolve(files, Primary(keys[i]), Backup(keys[i]), None);
        if Kept(files) {
          var name :| name in files && ScanKey(name) == Some(keys[i]);
          KeyResolves(files, name);
        }
        if task.Found? {
          tasks := tasks + [task.envelope];
        } else {
          corruptCount := corruptCount + 1;
        }
        i := i + 1;
      }
      if Kept(files) {
        ScanComplete(names, keys, tasks);
      }
    }

    lemma ScanComplete(names: seq<Text>, keys: seq<Text>, tasks: seq<Envelope>)
      requires Kept(files) && |tasks| == |keys|
      requires forall name :: name in names <==> name in files
      requires forall j, k :: 0 <= j < k < |keys| ==> keys[j] != keys[k]
      requires forall j :: 0 <= j < |names| && ScanKey(names[j]).Some? ==> ScanKey(names[j]).value in keys
      requires forall j :: 0 <= j < |tasks| ==> TaskOfKey(files, keys[j], tasks[j])
      ensures forall id :: id != [] && SafeTaskId(id) && Stored(files, id) ==>
                files[Primary(Component(id))].envelope in tasks
      ensures forall k :: 0 <= k < |tasks| ==>
                tasks[k].taskId.Some? && SafeTaskId(tasks[k].taskId.value)
                && LoadTask(files, tasks[k].taskId.value) == Found(tasks[k])
      ensures forall j, k :: 0 <= j < k < |tasks| ==> tasks[j].taskId != tasks[k].taskId
    {
      hide EncodeComponent, ScanKey, Resolve, Kept, LoadTask, Primary, Backup;
      forall id | id != [] && SafeTaskId(id) && Stored(files, id)
        ensures files[Primary(Component(id))].envelope in tasks
      {
        TaskKeys(id);
        var name := Primary(Component(id));
        var j :| 0 <= j < |names| && names[j] == name;
        var k :| 0 <= k < |keys| && keys[k] == Component(id);
        assert TaskOfKey(files, keys[k], tasks[k]);
      }
      forall k | 0 <= k < |tasks|
        ensures tasks[k].taskId.Some? && SafeTaskId(tasks[k].taskId.value)
        ensures LoadTask(files, tasks[k].taskId.value) == Found(tasks[k])
      {
        assert TaskOfKey(files, keys[k], tasks[k]);
        var id :| id != [] && SafeTaskId(id) && Component(id) == keys[k] && Stored(files, id)
               && tasks[k] == files[Primary(keys[k])].envelope;
        StoredLoads(files, id);
      }
      forall j, k | 0 <= j < k < |tasks| ensures tasks[j].taskId != tasks[k].taskId {
        SameKeySameTask(files, keys[j], keys[k], tasks[j], tasks[k]);
      }
    }
  }
}
