/**
 The ZIP container check inspectZip of src/local/structured-read.js (sections 4.3.7, 4.3.12 and
 4.3.16 of the PKWARE ZIP APPNOTE): what acceptance means, and that archives print and parse back.

 Names are compared as UTF-8 bytes; a name whose decoding holds U+FFFD is rejected as in the source.
 */
module ZipContainer {
  import opened Wrappers

  type Byte = b: int | 0 <= b < 256
  type Bytes = seq<Byte>

  const EOCD_SIG: Bytes := [0x50, 0x4B, 5, 6]
  const CENTRAL_SIG: Bytes := [0x50, 0x4B, 1, 2]
  const LOCAL_SIG: Bytes := [0x50, 0x4B, 3, 4]
  const NO_SIZE := 0xFFFF_FFFF

  function Read16(b: Bytes, i: nat): nat
    requires i + 2 <= |b|
  {
    (b[i] as int) + 256 * (b[i + 1] as int)
  }

  function Read32(b: Bytes, i: nat): nat
    requires i + 4 <= |b|
  {
    Read16(b, i) + 65536 * Read16(b, i + 2)
  }

  predicate HasBytes(b: Bytes, at: nat, sig: Bytes) { at + |sig| <= |b| && b[at..at + |sig|] == sig }

  /** buffer.lastIndexOf(sig), looked for at or before from. */
  function LastIndex(b: Bytes, sig: Bytes, from: int): (r: Option<nat>)
    ensures r.Some? ==> HasBytes(b, r.value, sig) && forall k: nat :: r.value < k <= from ==> !HasBytes(b, k, sig)
    ensures r.None? ==> forall k: nat :: k <= from ==> !HasBytes(b, k, sig)
    decreases from
  {
    if from < 0 then None else if HasBytes(b, from, sig) then Some(from) else LastIndex(b, sig, from - 1)
  }

  // ---------------------------------------------------------------------------------------
  // Names
  // ---------------------------------------------------------------------------------------

  predicate Continuation(x: Byte) { 0x80 <= x <= 0xBF }

  /** Length of the UTF-8 sequence at the front of s, or 0 if there is none. */
  function SequenceLength(s: Bytes): nat {
    if s == [] then 0
    else if s[0] < 0x80 then 1
    else if |s| < 2 || !Continuation(s[1]) then 0
    else if 0xC2 <= s[0] <= 0xDF then 2
    else if |s| < 3 || !Continuation(s[2]) then 0
    else if (s[0] == 0xE0 && s[1] >= 0xA0) || 0xE1 <= s[0] <= 0xEC || (s[0] == 0xED && s[1] < 0xA0)
        || 0xEE <= s[0] <= 0xEF then 3
    else if |s| < 4 || !Continuation(s[3]) then 0
    else if (s[0] == 0xF0 && s[1] >= 0x90) || 0xF1 <= s[0] <= 0xF3 || (s[0] == 0xF4 && s[1] < 0x90) then 4
    else 0
  }

  /** The decoded name holds no U+FFFD, neither from a malformed sequence nor written out. */
  predicate CleanUtf8(s: Bytes) {
    s != [] ==>
      && 1 <= SequenceLength(s) <= |s| && !HasBytes(s, 0, [0xEF, 0xBF, 0xBD])
      && CleanUtf8(s[SequenceLength(s)..])
  }

  predicate Slash(x: Byte) { x == 47 || x == 92 }

  /** No component between slashes or backslashes is "..". */
  predicate NoParent(s: Bytes, i: nat)
    requires i <= |s|
    decreases |s| - i
  {
    i < |s| ==>
      && !((i == 0 || Slash(s[i - 1])) && s[i] == 46 && i + 1 < |s| && s[i + 1] == 46
           && (i + 2 == |s| || Slash(s[i + 2])))
      && NoParent(s, i + 1)
  }

  predicate Letter(x: Byte) { 65 <= x <= 90 || 97 <= x <= 122 }

  /** zipNameSafe */
  predicate SafeName(s: Bytes) {
    s != [] && !Slash(s[0]) && !(|s| >= 2 && Letter(s[0]) && s[1] == 58) && NoParent(s, 0)
  }

  // ---------------------------------------------------------------------------------------
  // Records
  // ---------------------------------------------------------------------------------------

  datatype Entry = Entry(name: Bytes, compressed: nat, expanded: nat, method_: nat)

  predicate CentralFits(b: Bytes, cursor: nat) { HasBytes(b, cursor, CENTRAL_SIG) && cursor + 46 <= |b| }

  function RecordEnd(b: Bytes, cursor: nat): nat
    requires cursor + 46 <= |b|
  {
    cursor + 46 + Read16(b, cursor + 28) + Read16(b, cursor + 30) + Read16(b, cursor + 32)
  }

  function EntryAt(b: Bytes, cursor: nat): Entry
    requires cursor + 46 <= |b| && RecordEnd(b, cursor) <= |b|
  {
    Entry(b[cursor + 46..cursor + 46 + Read16(b, cursor + 28)], Read32(b, cursor + 20), Read32(b, cursor + 24),
          Read16(b, cursor + 10))
  }

  predicate LocalFits(b: Bytes, at: nat) { HasBytes(b, at, LOCAL_SIG) && at + 30 <= |b| }

  function DataStart(b: Bytes, at: nat): nat
    requires at + 30 <= |b|
  {
    at + 30 + Read16(b, at + 26) + Read16(b, at + 28)
  }

  /** The local header at the offset that the central record gives agrees with it, and the data is
      inside the buffer. */
  predicate LocalAgrees(b: Bytes, at: nat, e: Entry) {
    && LocalFits(b, at)
    && DataStart(b, at) + e.compressed <= |b|
    && b[at + 30..at + 30 + Read16(b, at + 26)] == e.name
  }

  /** Every check that inspectZip makes on one central record by itself. */
  predicate RecordOk(b: Bytes, cursor: nat) {
    CentralFits(b, cursor) && RecordEnd(b, cursor) <= |b| &&
    var e := EntryAt(b, cursor);
    && Read16(b, cursor + 8) % 2 == 0 && (e.method_ == 0 || e.method_ == 8)
    && e.compressed != NO_SIZE && e.expanded != NO_SIZE
    && CleanUtf8(e.name) && SafeName(e.name)
    && LocalAgrees(b, Read32(b, cursor + 42), e)
    && (e.compressed > 0 ==> e.expanded <= 200 * e.compressed)
  }

  /** n records one after another from the cursor, and where the last one ends. */
  function Chain(b: Bytes, cursor: nat, n: nat): Option<(seq<Entry>, nat)>
    decreases n
  {
    if n == 0 then Some(([], cursor))
    else if !RecordOk(b, cursor) then None
    else
      var rest := Chain(b, RecordEnd(b, cursor), n - 1);
      if rest.None? then None else Some(([EntryAt(b, cursor)] + rest.value.0, rest.value.1))
  }

  predicate Distinct(entries: seq<Entry>) {
    forall i, j :: 0 <= i < j < |entries| ==> entries[i].name != entries[j].name
  }

  function Total(entries: seq<Entry>): nat {
    if entries == [] then 0 else entries[0].expanded + Total(entries[1..])
  }

  /** The end of central directory record, where the last signature stands. */
  function EndRecord(b: Bytes): Option<nat> {
    var at := LastIndex(b, EOCD_SIG, |b|);
    if |b| < 22 || at.None? || at.value + 22 > |b| then None else at
  }

  predicate HeaderOk(b: Bytes, at: nat, maxEntries: nat)
    requires at + 22 <= |b|
  {
    && Read16(b, at + 4) == 0 && Read16(b, at + 6) == 0 && Read16(b, at + 8) == Read16(b, at + 10)
    && at + 22 + Read16(b, at + 20) <= |b| && Read16(b, at + 10) <= maxEntries
    && Read32(b, at + 12) != NO_SIZE && Read32(b, at + 16) != NO_SIZE
    && Read32(b, at + 16) + Read32(b, at + 12) <= at
  }

  /** The records of a directory, if all of them and all of them together are acceptable. */
  function Directory(b: Bytes, start: nat, size: nat, n: nat, maxExpandedBytes: nat): Option<seq<Entry>> {
    var chain := Chain(b, start, n);
    if chain.None? || chain.value.1 != start + size || !Distinct(chain.value.0)
        || Total(chain.value.0) > maxExpandedBytes then None
    else Some(chain.value.0)
  }

  /** The entries of an acceptable container. */
  function Inspected(b: Bytes, maxExpandedBytes: nat, maxEntries: nat): Option<seq<Entry>> {
    var at := EndRecord(b);
    if at.None? || !HeaderOk(b, at.value, maxEntries) then None
    else Directory(b, Read32(b, at.value + 16), Read32(b, at.value + 12), Read16(b, at.value + 10), maxExpandedBytes)
  }

  // ---------------------------------------------------------------------------------------
  // The loop of inspectZip
  // ---------------------------------------------------------------------------------------

  lemma {:induction false} TotalAppend(entries: seq<Entry>, more: seq<Entry>)
    ensures Total(entries + more) == Total(entries) + Total(more)
  {
    if entries == [] {
      assert entries + more == more;
    } else {
      assert (entries + more)[1..] == entries[1..] + more;
      TotalAppend(entries[1..], more);
    }
  }

  /** The records read so far, in front of what the rest of the chain gives. */
  ghost predicate ReadSoFar(b: Bytes, start: nat, n: nat, i: nat, cursor: nat, done: seq<Entry>) {
    i <= n &&
    var all, rest := Chain(b, start, n), Chain(b, cursor, n - i);
    && (all.None? <==> rest.None?)
    && (all.Some? ==> all.value == (done + rest.value.0, rest.value.1))
  }

  lemma ReadStart(b: Bytes, start: nat, n: nat)
    ensures ReadSoFar(b, start, n, 0, start, [])
  {
    hide Chain;
    var all := Chain(b, start, n);
    if all.Some? {
      assert [] + all.value.0 == all.value.0;
    }
  }

  lemma ReadNext(b: Bytes, start: nat, n: nat, i: nat, cursor: nat, done: seq<Entry>)
    requires ReadSoFar(b, start, n, i, cursor, done) && i < n
    ensures !RecordOk(b, cursor) ==> forall size: nat, max: nat :: Directory(b, start, size, n, max).None?
    ensures RecordOk(b, cursor) ==> ReadSoFar(b, start, n, i + 1, RecordEnd(b, cursor), done + [EntryAt(b, cursor)])
  {
    hide RecordOk;
    if RecordOk(b, cursor) {
      assert CentralFits(b, cursor) && RecordEnd(b, cursor) <= |b| by {
        RecordInside(b, cursor);
      }
      var rest := Chain(b, RecordEnd(b, cursor), n - i - 1);
      if rest.Some? {
        assert done + ([EntryAt(b, cursor)] + rest.value.0) == done + [EntryAt(b, cursor)] + rest.value.0;
      }
    }
  }

  lemma RecordInside(b: Bytes, cursor: nat)
    requires RecordOk(b, cursor)
    ensures CentralFits(b, cursor) && RecordEnd(b, cursor) <= |b|
  {
  }

  /** A prefix that repeats a name or exceeds the budget spoils the whole list. */
  lemma PrefixDecides(done: seq<Entry>, rest: seq<Entry>, max: nat)
    ensures !Distinct(done) ==> !Distinct(done + rest)
    ensures Total(done) > max ==> Total(done + rest) > max
  {
    TotalAppend(done, rest);
    if !Distinct(done) {
      var i, j :| 0 <= i < j < |done| && done[i].name == done[j].name;
      assert (done + rest)[i] == done[i] && (done + rest)[j] == done[j];
    }
  }

  datatype Info = Info(entries: seq<Entry>, expandedBytes: nat, names: set<Bytes>)

  lemma SpoiledPrefix(b: Bytes, start: nat, n: nat, i: nat, cursor: nat, done: seq<Entry>, max: nat)
    requires ReadSoFar(b, start, n, i, cursor, done) && (!Distinct(done) || Total(done) > max)
    ensures forall size: nat :: Directory(b, start, size, n, max).None?
  {
    hide Chain, Distinct;
    if Chain(b, start, n).Some? {
      PrefixDecides(done, Chain(b, cursor, n - i).value.0, max);
    }
  }

  /** The loop of inspectZip over the central directory. */
  method ReadDirectory(b: Bytes, start: nat, size: nat, n: nat, maxExpandedBytes: nat) returns (info: Option<Info>)
    ensures info.None? <==> Directory(b, start, size, n, maxExpandedBytes).None?
    ensures info.Some? ==>
              && Some(info.value.entries) == Directory(b, start, size, n, maxExpandedBytes)
              && info.value.expandedBytes == Total(info.value.entries)
              && forall name :: name in info.value.names <==> exists e :: e in info.value.entries && e.name == name
  {
    hide RecordOk, Chain, EntryAt, RecordEnd, ReadSoFar, Distinct, Total, Directory;
    var names: set<Bytes>, entries: seq<Entry> := {}, [];
    var cursor, expandedBytes, i: nat := start, 0, 0;
    ReadStart(b, start, n);
    NothingRead();
    while i < n
      invariant i <= n && ReadSoFar(b, start, n, i, cursor, entries)
      invariant Distinct(entries) && expandedBytes == Total(entries) <= maxExpandedBytes
      invariant forall name :: name in names <==> exists e :: e in entries && e.name == name
    {
      ReadNext(b, start, n, i, cursor, entries);
      if !RecordOk(b, cursor) {
        return None;
      }
      RecordInside(b, cursor);
      var e := EntryAt(b, cursor);
      TotalOne(entries, e);
      if e.name in names || expandedBytes + e.expanded > maxExpandedBytes {
        Repeats(entries, e);
        SpoiledPrefix(b, start, n, i + 1, RecordEnd(b, cursor), entries + [e], maxExpandedBytes);
        return None;
      }
      StillDistinct(entries, e);
      names := names + {e.name};
      expandedBytes := expandedBytes + e.expanded;
      entries := entries + [e];
      cursor := RecordEnd(b, cursor);
      i := i + 1;
    }
    ReadEnd(b, start, n, cursor, entries);
    DirectoryIs(b, start, size, n, maxExpandedBytes, entries, cursor);
    if cursor != start + size {
      return None;
    }
    info := Some(Info(entries, expandedBytes, names));
  }

  lemma DirectoryIs(b: Bytes, start: nat, size: nat, n: nat, max: nat, entries: seq<Entry>, end: nat)
    requires Chain(b, start, n) == Some((entries, end)) && Distinct(entries) && Total(entries) <= max
    ensures Directory(b, start, size, n, max) == if end == start + size then Some(entries) else None
  {
  }

  lemma NothingRead()
    ensures Distinct([]) && Total([]) == 0
  {
  }

  lemma TotalOne(entries: seq<Entry>, e: Entry)
    ensures Total(entries + [e]) == Total(entries) + e.expanded
  {
    TotalAppend(entries, [e]);
    assert [e][1..] == [];
  }

  /** inspectZip: it never reads outside the buffer, accepts exactly the containers that Inspected
      describes, and returns their entries, names and expanded size. */
  method InspectZip(b: Bytes, maxExpandedBytes: nat, maxEntries: nat) returns (info: Option<Info>)
    ensures info.Some? <==> Inspected(b, maxExpandedBytes, maxEntries).Some?
    ensures info.Some? ==>
              && Some(info.value.entries) == Inspected(b, maxExpandedBytes, maxEntries)
              && info.value.expandedBytes == Total(info.value.entries)
              && forall name :: name in info.value.names <==> exists e :: e in info.value.entries && e.name == name
  {
    hide Directory, HeaderOk, LastIndex;
    var at := EndRecord(b);
    if at.None? || !HeaderOk(b, at.value, maxEntries) {
      return None;
    }
    info := ReadDirectory(b, Read32(b, at.value + 16), Read32(b, at.value + 12), Read16(b, at.value + 10),
                          maxExpandedBytes);
  }

  lemma ReadEnd(b: Bytes, start: nat, n: nat, cursor: nat, done: seq<Entry>)
    requires ReadSoFar(b, start, n, n, cursor, done)
    ensures Chain(b, start, n) == Some((done, cursor))
  {
    assert done + [] == done;
  }

  lemma Repeats(entries: seq<Entry>, e: Entry)
    ensures (exists f :: f in entries && f.name == e.name) ==> !Distinct(entries + [e])
  {
    if exists f :: f in entries && f.name == e.name {
      var i :| 0 <= i < |entries| && entries[i].name == e.name;
      assert (entries + [e])[i].name == (entries + [e])[|entries|].name;
    }
  }

  lemma StillDistinct(entries: seq<Entry>, e: Entry)
    requires Distinct(entries) && !exists f :: f in entries && f.name == e.name
    ensures Distinct(entries + [e])
  {
    forall i | 0 <= i < |entries| ensures entries[i].name != e.name {
      assert entries[i] in entries;
    }
  }

  // ---------------------------------------------------------------------------------------
  // What acceptance means
  // ---------------------------------------------------------------------------------------

  /** offs are the starts of the records, and the end of the last one. */
  ghost predicate Tiles(b: Bytes, offs: seq<nat>, entries: seq<Entry>) {
    && |offs| == |entries| + 1
    && forall i :: 0 <= i < |entries| ==>
         RecordOk(b, offs[i]) && offs[i + 1] == RecordEnd(b, offs[i]) && entries[i] == EntryAt(b, offs[i])
  }

  lemma {:induction false} ChainTiles(b: Bytes, cursor: nat, n: nat) returns (offs: seq<nat>)
    requires Chain(b, cursor, n).Some?
    ensures Tiles(b, offs, Chain(b, cursor, n).value.0)
    ensures |offs| == n + 1 && offs[0] == cursor && offs[n] == Chain(b, cursor, n).value.1
    decreases n
  {
    hide RecordOk, EntryAt;
    if n == 0 {
      offs := [cursor];
    } else {
      RecordInside(b, cursor);
      var rest := ChainTiles(b, RecordEnd(b, cursor), n - 1);
      offs := [cursor] + rest;
    }
  }

  /** What the record at offs[i] and its local header say. */
  predicate EntryHolds(b: Bytes, cursor: nat, e: Entry) {
    && cursor + 46 <= |b|
    && SafeName(e.name) && CleanUtf8(e.name)
    && LocalAgrees(b, Read32(b, cursor + 42), e)
    && (e.compressed > 0 ==> e.expanded <= 200 * e.compressed)
  }

  lemma TiledEntriesHold(b: Bytes, offs: seq<nat>, entries: seq<Entry>)
    requires Tiles(b, offs, entries)
    ensures forall i :: 0 <= i < |entries| ==> EntryHolds(b, offs[i], entries[i])
  {
    hide CleanUtf8, SafeName, LocalAgrees;
  }

  /** An accepted container: as many records as declared tile the declared directory in front of the
      end record, names are unique, safe and those of the local headers, every entry's data lies in the
      buffer, no entry expands more than two hundredfold, and together they stay within the budget. */
  lemma AcceptanceMeans(b: Bytes, maxExpandedBytes: nat, maxEntries: nat) returns (at: nat, offs: seq<nat>)
    requires Inspected(b, maxExpandedBytes, maxEntries).Some?
    ensures at + 22 <= |b| && HasBytes(b, at, EOCD_SIG)
    ensures var entries := Inspected(b, maxExpandedBytes, maxEntries).value;
            && |entries| == Read16(b, at + 10) <= maxEntries
            && Tiles(b, offs, entries)
            && offs[0] == Read32(b, at + 16) && offs[|entries|] == offs[0] + Read32(b, at + 12) <= at
            && Distinct(entries) && Total(entries) <= maxExpandedBytes
            && forall i :: 0 <= i < |entries| ==> EntryHolds(b, offs[i], entries[i])
  {
    hide Chain, HeaderOk, LastIndex, EntryHolds, Tiles, Distinct, Total;
    at := EndRecord(b).value;
    HeaderFacts(b, at, maxEntries);
    offs := ChainTiles(b, Read32(b, at + 16), Read16(b, at + 10));
    TiledCount(b, offs, Inspected(b, maxExpandedBytes, maxEntries).value);
    TiledEntriesHold(b, offs, Inspected(b, maxExpandedBytes, maxEntries).value);
  }

  lemma TiledCount(b: Bytes, offs: seq<nat>, entries: seq<Entry>)
    requires Tiles(b, offs, entries)
    ensures |offs| == |entries| + 1
  {
  }

  lemma HeaderFacts(b: Bytes, at: nat, maxEntries: nat)
    requires at + 22 <= |b| && HeaderOk(b, at, maxEntries)
    ensures Read16(b, at + 10) <= maxEntries && Read32(b, at + 16) + Read32(b, at + 12) <= at
  {
  }
}
