/**
 Printing an archive and inspecting it again: exactly when the printed bytes are accepted, and that
 they then give back the entries they were printed from.
 */
module ZipRoundTrip {
  import opened Wrappers
  import opened ZipContainer

  /** An entry with its stored data. */
  datatype Member = Member(name: Bytes, expanded: nat, method_: nat, data: Bytes)

  function B(n: nat, k: nat): Byte {
    if k == 0 then n % 256 else if k == 1 then n / 256 % 256 else if k == 2 then n / 65536 % 256 else n / 16777216 % 256
  }

  /** Fixed part of a local file header (section 4.3.7). */
  function LocalFixed(m: Member): Bytes {
    [0x50, 0x4B, 3, 4, 20, 0, 0, 0, B(m.method_, 0), B(m.method_, 1), 0, 0, 0, 0, 0, 0, 0, 0,
     B(|m.data|, 0), B(|m.data|, 1), B(|m.data|, 2), B(|m.data|, 3),
     B(m.expanded, 0), B(m.expanded, 1), B(m.expanded, 2), B(m.expanded, 3),
     B(|m.name|, 0), B(|m.name|, 1), 0, 0]
  }

  function LocalPart(m: Member): Bytes { LocalFixed(m) + m.name + m.data }

  /** Fixed part of a central directory record (section 4.3.12): up to the check sum, sizes and
      lengths, and the rest up to the name. */
  function CentralHead(m: Member): Bytes {
    [0x50, 0x4B, 1, 2, 20, 0, 20, 0, 0, 0, B(m.method_, 0), B(m.method_, 1), 0, 0, 0, 0, 0, 0, 0, 0]
  }

  function CentralSizes(m: Member): Bytes {
    [B(|m.data|, 0), B(|m.data|, 1), B(|m.data|, 2), B(|m.data|, 3),
     B(m.expanded, 0), B(m.expanded, 1), B(m.expanded, 2), B(m.expanded, 3),
     B(|m.name|, 0), B(|m.name|, 1), 0, 0, 0, 0]
  }

  function CentralTail(at: nat): Bytes {
    [0, 0, 0, 0, 0, 0, 0, 0, B(at, 0), B(at, 1), B(at, 2), B(at, 3)]
  }

  function CentralRecord(m: Member, at: nat): Bytes { CentralHead(m) + CentralSizes(m) + CentralTail(at) + m.name }

  /** End of central directory record (section 4.3.16), without a comment. */
  function EndPart(count: nat, size: nat, start: nat): Bytes {
    [0x50, 0x4B, 5, 6, 0, 0, 0, 0, B(count, 0), B(count, 1), B(count, 0), B(count, 1),
     B(size, 0), B(size, 1), B(size, 2), B(size, 3), B(start, 0), B(start, 1), B(start, 2), B(start, 3), 0, 0]
  }

  function Body(members: seq<Member>): Bytes {
    if members == [] then [] else LocalPart(members[0]) + Body(members[1..])
  }

  function Central(members: seq<Member>, at: nat): Bytes {
    if members == [] then [] else CentralRecord(members[0], at) + Central(members[1..], at + |LocalPart(members[0])|)
  }

  function Print(members: seq<Member>): Bytes {
    Body(members) + Central(members, 0) + EndPart(|members|, |Central(members, 0)|, |Body(members)|)
  }

  function EntryOf(m: Member): Entry { Entry(m.name, |m.data|, m.expanded, m.method_) }

  function EntriesOf(members: seq<Member>): seq<Entry> {
    if members == [] then [] else [EntryOf(members[0])] + EntriesOf(members[1..])
  }

  predicate MemberOk(m: Member) {
    && |m.name| < 65536 && CleanUtf8(m.name) && SafeName(m.name) && (m.method_ == 0 || m.method_ == 8)
    && |m.data| < NO_SIZE && m.expanded < NO_SIZE && (m.data != [] ==> m.expanded <= 200 * |m.data|)
  }

  // ---------------------------------------------------------------------------------------
  // Reading what was written
  // ---------------------------------------------------------------------------------------

  lemma PartIn(b: Bytes, at: nat, s: Bytes, t: Bytes)
    requires HasBytes(b, at, s + t)
    ensures HasBytes(b, at, s) && HasBytes(b, at + |s|, t)
  {
    var whole := b[at..at + |s + t|];
    assert whole[..|s|] == s && whole[|s|..] == t;
    assert b[at..at + |s|] == whole[..|s|] && b[at + |s|..at + |s| + |t|] == whole[|s|..];
  }

  lemma FourBytes(n: nat)
    requires n <= NO_SIZE
    ensures B(n, 0) + 256 * B(n, 1) + 65536 * (B(n, 2) + 256 * B(n, 3)) == n
  {
    var q, r, t := n / 256, n / 65536, n / 16777216;
    assert n == 256 * q + n % 256 && q == 256 * r + q % 256 && r == 256 * t + r % 256 && t < 256;
    assert n / 65536 == q / 256 && n / 16777216 == r / 256;
  }

  lemma TwoBytes(n: nat)
    requires n < 65536
    ensures B(n, 0) + 256 * B(n, 1) == n
  {
  }

  lemma LocalReads(m: Member)
    requires |m.name| < 65536
    ensures var s := LocalFixed(m); |s| == 30 && s[..4] == LOCAL_SIG && Read16(s, 26) == |m.name| && Read16(s, 28) == 0
  {
    TwoBytes(|m.name|);
    hide B;
  }

  lemma CentralReads(m: Member, at: nat)
    requires |m.name| < 65536 && |m.data| <= NO_SIZE && m.expanded <= NO_SIZE && m.method_ < 65536 && at <= NO_SIZE
    ensures var s := CentralHead(m);
            |s| == 20 && s[..4] == CENTRAL_SIG && Read16(s, 8) == 0 && Read16(s, 10) == m.method_
    ensures var s := CentralSizes(m);
            && |s| == 14 && Read32(s, 0) == |m.data| && Read32(s, 4) == m.expanded
            && Read16(s, 8) == |m.name| && Read16(s, 10) == 0 && Read16(s, 12) == 0
    ensures var s := CentralTail(at); |s| == 12 && Read32(s, 8) == at
  {
    TwoBytes(|m.name|);
    TwoBytes(m.method_);
    FourBytes(|m.data|);
    FourBytes(m.expanded);
    FourBytes(at);
    hide B;
  }

  lemma CentralPlaced(b: Bytes, cursor: nat, m: Member, at: nat)
    requires MemberOk(m) && at <= NO_SIZE && HasBytes(b, cursor, CentralRecord(m, at))
    ensures HasBytes(b, cursor, CentralHead(m)) && HasBytes(b, cursor, CENTRAL_SIG)
    ensures HasBytes(b, cursor + 20, CentralSizes(m)) && HasBytes(b, cursor + 34, CentralTail(at))
            && HasBytes(b, cursor + 46, m.name)
    ensures |CentralRecord(m, at)| == 46 + |m.name|
  {
    var h, s, t := CentralHead(m), CentralSizes(m), CentralTail(at);
    hide CleanUtf8, SafeName, CentralHead, CentralSizes, CentralTail;
    CentralReads(m, at);
    PartIn(b, cursor, h + s + t, m.name);
    PartIn(b, cursor, h + s, t);
    PartIn(b, cursor, h, s);
    assert h == CENTRAL_SIG + h[4..];
    PartIn(b, cursor, CENTRAL_SIG, h[4..]);
  }

  /** The record of a member, read where it was written. */
  lemma RecordReads(b: Bytes, cursor: nat, m: Member, at: nat)
    requires MemberOk(m) && at <= NO_SIZE && HasBytes(b, cursor, CentralRecord(m, at))
    ensures CentralFits(b, cursor) && RecordEnd(b, cursor) == cursor + |CentralRecord(m, at)| <= |b|
    ensures EntryAt(b, cursor) == EntryOf(m) && Read32(b, cursor + 42) == at && Read16(b, cursor + 8) == 0
  {
    hide CleanUtf8, SafeName, CentralHead, CentralSizes, CentralTail, CentralRecord;
    CentralReads(m, at);
    CentralPlaced(b, cursor, m, at);
  }

  /** The local header of a member agrees with its record. */
  lemma LocalReadsBack(b: Bytes, at: nat, m: Member)
    requires MemberOk(m) && HasBytes(b, at, LocalPart(m))
    ensures LocalAgrees(b, at, EntryOf(m))
  {
    var s := LocalFixed(m);
    hide CleanUtf8, SafeName, LocalFixed;
    LocalReads(m);
    assert LocalPart(m) == s + (m.name + m.data);
    PartIn(b, at, s, m.name + m.data);
    PartIn(b, at + 30, m.name, m.data);
    assert s == LOCAL_SIG + s[4..];
    PartIn(b, at, LOCAL_SIG, s[4..]);
  }

  lemma {:induction false} ChainReads(b: Bytes, cursor: nat, members: seq<Member>, at: nat)
    requires forall m :: m in members ==> MemberOk(m)
    requires at + |Body(members)| <= NO_SIZE
    requires HasBytes(b, cursor, Central(members, at)) && HasBytes(b, at, Body(members))
    ensures Chain(b, cursor, |members|) == Some((EntriesOf(members), cursor + |Central(members, at)|))
    decreases |members|
  {
    hide MemberOk, CentralRecord, LocalPart, EntryAt, RecordEnd, RecordOk, HasBytes;
    if members != [] {
      var m, rest := members[0], members[1..];
      FirstMemberReads(b, cursor, m, at, Central(rest, at + |LocalPart(m)|), Body(rest));
      ChainReads(b, cursor + |CentralRecord(m, at)|, rest, at + |LocalPart(m)|);
    }
  }

  lemma FirstMemberReads(b: Bytes, cursor: nat, m: Member, at: nat, records: Bytes, body: Bytes)
    requires MemberOk(m) && at <= NO_SIZE
    requires HasBytes(b, cursor, CentralRecord(m, at) + records) && HasBytes(b, at, LocalPart(m) + body)
    ensures RecordOk(b, cursor) && CentralFits(b, cursor)
            && RecordEnd(b, cursor) == cursor + |CentralRecord(m, at)| <= |b|
    ensures EntryAt(b, cursor) == EntryOf(m)
    ensures HasBytes(b, cursor + |CentralRecord(m, at)|, records) && HasBytes(b, at + |LocalPart(m)|, body)
  {
    hide MemberOk, CentralRecord, LocalPart, CleanUtf8, SafeName, EntryAt, RecordEnd, RecordOk, LocalAgrees, HasBytes;
    PartIn(b, cursor, CentralRecord(m, at), records);
    PartIn(b, at, LocalPart(m), body);
    RecordReads(b, cursor, m, at);
    LocalReadsBack(b, at, m);
    MemberRecordOk(b, cursor, m, at);
  }

  lemma MemberRecordOk(b: Bytes, cursor: nat, m: Member, at: nat)
    requires MemberOk(m) && CentralFits(b, cursor) && RecordEnd(b, cursor) <= |b|
    requires EntryAt(b, cursor) == EntryOf(m) && Read32(b, cursor + 42) == at && Read16(b, cursor + 8) == 0
    requires LocalAgrees(b, at, EntryOf(m))
    ensures RecordOk(b, cursor)
  {
    hide CleanUtf8, SafeName, LocalAgrees, EntryAt;
  }

  // ---------------------------------------------------------------------------------------
  // Finding the end record
  // ---------------------------------------------------------------------------------------

  /** The signature shows up again inside the record. */
  predicate Doubled(end: Bytes) { exists k :: 1 <= k < |end| && HasBytes(end, k, EOCD_SIG) }

  lemma EndFound(front: Bytes, end: Bytes)
    requires |end| == 22 && HasBytes(end, 0, EOCD_SIG)
    ensures EndRecord(front + end) == if Doubled(end) then None else Some(|front|)
  {
    hide LastIndex;
    var b := front + end;
    assert HasBytes(b, |front|, EOCD_SIG);
    if Doubled(end) {
      var k :| 1 <= k < |end| && HasBytes(end, k, EOCD_SIG);
      assert HasBytes(b, |front| + k, EOCD_SIG);
    }
    var at := LastIndex(b, EOCD_SIG, |b|);
    if at.Some? && at.value > |front| {
      assert HasBytes(end, at.value - |front|, EOCD_SIG);
    }
  }

  lemma EndReads(count: nat, size: nat, start: nat)
    requires count < 65536 && size <= NO_SIZE && start <= NO_SIZE
    ensures var s := EndPart(count, size, start);
            && |s| == 22 && HasBytes(s, 0, EOCD_SIG) && Read16(s, 4) == 0 && Read16(s, 6) == 0
            && Read16(s, 8) == count && Read16(s, 10) == count && Read32(s, 12) == size && Read32(s, 16) == start
               && Read16(s, 20) == 0
  {
    TwoBytes(count);
    FourBytes(size);
    FourBytes(start);
    hide B;
  }

  lemma EndHeader(front: Bytes, count: nat, size: nat, start: nat, maxEntries: nat)
    requires count <= maxEntries && count < 65536 && size < NO_SIZE && start < NO_SIZE && start + size <= |front|
    ensures var b, at := front + EndPart(count, size, start), |front|;
            && at + 22 <= |b| && HeaderOk(b, at, maxEntries)
            && Read16(b, at + 10) == count && Read32(b, at + 12) == size && Read32(b, at + 16) == start
  {
    var s := EndPart(count, size, start);
    hide EndPart;
    EndReads(count, size, start);
    var b := front + s;
    assert HasBytes(b, |front|, s);
  }

  // ---------------------------------------------------------------------------------------
  // Main result
  // ---------------------------------------------------------------------------------------

  /** Members that an archive can hold within the budgets. */
  predicate Printable(members: seq<Member>, maxExpandedBytes: nat, maxEntries: nat) {
    && (forall m :: m in members ==> MemberOk(m))
    && Distinct(EntriesOf(members)) && Total(EntriesOf(members)) <= maxExpandedBytes
    && |members| <= maxEntries && |members| < 65536
    && |Body(members)| < NO_SIZE && |Central(members, 0)| < NO_SIZE
  }

  /** A printed archive is accepted exactly when the end signature does not turn up inside its own end
      record, and then it gives back the entries it was printed from. */
  lemma PrintedArchiveReadsBack(members: seq<Member>, maxExpandedBytes: nat, maxEntries: nat)
    requires Printable(members, maxExpandedBytes, maxEntries)
    ensures var end := EndPart(|members|, |Central(members, 0)|, |Body(members)|);
            Inspected(Print(members), maxExpandedBytes, maxEntries) == if Doubled(end) then None
                else Some(EntriesOf(members))
  {
    hide MemberOk, Chain, HeaderOk, EndRecord, Doubled, EndPart, Central, Body, Distinct, Total, EntriesOf;
    var size, start := |Central(members, 0)|, |Body(members)|;
    var front, end := Body(members) + Central(members, 0), EndPart(|members|, size, start);
    EndReads(|members|, size, start);
    EndFound(front, end);
    EndHeader(front, |members|, size, start, maxEntries);
    var b := Print(members);
    assert b == front + end;
    assert b[0..start] == Body(members);
    assert b[start..start + size] == Central(members, 0);
    ChainReads(b, start, members, 0);
  }
}
