/**
 encodeGovernanceComponent (src/governance/store.js): one semantic id, one file-system component.
 Percent-encoding follows section 2.1 of RFC 3986 over the UTF-8 form of the id.
 */
module ComponentNames {
  import opened Wrappers
  import opened JsStrings

  const SPACE: Unit := 32
  const PERCENT: Unit := 37
  const STAR: Unit := 42
  const DOT: Unit := 46
  const SLASH: Unit := 47
  const BACKSLASH: Unit := 92
  const UNDERSCORE: Unit := 95

  const WRITER: Text := [119, 114, 105, 116, 101, 114]  // writer

  // ---------------------------------------------------------------------------------------
  // encodeURIComponent
  // ---------------------------------------------------------------------------------------

  /** Units that encodeURIComponent leaves alone. */
  predicate Unreserved(u: Unit) {
    || 48 <= u <= 57 || 65 <= u <= 90 || 97 <= u <= 122
    || u == 45 || u == UNDERSCORE || u == DOT || u == 33 || u == 126 || u == STAR
    || u == 39 || u == 40 || u == 41
  }

  predicate PairAt(s: Text) { |s| >= 2 && High(s[0]) && Low(s[1]) }

  function PairValue(h: Unit, l: Unit): (v: nat)
    requires High(h) && Low(l)
    ensures 0x1_0000 <= v <= MAX_CODE_POINT && FromCodePoint(v) == [h, l]
  {
    0x1_0000 + (h - 0xD800) * 0x400 + (l - 0xDC00)
  }

  type Octet = b: int | 0 <= b < 256

  function Utf8(v: nat): (bytes: seq<Octet>)
    requires v <= MAX_CODE_POINT
    ensures 1 <= |bytes| <= 4
  {
    if v < 0x80 then [v]
    else if v < 0x800 then [0xC0 + v / 64, 0x80 + v % 64]
    else if v < 0x1_0000 then [0xE0 + v / 4096, 0x80 + v / 64 % 64, 0x80 + v % 64]
    else [0xF0 + v / 262144, 0x80 + v / 4096 % 64, 0x80 + v / 64 % 64, 0x80 + v % 64]
  }

  function HexDigit(n: nat): Unit
    requires n < 16
  {
    if n < 10 then 48 + n else 55 + n
  }

  function PercentByte(b: Octet): Text { [PERCENT, HexDigit(b / 16), HexDigit(b % 16)] }

  function PercentBytes(bytes: seq<Octet>): Text {
    if bytes == [] then [] else PercentByte(bytes[0]) + PercentBytes(bytes[1..])
  }

  /** encodeURIComponent; None is the URIError of a lone surrogate. */
  function EncodeUri(s: Text): Option<Text> {
    if s == [] then Some([])
    else if PairAt(s) then
      var rest := EncodeUri(s[2..]);
      if rest.None? then None else Some(PercentBytes(Utf8(PairValue(s[0], s[1]))) + rest.value)
    else if High(s[0]) || Low(s[0]) then None
    else
      var rest := EncodeUri(s[1..]);
      if rest.None? then None
      else Some((if Unreserved(s[0]) then [s[0]] else PercentBytes(Utf8(s[0]))) + rest.value)
  }

  const ENCODED_SPACE: Text := [PERCENT, 50, 48]  // %20

  /** encoded.replace(/%20/g, ' ') */
  function SpacesBack(t: Text): Text {
    if t == [] then []
    else if ENCODED_SPACE <= t then [SPACE] + SpacesBack(t[3..])
    else [t[0]] + SpacesBack(t[1..])
  }

  // ---------------------------------------------------------------------------------------
  // encodeGovernanceComponent
  // ---------------------------------------------------------------------------------------

  /** s.split('.')[0].toUpperCase(); no unit outside ASCII uppercases into a reserved name. */
  function Base(s: Text): Text {
    if s == [] || s[0] == DOT then []
    else [if 97 <= s[0] <= 122 then s[0] - 32 else s[0]] + Base(s[1..])
  }

  /** CON, PRN, AUX, NUL, and COM or LPT followed by a digit from 1 to 9. */
  predicate ReservedBase(b: Text) {
    || b == [67, 79, 78] || b == [80, 82, 78] || b == [65, 85, 88] || b == [78, 85, 76]
    || (|b| == 4 && (b[..3] == [67, 79, 77] || b[..3] == [76, 80, 84]) && 49 <= b[3] <= 57)
  }

  datatype Kind = ForTask | ForNamespace

  /** The file-system component of an id; None is GovernanceStoreError(invalid_component). */
  function EncodeComponent(s: Text, kind: Kind): Option<Text> {
    if s == [] then Some([UNDERSCORE])
    else if s == [DOT] || s == [DOT, DOT] then None
    else if s[|s| - 1] == SPACE || s[|s| - 1] == DOT then None
    else if STAR in s then None
    else if ReservedBase(Base(s)) then None
    else
      var uri := EncodeUri(s);
      if uri.None? then None
      else
        var encoded := SpacesBack(uri.value);
        if encoded == [] || encoded == [DOT] || encoded == [DOT, DOT] then None
        else if kind == ForTask && (encoded == WRITER || [DOT] + WRITER <= encoded) then None
        else Some(encoded)
  }

  /** An id that the durable runtime accepts. */
  predicate SafeTaskId(s: Text) { EncodeComponent(s, ForTask).Some? }

  // ---------------------------------------------------------------------------------------
  // Reading a component back
  // ---------------------------------------------------------------------------------------

  function HexValue(u: Unit): nat {
    if 48 <= u <= 57 then u - 48 else if 65 <= u <= 70 then u - 55 else 0
  }

  /** The byte of the k-th percent triple of t. */
  function ByteAt(t: Text, k: nat): int
    requires 3 * k + 2 < |t|
  {
    HexValue(t[3 * k + 1]) * 16 + HexValue(t[3 * k + 2])
  }

  /** decodeURIComponent, where a bare space stands for itself. */
  function DecodeComponent(t: Text): Text {
    if t == [] then []
    else if t[0] != PERCENT || |t| < 3 then [t[0]] + DecodeComponent(t[1..])
    else
      var b := ByteAt(t, 0);
      if b < 0x80 then [b] + DecodeComponent(t[3..])
      else if b < 0xE0 && |t| >= 6 then
        Point((b - 0xC0) * 64 + ByteAt(t, 1) - 0x80) + DecodeComponent(t[6..])
      else if b < 0xF0 && |t| >= 9 then
        Point((b - 0xE0) * 4096 + (ByteAt(t, 1) - 0x80) * 64 + ByteAt(t, 2) - 0x80) + DecodeComponent(t[9..])
      else if |t| >= 12 then
        Point((b - 0xF0) * 262144 + (ByteAt(t, 1) - 0x80) * 4096 + (ByteAt(t, 2) - 0x80) * 64 + ByteAt(t, 3) - 0x80)
        + DecodeComponent(t[12..])
      else []
  }

  function Point(v: int): Text { if 0 <= v <= MAX_CODE_POINT then FromCodePoint(v) else [] }

  /** Percent-encoding with spaces kept, in one pass. */
  function EncodeKeepingSpaces(s: Text): Option<Text> {
    if s == [] then Some([])
    else if PairAt(s) then
      var rest := EncodeKeepingSpaces(s[2..]);
      if rest.None? then None else Some(PercentBytes(Utf8(PairValue(s[0], s[1]))) + rest.value)
    else if High(s[0]) || Low(s[0]) then None
    else
      var rest := EncodeKeepingSpaces(s[1..]);
      if rest.None? then None
      else Some((if Unreserved(s[0]) || s[0] == SPACE then [s[0]] else PercentBytes(Utf8(s[0]))) + rest.value)
  }

  lemma SpacesBackByte(b: Octet, t: Text)
    ensures SpacesBack(PercentByte(b) + t) == (if b == 32 then [SPACE] else PercentByte(b)) + SpacesBack(t)
  {
    var h, l := HexDigit(b / 16), HexDigit(b % 16);
    var whole := PercentByte(b) + t;
    assert whole[0] == PERCENT && whole[1] == h && whole[2] == l && whole[3..] == t;
    assert ENCODED_SPACE <= whole <==> b == 32;
    if b != 32 {
      assert whole[1..] == [h, l] + t;
      assert ([h, l] + t)[1..] == [l] + t && ([l] + t)[1..] == t;
      assert SpacesBack([l] + t) == [l] + SpacesBack(t);
      assert SpacesBack([h, l] + t) == [h] + SpacesBack([l] + t);
    }
  }

  lemma {:induction false} SpacesBackBytes(bytes: seq<Octet>, t: Text)
    requires 32 !in bytes
    ensures SpacesBack(PercentBytes(bytes) + t) == PercentBytes(bytes) + SpacesBack(t)
  {
    if bytes == [] {
      assert PercentBytes(bytes) + t == t;
    } else {
      hide SpacesBack, PercentByte;
      var rest := PercentBytes(bytes[1..]);
      assert PercentBytes(bytes) + t == PercentByte(bytes[0]) + (rest + t);
      SpacesBackByte(bytes[0], rest + t);
      SpacesBackBytes(bytes[1..], t);
      assert PercentByte(bytes[0]) + (rest + SpacesBack(t)) == PercentBytes(bytes) + SpacesBack(t);
    }
  }

  lemma Utf8NoSpace(v: nat)
    requires v <= MAX_CODE_POINT && v != 32
    ensures 32 !in Utf8(v)
  {
  }

  lemma SpacesBackPlain(u: Unit, t: Text)
    requires u != PERCENT
    ensures SpacesBack([u] + t) == [u] + SpacesBack(t)
  {
    assert ([u] + t)[1..] == t;
  }

  /** Replacing %20 afterwards only reaches encoded spaces. */
  lemma {:induction false} SpacesKept(s: Text)
    ensures EncodeUri(s).None? <==> EncodeKeepingSpaces(s).None?
    ensures EncodeUri(s).Some? ==> SpacesBack(EncodeUri(s).value) == EncodeKeepingSpaces(s).value
    decreases |s|
  {
    hide SpacesBack, PercentBytes, Utf8;
    if s == [] {
      EmptySpaces();
    } else if PairAt(s) {
      SpacesKept(s[2..]);
      if EncodeUri(s[2..]).Some? {
        Utf8NoSpace(PairValue(s[0], s[1]));
        SpacesBackBytes(Utf8(PairValue(s[0], s[1])), EncodeUri(s[2..]).value);
      }
    } else {
      SpacesKept(s[1..]);
      if EncodeUri(s).Some? {
        var rest := EncodeUri(s[1..]).value;
        if Unreserved(s[0]) {
          SpacesBackPlain(s[0], rest);
        } else if s[0] == SPACE {
          SpaceEncoded();
          SpacesBackByte(32, rest);
        } else {
          Utf8NoSpace(s[0]);
          SpacesBackBytes(Utf8(s[0]), rest);
        }
      }
    }
  }

  lemma EmptySpaces()
    ensures SpacesBack([]) == []
  {
  }

  lemma SpaceEncoded()
    ensures PercentBytes(Utf8(SPACE)) == PercentByte(32)
  {
    var bytes: seq<Octet> := [32];
    assert Utf8(SPACE) == bytes && bytes[1..] == [];
    assert PercentByte(32) + [] == PercentByte(32);
  }

  lemma HexRoundTrip(b: Octet)
    ensures HexValue(HexDigit(b / 16)) * 16 + HexValue(HexDigit(b % 16)) == b
  {
  }

  lemma BytesAt(bytes: seq<Octet>, t: Text, k: nat)
    requires k < |bytes|
    ensures |PercentBytes(bytes)| == 3 * |bytes|
    ensures ByteAt(PercentBytes(bytes) + t, k) == bytes[k]
    ensures (PercentBytes(bytes) + t)[0] == PERCENT
    decreases |bytes|
  {
    var rest := PercentBytes(bytes[1..]);
    var whole := PercentBytes(bytes) + t;
    assert whole == PercentByte(bytes[0]) + (rest + t);
    if |bytes| > 1 {
      BytesAt(bytes[1..], t, if k > 0 then k - 1 else 0);
    }
    if k == 0 {
      HexRoundTrip(bytes[0]);
    } else {
      assert whole[3 * k + 1] == (rest + t)[3 * (k - 1) + 1] && whole[3 * k + 2] == (rest + t)[3 * (k - 1) + 2];
    }
  }

  /** The bytes of v stand in percent triples at the front of whole. */
  predicate Leads(whole: Text, v: nat)
    requires v <= MAX_CODE_POINT
  {
    && |whole| >= 3 * |Utf8(v)| && whole[0] == PERCENT
    && forall k :: 0 <= k < |Utf8(v)| ==> ByteAt(whole, k) == Utf8(v)[k]
  }

  lemma DecodeShort(whole: Text, v: nat)
    requires v < 0x800 && Leads(whole, v)
    ensures DecodeComponent(whole) == FromCodePoint(v) + DecodeComponent(whole[3 * |Utf8(v)|..])
  {
    hide ByteAt, FromCodePoint;
    assert ByteAt(whole, 0) == Utf8(v)[0];
    if v < 0x80 {
      SmallPoint(v);
    } else {
      assert ByteAt(whole, 1) == Utf8(v)[1];
    }
  }

  lemma DecodeThree(whole: Text, v: nat)
    requires 0x800 <= v < 0x1_0000 && Leads(whole, v)
    ensures DecodeComponent(whole) == FromCodePoint(v) + DecodeComponent(whole[3 * |Utf8(v)|..])
  {
    hide ByteAt, FromCodePoint;
    assert ByteAt(whole, 0) == Utf8(v)[0] && ByteAt(whole, 1) == Utf8(v)[1] && ByteAt(whole, 2) == Utf8(v)[2];
    assert v / 4096 * 4096 + v / 64 % 64 * 64 + v % 64 == v by {
      hide *;
      assert v == v / 64 * 64 + v % 64;
      assert v / 64 == v / 4096 * 64 + v / 64 % 64;
    }
  }

  lemma DecodeFour(whole: Text, v: nat)
    requires 0x1_0000 <= v <= MAX_CODE_POINT && Leads(whole, v)
    ensures DecodeComponent(whole) == FromCodePoint(v) + DecodeComponent(whole[3 * |Utf8(v)|..])
  {
    hide ByteAt, FromCodePoint;
    assert ByteAt(whole, 0) == Utf8(v)[0] && ByteAt(whole, 1) == Utf8(v)[1];
    assert ByteAt(whole, 2) == Utf8(v)[2] && ByteAt(whole, 3) == Utf8(v)[3];
    FourBytes(v);
  }

  lemma DecodePoint(v: nat, t: Text)
    requires v <= MAX_CODE_POINT
    ensures DecodeComponent(PercentBytes(Utf8(v)) + t) == FromCodePoint(v) + DecodeComponent(t)
  {
    hide PercentBytes, FromCodePoint, DecodeComponent, Utf8, ByteAt;
    var bytes, whole := Utf8(v), PercentBytes(Utf8(v)) + t;
    BytesAt(bytes, t, 0);
    forall k | 0 <= k < |bytes| ensures ByteAt(whole, k) == bytes[k] {
      BytesAt(bytes, t, k);
    }
    assert whole[3 * |bytes|..] == t;
    if v < 0x800 {
      DecodeShort(whole, v);
    } else if v < 0x1_0000 {
      DecodeThree(whole, v);
    } else {
      DecodeFour(whole, v);
    }
  }

  lemma SmallPoint(v: nat)
    requires v < 0x80
    ensures FromCodePoint(v) == [v]
  {
  }

  lemma FourBytes(v: nat)
    ensures v / 262144 * 262144 + v / 4096 % 64 * 4096 + v / 64 % 64 * 64 + v % 64 == v
  {
    assert v == v / 64 * 64 + v % 64;
    assert v / 64 == v / 64 / 64 * 64 + v / 64 % 64 && v / 64 / 64 == v / 4096;
    assert v / 4096 == v / 4096 / 64 * 64 + v / 4096 % 64 && v / 4096 / 64 == v / 262144;
  }

  lemma {:induction false} KeepingSpacesDecodes(s: Text)
    requires EncodeKeepingSpaces(s).Some?
    ensures DecodeComponent(EncodeKeepingSpaces(s).value) == s
    decreases |s|
  {
    hide DecodeComponent, PercentBytes, Utf8, FromCodePoint;
    if s == [] {
      DecodeEmpty();
    } else if PairAt(s) {
      KeepingSpacesDecodes(s[2..]);
      DecodePoint(PairValue(s[0], s[1]), EncodeKeepingSpaces(s[2..]).value);
      assert s == [s[0], s[1]] + s[2..];
    } else {
      var rest := EncodeKeepingSpaces(s[1..]).value;
      KeepingSpacesDecodes(s[1..]);
      assert s == [s[0]] + s[1..];
      if Unreserved(s[0]) || s[0] == SPACE {
        DecodePlain(s[0], rest);
      } else {
        DecodePoint(s[0], rest);
        UnitPoint(s[0]);
      }
    }
  }

  lemma DecodeEmpty()
    ensures DecodeComponent([]) == []
  {
  }

  lemma DecodePlain(u: Unit, t: Text)
    requires u != PERCENT
    ensures DecodeComponent([u] + t) == [u] + DecodeComponent(t)
  {
    assert ([u] + t)[1..] == t;
  }

  lemma UnitPoint(u: Unit)
    ensures FromCodePoint(u) == [u]
  {
  }

  /** Units that can appear in a component. */
  predicate ComponentUnit(u: Unit) { Unreserved(u) || u == SPACE || u == PERCENT }

  lemma {:induction false} PercentUnits(bytes: seq<Octet>)
    ensures forall u :: u in PercentBytes(bytes) ==> ComponentUnit(u) && u != STAR && u != DOT
    ensures bytes != [] ==> |PercentBytes(bytes)| >= 3
  {
    if bytes != [] {
      PercentUnits(bytes[1..]);
    }
  }

  lemma {:induction false} KeptUnits(s: Text)
    requires EncodeKeepingSpaces(s).Some?
    ensures forall u :: u in EncodeKeepingSpaces(s).value ==> ComponentUnit(u) && (u == STAR ==> STAR in s)
    decreases |s|
  {
    hide PercentBytes, Utf8;
    if s != [] {
      if PairAt(s) {
        PercentUnits(Utf8(PairValue(s[0], s[1])));
        KeptUnits(s[2..]);
      } else {
        PercentUnits(Utf8(s[0]));
        KeptUnits(s[1..]);
      }
    }
  }

  // ---------------------------------------------------------------------------------------
  // Main results
  // ---------------------------------------------------------------------------------------

  /** An accepted non-empty id can be read back from its component. */
  lemma ComponentReadsBack(s: Text, kind: Kind)
    requires s != [] && EncodeComponent(s, kind).Some?
    ensures DecodeComponent(EncodeComponent(s, kind).value) == s
  {
    SpacesKept(s);
    KeepingSpacesDecodes(s);
  }

  /** Distinct accepted ids get distinct components, with one exception: the empty id shares the
      component of the id "_". */
  lemma ComponentsDistinct(s: Text, t: Text, kind: Kind)
    requires EncodeComponent(s, kind).Some? && EncodeComponent(t, kind).Some? && s != t
    ensures EncodeComponent(s, kind) == EncodeComponent(t, kind)
       <==> (s == [] && t == [UNDERSCORE]) || (s == [UNDERSCORE] && t == [])
  {
    hide EncodeUri, SpacesBack, DecodeComponent, Base;
    if s != [] {
      ComponentReadsBack(s, kind);
    }
    if t != [] {
      ComponentReadsBack(t, kind);
    }
    UnderscoreItself(kind);
    if s == [] && EncodeComponent(t, kind) == Some([UNDERSCORE]) {
      assert t == DecodeComponent([UNDERSCORE]);
    }
    if t == [] && EncodeComponent(s, kind) == Some([UNDERSCORE]) {
      assert s == DecodeComponent([UNDERSCORE]);
    }
  }

  lemma UnderscoreItself(kind: Kind)
    ensures EncodeComponent([UNDERSCORE], kind) == Some([UNDERSCORE])
    ensures DecodeComponent([UNDERSCORE]) == [UNDERSCORE]
  {
    var s: Text := [UNDERSCORE];
    assert s[1..] == [];
    assert s + [] == s;
    SpacesKept(s);
    assert EncodeKeepingSpaces(s[1..]) == Some([]);
    assert EncodeKeepingSpaces(s) == Some(s + []);
    assert Base(s) == s;
    DecodePlain(UNDERSCORE, []);
  }

  /** A component is one strict child of its directory and no file name of the store's own. */
  lemma ComponentContained(s: Text, kind: Kind)
    requires EncodeComponent(s, kind).Some?
    ensures var c := EncodeComponent(s, kind).value;
            && c != [] && c != [DOT] && c != [DOT, DOT]
            && SLASH !in c && BACKSLASH !in c && STAR !in c
            && (forall u :: u in c ==> 32 <= u < 127)
            && (kind == ForTask ==> c != WRITER && !([DOT] + WRITER <= c))
  {
    if s != [] {
      SpacesKept(s);
      KeptUnits(s);
    }
  }
}
