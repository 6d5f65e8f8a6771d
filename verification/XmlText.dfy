/** The XML text codec of src/local/docx-mutation.js: escapeXml and decodeXml. */
module XmlText {
  import opened Wrappers
  import opened JsStrings

  const AMP: Unit := 38   // &
  const LT: Unit := 60    // <
  const GT: Unit := 62    // >
  const QUOT: Unit := 34  // "
  const APOS: Unit := 39  // '
  const SEMI: Unit := 59  // ;
  const HASH: Unit := 35  // #

  const AMP_REF: Text := [38, 97, 109, 112, 59]        // &amp;
  const LT_REF: Text := [38, 108, 116, 59]             // &lt;
  const GT_REF: Text := [38, 103, 116, 59]             // &gt;
  const QUOT_REF: Text := [38, 113, 117, 111, 116, 59] // &quot;
  const APOS_REF: Text := [38, 97, 112, 111, 115, 59]  // &apos;

  /** Two partial texts one after the other; a thrown RangeError on either side is the result. */
  function Join(a: Option<Text>, b: Option<Text>): Option<Text> {
    if a.Some? && b.Some? then Some(a.value + b.value) else None
  }

  lemma JoinAssoc(a: Option<Text>, b: Option<Text>, c: Option<Text>)
    ensures Join(Join(a, b), c) == Join(a, Join(b, c))
  {
    if a.Some? && b.Some? && c.Some? {
      assert a.value + b.value + c.value == a.value + (b.value + c.value);
    }
  }

  // ---------------------------------------------------------------------------------------
  // escapeXml
  // ---------------------------------------------------------------------------------------

  /** s.replace(/u/gu, sub) for a one-unit pattern. */
  function ReplaceUnit(s: Text, u: Unit, sub: Text): Text {
    if s == [] then [] else (if s[0] == u then sub else [s[0]]) + ReplaceUnit(s[1..], u, sub)
  }

  function EscapeXml(s: Text): Text {
    ReplaceUnit(ReplaceUnit(ReplaceUnit(ReplaceUnit(ReplaceUnit(s,
      AMP, AMP_REF), LT, LT_REF), GT, GT_REF), QUOT, QUOT_REF), APOS, APOS_REF)
  }

  function EscapeUnit(u: Unit): Text {
    if u == AMP then AMP_REF
    else if u == LT then LT_REF
    else if u == GT then GT_REF
    else if u == QUOT then QUOT_REF
    else if u == APOS then APOS_REF
    else [u]
  }

  lemma {:induction false} ReplaceUnitConcat(s: Text, t: Text, u: Unit, sub: Text)
    ensures ReplaceUnit(s + t, u, sub) == ReplaceUnit(s, u, sub) + ReplaceUnit(t, u, sub)
  {
    if s == [] {
      assert s + t == t;
    } else {
      ReplaceUnitConcat(s[1..], t, u, sub);
      assert (s + t)[0] == s[0] && (s + t)[1..] == s[1..] + t;
      var head := if s[0] == u then sub else [s[0]];
      assert head + (ReplaceUnit(s[1..], u, sub) + ReplaceUnit(t, u, sub))
          == (head + ReplaceUnit(s[1..], u, sub)) + ReplaceUnit(t, u, sub);
    }
  }

  lemma {:induction false} ReplaceUnitAbsent(s: Text, u: Unit, sub: Text)
    requires u !in s
    ensures ReplaceUnit(s, u, sub) == s
  {
    if s != [] {
      ReplaceUnitAbsent(s[1..], u, sub);
      assert s == [s[0]] + s[1..];
    }
  }

  lemma EscapeXmlConcat(s: Text, t: Text)
    ensures EscapeXml(s + t) == EscapeXml(s) + EscapeXml(t)
  {
    ReplaceUnitConcat(s, t, AMP, AMP_REF);
    var s1, t1 := ReplaceUnit(s, AMP, AMP_REF), ReplaceUnit(t, AMP, AMP_REF);
    ReplaceUnitConcat(s1, t1, LT, LT_REF);
    var s2, t2 := ReplaceUnit(s1, LT, LT_REF), ReplaceUnit(t1, LT, LT_REF);
    ReplaceUnitConcat(s2, t2, GT, GT_REF);
    var s3, t3 := ReplaceUnit(s2, GT, GT_REF), ReplaceUnit(t2, GT, GT_REF);
    ReplaceUnitConcat(s3, t3, QUOT, QUOT_REF);
    var s4, t4 := ReplaceUnit(s3, QUOT, QUOT_REF), ReplaceUnit(t3, QUOT, QUOT_REF);
    ReplaceUnitConcat(s4, t4, APOS, APOS_REF);
  }

  lemma ReplaceUnitSingle(u: Unit, v: Unit, sub: Text)
    ensures ReplaceUnit([u], v, sub) == if u == v then sub else [u]
  {
    assert [u][1..] == [];
    assert ReplaceUnit([], v, sub) == [];
  }

  /** The last four replacements leave a string that holds none of their units alone. */
  lemma LaterReplacementsKeep(s: Text)
    requires LT !in s && GT !in s && QUOT !in s && APOS !in s
    ensures ReplaceUnit(s, LT, LT_REF) == s && ReplaceUnit(s, GT, GT_REF) == s
    ensures ReplaceUnit(s, QUOT, QUOT_REF) == s && ReplaceUnit(s, APOS, APOS_REF) == s
  {
    ReplaceUnitAbsent(s, LT, LT_REF);
    ReplaceUnitAbsent(s, GT, GT_REF);
    ReplaceUnitAbsent(s, QUOT, QUOT_REF);
    ReplaceUnitAbsent(s, APOS, APOS_REF);
  }

  lemma EscapeMarkup(u: Unit)
    requires u == AMP || u == LT || u == GT || u == QUOT
    ensures EscapeXml([u]) == EscapeUnit(u)
  {
    ReplaceUnitSingle(u, AMP, AMP_REF);
    ReplaceUnitSingle(u, LT, LT_REF);
    ReplaceUnitSingle(u, GT, GT_REF);
    ReplaceUnitSingle(u, QUOT, QUOT_REF);
    hide ReplaceUnit;
    LaterReplacementsKeep(EscapeUnit(u));
  }

  lemma EscapeOther(u: Unit)
    requires u != AMP && u != LT && u != GT && u != QUOT
    ensures EscapeXml([u]) == if u == APOS then APOS_REF else [u]
  {
    ReplaceUnitSingle(u, AMP, AMP_REF);
    ReplaceUnitSingle(u, LT, LT_REF);
    ReplaceUnitSingle(u, GT, GT_REF);
    ReplaceUnitSingle(u, QUOT, QUOT_REF);
    ReplaceUnitSingle(u, APOS, APOS_REF);
  }

  /** The five replacements in a row touch no unit that an earlier one produced. */
  lemma EscapeXmlSingle(u: Unit)
    ensures EscapeXml([u]) == EscapeUnit(u)
  {
    if u == AMP || u == LT || u == GT || u == QUOT {
      EscapeMarkup(u);
    } else {
      EscapeOther(u);
    }
  }

  lemma EscapeXmlEmpty()
    ensures EscapeXml([]) == []
  {
  }

  lemma EscapeXmlCons(s: Text)
    requires s != []
    ensures EscapeXml(s) == EscapeUnit(s[0]) + EscapeXml(s[1..])
  {
    hide EscapeXml;
    assert s == [s[0]] + s[1..];
    EscapeXmlConcat([s[0]], s[1..]);
    EscapeXmlSingle(s[0]);
  }

  /** Escaped text holds no markup delimiter and no quote. */
  lemma {:induction false} EscapeXmlNoMarkup(s: Text)
    ensures LT !in EscapeXml(s) && GT !in EscapeXml(s) && QUOT !in EscapeXml(s) && APOS !in EscapeXml(s)
  {
    hide EscapeXml;
    if s == [] {
      EscapeXmlEmpty();
    } else {
      EscapeXmlCons(s);
      EscapeXmlNoMarkup(s[1..]);
    }
  }

  lemma {:induction false} EscapeXmlPlain(s: Text)
    requires forall u :: u in s ==> EscapeUnit(u) == [u]
    ensures EscapeXml(s) == s
  {
    hide EscapeXml;
    if s == [] {
      EscapeXmlEmpty();
    } else {
      EscapeXmlCons(s);
      EscapeXmlPlain(s[1..]);
      assert s == [s[0]] + s[1..];
    }
  }

  // ---------------------------------------------------------------------------------------
  // Character references (section 4.6 of XML 1.0 and section 4.1 for the numeric ones)
  // ---------------------------------------------------------------------------------------

  /** Simple case folding, as far as the pattern's letters are concerned: U+017F folds to s. */
  function Fold(u: Unit): Unit {
    if 65 <= u <= 90 then u + 32 else if u == 0x17F then 115 else if u == 0x212A then 107 else u
  }

  function DigitValue(u: Unit): Option<nat> {
    if 48 <= u <= 57 then Some(u - 48)
    else if 97 <= u <= 102 then Some(u - 87)
    else if 65 <= u <= 70 then Some(u - 55)
    else None
  }

  predicate IsDigit(u: Unit, base: nat) { DigitValue(u).Some? && DigitValue(u).value < base }

  /** End of the longest run of digits of s that starts at i. */
  function DigitRun(s: Text, i: nat, base: nat): (e: nat)
    requires i <= |s|
    ensures i <= e <= |s|
    ensures forall k :: i <= k < e ==> IsDigit(s[k], base)
    ensures e < |s| ==> !IsDigit(s[e], base)
    decreases |s| - i
  {
    if i < |s| && IsDigit(s[i], base) then DigitRun(s, i + 1, base) else i
  }

  /** Number.parseInt; a value past the last code point is out of range whatever its size. */
  function ParseDigits(s: Text, base: nat): nat
    requires forall k :: 0 <= k < |s| ==> IsDigit(s[k], base)
  {
    if s == [] then 0
    else
      assert IsDigit(s[|s| - 1], base);
      ParseDigits(s[..|s| - 1], base) * base + DigitValue(s[|s| - 1]).value
  }

  predicate StartsFolded(s: Text, p: Text) {
    |p| <= |s| && forall k :: 0 <= k < |p| ==> Fold(s[k]) == p[k]
  }

  function NamedLength(s: Text): nat {
    if StartsFolded(s, AMP_REF) then 5
    else if StartsFolded(s, LT_REF) then 4
    else if StartsFolded(s, GT_REF) then 4
    else if StartsFolded(s, QUOT_REF) then 6
    else if StartsFolded(s, APOS_REF) then 6
    else 0
  }

  predicate IsHexMark(s: Text) { |s| > 2 && (s[2] == 120 || s[2] == 88) }

  function NumericStart(s: Text): nat { if IsHexMark(s) then 3 else 2 }

  function NumericBase(s: Text): nat { if IsHexMark(s) then 16 else 10 }

  function NumericLength(s: Text): nat
    requires |s| >= 2
  {
    var e := DigitRun(s, NumericStart(s), NumericBase(s));
    if e > NumericStart(s) && e < |s| && s[e] == SEMI then e + 1 else 0
  }

  /** Length of the reference that the pattern of decodeXml recognises at the front of s, or 0. */
  function ReferenceLength(s: Text): (n: nat)
    ensures n <= |s|
    ensures n > 0 ==> n >= 4 && s[0] == AMP && s[n - 1] == SEMI
  {
    if |s| < 2 || s[0] != AMP then 0
    else if s[1] == HASH then NumericLength(s)
    else NamedLength(s)
  }

  /** What decodeXml puts in place of a reference; None is the RangeError of fromCodePoint. */
  function ReferenceText(s: Text): (t: Option<Text>)
    requires ReferenceLength(s) > 0
    ensures t.Some? ==> |t.value| == 1 || (|t.value| == 2 && High(t.value[0]) && Low(t.value[1]))
  {
    if s[1] == HASH then
      var v := ParseDigits(s[NumericStart(s)..ReferenceLength(s) - 1], NumericBase(s));
      if v <= MAX_CODE_POINT then Some(FromCodePoint(v)) else None
    else if StartsFolded(s, AMP_REF) then Some([AMP])
    else if StartsFolded(s, LT_REF) then Some([LT])
    else if StartsFolded(s, GT_REF) then Some([GT])
    else if StartsFolded(s, QUOT_REF) then Some([QUOT])
    else Some([APOS])
  }

  lemma {:induction false} DigitRunExtend(s: Text, t: Text, i: nat, base: nat)
    requires i <= |s| && DigitRun(s, i, base) < |s|
    ensures DigitRun(s + t, i, base) == DigitRun(s, i, base)
    decreases |s| - i
  {
    if i < |s| && IsDigit(s[i], base) {
      DigitRunExtend(s, t, i + 1, base);
    }
  }

  lemma {:induction false} DigitRunTake(s: Text, i: nat, base: nat, n: nat)
    requires i <= |s| && DigitRun(s, i, base) < n <= |s|
    ensures DigitRun(s[..n], i, base) == DigitRun(s, i, base)
    decreases |s| - i
  {
    if i < |s| && IsDigit(s[i], base) {
      DigitRunTake(s, i + 1, base, n);
    }
  }

  /** A reference ends at its own semicolon: what follows it never matters. */
  lemma ReferenceExtend(s: Text, t: Text)
    requires ReferenceLength(s) > 0
    ensures ReferenceLength(s + t) == ReferenceLength(s)
    ensures ReferenceText(s + t) == ReferenceText(s)
  {
    if s[1] == HASH {
      DigitRunExtend(s, t, NumericStart(s), NumericBase(s));
      var n := ReferenceLength(s);
      assert (s + t)[NumericStart(s)..n - 1] == s[NumericStart(s)..n - 1];
    }
  }

  lemma ReferenceTake(s: Text, n: nat)
    requires 0 < ReferenceLength(s) <= n <= |s|
    ensures ReferenceLength(s[..n]) == ReferenceLength(s)
    ensures ReferenceText(s[..n]) == ReferenceText(s)
  {
    if s[1] == HASH {
      DigitRunTake(s, NumericStart(s), NumericBase(s), n);
      var m := ReferenceLength(s);
      assert s[..n][NumericStart(s)..m - 1] == s[NumericStart(s)..m - 1];
    }
  }

  // ---------------------------------------------------------------------------------------
  // decodeXml
  // ---------------------------------------------------------------------------------------

  function DecodeXml(s: Text): Option<Text> {
    if s == [] then Some([])
    else if ReferenceLength(s) > 0 then Join(ReferenceText(s), DecodeXml(s[ReferenceLength(s)..]))
    else Join(Some([s[0]]), DecodeXml(s[1..]))
  }

  /** Some continuation of s would make its first unit start a reference. */
  ghost predicate CanBecomeReference(s: Text) {
    exists t: Text :: ReferenceLength(s + t) > 0
  }

  /** No ampersand of s is left open: each one starts a reference inside s, or cannot start one
      whatever is written after s. */
  ghost predicate Settled(s: Text) {
    if s == [] then true
    else if ReferenceLength(s) > 0 then Settled(s[ReferenceLength(s)..])
    else !CanBecomeReference(s) && Settled(s[1..])
  }

  /** Every ampersand starts a reference: the text is well formed in the sense of XML 1.0. */
  predicate WellFormed(s: Text) {
    if s == [] then true
    else if ReferenceLength(s) > 0 then WellFormed(s[ReferenceLength(s)..])
    else s[0] != AMP && WellFormed(s[1..])
  }

  lemma OnlyAmpersandBecomesReference(s: Text)
    requires s != [] && s[0] != AMP
    ensures !CanBecomeReference(s)
  {
    forall t: Text ensures ReferenceLength(s + t) == 0 {}
  }

  lemma StillNoReference(s: Text, t: Text)
    requires !CanBecomeReference(s)
    ensures ReferenceLength(s + t) == 0 && !CanBecomeReference(s + t)
  {
    forall w: Text ensures ReferenceLength((s + t) + w) == 0 {
      assert (s + t) + w == s + (t + w);
    }
  }

  lemma {:induction false} WellFormedSettled(s: Text)
    requires WellFormed(s)
    ensures Settled(s)
  {
    hide ReferenceLength, ReferenceText;
    if s != [] && ReferenceLength(s) > 0 {
      WellFormedSettled(s[ReferenceLength(s)..]);
    } else if s != [] {
      OnlyAmpersandBecomesReference(s);
      WellFormedSettled(s[1..]);
    }
  }

  /** Decoding is a homomorphism past settled text. */
  lemma {:induction false} DecodeConcat(s: Text, t: Text)
    requires Settled(s)
    ensures DecodeXml(s + t) == Join(DecodeXml(s), DecodeXml(t))
  {
    hide ReferenceLength, ReferenceText;
    if s == [] {
      assert s + t == t;
      assert DecodeXml(s) == Some([]);
      if DecodeXml(t).Some? {
        assert [] + DecodeXml(t).value == DecodeXml(t).value;
      }
    } else {
      var n := ReferenceLength(s);
      if n > 0 {
        ReferenceExtend(s, t);
        assert (s + t)[n..] == s[n..] + t;
        DecodeConcat(s[n..], t);
        JoinAssoc(ReferenceText(s), DecodeXml(s[n..]), DecodeXml(t));
      } else {
        StillNoReference(s, t);
        assert (s + t)[1..] == s[1..] + t;
        DecodeConcat(s[1..], t);
        JoinAssoc(Some([s[0]]), DecodeXml(s[1..]), DecodeXml(t));
      }
    }
  }

  lemma {:induction false} SettledConcat(s: Text, t: Text)
    requires Settled(s) && Settled(t)
    ensures Settled(s + t)
  {
    hide ReferenceLength, ReferenceText;
    if s == [] {
      assert s + t == t;
    } else {
      var n := ReferenceLength(s);
      if n > 0 {
        ReferenceExtend(s, t);
        assert (s + t)[n..] == s[n..] + t;
        SettledConcat(s[n..], t);
      } else {
        StillNoReference(s, t);
        assert (s + t)[1..] == s[1..] + t;
        SettledConcat(s[1..], t);
      }
    }
  }

  lemma EmptyDecodes()
    ensures DecodeXml([]) == Some([]) && Settled([]) && WellFormed([])
  {
  }

  lemma WholeReferenceDecodes(e: Text)
    requires e != [] && ReferenceLength(e) == |e|
    ensures WellFormed(e) && DecodeXml(e) == ReferenceText(e)
  {
    hide ReferenceLength, ReferenceText;
    assert e[|e|..] == [];
    EmptyDecodes();
    if ReferenceText(e).Some? {
      assert ReferenceText(e).value + [] == ReferenceText(e).value;
    }
  }

  lemma EscapeUnitDecodes(u: Unit)
    ensures WellFormed(EscapeUnit(u)) && DecodeXml(EscapeUnit(u)) == Some([u])
  {
    var e := EscapeUnit(u);
    if u == AMP || u == LT || u == GT || u == QUOT || u == APOS {
      hide DecodeXml, WellFormed;
      assert ReferenceLength(e) == |e| && ReferenceText(e) == Some([u]);
      WholeReferenceDecodes(e);
    } else {
      assert e[1..] == [];
      assert [u] + [] == [u];
      EmptyDecodes();
    }
  }

  /** decodeXml undoes escapeXml, and escaped text is settled, on every string. */
  lemma {:induction false} EscapeRoundTrip(s: Text)
    ensures DecodeXml(EscapeXml(s)) == Some(s) && Settled(EscapeXml(s))
  {
    hide EscapeXml, DecodeXml, Settled, WellFormed, EscapeUnit;
    if s == [] {
      EscapeXmlEmpty();
      EmptyDecodes();
    } else {
      EscapeXmlCons(s);
      EscapeRoundTrip(s[1..]);
      EscapeUnitDecodes(s[0]);
      WellFormedSettled(EscapeUnit(s[0]));
      DecodeConcat(EscapeUnit(s[0]), EscapeXml(s[1..]));
      SettledConcat(EscapeUnit(s[0]), EscapeXml(s[1..]));
      assert s == [s[0]] + s[1..];
    }
  }
}
