/**
 transformParagraph of src/local/docx-mutation.js: every found occurrence of the visible text is
 replaced in the raw paragraph, across text nodes, without touching anything else.
 */
module DocxTransform {
  import opened Wrappers
  import opened JsStrings
  import opened XmlText
  import opened TextOffsets
  import opened FindReplace
  import opened ParagraphText
  import opened NodeEdits

  const XML_SPACE_NAME: Text := [120, 109, 108, 58, 115, 112, 97, 99, 101]  // xml:space
  // ' xml:space="preserve">'
  const XML_SPACE_PRESERVE: Text :=
    [32, 120, 109, 108, 58, 115, 112, 97, 99, 101, 61, 34, 112, 114, 101, 115, 101, 114, 118, 101, 34, 62]
  const SELF_CLOSE: Text := [47, 62]  // />

  predicate IsWord(u: Unit) { 48 <= u <= 57 || 65 <= u <= 90 || u == 95 || 97 <= u <= 122 }

  /** Spaces, then an equals sign, from position i on. */
  predicate EqualsAfter(s: Text, i: nat)
    decreases |s| - i
  {
    i < |s| && (s[i] == 61 || (IsSpace(s[i]) && EqualsAfter(s, i + 1)))
  }

  predicate XmlSpaceAt(s: Text, i: nat) {
    i + |XML_SPACE_NAME| <= |s| && s[i..i + |XML_SPACE_NAME|] == XML_SPACE_NAME
    && (i == 0 || !IsWord(s[i - 1])) && EqualsAfter(s, i + |XML_SPACE_NAME|)
  }

  /** The pattern \bxml:space\s*= finds a match in s. */
  predicate HasXmlSpace(s: Text) {
    exists i :: 0 <= i < |s| && XmlSpaceAt(s, i)
  }

  /** s.replace(/>$/u, sub). */
  function ReplaceFinalGt(s: Text, sub: Text): Text {
    if s != [] && s[|s| - 1] == GT then s[..|s| - 1] + sub else s
  }

  function ShapeTextOpen(open: Text, text: Text): Text {
    if text != [] && (IsSpace(text[0]) || IsSpace(text[|text| - 1])) && !HasXmlSpace(open)
    then ReplaceFinalGt(open, XML_SPACE_PRESERVE)
    else open
  }

  function Units(s: Text): seq<Segment> {
    if s == [] then [] else [Other(s[0])] + Units(s[1..])
  }

  /** A text node after its edits; None when decoding the edited text throws. */
  function EditedNode(open: Text, encoded: Text): Option<seq<Segment>> {
    var text := DecodeXml(encoded);
    if text.None? then None
    else if text.value == [] then Some(Units(ReplaceFinalGt(open, SELF_CLOSE)))
    else Some([TextNode(ShapeTextOpen(open, text.value), encoded)])
  }

  function TransformSegment(seg: Segment, logicalStart: nat, occs: seq<Occurrence>,
                            replacement: Text): Option<seq<Segment>>
    requires seg.TextNode? ==> DecodeXml(seg.encoded).Some?
  {
    if seg.Other? || EditsOf(seg.encoded, logicalStart, occs, replacement) == [] then Some([seg])
    else EditedNode(seg.open, EditedEncoded(seg.encoded, logicalStart, occs, replacement))
  }

  function Width(seg: Segment): nat
    requires seg.TextNode? ==> DecodeXml(seg.encoded).Some?
  {
    if seg.Other? then 0 else |DecodeXml(seg.encoded).value|
  }

  /** The transformed paragraph, piece by piece. */
  function TransformAll(segs: seq<Segment>, logicalStart: nat, occs: seq<Occurrence>,
                        replacement: Text): Option<seq<Segment>>
    requires VisibleOf(segs).Some?
  {
    if segs == [] then Some([])
    else
      var first := TransformSegment(segs[0], logicalStart, occs, replacement);
      var rest := TransformAll(segs[1..], logicalStart + Width(segs[0]), occs, replacement);
      if first.None? || rest.None? then None else Some(first.value + rest.value)
  }

  // ---------------------------------------------------------------------------------------
  // What the transformed pieces show
  // ---------------------------------------------------------------------------------------

  /** In every text node, no ampersand is left open in front of an edit. */
  ghost predicate AllPiecesSettled(segs: seq<Segment>, logicalStart: nat, occs: seq<Occurrence>)
    requires VisibleOf(segs).Some?
  {
    segs != [] ==>
    && (segs[0].TextNode? ==> PiecesSettled(segs[0].encoded, EditsOf(segs[0].encoded, logicalStart, occs, [])))
    && AllPiecesSettled(segs[1..], logicalStart + Width(segs[0]), occs)
  }

  predicate AllWellFormed(segs: seq<Segment>) {
    forall k :: 0 <= k < |segs| && segs[k].TextNode? ==> WellFormed(segs[k].encoded)
  }

  /** The pieces show the text from lo to hi. */
  ghost predicate Shows(segs: seq<Segment>, text: Text, lo: nat, hi: nat) {
    lo <= hi <= |text| && VisibleOf(segs) == Some(text[lo..hi])
  }

  lemma ShowsStep(segs: seq<Segment>, text: Text, lo: nat, hi: nat)
    requires segs != [] && Shows(segs, text, lo, hi)
    ensures segs[0].TextNode? ==> DecodeXml(segs[0].encoded).Some?
    ensures VisibleOf(segs[1..]).Some?
    ensures lo + Width(segs[0]) <= hi
    ensures Shows(segs[1..], text, lo + Width(segs[0]), hi)
    ensures segs[0].TextNode? ==> DecodeXml(segs[0].encoded).value == text[lo..lo + Width(segs[0])]
  {
    hide DecodeXml;
    if segs[0].TextNode? {
      var first, rest := DecodeXml(segs[0].encoded).value, VisibleOf(segs[1..]).value;
      assert first + rest == text[lo..hi];
      PrefixOfSlice(first, rest, text, lo, hi);
    }
  }

  lemma PrefixOfSlice(first: Text, rest: Text, text: Text, lo: nat, hi: nat)
    requires lo <= hi <= |text| && first + rest == text[lo..hi]
    ensures lo + |first| <= hi && first == text[lo..lo + |first|] && rest == text[lo + |first|..hi]
  {
    assert |first + rest| == hi - lo;
    forall i | 0 <= i < |first| ensures first[i] == text[lo + i] {
      assert (first + rest)[i] == text[lo..hi][i];
    }
    forall i | 0 <= i < |rest| ensures rest[i] == text[lo + |first| + i] {
      assert (first + rest)[|first| + i] == text[lo..hi][|first| + i];
    }
  }

  lemma {:induction false} UnitsShowNothing(s: Text)
    ensures VisibleOf(Units(s)) == Some([]) && RenderAll(Units(s)) == s
  {
    if s != [] {
      UnitsShowNothing(s[1..]);
      assert Units(s)[1..] == Units(s[1..]);
      assert s == [s[0]] + s[1..];
    }
  }

  lemma EditedNodeShows(open: Text, encoded: Text)
    requires DecodeXml(encoded).Some?
    ensures EditedNode(open, encoded).Some?
    ensures VisibleOf(EditedNode(open, encoded).value) == DecodeXml(encoded)
  {
    hide DecodeXml, ShapeTextOpen;
    var text := DecodeXml(encoded).value;
    if text == [] {
      UnitsShowNothing(ReplaceFinalGt(open, SELF_CLOSE));
    } else {
      var node := TextNode(ShapeTextOpen(open, text), encoded);
      assert [node][1..] == [];
      JoinEmpty(text);
    }
  }

  lemma EditsIgnoreReplacement(encoded: Text, logicalStart: nat, occs: seq<Occurrence>, replacement: Text)
    requires DecodeXml(encoded).Some?
    ensures |EditsOf(encoded, logicalStart, occs, replacement)| == |EditsOf(encoded, logicalStart, occs, [])|
    ensures PiecesSettled(encoded, EditsOf(encoded, logicalStart, occs, []))
        ==> PiecesSettled(encoded, EditsOf(encoded, logicalStart, occs, replacement))
    ensures LastEnd(EditsOf(encoded, logicalStart, occs, replacement))
            == LastEnd(EditsOf(encoded, logicalStart, occs, []))
  {
    hide DecodeXml, RawOffset, EscapeXml, Settled;
    if occs != [] {
      var before := occs[..|occs| - 1];
      EditsIgnoreReplacement(encoded, logicalStart, before, replacement);
      var o := occs[|occs| - 1];
      var es, fs := EditsOf(encoded, logicalStart, occs, replacement), EditsOf(encoded, logicalStart, occs, []);
      if Touches(o, logicalStart, logicalStart + |DecodeXml(encoded).value|) {
        assert es[..|es| - 1] == EditsOf(encoded, logicalStart, before, replacement);
        assert fs[..|fs| - 1] == EditsOf(encoded, logicalStart, before, []);
      } else {
        assert es == EditsOf(encoded, logicalStart, before, replacement);
        assert fs == EditsOf(encoded, logicalStart, before, []);
      }
    }
  }

  lemma {:induction false} NoEditsUntouched(text: Text, encoded: Text, logicalStart: nat, occs: seq<Occurrence>,
                                            replacement: Text)
    requires NodeIn(text, encoded, logicalStart, occs)
    requires EditsOf(encoded, logicalStart, occs, replacement) == []
    ensures Edited(text, occs, replacement, logicalStart, logicalStart + |DecodeXml(encoded).value|)
         == DecodeXml(encoded).value
  {
    hide DecodeXml, RawOffset, EscapeXml, Edited, SplitsPair;
    var end := logicalStart + |DecodeXml(encoded).value|;
    if occs == [] {
      EditedUntouched(text, occs, replacement, logicalStart, end);
    } else {
      NodeInPrefix(text, encoded, logicalStart, occs);
      NoEditsUntouched(text, encoded, logicalStart, occs[..|occs| - 1], replacement);
      EditedSkips(text, occs, replacement, logicalStart, end, end);
    }
  }

  lemma SegmentMeaning(text: Text, seg: Segment, logicalStart: nat, occs: seq<Occurrence>, replacement: Text)
    requires seg.TextNode? && NodeIn(text, seg.encoded, logicalStart, occs)
    requires PiecesSettled(seg.encoded, EditsOf(seg.encoded, logicalStart, occs, []))
    ensures TransformSegment(seg, logicalStart, occs, replacement).Some?
    ensures VisibleOf(TransformSegment(seg, logicalStart, occs, replacement).value)
         == Some(Edited(text, occs, replacement, logicalStart, logicalStart + Width(seg)))
  {
    hide DecodeXml, RawOffset, EscapeXml, Edited, SplitsPair, Settled, PiecesSettled, EditsOf, EditedEncoded,
         EditedNode;
    EditsIgnoreReplacement(seg.encoded, logicalStart, occs, replacement);
    if EditsOf(seg.encoded, logicalStart, occs, replacement) == [] {
      NoEditsUntouched(text, seg.encoded, logicalStart, occs, replacement);
      assert [seg][1..] == [];
      JoinEmpty(DecodeXml(seg.encoded).value);
    } else {
      NodeMeaning(text, seg.encoded, logicalStart, occs, replacement);
      EditedNodeShows(seg.open, EditedEncoded(seg.encoded, logicalStart, occs, replacement));
    }
  }

  /** The transformed pieces show the edited text, however the occurrences lie over the nodes. */
  lemma {:induction false} TransformMeaning(text: Text, segs: seq<Segment>, lo: nat, hi: nat,
                                            occs: seq<Occurrence>, replacement: Text)
    requires Shows(segs, text, lo, hi)
    requires Ordered(occs, 0, |text|) && Aligned(text, occs)
    requires AllPiecesSettled(segs, lo, occs)
    ensures TransformAll(segs, lo, occs, replacement).Some?
    ensures VisibleOf(TransformAll(segs, lo, occs, replacement).value) == Some(Edited(text, occs, replacement, lo, hi))
  {
    hide DecodeXml, Edited, PiecesSettled, EditsOf, TransformSegment, SplitsPair;
    if segs == [] {
      EditedEmpty(text, occs, replacement, lo);
      assert |text[lo..hi]| == hi - lo;
    } else {
      ShowsStep(segs, text, lo, hi);
      var mid := lo + Width(segs[0]);
      TransformMeaning(text, segs[1..], mid, hi, occs, replacement);
      EditedSplit(text, occs, replacement, lo, mid, hi);
      if segs[0].TextNode? {
        SegmentMeaning(text, segs[0], lo, occs, replacement);
      } else {
        OtherMeaning(text, segs[0], lo, occs, replacement);
      }
      VisibleConcat(TransformSegment(segs[0], lo, occs, replacement).value,
                    TransformAll(segs[1..], mid, occs, replacement).value);
    }
  }

  lemma OtherMeaning(text: Text, seg: Segment, logicalStart: nat, occs: seq<Occurrence>, replacement: Text)
    requires seg.Other? && logicalStart <= |text|
    ensures TransformSegment(seg, logicalStart, occs, replacement) == Some([seg])
    ensures VisibleOf([seg]) == Some(Edited(text, occs, replacement, logicalStart, logicalStart))
  {
    hide Edited;
    EditedEmpty(text, occs, replacement, logicalStart);
    assert [seg][1..] == [];
  }
}
