/**
 When visible-text replacement is exact: not only does it hold on editable paragraphs, it fails for
 some replacement on every other one.
 */
module DocxExactness {
  import opened Wrappers
  import opened JsStrings
  import opened XmlText
  import opened TextOffsets
  import opened FindReplace
  import opened ParagraphText
  import opened NodeEdits
  import opened DocxTransform
  import opened DocxReadback
  import opened DocxEdit

  /** The decoded text is at most n units long, or decoding throws. */
  predicate AtMost(d: Option<Text>, n: nat) { d.Some? ==> |d.value| <= n }

  predicate Below(d: Option<Text>, n: nat) { d.Some? ==> |d.value| < n }

  lemma {:induction false} PlainDecodes(s: Text, t: Text)
    requires AMP !in s
    ensures DecodeXml(s + t) == Join(Some(s), DecodeXml(t))
  {
    hide DecodeXml;
    PlainSettled(s);
    DecodeConcat(s, t);
  }

  lemma {:induction false} PlainSettled(s: Text)
    requires AMP !in s
    ensures Settled(s) && DecodeXml(s) == Some(s)
  {
    if s != [] {
      PlainSettled(s[1..]);
      OnlyAmpersandBecomesReference(s);
      assert [s[0]] + s[1..] == s;
    }
  }

  /** Behind its ampersand a reference holds none of the units that escaping changes. */
  lemma ReferenceBodyPlain(s: Text, k: nat)
    requires 0 < k < ReferenceLength(s)
    ensures EscapeUnit(s[k]) == [s[k]]
  {
    hide ReferenceText;
    var n := ReferenceLength(s);
    if s[1] == HASH {
      assert 2 <= k < n - 1 && k >= NumericStart(s) ==> IsDigit(s[k], NumericBase(s));
    }
  }

  lemma DecodeChunk(s: Text)
    requires s != []
    ensures ReferenceLength(s) > 0 ==> DecodeXml(s) == Join(ReferenceText(s), DecodeXml(s[ReferenceLength(s)..]))
    ensures ReferenceLength(s) == 0 ==> DecodeXml(s) == Join(Some([s[0]]), DecodeXml(s[1..]))
  {
  }

  /** Text in front that ends in the middle of what becomes a reference. */
  lemma FusedDecode(s: Text, t: Text, m: nat)
    requires s != [] && ReferenceLength(s) == 0 && ReferenceLength(s + t) == m > 0
    ensures |s| < m <= |s| + |t|
    ensures DecodeXml(s) == Some(s)
    ensures DecodeXml(s + t) == Join(ReferenceText(s + t), DecodeXml(t[m - |s|..]))
    ensures DecodeXml(t) == Join(Some(t[..m - |s|]), DecodeXml(t[m - |s|..]))
    ensures forall k :: 0 <= k < m - |s| ==> EscapeUnit(t[k]) == [t[k]]
  {
    hide ReferenceLength, ReferenceText, DecodeXml;
    assert (s + t)[..|s|] == s;
    if m <= |s| {
      ReferenceTake(s + t, |s|);
    }
    forall k | 0 < k < m ensures EscapeUnit((s + t)[k]) == [(s + t)[k]] {
      ReferenceBodyPlain(s + t, k);
    }
    forall k | 0 <= k < m - |s| ensures EscapeUnit(t[k]) == [t[k]] {
      assert t[k] == (s + t)[|s| + k];
    }
    var body := t[..m - |s|];
    PlainDecodes(body, t[m - |s|..]);
    assert body + t[m - |s|..] == t;
    DecodeChunk(s + t);
    assert (s + t)[m..] == t[m - |s|..];
    DecodeChunk(s);
    forall k | 0 <= k < |s[1..]| ensures EscapeUnit(s[1..][k]) == [s[1..][k]] {
      assert s[1..][k] == (s + t)[k + 1];
    }
    PlainSettled(s[1..]);
    assert [s[0]] + s[1..] == s;
  }

  /** Decoding two texts in one go never shows more than decoding them one by one. */
  lemma {:induction false} DecodeSubadditive(s: Text, t: Text, n: nat, m: nat)
    requires AtMost(DecodeXml(s), n) && AtMost(DecodeXml(t), m)
    requires DecodeXml(s).Some?
    ensures AtMost(DecodeXml(s + t), n + m)
    ensures Below(DecodeXml(t), m) ==> Below(DecodeXml(s + t), n + m)
    decreases |s|
  {
    hide ReferenceLength, ReferenceText, DecodeXml;
    if s == [] {
      assert s + t == t;
    } else {
      DecodeChunk(s);
      DecodeChunk(s + t);
      var k := ReferenceLength(s);
      if k > 0 {
        ReferenceExtend(s, t);
        assert (s + t)[k..] == s[k..] + t;
        DecodeSubadditive(s[k..], t, |DecodeXml(s[k..]).value|, m);
      } else if ReferenceLength(s + t) == 0 {
        assert (s + t)[1..] == s[1..] + t;
        DecodeSubadditive(s[1..], t, |DecodeXml(s[1..]).value|, m);
      } else {
        FusedDecode(s, t, ReferenceLength(s + t));
      }
    }
  }

  /** Whatever follows the completion, text that left an ampersand open loses units. */
  ghost predicate Breaks(piece: Text, completion: Text) {
    && DecodeXml(piece).Some?
    && EscapeXml(completion) == completion
    && forall w: Text {:trigger completion + w} ::
         DecodeXml(completion + w).Some? ==>
           Below(DecodeXml(piece + (completion + w)), |DecodeXml(piece).value| + |DecodeXml(completion + w).value|)
  }

  /** Every unsettled text has a completion that breaks it. */
  lemma {:induction false} UnsettledBreaks(s: Text) returns (completion: Text)
    requires !Settled(s) && DecodeXml(s).Some?
    ensures Breaks(s, completion)
    decreases |s|
  {
    hide ReferenceLength, ReferenceText, DecodeXml, EscapeXml;
    DecodeChunk(s);
    var n := ReferenceLength(s);
    if n > 0 {
      completion := UnsettledBreaks(s[n..]);
      forall w: Text | DecodeXml(completion + w).Some?
        ensures Below(DecodeXml(s + (completion + w)), |DecodeXml(s).value| + |DecodeXml(completion + w).value|)
      {
        var t := completion + w;
        ReferenceExtend(s, t);
        DecodeChunk(s + t);
        assert (s + t)[n..] == s[n..] + t;
      }
    } else if CanBecomeReference(s) {
      var t: Text :| ReferenceLength(s + t) > 0;
      var m := ReferenceLength(s + t);
      FusedDecode(s, t, m);
      completion := t[..m - |s|];
      EscapeXmlPlain(completion);
      ReferenceTake(s + t, m);
      assert (s + t)[..m] == s + completion;
      forall w: Text | DecodeXml(completion + w).Some?
        ensures Below(DecodeXml(s + (completion + w)), |DecodeXml(s).value| + |DecodeXml(completion + w).value|)
      {
        ReferenceExtend(s + completion, w);
        assert s + (completion + w) == s + completion + w;
        FusedDecode(s, completion + w, m);
      }
    } else {
      completion := UnsettledBreaks(s[1..]);
      forall w: Text | DecodeXml(completion + w).Some?
        ensures Below(DecodeXml(s + (completion + w)), |DecodeXml(s).value| + |DecodeXml(completion + w).value|)
      {
        var t := completion + w;
        StillNoReference(s, t);
        DecodeChunk(s + t);
        assert (s + t)[1..] == s[1..] + t;
      }
    }
  }

  /** In front of some edit the raw text breaks on the completion. */
  ghost predicate PieceBreaks(encoded: Text, es: seq<Edit>, completion: Text) {
    es != [] &&
    var before := es[..|es| - 1];
    || PieceBreaks(encoded, before, completion)
    || (LastEnd(before) <= es[|es| - 1].rawStart <= |encoded|
        && Breaks(encoded[LastEnd(before)..es[|es| - 1].rawStart], completion))
  }

  lemma BreaksNonEmpty(completion: Text)
    ensures !Breaks([], completion)
  {
    EscapeRoundTrip(completion);
    var none: Text := [];
    assert completion + none == completion && none + (completion + none) == completion;
  }

  /** A raw stretch followed by a tail: at most as many units as both alone, and fewer if the tail
      already lost some or the stretch breaks on the start of the tail. */
  lemma StretchAtMost(encoded: Text, a: nat, b: nat, tail: Text, x: nat, completion: Text)
    requires DecodeXml(encoded).Some? && a <= b <= |DecodeXml(encoded).value|
    requires !SplitsPair(DecodeXml(encoded).value, a) && !SplitsPair(DecodeXml(encoded).value, b)
    requires AtMost(DecodeXml(tail), x)
    ensures RawOffset(encoded, a) <= RawOffset(encoded, b)
    ensures AtMost(DecodeXml(encoded[RawOffset(encoded, a)..RawOffset(encoded, b)] + tail), b - a + x)
    ensures Below(DecodeXml(tail), x)
            || (completion <= tail && Breaks(encoded[RawOffset(encoded, a)..RawOffset(encoded, b)], completion))
        ==> Below(DecodeXml(encoded[RawOffset(encoded, a)..RawOffset(encoded, b)] + tail), b - a + x)
  {
    hide DecodeXml, RawOffset, SplitsPair, EscapeXml;
    SliceDecodes(encoded, a, b);
    var piece := encoded[RawOffset(encoded, a)..RawOffset(encoded, b)];
    DecodeSubadditive(piece, tail, b - a, x);
    if completion <= tail && Breaks(piece, completion) {
      var w := tail[|completion|..];
      assert tail == completion + w;
    }
  }

  lemma InsertAtMost(o: Occurrence, logicalStart: nat, replacement: Text, rest: Text, x: nat)
    requires AtMost(DecodeXml(rest), x)
    ensures AtMost(DecodeXml(Inserted(o, logicalStart, replacement) + rest), |Gained(o, logicalStart, replacement)| + x)
    ensures Below(DecodeXml(rest), x) ==>
              Below(DecodeXml(Inserted(o, logicalStart, replacement) + rest),
                    |Gained(o, logicalStart, replacement)| + x)
  {
    hide DecodeXml, EscapeXml;
    if logicalStart <= o.start {
      EscapeRoundTrip(replacement);
      DecodeSubadditive(EscapeXml(replacement), rest, |replacement|, x);
    } else {
      assert [] + rest == rest;
    }
  }

  /** Some units are lost: in the finished tail, in front of an edit still to come, or between the
      last of those and the tail. */
  ghost predicate LossAhead(encoded: Text, es: seq<Edit>, replacement: Text, k: nat, tail: Text, x: nat)
    requires DecodeXml(encoded).Some? && k <= |DecodeXml(encoded).value|
    requires RawOffset(encoded, k) <= |encoded|
  {
    || Below(DecodeXml(tail), x)
    || PieceBreaks(encoded, es, replacement)
    || (replacement <= tail && LastEnd(es) <= RawOffset(encoded, k)
        && Breaks(encoded[LastEnd(es)..RawOffset(encoded, k)], replacement))
  }

  /** The length side of SpliceMeaning, for raw text of any kind. */
  lemma {:induction false} SpliceAtMost(text: Text, encoded: Text, logicalStart: nat, occs: seq<Occurrence>,
                                        replacement: Text, k: nat, tail: Text, x: nat)
    requires NodeIn(text, encoded, logicalStart, occs)
    requires k <= |DecodeXml(encoded).value| && !SplitsPair(DecodeXml(encoded).value, k)
    requires forall j :: 0 <= j < |occs| ==>
               Clamp(occs[j].end, logicalStart, logicalStart + |DecodeXml(encoded).value|) <= logicalStart + k
    requires AtMost(DecodeXml(tail), x)
    ensures AtMost(DecodeXml(ApplyBackward(encoded[..RawOffset(encoded, k)] + tail,
                                           EditsOf(encoded, logicalStart, occs, replacement))),
                   |Edited(text, occs, replacement, logicalStart, logicalStart + k)| + x)
    ensures LossAhead(encoded, EditsOf(encoded, logicalStart, occs, replacement), replacement, k, tail, x)
        ==> Below(DecodeXml(ApplyBackward(encoded[..RawOffset(encoded, k)] + tail,
                                          EditsOf(encoded, logicalStart, occs, replacement))),
                  |Edited(text, occs, replacement, logicalStart, logicalStart + k)| + x)
    decreases |occs|
  {
    hide DecodeXml, RawOffset, EscapeXml, SplitsPair, Breaks, Edited, Splice, ApplyBackward, AtMost, Below, LossAhead;
    var end := logicalStart + |DecodeXml(encoded).value|;
    if occs == [] {
      assert EditsOf(encoded, logicalStart, occs, replacement) == [];
      SpliceAtMostBase(text, encoded, logicalStart, replacement, k, tail, x);
    } else {
      var o, before := occs[|occs| - 1], occs[..|occs| - 1];
      NodeInPrefix(text, encoded, logicalStart, occs);
      if Touches(o, logicalStart, end) {
        var a, b := Clamp(o.start, logicalStart, end) - logicalStart, Clamp(o.end, logicalStart, end) - logicalStart;
        TouchCuts(text, encoded, logicalStart, occs, a, b);
        var newTail := SpliceStepAtMost(text, encoded, logicalStart, occs, replacement, k, tail, x, a, b);
        var y := |Gained(o, logicalStart, replacement)| + (k - b) + x;
        SpliceAtMost(text, encoded, logicalStart, before, replacement, a, newTail, y);
        EditedTouches(text, occs, replacement, logicalStart, logicalStart + k, end, logicalStart + a, logicalStart + b);
        assert |Edited(text, before, replacement, logicalStart, logicalStart + a)| + y
            == |Edited(text, occs, replacement, logicalStart, logicalStart + k)| + x;
      } else {
        assert EditsOf(encoded, logicalStart, occs, replacement)
            == EditsOf(encoded, logicalStart, before, replacement);
        SpliceAtMost(text, encoded, logicalStart, before, replacement, k, tail, x);
        EditedSkips(text, occs, replacement, logicalStart, logicalStart + k, end);
      }
    }
  }

  lemma SpliceAtMostBase(text: Text, encoded: Text, logicalStart: nat, replacement: Text, k: nat, tail: Text, x: nat)
    requires NodeIn(text, encoded, logicalStart, [])
    requires k <= |DecodeXml(encoded).value| && !SplitsPair(DecodeXml(encoded).value, k)
    requires AtMost(DecodeXml(tail), x)
    ensures AtMost(DecodeXml(ApplyBackward(encoded[..RawOffset(encoded, k)] + tail, [])),
                   |Edited(text, [], replacement, logicalStart, logicalStart + k)| + x)
    ensures LossAhead(encoded, [], replacement, k, tail, x)
        ==> Below(DecodeXml(ApplyBackward(encoded[..RawOffset(encoded, k)] + tail, [])),
                  |Edited(text, [], replacement, logicalStart, logicalStart + k)| + x)
  {
    hide DecodeXml, RawOffset, SplitsPair, Breaks, AtMost, Below;
    FirstOffset(encoded);
    CutAtStart(DecodeXml(encoded).value);
    assert encoded[0..RawOffset(encoded, k)] == encoded[..RawOffset(encoded, k)];
    StretchAtMost(encoded, 0, k, tail, x, replacement);
  }

  lemma SpliceStepAtMost(text: Text, encoded: Text, logicalStart: nat, occs: seq<Occurrence>,
                         replacement: Text, k: nat, tail: Text, x: nat, a: nat, b: nat) returns (newTail: Text)
    requires NodeIn(text, encoded, logicalStart, occs) && occs != []
    requires LocalBounds(encoded, logicalStart, occs[|occs| - 1], a, b)
    requires a <= b <= k <= |DecodeXml(encoded).value|
    requires !SplitsPair(DecodeXml(encoded).value, k)
    requires AtMost(DecodeXml(tail), x)
    ensures ApplyBackward(encoded[..RawOffset(encoded, k)] + tail, EditsOf(encoded, logicalStart, occs, replacement))
         == ApplyBackward(encoded[..RawOffset(encoded, a)] + newTail,
                          EditsOf(encoded, logicalStart, occs[..|occs| - 1], replacement))
    ensures AtMost(DecodeXml(newTail), |Gained(occs[|occs| - 1], logicalStart, replacement)| + (k - b) + x)
    ensures LossAhead(encoded, EditsOf(encoded, logicalStart, occs, replacement), replacement, k, tail, x) ==>
              LossAhead(encoded, EditsOf(encoded, logicalStart, occs[..|occs| - 1], replacement), replacement, a,
                        newTail,
                        |Gained(occs[|occs| - 1], logicalStart, replacement)| + (k - b) + x)
  {
    hide DecodeXml, RawOffset, EscapeXml, SplitsPair, Splice, EditsOf, AtMost, Below;
    var o := occs[|occs| - 1];
    TouchCuts(text, encoded, logicalStart, occs, a, b);
    EditsTouch(encoded, logicalStart, occs, replacement, a, b);
    var before := EditsOf(encoded, logicalStart, occs[..|occs| - 1], replacement);
    var e := Edit(RawOffset(encoded, a), RawOffset(encoded, b), Inserted(o, logicalStart, replacement));
    assert (before + [e])[..|before|] == before;
    OffsetsMonotone(encoded, a, b);
    OffsetsMonotone(encoded, b, k);
    var rest := encoded[RawOffset(encoded, b)..RawOffset(encoded, k)] + tail;
    newTail := e.insert + rest;
    SpliceAt(encoded, e, RawOffset(encoded, k), tail);
    StretchAtMost(encoded, b, k, tail, x, replacement);
    InsertAtMost(o, logicalStart, replacement, rest, k - b + x);
    BreaksNonEmpty(replacement);
    if logicalStart > o.start {
      FirstOffset(encoded);
    }
  }

  /** An edited node shows at most the edited text, and less if some piece breaks. */
  lemma NodeAtMost(text: Text, encoded: Text, logicalStart: nat, occs: seq<Occurrence>, replacement: Text)
    requires NodeIn(text, encoded, logicalStart, occs)
    ensures var n := |Edited(text, occs, replacement, logicalStart, logicalStart + |DecodeXml(encoded).value|)|;
            && AtMost(DecodeXml(EditedEncoded(encoded, logicalStart, occs, replacement)), n)
            && (PieceBreaks(encoded, EditsOf(encoded, logicalStart, occs, replacement), replacement) ==>
                  Below(DecodeXml(EditedEncoded(encoded, logicalStart, occs, replacement)), n))
  {
    hide DecodeXml, RawOffset, EscapeXml, SplitsPair, Edited, PieceBreaks, Breaks, EditsOf, SortDescending,
         ApplyInOrder, ApplyBackward, Ordered, Aligned, Ascending;
    var k := |DecodeXml(encoded).value|;
    EditsAscend(text, encoded, logicalStart, occs, replacement);
    SortedIsBackward(encoded, EditsOf(encoded, logicalStart, occs, replacement));
    CutAtStart(DecodeXml(encoded).value);
    LastOffset(encoded);
    EmptyDecodes();
    SpliceAtMost(text, encoded, logicalStart, occs, replacement, k, [], 0);
    assert encoded[..|encoded|] + [] == encoded;
  }

  lemma {:induction false} BreaksIgnoreReplacement(encoded: Text, logicalStart: nat, occs: seq<Occurrence>,
                                                   replacement: Text, completion: Text)
    requires DecodeXml(encoded).Some?
    ensures PieceBreaks(encoded, EditsOf(encoded, logicalStart, occs, []), completion)
        ==> PieceBreaks(encoded, EditsOf(encoded, logicalStart, occs, replacement), completion)
  {
    hide DecodeXml, RawOffset, EscapeXml, Breaks;
    if occs != [] {
      var before, o := occs[..|occs| - 1], occs[|occs| - 1];
      BreaksIgnoreReplacement(encoded, logicalStart, before, replacement, completion);
      EditsIgnoreReplacement(encoded, logicalStart, before, replacement);
      var es, fs := EditsOf(encoded, logicalStart, occs, replacement), EditsOf(encoded, logicalStart, occs, []);
      if Touches(o, logicalStart, logicalStart + |DecodeXml(encoded).value|) {
        assert es[..|es| - 1] == EditsOf(encoded, logicalStart, before, replacement);
        assert fs[..|fs| - 1] == EditsOf(encoded, logicalStart, before, []);
      } else {
        assert es == EditsOf(encoded, logicalStart, before, replacement);
        assert fs == EditsOf(encoded, logicalStart, before, []);
      }
    }
  }

  lemma SegmentAtMost(text: Text, seg: Segment, logicalStart: nat, occs: seq<Occurrence>, replacement: Text)
    requires seg.TextNode? && NodeIn(text, seg.encoded, logicalStart, occs)
    ensures var now := TransformSegment(seg, logicalStart, occs, replacement);
            now.Some? ==>
              && VisibleOf(now.value).Some?
              && |VisibleOf(now.value).value| <= |Edited(text, occs, replacement, logicalStart,
                                                         logicalStart + Width(seg))|
              && (PieceBreaks(seg.encoded, EditsOf(seg.encoded, logicalStart, occs, []), replacement) ==>
                    |VisibleOf(now.value).value| < |Edited(text, occs, replacement, logicalStart,
                                                           logicalStart + Width(seg))|)
  {
    hide DecodeXml, RawOffset, EscapeXml, Edited, SplitsPair, EditsOf, EditedEncoded, Breaks;
    EditsIgnoreReplacement(seg.encoded, logicalStart, occs, replacement);
    if EditsOf(seg.encoded, logicalStart, occs, replacement) == [] {
      NoEditsUntouched(text, seg.encoded, logicalStart, occs, replacement);
      assert [seg][1..] == [];
      JoinEmpty(DecodeXml(seg.encoded).value);
    } else {
      NodeAtMost(text, seg.encoded, logicalStart, occs, replacement);
      BreaksIgnoreReplacement(seg.encoded, logicalStart, occs, replacement, replacement);
      if DecodeXml(EditedEncoded(seg.encoded, logicalStart, occs, replacement)).Some? {
        EditedNodeShows(seg.open, EditedEncoded(seg.encoded, logicalStart, occs, replacement));
      }
    }
  }

  ghost predicate AnyPieceBreaks(segs: seq<Segment>, logicalStart: nat, occs: seq<Occurrence>, completion: Text)
    requires VisibleOf(segs).Some?
  {
    segs != [] &&
    (|| (segs[0].TextNode? && PieceBreaks(segs[0].encoded, EditsOf(segs[0].encoded, logicalStart, occs, []),
                                          completion))
     || AnyPieceBreaks(segs[1..], logicalStart + Width(segs[0]), occs, completion))
  }

  lemma {:induction false} TransformAtMost(text: Text, segs: seq<Segment>, lo: nat, hi: nat,
                                           occs: seq<Occurrence>, replacement: Text)
    requires Shows(segs, text, lo, hi) && Ordered(occs, 0, |text|) && Aligned(text, occs)
    ensures var now := TransformAll(segs, lo, occs, replacement);
            now.Some? ==>
              && VisibleOf(now.value).Some?
              && |VisibleOf(now.value).value| <= |Edited(text, occs, replacement, lo, hi)|
              && (AnyPieceBreaks(segs, lo, occs, replacement) ==>
                    |VisibleOf(now.value).value| < |Edited(text, occs, replacement, lo, hi)|)
  {
    hide DecodeXml, Edited, PieceBreaks, EditsOf, TransformSegment, SplitsPair;
    if segs == [] {
      EditedEmpty(text, occs, replacement, lo);
    } else {
      ShowsStep(segs, text, lo, hi);
      var mid := lo + Width(segs[0]);
      TransformAtMost(text, segs[1..], mid, hi, occs, replacement);
      EditedSplit(text, occs, replacement, lo, mid, hi);
      if segs[0].TextNode? {
        SegmentAtMost(text, segs[0], lo, occs, replacement);
      } else {
        OtherMeaning(text, segs[0], lo, occs, replacement);
      }
      if TransformAll(segs, lo, occs, replacement).Some? {
        VisibleConcat(TransformSegment(segs[0], lo, occs, replacement).value,
                      TransformAll(segs[1..], mid, occs, replacement).value);
      }
    }
  }

  /** A piece in front of an edit that is not settled breaks on some completion. */
  lemma {:induction false} UnsettledPieceBreaks(text: Text, encoded: Text, logicalStart: nat, occs: seq<Occurrence>)
    returns (completion: Text)
    requires NodeIn(text, encoded, logicalStart, occs)
    requires !PiecesSettled(encoded, EditsOf(encoded, logicalStart, occs, []))
    ensures PieceBreaks(encoded, EditsOf(encoded, logicalStart, occs, []), completion)
  {
    hide DecodeXml, RawOffset, EscapeXml, SplitsPair, Settled, Breaks;
    if occs == [] {
      completion := [];
    } else {
      var before, o, end := occs[..|occs| - 1], occs[|occs| - 1], logicalStart + |DecodeXml(encoded).value|;
      NodeInPrefix(text, encoded, logicalStart, occs);
      var es, fs := EditsOf(encoded, logicalStart, occs, []), EditsOf(encoded, logicalStart, before, []);
      assert if Touches(o, logicalStart, end) then es[..|es| - 1] == fs else es == fs;
      if !PiecesSettled(encoded, fs) {
        completion := UnsettledPieceBreaks(text, encoded, logicalStart, before);
      } else if !Touches(o, logicalStart, end) {
        completion := [];
      } else {
        var a, b := Clamp(o.start, logicalStart, end) - logicalStart, Clamp(o.end, logicalStart, end) - logicalStart;
        TouchCuts(text, encoded, logicalStart, occs, a, b);
        EditsTouch(encoded, logicalStart, occs, [], a, b);
        LastEndCut(text, encoded, logicalStart, before, a);
        var c :| 0 <= c <= a && !SplitsPair(DecodeXml(encoded).value, c) && LastEnd(fs) == RawOffset(encoded, c);
        SliceDecodes(encoded, c, a);
        completion := UnsettledBreaks(encoded[LastEnd(fs)..RawOffset(encoded, a)]);
      }
    }
  }

  /** The last edit ends at a cut. */
  lemma {:induction false} LastEndCut(text: Text, encoded: Text, logicalStart: nat, occs: seq<Occurrence>, a: nat)
    requires NodeIn(text, encoded, logicalStart, occs) && a <= |DecodeXml(encoded).value|
    requires forall k :: 0 <= k < |occs| ==>
               Clamp(occs[k].end, logicalStart, logicalStart + |DecodeXml(encoded).value|) <= logicalStart + a
    ensures exists c :: 0 <= c <= a && !SplitsPair(DecodeXml(encoded).value, c)
                     && LastEnd(EditsOf(encoded, logicalStart, occs, [])) == RawOffset(encoded, c)
  {
    hide DecodeXml, RawOffset, EscapeXml, SplitsPair;
    if occs == [] {
      FirstOffset(encoded);
      CutAtStart(DecodeXml(encoded).value);
    } else {
      var before, o, end := occs[..|occs| - 1], occs[|occs| - 1], logicalStart + |DecodeXml(encoded).value|;
      NodeInPrefix(text, encoded, logicalStart, occs);
      if Touches(o, logicalStart, end) {
        var a1, b1 := Clamp(o.start, logicalStart, end) - logicalStart, Clamp(o.end, logicalStart, end) - logicalStart;
        TouchCuts(text, encoded, logicalStart, occs, a1, b1);
        EditsTouch(encoded, logicalStart, occs, [], a1, b1);
      } else {
        LastEndCut(text, encoded, logicalStart, before, a);
        assert EditsOf(encoded, logicalStart, occs, []) == EditsOf(encoded, logicalStart, before, []);
      }
    }
  }

  lemma {:induction false} UnsettledSegmentsBreak(text: Text, segs: seq<Segment>, lo: nat, hi: nat,
                                                  occs: seq<Occurrence>)
    returns (completion: Text)
    requires Shows(segs, text, lo, hi) && Ordered(occs, 0, |text|) && Aligned(text, occs)
    requires !AllPiecesSettled(segs, lo, occs)
    ensures AnyPieceBreaks(segs, lo, occs, completion)
  {
    hide DecodeXml, PiecesSettled, PieceBreaks, EditsOf, SplitsPair;
    ShowsStep(segs, text, lo, hi);
    if segs[0].TextNode? && !PiecesSettled(segs[0].encoded, EditsOf(segs[0].encoded, lo, occs, [])) {
      completion := UnsettledPieceBreaks(text, segs[0].encoded, lo, occs);
    } else {
      completion := UnsettledSegmentsBreak(text, segs[1..], lo + Width(segs[0]), hi, occs);
    }
  }

  /** The edited raw paragraph reads back as the edited visible text. */
  ghost predicate ReadsBackExactly(raw: Text, find: Text, replacement: Text)
    requires find != [] && VisibleText(raw).Some?
  {
    && EditedRaw(raw, find, replacement).Some?
    && VisibleText(EditedRaw(raw, find, replacement).value)
       == Some(ReplacedFrom(VisibleText(raw).value, find, replacement, 0))
  }

  /** On a paragraph whose nodes close cleanly, replacement is exact for every replacement text if
      and only if no ampersand is left open in front of an edit. */
  lemma ExactIffEditable(raw: Text, find: Text)
    requires WholeCharacters(find) && VisibleText(raw).Some? && NothingDangling(Scan(raw))
    ensures Editable(raw, find) <==> forall replacement: Text :: ReadsBackExactly(raw, find, replacement)
  {
    hide Scan, VisibleOf, TransformAll, AllPiecesSettled, AnyPieceBreaks, NothingDangling, Edited, Occurrences;
    if Editable(raw, find) {
      forall replacement: Text ensures ReadsBackExactly(raw, find, replacement) {
        EditMeansReplace(raw, find, replacement);
      }
    } else {
      var text := VisibleText(raw).value;
      var occs := Occurrences(text, find, 0);
      WholeCharactersAlign(text, find);
      assert text[0..|text|] == text;
      var replacement := UnsettledSegmentsBreak(text, Scan(raw), 0, |text|, occs);
      TransformAtMost(text, Scan(raw), 0, |text|, occs, replacement);
      if TransformAll(Scan(raw), 0, occs, replacement).Some? {
        TransformReadsBack(raw, occs, replacement);
      }
      assert !ReadsBackExactly(raw, find, replacement);
    }
  }

  // ---------------------------------------------------------------------------------------
  // Searches that split a surrogate pair
  // ---------------------------------------------------------------------------------------

  const PLAIN_OPEN: Text := [60, 119, 58, 116, 62]  // <w:t>

  /** A paragraph of one text node. */
  lemma OneNode(encoded: Text)
    requires LT !in encoded && WellFormed(encoded) && DecodeXml(encoded).Some?
    ensures var raw := PLAIN_OPEN + encoded + NODE_CLOSE;
            && Scan(raw) == [TextNode(PLAIN_OPEN, encoded)]
            && VisibleText(raw) == DecodeXml(encoded)
            && NothingDangling(Scan(raw)) && AllWellFormed(Scan(raw))
  {
    hide DecodeXml, MatchNode, Scan, WellFormed;
    var node := TextNode(PLAIN_OPEN, encoded);
    var segs := [node];
    assert segs[1..] == [];
    SingleRender(node);
    StableScan(segs);
    assert VisibleOf(segs[1..]) == Some([]);
    assert VisibleOf(segs) == Join(DecodeXml(encoded), Some([]));
    JoinEmpty(DecodeXml(encoded).value);
  }

  lemma {:induction false} WellFormedConcat(s: Text, t: Text)
    requires WellFormed(s) && WellFormed(t)
    ensures WellFormed(s + t)
    decreases |s|
  {
    hide ReferenceLength, ReferenceText;
    if s == [] {
      assert s + t == t;
    } else {
      var n := ReferenceLength(s);
      if n > 0 {
        ReferenceExtend(s, t);
        assert (s + t)[n..] == s[n..] + t;
        WellFormedConcat(s[n..], t);
      } else {
        OnlyAmpersandBecomesReference(s);
        StillNoReference(s, t);
        assert (s + t)[1..] == s[1..] + t;
        WellFormedConcat(s[1..], t);
      }
    }
  }

  lemma {:induction false} EscapedWellFormed(s: Text)
    ensures WellFormed(EscapeXml(s))
  {
    hide EscapeXml, EscapeUnit, WellFormed;
    if s == [] {
      EscapeXmlEmpty();
      EmptyDecodes();
    } else {
      EscapeXmlCons(s);
      EscapedWellFormed(s[1..]);
      EscapeUnitDecodes(s[0]);
      WellFormedConcat(EscapeUnit(s[0]), EscapeXml(s[1..]));
    }
  }

  lemma PlainWellFormed(u: Unit)
    requires u != AMP
    ensures WellFormed([u])
  {
    assert [u][1..] == [];
  }

  /** The edit of a one-node paragraph with a single occurrence, the replacement being empty. */
  lemma OneEdit(encoded: Text, o: Occurrence)
    requires DecodeXml(encoded).Some? && o.start < o.end <= |DecodeXml(encoded).value|
    ensures EditsOf(encoded, 0, [o], []) != []
    ensures EditedEncoded(encoded, 0, [o], [])
         == Head(encoded, RawOffset(encoded, o.start)) + [] + Tail(encoded, RawOffset(encoded, o.end))
  {
    hide DecodeXml, RawOffset, EscapeXml;
    EscapeXmlEmpty();
    var e := Edit(RawOffset(encoded, o.start), RawOffset(encoded, o.end), []);
    assert [o][..0] == [];
    assert EditsOf(encoded, 0, [], []) == [];
    assert EditsOf(encoded, 0, [o], []) == [] + [e];
    assert [e][..0] == [] && [e][1..] == [];
    assert SortDescending([]) == [];
    assert SortDescending([e]) == [e];
    assert ApplyInOrder(Splice(encoded, e), []) == Splice(encoded, e);
  }

  lemma OneReplaced(text: Text, find: Text, o: Occurrence)
    requires find != [] && Occurrences(text, find, 0) == [o] && o.start < o.end <= |text|
    ensures ReplacedFrom(text, find, [], 0) == text[..o.start] + text[o.end..]
  {
    hide Occurrences;
    assert [o][..0] == [];
    assert Edited(text, [], [], 0, o.start) == text[0..o.start];
  }

  /** The edited text of a one-node paragraph with a single occurrence. */
  lemma OneOccurrence(encoded: Text, find: Text, o: Occurrence)
    requires LT !in encoded && WellFormed(encoded) && DecodeXml(encoded).Some? && find != []
    requires Occurrences(DecodeXml(encoded).value, find, 0) == [o]
    requires o.start < o.end <= |DecodeXml(encoded).value|
    ensures var raw, text := PLAIN_OPEN + encoded + NODE_CLOSE, DecodeXml(encoded).value;
            var left := Head(encoded, RawOffset(encoded, o.start)) + [] + Tail(encoded, RawOffset(encoded, o.end));
            && VisibleText(raw) == DecodeXml(encoded)
            && NothingDangling(Scan(raw)) && AllWellFormed(Scan(raw))
            && (ReadsBackExactly(raw, find, []) ==> DecodeXml(left) == Some(text[..o.start] + text[o.end..]))
  {
    hide DecodeXml, Scan, WellFormed, RawOffset, EditsOf, EditedEncoded, EditedNode, Occurrences, NothingDangling,
         AllWellFormed, TransformAll, VisibleOf, Edited, Head, Tail, ReplacedFrom, RenderAll;
    OneNode(encoded);
    OneEdit(encoded, o);
    OneReplaced(DecodeXml(encoded).value, find, o);
    var raw, left := PLAIN_OPEN + encoded + NODE_CLOSE, EditedEncoded(encoded, 0, [o], []);
    var node := TextNode(PLAIN_OPEN, encoded);
    OneNodeTransform(node, [o]);
    if TransformAll([node], 0, [o], []).Some? {
      TransformReadsBack(raw, [o], []);
      EditedNodeNone(PLAIN_OPEN, left);
      EditedNodeShows(PLAIN_OPEN, left);
    }
  }

  lemma EditedNodeNone(open: Text, encoded: Text)
    ensures EditedNode(open, encoded).Some? ==> DecodeXml(encoded).Some?
  {
    hide DecodeXml, ShapeTextOpen, ReplaceFinalGt;
  }

  lemma OneNodeTransform(node: Segment, occs: seq<Occurrence>)
    requires node.TextNode? && DecodeXml(node.encoded).Some?
    ensures VisibleOf([node]).Some?
    ensures TransformAll([node], 0, occs, []) == TransformSegment(node, 0, occs, [])
  {
    hide DecodeXml, TransformSegment;
    assert [node][1..] == [];
    var first := TransformSegment(node, 0, occs, []);
    if first.Some? {
      assert first.value + [] == first.value;
    }
  }

  const HALF_FIRST: Unit := 0xD800
  const HALF_SECOND: Unit := 0xDC00

  /** A search that starts with the second half of a pair loses the first half. */
  lemma LowStartFails(find: Text) returns (raw: Text)
    requires find != [] && Low(find[0])
    ensures VisibleText(raw).Some? && NothingDangling(Scan(raw)) && AllWellFormed(Scan(raw))
    ensures !ReadsBackExactly(raw, find, [])
  {
    hide DecodeXml, MatchNode, Scan, WellFormed, RawOffset, EscapeXml, Occurrences, NothingDangling, AllWellFormed,
         ReadsBackExactly, IndexOf;
    var half: Text := [HALF_FIRST];
    var encoded := half + EscapeXml(find);
    raw := PLAIN_OPEN + encoded + NODE_CLOSE;
    PlainWellFormed(HALF_FIRST);
    EscapedWellFormed(find);
    WellFormedConcat(half, EscapeXml(find));
    EscapeRoundTrip(find);
    PlainDecodes(half, EscapeXml(find));
    EscapeXmlNoMarkup(find);
    var text, m := half + find, |find|;
    assert text[1..1 + m] == find;
    assert OccursAt(text, find, 1);
    assert !OccursAt(text, find, 0) by {
      assert text[0..m][0] == HALF_FIRST;
    }
    OccurrencesStep(text, find, 0);
    OccurrencesStep(text, find, 1 + m);
    var o := Occurrence(1, 1 + m);
    assert IndexOf(text, find, 0) == Some(1);
    assert IndexOf(text, find, 1 + m).None?;
    assert Occurrences(text, find, 0) == [o] + [];
    OneOccurrence(encoded, find, o);
    EscapeXmlCons(find);
    assert encoded[1] == find[0];
    PairOffset(encoded);
    LastOffset(encoded);
    EmptyDecodes();
    assert Head(encoded, 0) + [] + Tail(encoded, |encoded|) == [];
    assert |text[..1] + text[1 + m..]| == 1;
  }

  /** Inside a raw surrogate pair the offset is where the pair starts. */
  lemma PairOffset(s: Text)
    requires |s| >= 2 && High(s[0]) && Low(s[1]) && DecodeXml(s).Some? && |DecodeXml(s).value| >= 1
    ensures RawOffset(s, 1) == 0
  {
    hide DecodeXml;
    ChunkDecode(s);
  }

  /** The cut between two texts that do not join halves of a pair is where the first one ends. */
  lemma {:induction false} CutBetween(s: Text, t: Text)
    requires Settled(s) && DecodeXml(s).Some? && DecodeXml(t).Some?
    requires s != [] && t != [] ==> !(High(s[|s| - 1]) && Low(t[0]))
    ensures DecodeXml(s + t) == Some(DecodeXml(s).value + DecodeXml(t).value)
    ensures RawOffset(s + t, |DecodeXml(s).value|) == |s|
    decreases |s|
  {
    hide ReferenceLength, ReferenceText, DecodeXml;
    DecodeConcat(s, t);
    if s == [] {
      EmptyDecodes();
      FirstOffset(s + t);
    } else {
      var n := ChunkLength(s);
      SameChunk(s, t);
      ChunkDecode(s);
      ChunkDecode(s + t);
      assert (s + t)[n..] == s[n..] + t;
      if n < |s| {
        assert s[n..][|s[n..]| - 1] == s[|s| - 1];
      }
      CutBetween(s[n..], t);
    }
  }

  lemma SameChunk(s: Text, t: Text)
    requires s != [] && Settled(s)
    requires t != [] ==> !(High(s[|s| - 1]) && Low(t[0]))
    ensures ChunkLength(s + t) == ChunkLength(s) && ChunkText(s + t) == ChunkText(s)
  {
    hide ReferenceLength, ReferenceText;
    if ReferenceLength(s) > 0 {
      ReferenceExtend(s, t);
    } else {
      StillNoReference(s, t);
      assert (s + t)[..ChunkLength(s)] == s[..ChunkLength(s)];
    }
  }

  /** The raw text of a search that ends with the first half of a pair, with a second half behind. */
  lemma HighEndEncoded(find: Text) returns (encoded: Text)
    requires find != [] && High(find[|find| - 1])
    ensures encoded == EscapeXml(find[..|find| - 1]) + [find[|find| - 1], HALF_SECOND]
    ensures WellFormed(encoded) && DecodeXml(encoded) == Some(find + [HALF_SECOND]) && LT !in encoded
  {
    hide DecodeXml, WellFormed, EscapeXml, Settled;
    var m, h := |find|, find[|find| - 1];
    var front, pair := EscapeXml(find[..m - 1]), [h, HALF_SECOND];
    assert find == find[..m - 1] + [h];
    EscapeXmlConcat(find[..m - 1], [h]);
    EscapeXmlSingle(h);
    encoded := EscapeXml(find) + [HALF_SECOND];
    assert encoded == front + pair;
    EscapedWellFormed(find);
    PlainWellFormed(HALF_SECOND);
    WellFormedConcat(EscapeXml(find), [HALF_SECOND]);
    EscapeXmlNoMarkup(find);
    EscapeRoundTrip(find[..m - 1]);
    PlainSettled(pair);
    CutBetween(front, pair);
    assert find[..m - 1] + pair == find + [HALF_SECOND];
  }

  /** A search that ends with the first half of a pair leaves that half in place. */
  lemma HighEndFails(find: Text) returns (raw: Text)
    requires find != [] && High(find[|find| - 1]) && !Low(find[0])
    ensures VisibleText(raw).Some? && NothingDangling(Scan(raw)) && AllWellFormed(Scan(raw))
    ensures !ReadsBackExactly(raw, find, [])
  {
    hide DecodeXml, MatchNode, Scan, WellFormed, RawOffset, EscapeXml, Occurrences, NothingDangling, AllWellFormed,
         ReadsBackExactly, IndexOf, Settled;
    var m, h := |find|, find[|find| - 1];
    var front, pair := EscapeXml(find[..m - 1]), [h, HALF_SECOND];
    var encoded := HighEndEncoded(find);
    raw := PLAIN_OPEN + encoded + NODE_CLOSE;
    EscapeRoundTrip(find[..m - 1]);
    PlainSettled(pair);
    CutBetween(front, pair);
    var text := find + [HALF_SECOND];
    assert find[..m - 1] + pair == text;
    OnlyAtStart(find);
    var o := Occurrence(0, m);
    OneOccurrence(encoded, find, o);
    FirstOffset(encoded);
    assert !SplitsPair(text, m - 1);
    OffsetPastCut(encoded, m - 1, m);
    assert encoded[|front|..] == pair;
    PairOffset(pair);
    assert Head(encoded, 0) + [] + Tail(encoded, |front|) == pair;
    assert |text[..0] + text[m..]| == 1;
  }

  lemma OnlyAtStart(find: Text)
    requires find != [] && High(find[|find| - 1])
    ensures Occurrences(find + [HALF_SECOND], find, 0) == [Occurrence(0, |find|)]
  {
    hide Occurrences;
    var text, m := find + [HALF_SECOND], |find|;
    assert text[0..m] == find;
    assert OccursAt(text, find, 0);
    OccurrencesStep(text, find, 0);
    OccurrencesStep(text, find, m);
    forall k | m <= k && k + m <= |text| ensures !OccursAt(text, find, k) {
      assert text[k..k + m][m - 1] == text[k + m - 1] == HALF_SECOND;
    }
    assert IndexOf(text, find, 0) == Some(0);
    assert IndexOf(text, find, m).None?;
    assert Occurrences(text, find, 0) == [Occurrence(0, m)] + [];
  }

  /** A search text is safe on every well-formed paragraph, for every replacement, exactly when it
      consists of whole characters. */
  lemma SafeIffWholeCharacters(find: Text)
    requires find != []
    ensures WholeCharacters(find)
       <==> forall raw: Text, replacement: Text ::
              VisibleText(raw).Some? && NothingDangling(Scan(raw)) && AllWellFormed(Scan(raw)) ==>
                ReadsBackExactly(raw, find, replacement)
  {
    hide DecodeXml, Scan, VisibleOf, NothingDangling, AllWellFormed, ReadsBackExactly, Editable;
    if WholeCharacters(find) {
      forall raw: Text, replacement: Text
        | VisibleText(raw).Some? && NothingDangling(Scan(raw)) && AllWellFormed(Scan(raw))
        ensures ReadsBackExactly(raw, find, replacement)
      {
        WellFormedEditable(raw, find);
        ExactIffEditable(raw, find);
      }
    } else {
      var raw: Text;
      if Low(find[0]) {
        raw := LowStartFails(find);
      } else {
        raw := HighEndFails(find);
      }
      assert !ReadsBackExactly(raw, find, []);
    }
  }
}
