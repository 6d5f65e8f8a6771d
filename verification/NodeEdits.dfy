/**
 Editing one text node (the inner half of transformParagraph in src/local/docx-mutation.js):
 splices on the raw, encoded text, from right to left, and what they mean on the visible text.
 */
module NodeEdits {
  import opened Wrappers
  import opened JsStrings
  import opened XmlText
  import opened TextOffsets
  import opened FindReplace

  datatype Edit = Edit(rawStart: nat, rawEnd: nat, insert: Text)

  predicate Touches(o: Occurrence, logicalStart: nat, logicalEnd: nat) {
    logicalEnd > o.start && logicalStart < o.end
  }

  /** The edit an occurrence makes in a node it touches: the replacement goes to the node where
      the occurrence starts, every other covered node only loses text. */
  function EditOf(encoded: Text, logicalStart: nat, o: Occurrence, replacement: Text): Edit
    requires DecodeXml(encoded).Some?
    requires Touches(o, logicalStart, logicalStart + |DecodeXml(encoded).value|)
  {
    var end := logicalStart + |DecodeXml(encoded).value|;
    Edit(RawOffset(encoded, Clamp(o.start, logicalStart, end) - logicalStart),
         RawOffset(encoded, Clamp(o.end, logicalStart, end) - logicalStart),
         if logicalStart <= o.start then EscapeXml(replacement) else [])
  }

  function EditsOf(encoded: Text, logicalStart: nat, occs: seq<Occurrence>, replacement: Text): seq<Edit>
    requires DecodeXml(encoded).Some?
  {
    if occs == [] then []
    else
      var o := occs[|occs| - 1];
      EditsOf(encoded, logicalStart, occs[..|occs| - 1], replacement)
      + if Touches(o, logicalStart, logicalStart + |DecodeXml(encoded).value|)
        then [EditOf(encoded, logicalStart, o, replacement)] else []
  }

  // String.slice clamps its bounds to the string.
  function Head(s: Text, n: nat): Text { if n <= |s| then s[..n] else s }

  function Tail(s: Text, n: nat): Text { if n <= |s| then s[n..] else [] }

  function Splice(s: Text, e: Edit): Text {
    Head(s, e.rawStart) + e.insert + Tail(s, e.rawEnd)
  }

  predicate Precedes(e: Edit, f: Edit) {
    e.rawStart > f.rawStart || (e.rawStart == f.rawStart && e.rawEnd > f.rawEnd)
  }

  function InsertSorted(e: Edit, es: seq<Edit>): seq<Edit> {
    if es == [] then [e]
    else if Precedes(e, es[0]) then [e] + es
    else [es[0]] + InsertSorted(e, es[1..])
  }

  /** The stable sort by descending raw start, then raw end. */
  function SortDescending(es: seq<Edit>): seq<Edit> {
    if es == [] then [] else InsertSorted(es[|es| - 1], SortDescending(es[..|es| - 1]))
  }

  function ApplyInOrder(s: Text, es: seq<Edit>): Text
    decreases |es|
  {
    if es == [] then s else ApplyInOrder(Splice(s, es[0]), es[1..])
  }

  function EditedEncoded(encoded: Text, logicalStart: nat, occs: seq<Occurrence>, replacement: Text): Text
    requires DecodeXml(encoded).Some?
  {
    ApplyInOrder(encoded, SortDescending(EditsOf(encoded, logicalStart, occs, replacement)))
  }

  // ---------------------------------------------------------------------------------------
  // From sorted splices to a recursion on the last edit
  // ---------------------------------------------------------------------------------------

  predicate Ascending(es: seq<Edit>) {
    forall j, k :: 0 <= j < k < |es| ==> es[j].rawStart < es[k].rawStart
  }

  function ApplyBackward(s: Text, es: seq<Edit>): Text
    decreases |es|
  {
    if es == [] then s else ApplyBackward(Splice(s, es[|es| - 1]), es[..|es| - 1])
  }

  lemma {:induction false} SortKeepsElements(es: seq<Edit>, e: Edit)
    requires e in SortDescending(es)
    ensures e in es
  {
    if es != [] {
      InsertKeepsElements(es[|es| - 1], SortDescending(es[..|es| - 1]), e);
      if e in SortDescending(es[..|es| - 1]) {
        SortKeepsElements(es[..|es| - 1], e);
      }
    }
  }

  lemma {:induction false} InsertKeepsElements(f: Edit, es: seq<Edit>, e: Edit)
    requires e in InsertSorted(f, es)
    ensures e == f || e in es
  {
    if es != [] && !Precedes(f, es[0]) && e != es[0] {
      InsertKeepsElements(f, es[1..], e);
    }
  }

  /** Edits that arrive in ascending order are applied from the last one to the first. */
  lemma {:induction false} SortedIsBackward(s: Text, es: seq<Edit>)
    requires Ascending(es)
    ensures ApplyInOrder(s, SortDescending(es)) == ApplyBackward(s, es)
    decreases |es|
  {
    if es != [] {
      var last, before := es[|es| - 1], es[..|es| - 1];
      var sorted := SortDescending(before);
      if sorted != [] {
        SortKeepsElements(before, sorted[0]);
        assert Precedes(last, sorted[0]);
      }
      assert SortDescending(es) == [last] + sorted;
      assert ([last] + sorted)[1..] == sorted;
      SortedIsBackward(Splice(s, last), before);
    }
  }

  // ---------------------------------------------------------------------------------------
  // What the splices mean
  // ---------------------------------------------------------------------------------------

  /** No occurrence starts or ends between the halves of a surrogate pair. */
  predicate Aligned(text: Text, occs: seq<Occurrence>) {
    forall k :: 0 <= k < |occs| ==> !SplitsPair(text, occs[k].start) && !SplitsPair(text, occs[k].end)
  }

  function LastEnd(es: seq<Edit>): nat { if es == [] then 0 else es[|es| - 1].rawEnd }

  /** The raw text between two edits, or before the first one, leaves no ampersand open. */
  ghost predicate PiecesSettled(encoded: Text, es: seq<Edit>) {
    es == [] ||
    var before := es[..|es| - 1];
    && LastEnd(before) <= es[|es| - 1].rawStart <= |encoded|
    && Settled(encoded[LastEnd(before)..es[|es| - 1].rawStart])
    && PiecesSettled(encoded, before)
  }

  lemma LocalCut(text: Text, logicalStart: nat, logicalEnd: nat, position: nat)
    requires logicalStart <= logicalEnd <= |text| && !SplitsPair(text, position)
    ensures !SplitsPair(text[logicalStart..logicalEnd], Clamp(position, logicalStart, logicalEnd) - logicalStart)
  {
    var local, k := text[logicalStart..logicalEnd], Clamp(position, logicalStart, logicalEnd) - logicalStart;
    if 0 < k < |local| {
      assert local[k - 1] == text[position - 1] && local[k] == text[position];
    }
  }

  lemma {:induction false} EditedUntouched(text: Text, occs: seq<Occurrence>, replacement: Text, lo: nat, hi: nat)
    requires lo <= hi <= |text|
    requires forall k :: 0 <= k < |occs| ==> occs[k].start < occs[k].end <= lo
    ensures Edited(text, occs, replacement, lo, hi) == text[lo..hi]
  {
    if occs != [] {
      EditedEmpty(text, occs[..|occs| - 1], replacement, lo);
    }
  }

  /** Everything left of one edit, then its replacement, then the raw text after it. */
  lemma SpliceAt(encoded: Text, e: Edit, k: nat, tail: Text)
    requires e.rawStart <= e.rawEnd <= k <= |encoded|
    ensures Splice(encoded[..k] + tail, e) == encoded[..e.rawStart] + (e.insert + (encoded[e.rawEnd..k] + tail))
  {
    var s := encoded[..k] + tail;
    assert s[..e.rawStart] == encoded[..e.rawStart];
    assert s[e.rawEnd..] == encoded[e.rawEnd..k] + tail;
  }

  /** A raw stretch between two cuts, followed by more text, decodes to the text between them. */
  lemma StretchDecodes(encoded: Text, a: nat, b: nat, tail: Text)
    requires DecodeXml(encoded).Some? && a <= b <= |DecodeXml(encoded).value|
    requires !SplitsPair(DecodeXml(encoded).value, a) && !SplitsPair(DecodeXml(encoded).value, b)
    requires RawOffset(encoded, a) <= RawOffset(encoded, b) ==>
               Settled(encoded[RawOffset(encoded, a)..RawOffset(encoded, b)]) || tail == []
    ensures RawOffset(encoded, a) <= RawOffset(encoded, b)
    ensures DecodeXml(encoded[RawOffset(encoded, a)..RawOffset(encoded, b)] + tail)
         == Join(Some(DecodeXml(encoded).value[a..b]), DecodeXml(tail))
  {
    hide *;
    SliceDecodes(encoded, a, b);
    var piece := encoded[RawOffset(encoded, a)..RawOffset(encoded, b)];
    if tail == [] {
      assert piece + tail == piece;
      EmptyDecodes();
      JoinEmpty(DecodeXml(encoded).value[a..b]);
    } else {
      DecodeConcat(piece, tail);
    }
  }

  lemma JoinEmpty(t: Text)
    ensures Join(Some(t), Some([])) == Some(t)
  {
    assert t + [] == t;
  }

  lemma InsertDecodes(insert: Text, replacement: Text, tail: Text)
    requires insert == EscapeXml(replacement)
    ensures DecodeXml(insert + tail) == Join(Some(replacement), DecodeXml(tail))
  {
    hide *;
    EscapeRoundTrip(replacement);
    DecodeConcat(insert, tail);
  }

  /** The occurrences lie in order in the text, and the node shows the text from logicalStart. */
  ghost predicate NodeIn(text: Text, encoded: Text, logicalStart: nat, occs: seq<Occurrence>) {
    && DecodeXml(encoded).Some?
    && logicalStart + |DecodeXml(encoded).value| <= |text|
    && DecodeXml(encoded).value == text[logicalStart..logicalStart + |DecodeXml(encoded).value|]
    && Ordered(occs, 0, |text|) && Aligned(text, occs)
  }

  lemma NodeInPrefix(text: Text, encoded: Text, logicalStart: nat, occs: seq<Occurrence>)
    requires NodeIn(text, encoded, logicalStart, occs) && occs != []
    ensures NodeIn(text, encoded, logicalStart, occs[..|occs| - 1])
  {
  }

  /** Local bounds of an occurrence inside the node it touches. */
  ghost predicate LocalBounds(encoded: Text, logicalStart: nat, o: Occurrence, a: nat, b: nat) {
    && DecodeXml(encoded).Some?
    && var end := logicalStart + |DecodeXml(encoded).value|;
    && Touches(o, logicalStart, end)
    && logicalStart + a == Clamp(o.start, logicalStart, end)
    && logicalStart + b == Clamp(o.end, logicalStart, end)
  }

  function Gained(o: Occurrence, logicalStart: nat, replacement: Text): Text {
    if logicalStart <= o.start then replacement else []
  }

  function Inserted(o: Occurrence, logicalStart: nat, replacement: Text): Text {
    if logicalStart <= o.start then EscapeXml(replacement) else []
  }

  lemma TouchCuts(text: Text, encoded: Text, logicalStart: nat, occs: seq<Occurrence>, a: nat, b: nat)
    requires NodeIn(text, encoded, logicalStart, occs) && occs != []
    requires LocalBounds(encoded, logicalStart, occs[|occs| - 1], a, b)
    ensures a <= b <= |DecodeXml(encoded).value|
    ensures !SplitsPair(DecodeXml(encoded).value, a) && !SplitsPair(DecodeXml(encoded).value, b)
    ensures forall k :: 0 <= k < |occs| - 1 ==>
              Clamp(occs[k].end, logicalStart, logicalStart + |DecodeXml(encoded).value|) <= logicalStart + a
  {
    hide DecodeXml, SplitsPair;
    var o, end := occs[|occs| - 1], logicalStart + |DecodeXml(encoded).value|;
    LocalCut(text, logicalStart, end, o.start);
    LocalCut(text, logicalStart, end, o.end);
  }

  lemma EditsTouch(encoded: Text, logicalStart: nat, occs: seq<Occurrence>, replacement: Text, a: nat, b: nat)
    requires occs != [] && LocalBounds(encoded, logicalStart, occs[|occs| - 1], a, b)
    requires a <= b <= |DecodeXml(encoded).value|
    ensures EditsOf(encoded, logicalStart, occs, replacement)
         == EditsOf(encoded, logicalStart, occs[..|occs| - 1], replacement)
            + [Edit(RawOffset(encoded, a), RawOffset(encoded, b),
                    Inserted(occs[|occs| - 1], logicalStart, replacement))]
  {
    hide DecodeXml, RawOffset, EscapeXml;
  }

  /** The last occurrence does not reach into the part of the node up to k. */
  lemma EditedSkips(text: Text, occs: seq<Occurrence>, replacement: Text, lo: nat, mid: nat, end: nat)
    requires Ordered(occs, 0, |text|) && occs != [] && lo <= mid <= end <= |text|
    requires !Touches(occs[|occs| - 1], lo, end)
    requires Clamp(occs[|occs| - 1].end, lo, end) <= mid
    ensures Edited(text, occs, replacement, lo, mid) == Edited(text, occs[..|occs| - 1], replacement, lo, mid)
  {
    var o, before := occs[|occs| - 1], occs[..|occs| - 1];
    if o.end <= lo {
      EditedUntouched(text, occs, replacement, lo, mid);
      EditedUntouched(text, before, replacement, lo, mid);
    } else {
      hide Edited;
      EditedLast(text, occs, replacement, lo, mid);
      assert text[mid..mid] == [];
      var rest := Edited(text, before, replacement, lo, mid);
      assert rest + [] + [] == rest;
    }
  }

  /** The edited range up to mid, cut at the last occurrence. */
  lemma EditedTouches(text: Text, occs: seq<Occurrence>, replacement: Text, lo: nat, mid: nat, end: nat, a: nat, b: nat)
    requires Ordered(occs, 0, |text|) && occs != [] && lo <= mid <= end <= |text|
    requires Touches(occs[|occs| - 1], lo, end)
    requires a == Clamp(occs[|occs| - 1].start, lo, end) && b == Clamp(occs[|occs| - 1].end, lo, end) <= mid
    ensures Edited(text, occs, replacement, lo, mid)
         == Edited(text, occs[..|occs| - 1], replacement, lo, a)
            + (if lo <= occs[|occs| - 1].start then replacement else []) + text[b..mid]
  {
    hide Edited;
    EditedLast(text, occs, replacement, lo, mid);
  }

  /** Undoing the edits of the occurrences from the last to the first, on the raw text up to the
      cut k followed by an already finished tail, gives exactly the edited visible range. */
  lemma {:induction false} SpliceMeaning(text: Text, encoded: Text, logicalStart: nat, occs: seq<Occurrence>,
                                         replacement: Text, k: nat, tail: Text)
    requires NodeIn(text, encoded, logicalStart, occs)
    requires k <= |DecodeXml(encoded).value| && !SplitsPair(DecodeXml(encoded).value, k)
    requires forall j :: 0 <= j < |occs| ==>
               Clamp(occs[j].end, logicalStart, logicalStart + |DecodeXml(encoded).value|) <= logicalStart + k
    requires PiecesSettled(encoded, EditsOf(encoded, logicalStart, occs, replacement))
    requires var last := LastEnd(EditsOf(encoded, logicalStart, occs, replacement));
             last <= RawOffset(encoded, k) ==> Settled(encoded[last..RawOffset(encoded, k)]) || tail == []
    ensures DecodeXml(ApplyBackward(encoded[..RawOffset(encoded, k)] + tail,
                                    EditsOf(encoded, logicalStart, occs, replacement)))
         == Join(Some(Edited(text, occs, replacement, logicalStart, logicalStart + k)), DecodeXml(tail))
    decreases |occs|
  {
    hide DecodeXml, RawOffset, EscapeXml, SplitsPair, Settled, Edited, Splice, ApplyBackward;
    var end := logicalStart + |DecodeXml(encoded).value|;
    if occs == [] {
      assert EditsOf(encoded, logicalStart, occs, replacement) == [];
      assert encoded[0..RawOffset(encoded, k)] == encoded[..RawOffset(encoded, k)];
      SpliceMeaningBase(text, encoded, logicalStart, replacement, k, tail);
    } else {
      var o, before := occs[|occs| - 1], occs[..|occs| - 1];
      NodeInPrefix(text, encoded, logicalStart, occs);
      if Touches(o, logicalStart, end) {
        var a, b := Clamp(o.start, logicalStart, end) - logicalStart, Clamp(o.end, logicalStart, end) - logicalStart;
        TouchCuts(text, encoded, logicalStart, occs, a, b);
        EditsTouch(encoded, logicalStart, occs, replacement, a, b);
        var newTail := SpliceStep(text, encoded, logicalStart, occs, replacement, k, tail, a, b);
        SpliceMeaning(text, encoded, logicalStart, before, replacement, a, newTail);
        SpliceFinish(text, encoded, logicalStart, occs, replacement, k, tail, a, b, newTail);
      } else {
        assert EditsOf(encoded, logicalStart, occs, replacement)
            == EditsOf(encoded, logicalStart, before, replacement);
        SpliceMeaning(text, encoded, logicalStart, before, replacement, k, tail);
        EditedSkips(text, occs, replacement, logicalStart, logicalStart + k, end);
      }
    }
  }

  lemma SpliceMeaningBase(text: Text, encoded: Text, logicalStart: nat, replacement: Text, k: nat, tail: Text)
    requires NodeIn(text, encoded, logicalStart, [])
    requires k <= |DecodeXml(encoded).value| && !SplitsPair(DecodeXml(encoded).value, k)
    requires Settled(encoded[..RawOffset(encoded, k)]) || tail == []
    ensures DecodeXml(ApplyBackward(encoded[..RawOffset(encoded, k)] + tail, []))
         == Join(Some(Edited(text, [], replacement, logicalStart, logicalStart + k)), DecodeXml(tail))
  {
    hide DecodeXml, RawOffset, SplitsPair, Settled;
    FirstOffset(encoded);
    CutAtStart(DecodeXml(encoded).value);
    assert encoded[0..RawOffset(encoded, k)] == encoded[..RawOffset(encoded, k)];
    StretchDecodes(encoded, 0, k, tail);
    assert DecodeXml(encoded).value[0..k] == text[logicalStart..logicalStart + k];
  }

  lemma CutAtStart(text: Text)
    ensures !SplitsPair(text, 0) && !SplitsPair(text, |text|)
  {
  }

  /** One splice of the induction: the finished tail grows to the left by the replacement and the
      raw text after the occurrence. */
  lemma SpliceStep(text: Text, encoded: Text, logicalStart: nat, occs: seq<Occurrence>,
                   replacement: Text, k: nat, tail: Text, a: nat, b: nat) returns (newTail: Text)
    requires NodeIn(text, encoded, logicalStart, occs) && occs != []
    requires LocalBounds(encoded, logicalStart, occs[|occs| - 1], a, b)
    requires a <= b <= k <= |DecodeXml(encoded).value|
    requires !SplitsPair(DecodeXml(encoded).value, k)
    requires var last := LastEnd(EditsOf(encoded, logicalStart, occs, replacement));
             last <= RawOffset(encoded, k) ==> Settled(encoded[last..RawOffset(encoded, k)]) || tail == []
    ensures ApplyBackward(encoded[..RawOffset(encoded, k)] + tail, EditsOf(encoded, logicalStart, occs, replacement))
         == ApplyBackward(encoded[..RawOffset(encoded, a)] + newTail,
                          EditsOf(encoded, logicalStart, occs[..|occs| - 1], replacement))
    ensures DecodeXml(newTail)
         == Join(Some(Gained(occs[|occs| - 1], logicalStart, replacement) + text[logicalStart + b..logicalStart + k]),
                 DecodeXml(tail))
  {
    hide DecodeXml, RawOffset, EscapeXml, SplitsPair, Settled, Splice, EditsOf;
    var o := occs[|occs| - 1];
    TouchCuts(text, encoded, logicalStart, occs, a, b);
    EditsTouch(encoded, logicalStart, occs, replacement, a, b);
    var before := EditsOf(encoded, logicalStart, occs[..|occs| - 1], replacement);
    var e := Edit(RawOffset(encoded, a), RawOffset(encoded, b), Inserted(o, logicalStart, replacement));
    assert (before + [e])[..|before|] == before;
    OffsetsMonotone(encoded, a, b);
    OffsetsMonotone(encoded, b, k);
    var rest := encoded[RawOffset(encoded, b)..RawOffset(encoded, k)] + tail;
    newTail := e.insert + rest;
    SpliceAt(encoded, e, RawOffset(encoded, k), tail);
    StretchDecodes(encoded, b, k, tail);
    LocalSlice(text, logicalStart, logicalStart + |DecodeXml(encoded).value|, b, k);
    TailDecodes(o, logicalStart, replacement, rest, text[logicalStart + b..logicalStart + k], tail);
  }

  lemma LocalSlice(text: Text, lo: nat, hi: nat, b: nat, k: nat)
    requires lo <= hi <= |text| && b <= k <= hi - lo
    ensures text[lo..hi][b..k] == text[lo + b..lo + k]
  {
    var left, right := text[lo..hi][b..k], text[lo + b..lo + k];
    assert |left| == |right| && forall i :: 0 <= i < |left| ==> left[i] == right[i];
  }

  lemma TailDecodes(o: Occurrence, logicalStart: nat, replacement: Text, rest: Text, shown: Text, tail: Text)
    requires DecodeXml(rest) == Join(Some(shown), DecodeXml(tail))
    ensures DecodeXml(Inserted(o, logicalStart, replacement) + rest)
         == Join(Some(Gained(o, logicalStart, replacement) + shown), DecodeXml(tail))
  {
    hide DecodeXml, EscapeXml;
    if logicalStart <= o.start {
      InsertDecodes(EscapeXml(replacement), replacement, rest);
      JoinAssoc(Some(replacement), Some(shown), DecodeXml(tail));
    } else {
      assert [] + rest == rest && [] + shown == shown;
    }
  }

  lemma SpliceFinish(text: Text, encoded: Text, logicalStart: nat, occs: seq<Occurrence>,
                     replacement: Text, k: nat, tail: Text, a: nat, b: nat, newTail: Text)
    requires NodeIn(text, encoded, logicalStart, occs) && occs != []
    requires LocalBounds(encoded, logicalStart, occs[|occs| - 1], a, b)
    requires a <= b <= k <= |DecodeXml(encoded).value|
    requires DecodeXml(newTail)
          == Join(Some(Gained(occs[|occs| - 1], logicalStart, replacement) + text[logicalStart + b..logicalStart + k]),
                  DecodeXml(tail))
    ensures Join(Some(Edited(text, occs[..|occs| - 1], replacement, logicalStart, logicalStart + a)),
                 DecodeXml(newTail))
         == Join(Some(Edited(text, occs, replacement, logicalStart, logicalStart + k)), DecodeXml(tail))
  {
    hide DecodeXml, Edited;
    var o, before := occs[|occs| - 1], occs[..|occs| - 1];
    EditedTouches(text, occs, replacement, logicalStart, logicalStart + k,
                  logicalStart + |DecodeXml(encoded).value|, logicalStart + a, logicalStart + b);
    var left, gained := Edited(text, before, replacement, logicalStart, logicalStart + a),
        Gained(o, logicalStart, replacement);
    var shown := text[logicalStart + b..logicalStart + k];
    assert left + (gained + shown) == left + gained + shown;
    JoinAssoc(Some(left), Some(gained + shown), DecodeXml(tail));
  }

  // ---------------------------------------------------------------------------------------
  // The edits of a node arrive in ascending order
  // ---------------------------------------------------------------------------------------

  lemma CutsStrict(encoded: Text, a: nat, b: nat)
    requires DecodeXml(encoded).Some? && a < b <= |DecodeXml(encoded).value|
    requires !SplitsPair(DecodeXml(encoded).value, a) && !SplitsPair(DecodeXml(encoded).value, b)
    ensures RawOffset(encoded, a) < RawOffset(encoded, b)
  {
    hide *;
    SliceDecodes(encoded, a, b);
    EmptyDecodes();
    var piece := encoded[RawOffset(encoded, a)..RawOffset(encoded, b)];
    var shown := DecodeXml(encoded).value[a..b];
    assert |shown| == b - a;
    assert piece != [];
  }

  lemma {:induction false} NoTouchNoEdits(encoded: Text, logicalStart: nat, occs: seq<Occurrence>, replacement: Text)
    requires DecodeXml(encoded).Some?
    requires forall k :: 0 <= k < |occs| ==> !Touches(occs[k], logicalStart, logicalStart + |DecodeXml(encoded).value|)
    ensures EditsOf(encoded, logicalStart, occs, replacement) == []
  {
    hide DecodeXml, RawOffset, EscapeXml;
    if occs != [] {
      NoTouchNoEdits(encoded, logicalStart, occs[..|occs| - 1], replacement);
    }
  }

  /** Occurrences that end at or before the cut a make edits that start left of it. */
  lemma {:induction false} EditsLeftOf(text: Text, encoded: Text, logicalStart: nat, occs: seq<Occurrence>,
                                       replacement: Text, a: nat)
    requires NodeIn(text, encoded, logicalStart, occs)
    requires a <= |DecodeXml(encoded).value| && !SplitsPair(DecodeXml(encoded).value, a)
    requires DecodeXml(encoded).value != []
    requires forall j :: 0 <= j < |occs| ==>
               Clamp(occs[j].end, logicalStart, logicalStart + |DecodeXml(encoded).value|) <= logicalStart + a
    ensures forall e :: e in EditsOf(encoded, logicalStart, occs, replacement) ==> e.rawStart < RawOffset(encoded, a)
  {
    hide DecodeXml, RawOffset, EscapeXml, SplitsPair;
    if occs != [] {
      var o, end := occs[|occs| - 1], logicalStart + |DecodeXml(encoded).value|;
      NodeInPrefix(text, encoded, logicalStart, occs);
      EditsLeftOf(text, encoded, logicalStart, occs[..|occs| - 1], replacement, a);
      if Touches(o, logicalStart, end) {
        var a1, b1 := Clamp(o.start, logicalStart, end) - logicalStart, Clamp(o.end, logicalStart, end) - logicalStart;
        TouchCuts(text, encoded, logicalStart, occs, a1, b1);
        EditsTouch(encoded, logicalStart, occs, replacement, a1, b1);
        CutsStrict(encoded, a1, b1);
        OffsetsMonotone(encoded, b1, a);
      }
    }
  }

  lemma {:induction false} EditsAscend(text: Text, encoded: Text, logicalStart: nat, occs: seq<Occurrence>,
                                       replacement: Text)
    requires NodeIn(text, encoded, logicalStart, occs)
    ensures Ascending(EditsOf(encoded, logicalStart, occs, replacement))
  {
    hide DecodeXml, RawOffset, EscapeXml, SplitsPair;
    if occs != [] {
      var o, end := occs[|occs| - 1], logicalStart + |DecodeXml(encoded).value|;
      var before := occs[..|occs| - 1];
      NodeInPrefix(text, encoded, logicalStart, occs);
      EditsAscend(text, encoded, logicalStart, before, replacement);
      if Touches(o, logicalStart, end) {
        var a, b := Clamp(o.start, logicalStart, end) - logicalStart, Clamp(o.end, logicalStart, end) - logicalStart;
        TouchCuts(text, encoded, logicalStart, occs, a, b);
        EditsTouch(encoded, logicalStart, occs, replacement, a, b);
        if DecodeXml(encoded).value == [] {
          NoTouchNoEdits(encoded, logicalStart, before, replacement);
        } else {
          EditsLeftOf(text, encoded, logicalStart, before, replacement, a);
        }
      }
    }
  }

  /** The edited raw text of a node decodes to the edited visible text of the node, provided the
      raw pieces between its edits leave no ampersand open. */
  lemma NodeMeaning(text: Text, encoded: Text, logicalStart: nat, occs: seq<Occurrence>, replacement: Text)
    requires NodeIn(text, encoded, logicalStart, occs)
    requires PiecesSettled(encoded, EditsOf(encoded, logicalStart, occs, replacement))
    ensures DecodeXml(EditedEncoded(encoded, logicalStart, occs, replacement))
         == Some(Edited(text, occs, replacement, logicalStart, logicalStart + |DecodeXml(encoded).value|))
  {
    hide DecodeXml, RawOffset, EscapeXml, SplitsPair, Edited, Settled, EditsOf, SortDescending, ApplyInOrder,
         ApplyBackward, Ordered, Aligned, PiecesSettled, Ascending;
    var k := |DecodeXml(encoded).value|;
    EditsAscend(text, encoded, logicalStart, occs, replacement);
    SortedIsBackward(encoded, EditsOf(encoded, logicalStart, occs, replacement));
    CutAtStart(DecodeXml(encoded).value);
    LastOffset(encoded);
    EmptyDecodes();
    SpliceMeaning(text, encoded, logicalStart, occs, replacement, k, []);
    assert encoded[..|encoded|] + [] == encoded;
    JoinEmpty(Edited(text, occs, replacement, logicalStart, logicalStart + k));
  }

  /** On well-formed raw text the condition on the pieces always holds. */
  lemma {:induction false} WellFormedPieces(text: Text, encoded: Text, logicalStart: nat, occs: seq<Occurrence>,
                                            replacement: Text)
    requires NodeIn(text, encoded, logicalStart, occs)
    requires WellFormed(encoded)
    ensures PiecesSettled(encoded, EditsOf(encoded, logicalStart, occs, replacement))
    ensures exists k :: CutBefore(encoded, logicalStart, occs, k)
                     && LastEnd(EditsOf(encoded, logicalStart, occs, replacement)) == RawOffset(encoded, k)
  {
    hide DecodeXml, RawOffset, EscapeXml, SplitsPair, Settled, WellFormed;
    if occs == [] {
      FirstOffset(encoded);
      CutAtStart(DecodeXml(encoded).value);
      assert CutBefore(encoded, logicalStart, occs, 0);
    } else {
      var o, end := occs[|occs| - 1], logicalStart + |DecodeXml(encoded).value|;
      var before := occs[..|occs| - 1];
      NodeInPrefix(text, encoded, logicalStart, occs);
      WellFormedPieces(text, encoded, logicalStart, before, replacement);
      var k :| CutBefore(encoded, logicalStart, before, k)
            && LastEnd(EditsOf(encoded, logicalStart, before, replacement)) == RawOffset(encoded, k);
      if Touches(o, logicalStart, end) {
        var a, b := Clamp(o.start, logicalStart, end) - logicalStart, Clamp(o.end, logicalStart, end) - logicalStart;
        TouchCuts(text, encoded, logicalStart, occs, a, b);
        EditsTouch(encoded, logicalStart, occs, replacement, a, b);
        WellFormedSlice(encoded, k, a);
        var es := EditsOf(encoded, logicalStart, occs, replacement);
        assert es[..|es| - 1] == EditsOf(encoded, logicalStart, before, replacement);
        assert CutBefore(encoded, logicalStart, occs, b);
      } else {
        assert EditsOf(encoded, logicalStart, occs, replacement) == EditsOf(encoded, logicalStart, before, replacement);
        assert CutBefore(encoded, logicalStart, occs, k);
      }
    }
  }

  /** A cut of the node at or left of where the last occurrence ends in it. */
  ghost predicate CutBefore(encoded: Text, logicalStart: nat, occs: seq<Occurrence>, k: nat)
    requires DecodeXml(encoded).Some?
  {
    && k <= |DecodeXml(encoded).value|
    && !SplitsPair(DecodeXml(encoded).value, k)
    && logicalStart + k <= if occs == [] then logicalStart
                           else Clamp(occs[|occs| - 1].end, logicalStart, logicalStart + |DecodeXml(encoded).value|)
  }

  lemma WellFormedSlice(encoded: Text, a: nat, b: nat)
    requires DecodeXml(encoded).Some? && a <= b <= |DecodeXml(encoded).value|
    requires !SplitsPair(DecodeXml(encoded).value, a) && !SplitsPair(DecodeXml(encoded).value, b)
    requires WellFormed(encoded)
    ensures RawOffset(encoded, a) <= RawOffset(encoded, b) <= |encoded|
    ensures Settled(encoded[RawOffset(encoded, a)..RawOffset(encoded, b)])
  {
    hide DecodeXml, RawOffset, Settled, WellFormed;
    OffsetPastCut(encoded, a, b);
    WellFormedCut(encoded, a);
    var right := encoded[RawOffset(encoded, a)..];
    WellFormedCut(right, b - a);
    var p := RawOffset(right, b - a);
    assert right[..p] == encoded[RawOffset(encoded, a)..RawOffset(encoded, a) + p];
    WellFormedSettled(right[..p]);
  }
}
