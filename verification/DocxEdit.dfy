/**
 Visible-text replacement in a whole paragraph, as editText of src/local/docx-mutation.js does it:
 cut the paragraph into text nodes, find, edit the raw text, and read the result back.
 */
module DocxEdit {
  import opened Wrappers
  import opened JsStrings
  import opened XmlText
  import opened TextOffsets
  import opened FindReplace
  import opened ParagraphText
  import opened NodeEdits
  import opened DocxTransform
  import opened DocxReadback

  // ---------------------------------------------------------------------------------------
  // The raw splices of transformParagraph
  // ---------------------------------------------------------------------------------------

  /** The raw text that replaces an edited node. */
  function NewRaw(open: Text, encoded: Text): Option<Text> {
    var text := DecodeXml(encoded);
    if text.None? then None
    else if text.value == [] then Some(ReplaceFinalGt(open, SELF_CLOSE))
    else Some(ShapeTextOpen(open, text.value) + encoded + NODE_CLOSE)
  }

  predicate IsNodeRecord(n: Node) {
    && DecodeXml(n.encoded).Some?
    && n == NodeAt(n.open, n.encoded, n.rawStart, n.logicalStart)
  }

  /** What one node adds to nodeReplacements; None when decoding its edited text throws. */
  function NodeReplacement(n: Node, occs: seq<Occurrence>, replacement: Text): Option<seq<Edit>>
    requires DecodeXml(n.encoded).Some?
  {
    if EditsOf(n.encoded, n.logicalStart, occs, replacement) == [] then Some([])
    else
      var newRaw := NewRaw(n.open, EditedEncoded(n.encoded, n.logicalStart, occs, replacement));
      if newRaw.None? then None
      else if newRaw.value == n.open + n.encoded + NODE_CLOSE then Some([])
      else Some([Edit(n.rawStart, n.rawEnd, newRaw.value)])
  }

  /** The list of nodeReplacements, in node order. */
  function ReplacementsOf(nodes: seq<Node>, occs: seq<Occurrence>, replacement: Text): Option<seq<Edit>>
    requires forall n :: n in nodes ==> DecodeXml(n.encoded).Some?
  {
    if nodes == [] then Some([])
    else
      var first := NodeReplacement(nodes[0], occs, replacement);
      var rest := ReplacementsOf(nodes[1..], occs, replacement);
      if first.None? || rest.None? then None else Some(first.value + rest.value)
  }

  /** The node records tile the visible text from lo to hi. */
  ghost predicate Tiles(nodes: seq<Node>, lo: nat, hi: nat) {
    if nodes == [] then lo == hi
    else IsNodeRecord(nodes[0]) && nodes[0].logicalStart == lo && Tiles(nodes[1..], nodes[0].logicalEnd, hi)
  }

  lemma {:induction false} NodesTile(segs: seq<Segment>, rawStart: nat, logicalStart: nat)
    requires VisibleOf(segs).Some?
    ensures Tiles(NodesOf(segs, rawStart, logicalStart), logicalStart, logicalStart + |VisibleOf(segs).value|)
    ensures forall n :: n in NodesOf(segs, rawStart, logicalStart) ==>
              DecodeXml(n.encoded).Some? && rawStart <= n.rawStart < n.rawEnd
  {
    hide DecodeXml, RawOffsets;
    if segs != [] {
      if segs[0].Other? {
        NodesTile(segs[1..], rawStart + 1, logicalStart);
      } else {
        var node := NodeAt(segs[0].open, segs[0].encoded, rawStart, logicalStart);
        NodesTile(segs[1..], node.rawEnd, node.logicalEnd);
        var nodes := NodesOf(segs, rawStart, logicalStart);
        assert nodes[1..] == NodesOf(segs[1..], node.rawEnd, node.logicalEnd);
      }
    }
  }

  lemma {:induction false} ReplacementsAscend(segs: seq<Segment>, rawStart: nat, logicalStart: nat,
                                              occs: seq<Occurrence>, replacement: Text)
    requires VisibleOf(segs).Some?
    ensures forall n :: n in NodesOf(segs, rawStart, logicalStart) ==> DecodeXml(n.encoded).Some?
    ensures var reps := ReplacementsOf(NodesOf(segs, rawStart, logicalStart), occs, replacement);
            reps.Some? ==> Ascending(reps.value) && forall e :: e in reps.value ==> rawStart <= e.rawStart
  {
    hide DecodeXml, RawOffsets, EditsOf, EditedEncoded, NewRaw;
    NodesTile(segs, rawStart, logicalStart);
    if segs != [] {
      var nodes := NodesOf(segs, rawStart, logicalStart);
      if segs[0].Other? {
        ReplacementsAscend(segs[1..], rawStart + 1, logicalStart, occs, replacement);
      } else {
        ReplacementsAscend(segs[1..], nodes[0].rawEnd, nodes[0].logicalEnd, occs, replacement);
        assert nodes[1..] == NodesOf(segs[1..], nodes[0].rawEnd, nodes[0].logicalEnd);
      }
    }
  }

  lemma {:induction false} ApplyBackwardFirst(s: Text, e: Edit, es: seq<Edit>)
    ensures ApplyBackward(s, [e] + es) == Splice(ApplyBackward(s, es), e)
    decreases |es|
  {
    hide Splice;
    var all := [e] + es;
    if es == [] {
      assert all[..0] == [] && all[0] == e;
    } else {
      assert all[..|all| - 1] == [e] + es[..|es| - 1] && all[|all| - 1] == es[|es| - 1];
      ApplyBackwardFirst(Splice(s, es[|es| - 1]), e, es[..|es| - 1]);
    }
  }

  lemma SpliceMiddle(left: Text, middle: Text, right: Text, insert: Text)
    ensures Splice(left + middle + right, Edit(|left|, |left| + |middle|, insert)) == left + insert + right
  {
    var s := left + middle + right;
    assert s[..|left|] == left;
    assert s[|left| + |middle|..] == right;
  }

  lemma EditedNodeRender(open: Text, encoded: Text)
    ensures NewRaw(open, encoded).None? <==> EditedNode(open, encoded).None?
    ensures NewRaw(open, encoded).Some? ==> NewRaw(open, encoded).value == RenderAll(EditedNode(open, encoded).value)
  {
    hide DecodeXml, ShapeTextOpen, ReplaceFinalGt;
    var text := DecodeXml(encoded);
    if text.Some? {
      if text.value == [] {
        UnitsShowNothing(ReplaceFinalGt(open, SELF_CLOSE));
      } else {
        var node := TextNode(ShapeTextOpen(open, text.value), encoded);
        assert [node][1..] == [];
        assert Render(node) + [] == Render(node);
      }
    }
  }

  /** Splicing one node's replacement into the raw text renders the transformed piece. */
  lemma SegmentSplice(left: Text, seg: Segment, logicalStart: nat, occs: seq<Occurrence>, replacement: Text, tail: Text)
    requires seg.TextNode? && DecodeXml(seg.encoded).Some?
    ensures var n := NodeAt(seg.open, seg.encoded, |left|, logicalStart);
            var rep, now := NodeReplacement(n, occs, replacement),
                TransformSegment(seg, logicalStart, occs, replacement);
            && (rep.None? <==> now.None?)
            && (rep.Some? ==>
                  && |rep.value| <= 1
                  && ApplyBackward(left + Render(seg) + tail, rep.value) == left + RenderAll(now.value) + tail)
  {
    hide DecodeXml, RawOffsets, EditsOf, EditedEncoded, NewRaw, Splice, EditedNode;
    SingleRender(seg);
    var n := NodeAt(seg.open, seg.encoded, |left|, logicalStart);
    ApplyNothing(left + Render(seg) + tail);
    if EditsOf(seg.encoded, logicalStart, occs, replacement) != [] {
      var encoded := EditedEncoded(seg.encoded, logicalStart, occs, replacement);
      EditedNodeRender(seg.open, encoded);
      if NewRaw(seg.open, encoded).Some? {
        var newRaw := NewRaw(seg.open, encoded).value;
        SpliceMiddle(left, Render(seg), tail, newRaw);
        ApplyBackwardFirst(left + Render(seg) + tail, Edit(n.rawStart, n.rawEnd, newRaw), []);
        assert [Edit(n.rawStart, n.rawEnd, newRaw)] + [] == [Edit(n.rawStart, n.rawEnd, newRaw)];
      }
    }
  }

  lemma ApplyNothing(s: Text)
    ensures ApplyBackward(s, []) == s
  {
  }

  /** The replacements so far, followed by those of the remaining pieces. */
  ghost predicate SplicesTo(left: Text, segs: seq<Segment>, logicalStart: nat, occs: seq<Occurrence>, replacement: Text)
    requires VisibleOf(segs).Some?
    requires forall n :: n in NodesOf(segs, |left|, logicalStart) ==> DecodeXml(n.encoded).Some?
  {
    var reps := ReplacementsOf(NodesOf(segs, |left|, logicalStart), occs, replacement);
    var now := TransformAll(segs, logicalStart, occs, replacement);
    && (reps.None? <==> now.None?)
    && (reps.Some? ==> ApplyBackward(left + RenderAll(segs), reps.value) == left + RenderAll(now.value))
  }

  /** Splicing the node replacements into the raw paragraph renders the transformed pieces. */
  lemma {:induction false} SplicesRender(left: Text, segs: seq<Segment>, logicalStart: nat,
                                         occs: seq<Occurrence>, replacement: Text)
    requires VisibleOf(segs).Some?
    ensures forall n :: n in NodesOf(segs, |left|, logicalStart) ==> DecodeXml(n.encoded).Some?
    ensures SplicesTo(left, segs, logicalStart, occs, replacement)
    decreases |segs|
  {
    NodesTile(segs, |left|, logicalStart);
    if segs == [] {
      ApplyNothing(left + RenderAll(segs));
    } else {
      hide *;
      SplicesRender(left + Render(segs[0]), segs[1..], logicalStart + Width(segs[0]), occs, replacement);
      if segs[0].Other? {
        SplicesOther(left, segs, logicalStart, occs, replacement);
      } else {
        SplicesNode(left, segs, logicalStart, occs, replacement);
      }
    }
  }

  lemma NodesStep(segs: seq<Segment>, rawStart: nat, logicalStart: nat)
    requires VisibleOf(segs).Some? && segs != []
    ensures VisibleOf(segs[1..]).Some? && (segs[0].TextNode? ==> DecodeXml(segs[0].encoded).Some?)
    ensures NodesOf(segs, rawStart, logicalStart)
         == (if segs[0].Other? then [] else [NodeAt(segs[0].open, segs[0].encoded, rawStart, logicalStart)])
            + NodesOf(segs[1..], rawStart + |Render(segs[0])|, logicalStart + Width(segs[0]))
  {
    hide DecodeXml, RawOffsets, Scan, VisibleText;
    if segs[0].Other? {
      assert [] + NodesOf(segs[1..], rawStart + 1, logicalStart) == NodesOf(segs[1..], rawStart + 1, logicalStart);
    }
  }

  lemma TransformStep(segs: seq<Segment>, logicalStart: nat, occs: seq<Occurrence>, replacement: Text)
    requires VisibleOf(segs).Some? && segs != []
    ensures VisibleOf(segs[1..]).Some? && (segs[0].TextNode? ==> DecodeXml(segs[0].encoded).Some?)
    ensures var first := TransformSegment(segs[0], logicalStart, occs, replacement);
            var after := TransformAll(segs[1..], logicalStart + Width(segs[0]), occs, replacement);
            TransformAll(segs, logicalStart, occs, replacement)
            == if first.None? || after.None? then None else Some(first.value + after.value)
  {
    hide DecodeXml, TransformSegment;
  }

  lemma RenderStep(left: Text, segs: seq<Segment>)
    requires segs != []
    ensures left + RenderAll(segs) == left + Render(segs[0]) + RenderAll(segs[1..])
  {
  }

  lemma OtherSplice(seg: Segment, logicalStart: nat, occs: seq<Occurrence>, replacement: Text)
    requires seg.Other?
    ensures TransformSegment(seg, logicalStart, occs, replacement) == Some([seg]) && RenderAll([seg]) == Render(seg)
  {
    SingleRender(seg);
  }

  lemma SplicesOther(left: Text, segs: seq<Segment>, logicalStart: nat, occs: seq<Occurrence>, replacement: Text)
    requires VisibleOf(segs).Some? && segs != [] && segs[0].Other? && VisibleOf(segs[1..]).Some?
    requires forall n :: n in NodesOf(segs, |left|, logicalStart) ==> DecodeXml(n.encoded).Some?
    requires forall n :: n in NodesOf(segs[1..], |left + Render(segs[0])|, logicalStart) ==> DecodeXml(n.encoded).Some?
    requires SplicesTo(left + Render(segs[0]), segs[1..], logicalStart, occs, replacement)
    ensures SplicesTo(left, segs, logicalStart, occs, replacement)
  {
    hide DecodeXml, NodesOf, ReplacementsOf, TransformSegment, TransformAll, RenderAll, Render, ApplyBackward,
         VisibleOf;
    var seg, after := segs[0], TransformAll(segs[1..], logicalStart, occs, replacement);
    NodesStep(segs, |left|, logicalStart);
    TransformStep(segs, logicalStart, occs, replacement);
    RenderStep(left, segs);
    OtherSplice(seg, logicalStart, occs, replacement);
    var rest := NodesOf(segs[1..], |left + Render(seg)|, logicalStart);
    assert |left + Render(seg)| == |left| + |Render(seg)| && [] + rest == rest;
    assert NodesOf(segs, |left|, logicalStart) == rest;
    if after.Some? {
      RenderConcat([seg], after.value);
      assert left + Render(seg) + RenderAll(after.value) == left + (Render(seg) + RenderAll(after.value));
    }
  }

  lemma ReplacementsFirst(nodes: seq<Node>, occs: seq<Occurrence>, replacement: Text)
    requires nodes != [] && forall n :: n in nodes ==> DecodeXml(n.encoded).Some?
    ensures var first, rest := NodeReplacement(nodes[0], occs, replacement),
            ReplacementsOf(nodes[1..], occs, replacement);
            ReplacementsOf(nodes, occs, replacement)
            == if first.None? || rest.None? then None else Some(first.value + rest.value)
  {
    hide DecodeXml, NodeReplacement;
  }

  lemma SplicesNode(left: Text, segs: seq<Segment>, logicalStart: nat, occs: seq<Occurrence>, replacement: Text)
    requires VisibleOf(segs).Some? && segs != [] && segs[0].TextNode? && DecodeXml(segs[0].encoded).Some?
    requires VisibleOf(segs[1..]).Some?
    requires forall n :: n in NodesOf(segs, |left|, logicalStart) ==> DecodeXml(n.encoded).Some?
    requires forall n :: n in NodesOf(segs[1..], |left + Render(segs[0])|, logicalStart + Width(segs[0])) ==>
             DecodeXml(n.encoded).Some?
    requires SplicesTo(left + Render(segs[0]), segs[1..], logicalStart + Width(segs[0]), occs, replacement)
    ensures SplicesTo(left, segs, logicalStart, occs, replacement)
  {
    hide DecodeXml, NodesOf, NodeAt, NodeReplacement, ReplacementsOf, TransformSegment, TransformAll, RenderAll, Render,
         ApplyBackward, VisibleOf, Width;
    var seg := segs[0];
    NodesStep(segs, |left|, logicalStart);
    TransformStep(segs, logicalStart, occs, replacement);
    RenderStep(left, segs);
    var nodes := NodesOf(segs, |left|, logicalStart);
    var n := NodeAt(seg.open, seg.encoded, |left|, logicalStart);
    assert nodes[0] == n && nodes[1..] == NodesOf(segs[1..], |left + Render(seg)|, logicalStart + Width(seg));
    ReplacementsFirst(nodes, occs, replacement);
    var after := TransformAll(segs[1..], logicalStart + Width(seg), occs, replacement);
    var now, rep := TransformSegment(seg, logicalStart, occs, replacement), NodeReplacement(n, occs, replacement);
    if after.None? {
      SegmentSplice(left, seg, logicalStart, occs, replacement, []);
    } else {
      SegmentSplice(left, seg, logicalStart, occs, replacement, RenderAll(after.value));
      if rep.Some? {
        RenderConcat(now.value, after.value);
        assert left + RenderAll(now.value) + RenderAll(after.value)
            == left + (RenderAll(now.value) + RenderAll(after.value));
        ApplyAtMostOneFirst(left + Render(seg) + RenderAll(segs[1..]), rep.value,
                            ReplacementsOf(nodes[1..], occs, replacement).value);
      }
    }
  }

  lemma ApplyAtMostOneFirst(s: Text, first: seq<Edit>, es: seq<Edit>)
    requires |first| <= 1
    ensures ApplyBackward(s, first + es) == ApplyBackward(ApplyBackward(s, es), first)
  {
    hide Splice;
    if first == [] {
      assert first + es == es;
    } else {
      assert first == [first[0]] && first[..0] == [];
      ApplyBackwardFirst(s, first[0], es);
    }
  }

  lemma SingleRender(seg: Segment)
    ensures RenderAll([seg]) == Render(seg)
  {
    assert [seg][1..] == [];
    assert Render(seg) + [] == Render(seg);
  }

  // ---------------------------------------------------------------------------------------
  // transformParagraph
  // ---------------------------------------------------------------------------------------

  function EndBefore(nodes: seq<Node>, i: nat): nat
    requires i <= |nodes|
  {
    if i == 0 then 0 else nodes[i - 1].logicalEnd
  }

  lemma {:induction false} TilesAt(nodes: seq<Node>, lo: nat, hi: nat, i: nat)
    requires Tiles(nodes, lo, hi) && i < |nodes|
    ensures IsNodeRecord(nodes[i])
    ensures nodes[i].logicalStart == if i == 0 then lo else nodes[i - 1].logicalEnd
  {
    hide IsNodeRecord;
    if i > 0 {
      TilesAt(nodes[1..], nodes[0].logicalEnd, hi, i - 1);
    }
  }

  lemma {:induction false} TilesEnd(nodes: seq<Node>, lo: nat, hi: nat)
    requires Tiles(nodes, lo, hi)
    ensures hi == if nodes == [] then lo else nodes[|nodes| - 1].logicalEnd
  {
    hide IsNodeRecord;
    if nodes != [] {
      TilesEnd(nodes[1..], nodes[0].logicalEnd, hi);
    }
  }

  /** The edits of node i that come from the given occurrences. */
  ghost predicate HasEdits(edits: seq<Edit>, n: Node, occs: seq<Occurrence>, replacement: Text) {
    IsNodeRecord(n) && edits == EditsOf(n.encoded, n.logicalStart, occs, replacement)
  }

  lemma HasEditsStart(n: Node, replacement: Text)
    requires IsNodeRecord(n)
    ensures HasEdits([], n, [], replacement)
  {
  }

  lemma HasEditsMore(edits: seq<Edit>, n: Node, occs: seq<Occurrence>, m: nat, replacement: Text)
    requires m < |occs| && HasEdits(edits, n, occs[..m], replacement)
    requires occs[m].start < occs[m].end
    ensures n.logicalStart <= n.logicalEnd
    ensures !Touches(occs[m], n.logicalStart, n.logicalEnd) ==> HasEdits(edits, n, occs[..m + 1], replacement)
    ensures Touches(occs[m], n.logicalStart, n.logicalEnd) ==>
              && Max(occs[m].start, n.logicalStart) - n.logicalStart < |n.rawOffsets|
              && Min(occs[m].end, n.logicalEnd) - n.logicalStart < |n.rawOffsets|
              && HasEdits(edits + [NodeEdit(n, occs[m], if n.logicalStart <= occs[m].start then EscapeXml(replacement)
                                            else [])],
                          n, occs[..m + 1], replacement)
  {
    hide DecodeXml, RawOffset, EscapeXml;
    assert occs[..m + 1][..m] == occs[..m];
  }

  function Max(a: nat, b: nat): nat { if a > b then a else b }

  function Min(a: nat, b: nat): nat { if a < b then a else b }

  function NodeEdit(n: Node, o: Occurrence, insert: Text): Edit
    requires Touches(o, n.logicalStart, n.logicalEnd)
    requires Max(o.start, n.logicalStart) - n.logicalStart < |n.rawOffsets|
    requires 0 <= Min(o.end, n.logicalEnd) - n.logicalStart < |n.rawOffsets|
  {
    Edit(n.rawOffsets[Max(o.start, n.logicalStart) - n.logicalStart],
         n.rawOffsets[Min(o.end, n.logicalEnd) - n.logicalStart], insert)
  }

  /** The first half of transformParagraph: the edits every occurrence makes in the nodes it
      covers, the replacement going to the first covered one. Its error for an occurrence that
      covers no node cannot happen on occurrences inside the paragraph. */
  method EditsByNode(nodes: seq<Node>, hi: nat, occs: seq<Occurrence>, replacement: Text)
    returns (editsByNode: seq<seq<Edit>>)
    requires Tiles(nodes, 0, hi) && Ordered(occs, 0, hi)
    ensures |editsByNode| == |nodes|
    ensures forall i :: 0 <= i < |nodes| ==> HasEdits(editsByNode[i], nodes[i], occs, replacement)
  {
    hide IsNodeRecord, HasEdits, EscapeXml, NodeEdit;
    TilesEnd(nodes, 0, hi);
    editsByNode := seq(|nodes|, _ => []);
    forall i | 0 <= i < |nodes| ensures HasEdits(editsByNode[i], nodes[i], occs[..0], replacement) {
      TilesAt(nodes, 0, hi, i);
      HasEditsStart(nodes[i], replacement);
      assert occs[..0] == [];
    }
    for m := 0 to |occs|
      invariant |editsByNode| == |nodes|
      invariant forall i :: 0 <= i < |nodes| ==> HasEdits(editsByNode[i], nodes[i], occs[..m], replacement)
    {
      var occurrence := occs[m];
      var covered := false;
      for i := 0 to |nodes|
        invariant |editsByNode| == |nodes|
        invariant covered <==> EndBefore(nodes, i) > occurrence.start
        invariant forall j :: 0 <= j < i ==> HasEdits(editsByNode[j], nodes[j], occs[..m + 1], replacement)
        invariant forall j :: i <= j < |nodes| ==> HasEdits(editsByNode[j], nodes[j], occs[..m], replacement)
      {
        var node := nodes[i];
        TilesAt(nodes, 0, hi, i);
        HasEditsMore(editsByNode[i], node, occs, m, replacement);
        if Touches(occurrence, node.logicalStart, node.logicalEnd) {
          var edit := NodeEdit(node, occurrence, if covered then [] else EscapeXml(replacement));
          editsByNode := editsByNode[i := editsByNode[i] + [edit]];
          covered := true;
        }
      }
      assert covered;
    }
    assert occs[..|occs|] == occs;
  }

  /** The second half of transformParagraph: splice every edited node's raw text from right to
      left, decode it, and collect the nodes that changed. */
  method NodeReplacements(nodes: seq<Node>, editsByNode: seq<seq<Edit>>, ghost occs: seq<Occurrence>,
                          ghost replacement: Text)
    returns (r: Option<seq<Edit>>)
    requires forall n :: n in nodes ==> DecodeXml(n.encoded).Some?
    requires |editsByNode| == |nodes|
    requires forall i :: 0 <= i < |nodes| ==> HasEdits(editsByNode[i], nodes[i], occs, replacement)
    ensures r == ReplacementsOf(nodes, occs, replacement)
  {
    hide DecodeXml, EditsOf, IsNodeRecord, ReplacementsOf, ReplacementsFrom, NewRaw;
    var nodeReplacements: seq<Edit> := [];
    ReplacementsRest(nodes, 0, [], occs, replacement);
    for i := 0 to |nodes|
      invariant ReplacementsFrom(nodes, i, nodeReplacements, occs, replacement)
    {
      var node, edits := nodes[i], editsByNode[i];
      ReplacementsStep(nodes, i, nodeReplacements, occs, replacement);
      assert nodeReplacements + [] == nodeReplacements;
      if edits != [] {
        var newRaw := NewRaw(node.open, ApplyInOrder(node.encoded, SortDescending(edits)));
        if newRaw.None? {
          return None;
        }
        if newRaw.value != node.open + node.encoded + NODE_CLOSE {
          nodeReplacements := nodeReplacements + [Edit(node.rawStart, node.rawEnd, newRaw.value)];
        }
      }
    }
    ReplacementsDone(nodes, nodeReplacements, occs, replacement);
    r := Some(nodeReplacements);
  }

  /** The replacements of a paragraph's nodes, spliced in order, render the transformed pieces. */
  lemma ReplacementsRender(p: Paragraph, occs: seq<Occurrence>, replacement: Text)
    requires IsParagraph(p)
    ensures VisibleText(p.raw).Some?
    ensures Tiles(p.nodes, 0, |p.text|)
    ensures forall n :: n in p.nodes ==> DecodeXml(n.encoded).Some?
    ensures var now, reps := TransformAll(Scan(p.raw), 0, occs, replacement),
            ReplacementsOf(p.nodes, occs, replacement);
            && (reps.None? <==> now.None?)
            && (reps.Some? ==> ApplyInOrder(p.raw, SortDescending(reps.value)) == RenderAll(now.value))
  {
    var segs := Scan(p.raw);
    NodesTile(segs, 0, 0);
    SplicesRender([], segs, 0, occs, replacement);
    ReplacementsAscend(segs, 0, 0, occs, replacement);
    ScanRender(p.raw);
    hide DecodeXml, Scan, TransformAll, VisibleOf, NodesOf, Tiles, ReplacementsOf, RenderAll, ApplyBackward,
         ApplyInOrder, SortDescending;
    assert [] + p.raw == p.raw;
    var now, reps := TransformAll(segs, 0, occs, replacement), ReplacementsOf(p.nodes, occs, replacement);
    if reps.Some? {
      SortedIsBackward(p.raw, reps.value);
      assert [] + RenderAll(now.value) == RenderAll(now.value);
    }
  }

  /** transformParagraph: the raw text of the transformed pieces; None when decoding throws. */
  method TransformParagraph(p: Paragraph, occs: seq<Occurrence>, replacement: Text) returns (r: Option<Text>)
    requires IsParagraph(p) && Ordered(occs, 0, |p.text|)
    ensures VisibleText(p.raw).Some?
    ensures var now := TransformAll(Scan(p.raw), 0, occs, replacement);
            r == if now.None? then None else Some(RenderAll(now.value))
  {
    ReplacementsRender(p, occs, replacement);
    hide *;
    var editsByNode := EditsByNode(p.nodes, |p.text|, occs, replacement);
    var nodeReplacements := NodeReplacements(p.nodes, editsByNode, occs, replacement);
    if nodeReplacements.None? {
      return None;
    }
    r := Some(ApplyInOrder(p.raw, SortDescending(nodeReplacements.value)));
  }

  // ---------------------------------------------------------------------------------------
  // The whole edit
  // ---------------------------------------------------------------------------------------

  /** The searched text neither starts with the second half of a surrogate pair nor ends with the
      first half of one. */
  predicate WholeCharacters(find: Text) {
    find != [] && !Low(find[0]) && !High(find[|find| - 1])
  }

  lemma WholeCharactersAlign(text: Text, find: Text)
    requires WholeCharacters(find)
    ensures Ordered(Occurrences(text, find, 0), 0, |text|) && Aligned(text, Occurrences(text, find, 0))
  {
    hide Occurrences;
    OccurrencesAreMatches(text, find, 0);
    var occs := Occurrences(text, find, 0);
    forall k | 0 <= k < |occs| ensures !SplitsPair(text, occs[k].start) && !SplitsPair(text, occs[k].end) {
      var o := occs[k];
      assert o in occs;
      assert text[o.start] == text[o.start..o.end][0] == find[0];
      assert text[o.end - 1] == text[o.start..o.end][|find| - 1] == find[|find| - 1];
    }
  }

  lemma {:induction false} WellFormedSettles(text: Text, segs: seq<Segment>, lo: nat, hi: nat, occs: seq<Occurrence>)
    requires Shows(segs, text, lo, hi) && Ordered(occs, 0, |text|) && Aligned(text, occs)
    requires AllWellFormed(segs)
    ensures AllPiecesSettled(segs, lo, occs)
  {
    hide DecodeXml, PiecesSettled, EditsOf, SplitsPair, WellFormed;
    if segs != [] {
      ShowsStep(segs, text, lo, hi);
      WellFormedSettles(text, segs[1..], lo + Width(segs[0]), hi, occs);
      if segs[0].TextNode? {
        WellFormedPieces(text, segs[0].encoded, lo, occs, []);
      }
    }
  }

  /** What the caller of an edit can look at beforehand: the paragraph decodes, no raw text of a
      node leaves an ampersand open in front of an edit, and no closing tag stands alone behind
      a node. */
  ghost predicate Editable(raw: Text, find: Text)
    requires find != []
  {
    && VisibleText(raw).Some?
    && NothingDangling(Scan(raw))
    && AllPiecesSettled(Scan(raw), 0, Occurrences(VisibleText(raw).value, find, 0))
  }

  /** Well-formed text nodes are always editable, whatever is searched for. */
  lemma WellFormedEditable(raw: Text, find: Text)
    requires VisibleText(raw).Some? && NothingDangling(Scan(raw)) && AllWellFormed(Scan(raw))
    requires WholeCharacters(find)
    ensures Editable(raw, find)
  {
    hide Scan, VisibleOf, NothingDangling, AllWellFormed, AllPiecesSettled, Occurrences;
    var text := VisibleText(raw).value;
    WholeCharactersAlign(text, find);
    assert text[0..|text|] == text;
    WellFormedSettles(text, Scan(raw), 0, |text|, Occurrences(text, find, 0));
  }

  /** The raw paragraph after the edit. */
  function EditedRaw(raw: Text, find: Text, replacement: Text): Option<Text>
    requires find != [] && VisibleText(raw).Some?
  {
    var now := TransformAll(Scan(raw), 0, Occurrences(VisibleText(raw).value, find, 0), replacement);
    if now.None? then None else Some(RenderAll(now.value))
  }

  /** Replacing in the raw paragraph is replacing in the visible text: reading the edited raw text
      back gives the visible text with every occurrence replaced, however many nodes each
      occurrence spans. */
  lemma EditMeansReplace(raw: Text, find: Text, replacement: Text)
    requires WholeCharacters(find) && Editable(raw, find)
    ensures EditedRaw(raw, find, replacement).Some?
    ensures VisibleText(EditedRaw(raw, find, replacement).value)
         == Some(ReplacedFrom(VisibleText(raw).value, find, replacement, 0))
  {
    hide Scan, VisibleOf, TransformAll, AllPiecesSettled, NothingDangling, Edited, Occurrences;
    var text := VisibleText(raw).value;
    var occs := Occurrences(text, find, 0);
    WholeCharactersAlign(text, find);
    assert text[0..|text|] == text;
    TransformMeaning(text, Scan(raw), 0, |text|, occs, replacement);
    TransformReadsBack(raw, occs, replacement);
  }

  datatype EditError = DecodingThrows | ReadbackMismatch

  /** editText on one paragraph. Success means that the edited text was read back and shows exactly what was
      asked for; on an editable paragraph the readback comparison never fails. */
  method EditText(raw: Text, find: Text, replacement: Text) returns (r: Result<Text, EditError>)
    requires find != []
    ensures r.Success? ==>
              && VisibleText(raw).Some? && EditedRaw(raw, find, replacement) == Some(r.value)
              && VisibleText(r.value) == Some(ReplacedFrom(VisibleText(raw).value, find, replacement, 0))
    ensures r == Failure(ReadbackMismatch) <==>
              && VisibleText(raw).Some? && EditedRaw(raw, find, replacement).Some?
              && VisibleText(EditedRaw(raw, find, replacement).value).Some?
              && VisibleText(EditedRaw(raw, find, replacement).value).value
                 != ReplacedFrom(VisibleText(raw).value, find, replacement, 0)
    ensures VisibleText(raw).Some? && Editable(raw, find) && WholeCharacters(find) ==> r.Success?
  {
    hide Scan, VisibleOf, TransformAll, Editable, Edited, Occurrences;
    var before := ParagraphContainer(raw);
    if before.None? {
      return Failure(DecodingThrows);
    }
    var occurrences := FindVisibleOccurrences(before.value.text, find);
    OccurrencesAreMatches(before.value.text, find, 0);
    var edited := TransformParagraph(before.value, occurrences, replacement);
    if Editable(raw, find) && WholeCharacters(find) {
      EditMeansReplace(raw, find, replacement);
    }
    if edited.None? {
      return Failure(DecodingThrows);
    }
    var expected := ReplaceVisibleText(before.value.text, find, replacement);
    var after := ParagraphContainer(edited.value);
    if after.None? {
      return Failure(DecodingThrows);
    }
    if after.value.text != expected {
      return Failure(ReadbackMismatch);
    }
    r := Success(edited.value);
  }

  /** The replacement loop part way: those before node i are in done. */
  ghost predicate ReplacementsFrom(nodes: seq<Node>, i: nat, done: seq<Edit>, occs: seq<Occurrence>,
                                   replacement: Text) {
    && i <= |nodes|
    && (forall n :: n in nodes ==> DecodeXml(n.encoded).Some?)
    && var all, rest := ReplacementsOf(nodes, occs, replacement), ReplacementsOf(nodes[i..], occs, replacement);
    && (all.None? <==> rest.None?)
    && (all.Some? ==> all.value == done + rest.value)
  }

  lemma ReplacementsRest(nodes: seq<Node>, i: nat, done: seq<Edit>, occs: seq<Occurrence>, replacement: Text)
    requires forall n :: n in nodes ==> DecodeXml(n.encoded).Some?
    requires i == 0 && done == []
    ensures ReplacementsFrom(nodes, i, done, occs, replacement)
  {
    hide DecodeXml, ReplacementsOf;
    assert nodes[0..] == nodes;
    var all := ReplacementsOf(nodes, occs, replacement);
    if all.Some? {
      assert [] + all.value == all.value;
    }
  }

  lemma ReplacementsStep(nodes: seq<Node>, i: nat, done: seq<Edit>, occs: seq<Occurrence>, replacement: Text)
    requires ReplacementsFrom(nodes, i, done, occs, replacement) && i < |nodes|
    ensures DecodeXml(nodes[i].encoded).Some?
    ensures var first := NodeReplacement(nodes[i], occs, replacement);
            if first.None? then ReplacementsOf(nodes, occs, replacement).None?
            else ReplacementsFrom(nodes, i + 1, done + first.value, occs, replacement)
  {
    hide DecodeXml, NodeReplacement;
    assert nodes[i] in nodes;
    var rest := nodes[i..];
    assert rest[0] == nodes[i] && rest[1..] == nodes[i + 1..];
    var first, after := NodeReplacement(nodes[i], occs, replacement), ReplacementsOf(rest[1..], occs, replacement);
    if first.Some? && after.Some? {
      assert done + (first.value + after.value) == done + first.value + after.value;
    }
  }

  lemma ReplacementsDone(nodes: seq<Node>, done: seq<Edit>, occs: seq<Occurrence>, replacement: Text)
    requires ReplacementsFrom(nodes, |nodes|, done, occs, replacement)
    ensures ReplacementsOf(nodes, occs, replacement) == Some(done)
  {
    hide DecodeXml;
    assert nodes[|nodes|..] == [];
    assert done + [] == done;
  }
}
