/**
 Reading a transformed paragraph back: cutting the edited raw text into text nodes again finds
 exactly the nodes that the edit wrote.
 */
module DocxReadback {
  import opened Wrappers
  import opened JsStrings
  import opened XmlText
  import opened TextOffsets
  import opened FindReplace
  import opened ParagraphText
  import opened NodeEdits
  import opened DocxTransform

  /** After some plain text, s closes a text node. */
  predicate CloseFollows(s: Text) {
    s != [] && if s[0] == LT then NODE_CLOSE <= s else CloseFollows(s[1..])
  }

  /** s ends an open tag, and then, after some plain text, closes a text node. */
  predicate TagCloses(s: Text) {
    s != [] && if s[0] == GT then CloseFollows(s[1..]) else TagCloses(s[1..])
  }

  lemma {:induction false} CloseFollowsAt(s: Text, from: nat)
    requires from <= |s|
    ensures CloseFollows(s[from..])
        <==> FirstAt(s, LT, from).Some? && NODE_CLOSE <= s[FirstAt(s, LT, from).value..]
    decreases |s| - from
  {
    if from < |s| && s[from] != LT {
      CloseFollowsAt(s, from + 1);
      assert s[from..][1..] == s[from + 1..];
    }
  }

  lemma {:induction false} TagClosesAt(s: Text, from: nat)
    requires from <= |s|
    ensures TagCloses(s[from..])
        <==> FirstAt(s, GT, from).Some? && CloseFollows(s[FirstAt(s, GT, from).value + 1..])
    decreases |s| - from
  {
    if from < |s| {
      assert s[from..][1..] == s[from + 1..];
      if s[from] != GT {
        TagClosesAt(s, from + 1);
      }
    }
  }

  /** The node pattern matches at the front of s exactly when an open tag starts there and closes. */
  lemma MatchIff(s: Text)
    ensures MatchNode(s).Some? <==> StartsOpenTag(s) && TagCloses(s[4..])
  {
    if StartsOpenTag(s) {
      TagClosesAt(s, 4);
      var close := FirstAt(s, GT, 4);
      if close.Some? {
        CloseFollowsAt(s, close.value + 1);
      }
    }
  }

  /** Pieces that cutting their own rendering gives back. */
  predicate Stable(segs: seq<Segment>) {
    segs != [] ==>
      && Stable(segs[1..])
      && if segs[0].TextNode? then IsNode(segs[0]) else MatchNode(RenderAll(segs)).None?
  }

  lemma RenderedUnits(open: Text, encoded: Text, after: Text)
    ensures var s, g := open + encoded + NODE_CLOSE + after, |open|;
            && (forall k :: 0 <= k < g ==> s[k] == open[k])
            && (forall k :: 0 <= k < |encoded| ==> s[g + k] == encoded[k])
            && |s| > g + |encoded| && s[g + |encoded|..] == NODE_CLOSE + after && s[g + |encoded|] == LT
  {
    var s, t := open + encoded + NODE_CLOSE + after, |open| + |encoded|;
    assert s == open + encoded + (NODE_CLOSE + after);
    assert s[t..] == NODE_CLOSE + after;
    assert s[t] == (NODE_CLOSE + after)[0];
  }

  lemma FirstAtIs(s: Text, u: Unit, from: nat, i: nat)
    requires from <= i < |s| && s[i] == u && forall k :: from <= k < i ==> s[k] != u
    ensures FirstAt(s, u, from) == Some(i)
  {
    hide *;
    var f := FirstAt(s, u, from);
    assert s[i] == u;
  }

  lemma MatchRendered(node: Segment, after: Text)
    requires node.TextNode? && IsNode(node)
    ensures MatchNode(Render(node) + after) == Some((|node.open|, |node.encoded|))
  {
    hide FirstAt;
    var s := Render(node) + after;
    RenderedUnits(node.open, node.encoded, after);
    assert s[..4] == node.open[..4] == NODE_OPEN;
    var g, t := |node.open| - 1, |node.open| + |node.encoded|;
    FirstAtIs(s, GT, 4, g);
    assert forall k :: g + 1 <= k < t ==> s[k] == node.encoded[k - g - 1];
    FirstAtIs(s, LT, g + 1, t);
  }

  lemma RenderedParts(open: Text, encoded: Text, rest: Text)
    ensures var raw, o, e := open + encoded + NODE_CLOSE + rest, |open|, |encoded|;
            && raw != [] && raw[..o] == open && raw[o..o + e] == encoded
            && raw[o + e + |NODE_CLOSE|..] == rest
  {
    var raw := open + encoded + NODE_CLOSE + rest;
    assert raw[..|open| + |encoded|] == open + encoded;
    assert (open + encoded)[|open|..] == encoded;
  }

  lemma {:induction false} StableScan(segs: seq<Segment>)
    requires Stable(segs)
    ensures Scan(RenderAll(segs)) == segs
  {
    hide MatchNode, IsNode;
    if segs != [] {
      var raw, rest := RenderAll(segs), RenderAll(segs[1..]);
      StableScan(segs[1..]);
      if segs[0].TextNode? {
        MatchRendered(segs[0], rest);
        RenderedParts(segs[0].open, segs[0].encoded, rest);
      } else {
        assert raw[0] == segs[0].u && raw[1..] == rest;
      }
    }
  }

  lemma {:induction false} ScanStable(raw: Text)
    ensures Stable(Scan(raw))
    decreases |raw|
  {
    hide MatchNode, IsNode;
    ScanRender(raw);
    if raw != [] {
      var segs := Scan(raw);
      if MatchNode(raw).Some? {
        var (o, e) := MatchNode(raw).value;
        assert segs[1..] == Scan(raw[o + e + |NODE_CLOSE|..]);
        ScanStable(raw[o + e + |NODE_CLOSE|..]);
        assert IsNode(segs[0]);
      } else {
        assert segs[1..] == Scan(raw[1..]);
        ScanStable(raw[1..]);
      }
    }
  }

  /** After a text node no second closing tag follows behind plain text: so it is in every
      well-formed document, where a closing tag needs its own opening tag. */
  predicate NothingDangling(segs: seq<Segment>) {
    segs != [] ==>
      && NothingDangling(segs[1..])
      && (segs[0].TextNode? ==> !CloseFollows(RenderAll(segs[1..])))
  }

  // ---------------------------------------------------------------------------------------
  // The edited pieces are again nodes
  // ---------------------------------------------------------------------------------------

  lemma {:induction false} ApplyKeepsOut(s: Text, es: seq<Edit>)
    requires LT !in s && forall e :: e in es ==> LT !in e.insert
    ensures LT !in ApplyInOrder(s, es)
    decreases |es|
  {
    if es != [] {
      ApplyKeepsOut(Splice(s, es[0]), es[1..]);
    }
  }

  lemma {:induction false} InsertsKeepOut(encoded: Text, logicalStart: nat, occs: seq<Occurrence>, replacement: Text)
    requires DecodeXml(encoded).Some?
    ensures forall e :: e in EditsOf(encoded, logicalStart, occs, replacement) ==> LT !in e.insert
  {
    hide DecodeXml, RawOffset, EscapeXml;
    if occs != [] {
      InsertsKeepOut(encoded, logicalStart, occs[..|occs| - 1], replacement);
      EscapeXmlNoMarkup(replacement);
    }
  }

  /** No '<' enters a text node. */
  lemma EditedKeepsOut(encoded: Text, logicalStart: nat, occs: seq<Occurrence>, replacement: Text)
    requires DecodeXml(encoded).Some? && LT !in encoded
    ensures LT !in EditedEncoded(encoded, logicalStart, occs, replacement)
  {
    hide DecodeXml, EditsOf;
    var es := EditsOf(encoded, logicalStart, occs, replacement);
    InsertsKeepOut(encoded, logicalStart, occs, replacement);
    forall e | e in SortDescending(es) ensures LT !in e.insert {
      SortKeepsElements(es, e);
    }
    ApplyKeepsOut(encoded, SortDescending(es));
  }

  lemma ShapedIsOpenTag(open: Text, text: Text)
    requires IsOpenTag(open)
    ensures IsOpenTag(ShapeTextOpen(open, text)) && ShapeTextOpen(open, text)[0] == LT
  {
    hide HasXmlSpace;
    var shaped := ShapeTextOpen(open, text);
    if shaped != open {
      assert shaped == open[..|open| - 1] + XML_SPACE_PRESERVE;
      assert NODE_OPEN <= shaped;
      if |open| == 5 {
        assert shaped[4] == 32;
      } else {
        assert shaped[4] == open[4];
      }
    }
  }

  // ---------------------------------------------------------------------------------------
  // Reading on past edited nodes
  // ---------------------------------------------------------------------------------------

  /** One step of the transformation, in a form the readback lemmas can walk over. */
  ghost predicate Became(seg: Segment, now: seq<Segment>) {
    if seg.Other? then now == [seg]
    else
      && IsNode(seg)
      && (|| (|now| == 1 && now[0].TextNode? && IsNode(now[0]))
          || now == Units(ReplaceFinalGt(seg.open, SELF_CLOSE)))
  }

  lemma TransformBecomes(seg: Segment, logicalStart: nat, occs: seq<Occurrence>, replacement: Text)
    requires IsNode(seg) && (seg.TextNode? ==> DecodeXml(seg.encoded).Some?)
    requires TransformSegment(seg, logicalStart, occs, replacement).Some?
    ensures Became(seg, TransformSegment(seg, logicalStart, occs, replacement).value)
  {
    hide DecodeXml, EditsOf, EditedEncoded, IsOpenTag, ShapeTextOpen, ReplaceFinalGt;
    if seg.TextNode? && EditsOf(seg.encoded, logicalStart, occs, replacement) != [] {
      var encoded := EditedEncoded(seg.encoded, logicalStart, occs, replacement);
      EditedKeepsOut(seg.encoded, logicalStart, occs, replacement);
      ShapedIsOpenTag(seg.open, DecodeXml(encoded).value);
    }
  }

  /** A node that was emptied, followed by more: plain units that start with '<'. */
  lemma EmptiedRender(open: Text)
    requires IsOpenTag(open)
    ensures var s := ReplaceFinalGt(open, SELF_CLOSE);
            && RenderAll(Units(s)) == s == open[..|open| - 1] + SELF_CLOSE
            && |s| >= 6 && s[0] == LT && !(NODE_CLOSE <= s)
  {
    UnitsShowNothing(ReplaceFinalGt(open, SELF_CLOSE));
  }

  lemma NodeFront(seg: Segment, now: seq<Segment>, after: Text)
    requires seg.TextNode? && Became(seg, now)
    ensures |RenderAll(now)| >= 2 && RenderAll(now)[0] == LT && RenderAll(now)[1] == 119
    ensures !CloseFollows(RenderAll(now) + after)
  {
    if |now| == 1 && now[0].TextNode? && IsNode(now[0]) {
      assert now[1..] == [];
      assert RenderAll(now) == Render(now[0]) + [];
    } else {
      EmptiedRender(seg.open);
    }
    var s := RenderAll(now) + after;
    assert s[0] == LT && s[1] == 119;
  }

  lemma {:induction false} TagClosesSkips(s: Text, after: Text)
    requires s != [] && s[|s| - 1] == GT && forall k :: 0 <= k < |s| - 1 ==> s[k] != GT
    ensures TagCloses(s + after) <==> CloseFollows(after)
  {
    if |s| == 1 {
      assert (s + after)[1..] == after;
    } else {
      assert (s + after)[1..] == s[1..] + after;
      TagClosesSkips(s[1..], after);
    }
  }

  lemma CloseFollowsPlain(s: Text, after: Text)
    requires LT !in s
    ensures CloseFollows(s + NODE_CLOSE + after)
    decreases |s|
  {
    var t := s + NODE_CLOSE + after;
    if s == [] {
      assert t == NODE_CLOSE + after;
    } else {
      CloseFollowsPlain(s[1..], after);
      assert t[1..] == s[1..] + NODE_CLOSE + after;
    }
  }

  /** In front of a text node, an open tag finds its end inside the node's own open tag. */
  lemma NodeTagCloses(seg: Segment, after: Text)
    requires seg.TextNode? && IsNode(seg)
    ensures TagCloses(Render(seg) + after)
  {
    assert forall k :: 0 <= k < |seg.open| - 1 ==> seg.open[k] != GT by {
      assert seg.open[..4] == NODE_OPEN;
      assert forall k :: 0 <= k < 4 ==> seg.open[k] == NODE_OPEN[k];
    }
    assert Render(seg) + after == seg.open + (seg.encoded + NODE_CLOSE + after);
    TagClosesSkips(seg.open, seg.encoded + NODE_CLOSE + after);
    CloseFollowsPlain(seg.encoded, after);
  }

  /** The pieces and what each of them became. */
  ghost predicate AllBecame(segs: seq<Segment>, nows: seq<seq<Segment>>) {
    |segs| == |nows| && forall k :: 0 <= k < |segs| ==> Became(segs[k], nows[k])
  }

  function Flat(nows: seq<seq<Segment>>): seq<Segment> {
    if nows == [] then [] else nows[0] + Flat(nows[1..])
  }

  lemma FlatRender(nows: seq<seq<Segment>>)
    requires nows != []
    ensures RenderAll(Flat(nows)) == RenderAll(nows[0]) + RenderAll(Flat(nows[1..]))
  {
    RenderConcat(nows[0], Flat(nows[1..]));
  }

  lemma OtherFront(segs: seq<Segment>, nows: seq<seq<Segment>>)
    requires AllBecame(segs, nows) && segs != [] && segs[0].Other?
    ensures RenderAll(Flat(nows)) == [segs[0].u] + RenderAll(Flat(nows[1..]))
    ensures RenderAll(segs) == [segs[0].u] + RenderAll(segs[1..])
  {
    FlatRender(nows);
    assert nows[0] == [segs[0]] && [segs[0]][1..] == [];
    assert RenderAll([segs[0]]) == [segs[0].u];
  }

  /** A closing tag follows after the edit exactly when it did before. */
  lemma {:induction false} CloseFollowsSame(segs: seq<Segment>, nows: seq<seq<Segment>>)
    requires AllBecame(segs, nows)
    ensures CloseFollows(RenderAll(Flat(nows))) <==> CloseFollows(RenderAll(segs))
  {
    hide Became;
    if segs != [] {
      if segs[0].TextNode? {
        FlatRender(nows);
        NodeFront(segs[0], nows[0], RenderAll(Flat(nows[1..])));
        BecameItself(segs[0], nows[0]);
        NodeFront(segs[0], [segs[0]], RenderAll(segs[1..]));
        assert [segs[0]][1..] == [];
        assert RenderAll([segs[0]]) == Render(segs[0]);
      } else {
        OtherFront(segs, nows);
        CloseFollowsSame(segs[1..], nows[1..]);
        CloseFollowsStep(segs[0].u, segs, nows);
      }
    }
  }

  lemma BecameItself(seg: Segment, now: seq<Segment>)
    requires seg.TextNode? && Became(seg, now)
    ensures Became(seg, [seg]) && IsNode(seg)
  {
  }

  lemma CloseFollowsStep(u: Unit, segs: seq<Segment>, nows: seq<seq<Segment>>)
    requires AllBecame(segs, nows) && segs != [] && segs[0] == Other(u)
    requires CloseFollows(RenderAll(Flat(nows[1..]))) <==> CloseFollows(RenderAll(segs[1..]))
    ensures CloseFollows(RenderAll(Flat(nows))) <==> CloseFollows(RenderAll(segs))
  {
    hide Became;
    OtherFront(segs, nows);
    var a, b := RenderAll(Flat(nows)), RenderAll(segs);
    assert a[1..] == RenderAll(Flat(nows[1..])) && b[1..] == RenderAll(segs[1..]);
    if u == LT {
      SameClose(segs[1..], nows[1..]);
    }
  }

  /** Units that hold no '<' are the same before and after. */
  lemma {:induction false} SamePlain(segs: seq<Segment>, nows: seq<seq<Segment>>, n: nat)
    requires AllBecame(segs, nows)
    ensures n <= |RenderAll(Flat(nows))| && LT !in RenderAll(Flat(nows))[..n]
        <==> n <= |RenderAll(segs)| && LT !in RenderAll(segs)[..n]
    ensures n <= |RenderAll(Flat(nows))| && LT !in RenderAll(Flat(nows))[..n] ==>
              && n <= |segs| && n <= |nows|
              && RenderAll(Flat(nows))[..n] == RenderAll(segs)[..n]
              && RenderAll(Flat(nows))[n..] == RenderAll(Flat(nows[n..]))
              && RenderAll(segs)[n..] == RenderAll(segs[n..])
    decreases n
  {
    hide Became, RenderAll, Flat, IsNode, Render;
    var a, b := RenderAll(Flat(nows)), RenderAll(segs);
    if segs == [] {
      RenderNothing();
    } else if n == 0 {
      assert nows[0..] == nows && segs[0..] == segs;
    } else if segs[0].TextNode? {
      NodeFirst(segs, nows);
    } else {
      OtherFront(segs, nows);
      SamePlain(segs[1..], nows[1..], n - 1);
      var u := segs[0].u;
      PlainCons(u, RenderAll(Flat(nows[1..])), n - 1);
      PlainCons(u, RenderAll(segs[1..]), n - 1);
      if n <= |segs| {
        assert nows[1..][n - 1..] == nows[n..];
        assert segs[1..][n - 1..] == segs[n..];
      }
    }
  }

  lemma RenderNothing()
    ensures Flat([]) == [] && RenderAll([]) == []
  {
  }

  lemma NodeFirst(segs: seq<Segment>, nows: seq<seq<Segment>>)
    requires AllBecame(segs, nows) && segs != [] && segs[0].TextNode?
    ensures RenderAll(Flat(nows)) != [] && RenderAll(Flat(nows))[0] == LT
    ensures RenderAll(segs) != [] && RenderAll(segs)[0] == LT
  {
    hide Became, IsNode;
    FlatRender(nows);
    NodeFront(segs[0], nows[0], []);
    BecameItself(segs[0], nows[0]);
    NodeFront(segs[0], [segs[0]], []);
    assert [segs[0]][1..] == [];
    assert RenderAll([segs[0]]) == Render(segs[0]);
  }

  lemma PlainCons(u: Unit, s: Text, n: nat)
    ensures n + 1 <= |[u] + s| && LT !in ([u] + s)[..n + 1] <==> u != LT && n <= |s| && LT !in s[..n]
    ensures n <= |s| ==> ([u] + s)[..n + 1] == [u] + s[..n] && ([u] + s)[n + 1..] == s[n..]
  {
    if n <= |s| {
      assert ([u] + s)[..n + 1] == [u] + s[..n];
    }
  }

  /** Whether '<' starts a closing tag is decided by plain units alone. */
  lemma SameClose(segs: seq<Segment>, nows: seq<seq<Segment>>)
    requires AllBecame(segs, nows)
    ensures NODE_CLOSE <= [LT] + RenderAll(Flat(nows)) <==> NODE_CLOSE <= [LT] + RenderAll(segs)
  {
    hide Became;
    SamePlain(segs, nows, 5);
    CloseTail(RenderAll(Flat(nows)));
    CloseTail(RenderAll(segs));
  }

  lemma CloseTail(s: Text)
    ensures NODE_CLOSE <= [LT] + s <==> |s| >= 5 && LT !in s[..5] && s[..5] == NODE_CLOSE[1..]
  {
    assert NODE_CLOSE == [LT] + NODE_CLOSE[1..];
    if |s| >= 5 {
      assert ([LT] + s)[..6] == [LT] + s[..5];
      if s[..5] == NODE_CLOSE[1..] {
        assert ([LT] + s)[..6] == NODE_CLOSE;
      }
    }
    if NODE_CLOSE <= [LT] + s {
      assert ([LT] + s)[..6] == NODE_CLOSE;
      assert s[..5] == ([LT] + s)[..6][1..];
    }
  }

  /** An open tag that closes after the edit closed before it. */
  lemma {:induction false} TagClosesOnlyBefore(segs: seq<Segment>, nows: seq<seq<Segment>>)
    requires AllBecame(segs, nows)
    requires TagCloses(RenderAll(Flat(nows)))
    ensures TagCloses(RenderAll(segs))
  {
    hide Became;
    if segs != [] {
      if segs[0].TextNode? {
        BecameItself(segs[0], nows[0]);
        NodeTagCloses(segs[0], RenderAll(segs[1..]));
      } else {
        OtherFront(segs, nows);
        var a, b := RenderAll(Flat(nows)), RenderAll(segs);
        assert a[1..] == RenderAll(Flat(nows[1..])) && b[1..] == RenderAll(segs[1..]);
        if segs[0].u == GT {
          CloseFollowsSame(segs[1..], nows[1..]);
        } else {
          TagClosesOnlyBefore(segs[1..], nows[1..]);
        }
      }
    }
  }

  /** Units that the node pattern did not match are not matched after the edit either. */
  lemma OtherStaysOther(segs: seq<Segment>, nows: seq<seq<Segment>>)
    requires AllBecame(segs, nows) && segs != [] && segs[0].Other?
    requires MatchNode(RenderAll(segs)).None?
    ensures MatchNode(RenderAll(Flat(nows))).None?
  {
    hide Became, MatchNode, RenderAll, Flat, TagCloses, Render, IsNode;
    OtherFront(segs, nows);
    var a, b := RenderAll(Flat(nows)), RenderAll(segs);
    MatchIff(a);
    MatchIff(b);
    if StartsOpenTag(a) && TagCloses(a[4..]) {
      var rest, restNows := segs[1..], nows[1..];
      var sa, sb := RenderAll(Flat(restNows)), RenderAll(rest);
      OpenTagFront(segs[0].u, sa);
      SamePlain(rest, restNows, 4);
      SamePlain(rest, restNows, 3);
      assert a[4..] == sa[3..] && b[4..] == sb[3..];
      assert AllBecame(rest[3..], restNows[3..]);
      TagClosesOnlyBefore(rest[3..], restNows[3..]);
    }
  }

  lemma OpenTagFront(u: Unit, s: Text)
    requires StartsOpenTag([u] + s)
    ensures u == LT && |s| >= 4 && LT !in s[..4] && LT !in s[..3]
  {
    var t := [u] + s;
    assert t[0] == NODE_OPEN[0] && t[1] == NODE_OPEN[1] && t[2] == NODE_OPEN[2] && t[3] == NODE_OPEN[3];
    assert s[0] == t[1] && s[1] == t[2] && s[2] == t[3] && s[3] == t[4];
  }

  lemma SelfClosedShape(open: Text)
    requires IsOpenTag(open)
    ensures var w := ReplaceFinalGt(open, SELF_CLOSE);
            |w| == |open| + 1 && w[|open|] == GT && forall k :: 0 <= k < |open| ==> w[k] != GT
  {
    var w := ReplaceFinalGt(open, SELF_CLOSE);
    assert w == open[..|open| - 1] + SELF_CLOSE;
    assert open[..4] == NODE_OPEN;
    assert forall k :: 0 <= k < 4 ==> open[k] == open[..4][k] && open[..4][k] != GT;
    assert forall k :: 0 <= k < |open| - 1 ==> w[k] == open[k];
  }

  /** A string whose only '>' is its last unit matches no node unless a closing tag follows it. */
  lemma TagAloneNoNode(s: Text, after: Text)
    requires s != [] && s[|s| - 1] == GT && forall k :: 0 <= k < |s| - 1 ==> s[k] != GT
    requires !CloseFollows(after)
    ensures MatchNode(s + after).None?
  {
    hide MatchNode, CloseFollows;
    var t := s + after;
    MatchIff(t);
    if StartsOpenTag(t) {
      assert forall k :: 0 <= k < 4 ==> t[k] == NODE_OPEN[k] && NODE_OPEN[k] != GT;
      assert t[|s| - 1] == GT;
      assert |s| > 4;
      assert t[4..] == s[4..] + after;
      TagClosesSkips(s[4..], after);
    }
  }

  /** No node starts inside the self-closed tag of an emptied node. */
  lemma SelfClosedNoNode(open: Text, i: nat, after: Text)
    requires IsOpenTag(open) && !CloseFollows(after)
    requires i < |open| + 1
    ensures |ReplaceFinalGt(open, SELF_CLOSE)| == |open| + 1
    ensures MatchNode(ReplaceFinalGt(open, SELF_CLOSE)[i..] + after).None?
  {
    hide MatchNode, CloseFollows, IsOpenTag, ReplaceFinalGt;
    SelfClosedShape(open);
    TagAloneNoNode(ReplaceFinalGt(open, SELF_CLOSE)[i..], after);
  }

  lemma UnitsStable(open: Text, i: nat, after: seq<Segment>)
    requires IsOpenTag(open) && Stable(after) && !CloseFollows(RenderAll(after))
    requires |ReplaceFinalGt(open, SELF_CLOSE)| == |open| + 1 && i <= |open| + 1
    ensures Stable(Units(ReplaceFinalGt(open, SELF_CLOSE)[i..]) + after)
    decreases |open| + 1 - i
  {
    hide MatchNode, IsOpenTag, ReplaceFinalGt;
    var s := ReplaceFinalGt(open, SELF_CLOSE)[i..];
    if s == [] {
      assert Units(s) + after == after;
    } else {
      UnitsStable(open, i + 1, after);
      assert s[1..] == ReplaceFinalGt(open, SELF_CLOSE)[i + 1..];
      var segs := Units(s) + after;
      assert segs[0] == Other(s[0]) && segs[1..] == Units(s[1..]) + after;
      UnitsShowNothing(s);
      RenderConcat(Units(s), after);
      SelfClosedNoNode(open, i, RenderAll(after));
    }
  }

  /** The edited pieces are what cutting the edited raw text finds. */
  lemma {:induction false} StableAfterEdit(segs: seq<Segment>, nows: seq<seq<Segment>>)
    requires AllBecame(segs, nows)
    requires Stable(segs) && NothingDangling(segs)
    ensures Stable(Flat(nows))
  {
    hide MatchNode, IsNode, CloseFollows, IsOpenTag, ReplaceFinalGt;
    if segs != [] {
      StableAfterEdit(segs[1..], nows[1..]);
      CloseFollowsSame(segs[1..], nows[1..]);
      var now, rest := nows[0], Flat(nows[1..]);
      if segs[0].Other? {
        OtherStaysOther(segs, nows);
        assert Flat(nows)[0] == segs[0] && Flat(nows)[1..] == rest;
      } else if now == Units(ReplaceFinalGt(segs[0].open, SELF_CLOSE)) {
        NodeOpens(segs[0]);
        SelfClosedNoNode(segs[0].open, 0, RenderAll(rest));
        UnitsStable(segs[0].open, 0, rest);
        var w := ReplaceFinalGt(segs[0].open, SELF_CLOSE);
        assert w[0..] == w;
      } else {
        assert Flat(nows)[0] == now[0] && Flat(nows)[1..] == rest;
      }
    }
  }

  lemma NodeOpens(seg: Segment)
    requires seg.TextNode? && IsNode(seg)
    ensures IsOpenTag(seg.open)
  {
  }

  /** The pieces of the transformation, node by node. */
  lemma {:induction false} TransformPieces(segs: seq<Segment>, logicalStart: nat, occs: seq<Occurrence>,
                                           replacement: Text)
    returns (nows: seq<seq<Segment>>)
    requires VisibleOf(segs).Some? && TransformAll(segs, logicalStart, occs, replacement).Some?
    requires forall k :: 0 <= k < |segs| ==> IsNode(segs[k])
    ensures AllBecame(segs, nows) && Flat(nows) == TransformAll(segs, logicalStart, occs, replacement).value
  {
    hide DecodeXml, TransformSegment, Became, IsNode;
    if segs == [] {
      nows := [];
    } else {
      TransformBecomes(segs[0], logicalStart, occs, replacement);
      var rest := TransformPieces(segs[1..], logicalStart + Width(segs[0]), occs, replacement);
      var first := TransformSegment(segs[0], logicalStart, occs, replacement).value;
      nows := [first] + rest;
      assert nows[1..] == rest;
    }
  }

  /** Cutting the transformed raw text gives the transformed pieces. */
  lemma TransformReadsBack(raw: Text, occs: seq<Occurrence>, replacement: Text)
    requires VisibleText(raw).Some? && TransformAll(Scan(raw), 0, occs, replacement).Some?
    requires NothingDangling(Scan(raw))
    ensures var now := TransformAll(Scan(raw), 0, occs, replacement).value;
            Scan(RenderAll(now)) == now
  {
    hide TransformAll, Scan, Became, MatchNode;
    ScanRender(raw);
    ScanStable(raw);
    var nows := TransformPieces(Scan(raw), 0, occs, replacement);
    StableAfterEdit(Scan(raw), nows);
    StableScan(Flat(nows));
  }
}
