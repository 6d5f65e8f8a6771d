/**
 The text nodes of a WordprocessingML paragraph: how the node pattern of
 src/local/docx-mutation.js cuts a raw paragraph, and what the paragraph's visible text is.
 */
module ParagraphText {
  import opened Wrappers
  import opened JsStrings
  import opened XmlText
  import opened TextOffsets

  const NODE_OPEN: Text := [60, 119, 58, 116]           // <w:t
  const NODE_CLOSE: Text := [60, 47, 119, 58, 116, 62]  // </w:t>

  /** White space as \s of a pattern with the unicode flag reads it. */
  predicate IsSpace(u: Unit) {
    9 <= u <= 13 || u == 32 || u == 160 || u == 0x1680 || 0x2000 <= u <= 0x200A
    || u == 0x2028 || u == 0x2029 || u == 0x202F || u == 0x205F || u == 0x3000 || u == 0xFEFF
  }

  function FirstAt(s: Text, u: Unit, from: nat): (i: Option<nat>)
    ensures i.Some? ==> from <= i.value < |s| && s[i.value] == u
    ensures i.Some? ==> forall k :: from <= k < i.value ==> s[k] != u
    ensures i.None? ==> forall k :: from <= k < |s| ==> s[k] != u
    decreases |s| - from
  {
    if from >= |s| then None else if s[from] == u then Some(from) else FirstAt(s, u, from + 1)
  }

  predicate StartsOpenTag(s: Text) {
    |s| > 4 && NODE_OPEN <= s && (s[4] == GT || IsSpace(s[4]))
  }

  /** Lengths of the open tag and of the encoded text of a node that starts at the front of s. */
  function MatchNode(s: Text): (m: Option<(nat, nat)>)
    ensures m.Some? ==> m.value.0 + m.value.1 + |NODE_CLOSE| <= |s|
    ensures m.Some? ==> m.value.0 >= 5
  {
    if !StartsOpenTag(s) then None
    else
      var close := FirstAt(s, GT, 4);
      if close.None? then None
      else
        var next := FirstAt(s, LT, close.value + 1);
        if next.None? || !(NODE_CLOSE <= s[next.value..]) then None
        else Some((close.value + 1, next.value - close.value - 1))
  }

  /** A piece of a paragraph: one unit outside every text node, or a text node. */
  datatype Segment = Other(u: Unit) | TextNode(open: Text, encoded: Text)

  function Render(seg: Segment): Text {
    if seg.Other? then [seg.u] else seg.open + seg.encoded + NODE_CLOSE
  }

  function RenderAll(segs: seq<Segment>): Text {
    if segs == [] then [] else Render(segs[0]) + RenderAll(segs[1..])
  }

  /** The repeated global match over a raw paragraph. */
  function Scan(raw: Text): seq<Segment>
    decreases |raw|
  {
    if raw == [] then []
    else
      var m := MatchNode(raw);
      if m.None? then [Other(raw[0])] + Scan(raw[1..])
      else
        var (o, e) := m.value;
        [TextNode(raw[..o], raw[o..o + e])] + Scan(raw[o + e + |NODE_CLOSE|..])
  }

  /** An open tag as the pattern accepts it: one '>' and it is the last unit. */
  predicate IsOpenTag(open: Text) {
    |open| >= 5 && NODE_OPEN <= open && (open[4] == GT || IsSpace(open[4]))
    && open[|open| - 1] == GT && forall k :: 4 <= k < |open| - 1 ==> open[k] != GT
  }

  predicate IsNode(seg: Segment) {
    seg.TextNode? ==> IsOpenTag(seg.open) && LT !in seg.encoded
  }

  lemma MatchedNode(raw: Text)
    requires MatchNode(raw).Some?
    ensures var (o, e) := MatchNode(raw).value;
            && IsNode(TextNode(raw[..o], raw[o..o + e]))
            && raw == Render(TextNode(raw[..o], raw[o..o + e])) + raw[o + e + |NODE_CLOSE|..]
  {
    var (o, e) := MatchNode(raw).value;
    assert raw[o + e..][..|NODE_CLOSE|] == NODE_CLOSE;
    CutInFour(raw, o, o + e, o + e + |NODE_CLOSE|);
    assert raw[o + e..o + e + |NODE_CLOSE|] == raw[o + e..][..|NODE_CLOSE|];
  }

  lemma CutInFour(s: Text, a: nat, b: nat, c: nat)
    requires a <= b <= c <= |s|
    ensures s == s[..a] + s[a..b] + s[b..c] + s[c..]
  {
  }

  /** The pieces of a paragraph are the paragraph. */
  lemma {:induction false} ScanRender(raw: Text)
    ensures RenderAll(Scan(raw)) == raw
    ensures forall k :: 0 <= k < |Scan(raw)| ==> IsNode(Scan(raw)[k])
    decreases |raw|
  {
    if raw != [] {
      var m := MatchNode(raw);
      if m.None? {
        ScanRender(raw[1..]);
      } else {
        MatchedNode(raw);
        var (o, e) := m.value;
        hide MatchNode, IsNode;
        ScanRender(raw[o + e + |NODE_CLOSE|..]);
      }
    }
  }

  /** Decoded text of the text nodes, in order. */
  function VisibleOf(segs: seq<Segment>): Option<Text> {
    if segs == [] then Some([])
    else if segs[0].Other? then VisibleOf(segs[1..])
    else Join(DecodeXml(segs[0].encoded), VisibleOf(segs[1..]))
  }

  /** The paragraph's visible text; None when a numeric reference names no code point. */
  function VisibleText(raw: Text): Option<Text> {
    VisibleOf(Scan(raw))
  }

  lemma {:induction false} VisibleConcat(a: seq<Segment>, b: seq<Segment>)
    ensures VisibleOf(a + b) == Join(VisibleOf(a), VisibleOf(b))
  {
    if a == [] {
      assert a + b == b;
      if VisibleOf(b).Some? {
        assert [] + VisibleOf(b).value == VisibleOf(b).value;
      }
    } else {
      assert (a + b)[0] == a[0] && (a + b)[1..] == a[1..] + b;
      VisibleConcat(a[1..], b);
      if a[0].TextNode? {
        JoinAssoc(DecodeXml(a[0].encoded), VisibleOf(a[1..]), VisibleOf(b));
      }
    }
  }

  lemma {:induction false} RenderConcat(a: seq<Segment>, b: seq<Segment>)
    ensures RenderAll(a + b) == RenderAll(a) + RenderAll(b)
  {
    if a == [] {
      assert a + b == b;
    } else {
      assert (a + b)[0] == a[0] && (a + b)[1..] == a[1..] + b;
      RenderConcat(a[1..], b);
    }
  }

  datatype Node = Node(open: Text, encoded: Text, text: Text, rawOffsets: seq<nat>,
                       rawStart: nat, rawEnd: nat, logicalStart: nat, logicalEnd: nat)

  datatype Paragraph = Paragraph(raw: Text, nodes: seq<Node>, text: Text)

  function NodeAt(open: Text, encoded: Text, rawStart: nat, logicalStart: nat): Node
    requires DecodeXml(encoded).Some?
  {
    var text := DecodeXml(encoded).value;
    Node(open, encoded, text, RawOffsets(encoded),
         rawStart, rawStart + |open| + |encoded| + |NODE_CLOSE|, logicalStart, logicalStart + |text|)
  }

  /** The node records of paragraphContainers for the pieces from a raw and a logical position. */
  function NodesOf(segs: seq<Segment>, rawStart: nat, logicalStart: nat): seq<Node>
    requires VisibleOf(segs).Some?
  {
    if segs == [] then []
    else if segs[0].Other? then NodesOf(segs[1..], rawStart + 1, logicalStart)
    else
      var node := NodeAt(segs[0].open, segs[0].encoded, rawStart, logicalStart);
      [node] + NodesOf(segs[1..], node.rawEnd, node.logicalEnd)
  }

  /** A paragraph record as paragraphContainers builds it from its raw text. */
  ghost predicate IsParagraph(p: Paragraph) {
    && VisibleText(p.raw) == Some(p.text)
    && p.nodes == NodesOf(Scan(p.raw), 0, 0)
  }

  /** The node loop part way: the pieces before position are in nodes and text. */
  ghost predicate PartlyScanned(raw: Text, nodes: seq<Node>, text: Text, position: nat) {
    && position <= |raw|
    && VisibleText(raw) == Join(Some(text), VisibleOf(Scan(raw[position..])))
    && (VisibleText(raw).Some? ==>
          NodesOf(Scan(raw), 0, 0) == nodes + NodesOf(Scan(raw[position..]), position, |text|))
  }

  lemma ScanStart(raw: Text)
    ensures PartlyScanned(raw, [], [], 0)
  {
    hide Scan, VisibleOf, NodesOf;
    assert raw[0..] == raw;
    if VisibleText(raw).Some? {
      assert [] + VisibleText(raw).value == VisibleText(raw).value;
      assert [] + NodesOf(Scan(raw), 0, 0) == NodesOf(Scan(raw), 0, 0);
    }
  }

  lemma ScanEnd(raw: Text, nodes: seq<Node>, text: Text)
    requires PartlyScanned(raw, nodes, text, |raw|)
    ensures IsParagraph(Paragraph(raw, nodes, text))
  {
    assert raw[|raw|..] == [] && Scan([]) == [];
    assert text + [] == text && nodes + [] == nodes;
  }

  lemma NodesOther(rest: Text, position: nat, logical: nat)
    requires rest != [] && MatchNode(rest).None?
    ensures VisibleOf(Scan(rest)) == VisibleOf(Scan(rest[1..]))
    ensures VisibleOf(Scan(rest)).Some? ==>
              NodesOf(Scan(rest), position, logical) == NodesOf(Scan(rest[1..]), position + 1, logical)
  {
    hide MatchNode;
    var segs := Scan(rest);
    assert segs[1..] == Scan(rest[1..]);
  }

  lemma NodesNode(rest: Text, position: nat, logical: nat, o: nat, e: nat)
    requires rest != [] && MatchNode(rest) == Some((o, e))
    ensures VisibleOf(Scan(rest))
         == Join(DecodeXml(rest[o..o + e]), VisibleOf(Scan(rest[o + e + |NODE_CLOSE|..])))
    ensures VisibleOf(Scan(rest)).Some? ==>
              var node := NodeAt(rest[..o], rest[o..o + e], position, logical);
              NodesOf(Scan(rest), position, logical)
              == [node] + NodesOf(Scan(rest[o + e + |NODE_CLOSE|..]), node.rawEnd, node.logicalEnd)
  {
    hide MatchNode, DecodeXml, RawOffsets;
    var segs := Scan(rest);
    assert segs[1..] == Scan(rest[o + e + |NODE_CLOSE|..]);
  }

  lemma ScanOther(raw: Text, nodes: seq<Node>, text: Text, position: nat)
    requires PartlyScanned(raw, nodes, text, position) && position < |raw|
    requires MatchNode(raw[position..]).None?
    ensures PartlyScanned(raw, nodes, text, position + 1)
  {
    hide Scan, VisibleOf, NodesOf, MatchNode;
    assert raw[position..][1..] == raw[position + 1..];
    NodesOther(raw[position..], position, |text|);
  }

  lemma ScanNode(raw: Text, nodes: seq<Node>, text: Text, position: nat, o: nat, e: nat)
    requires PartlyScanned(raw, nodes, text, position) && position < |raw|
    requires MatchNode(raw[position..]) == Some((o, e))
    requires DecodeXml(raw[position..][o..o + e]).Some?
    ensures var node := NodeAt(raw[position..][..o], raw[position..][o..o + e], position, |text|);
            PartlyScanned(raw, nodes + [node], text + node.text, node.rawEnd)
  {
    hide Scan, VisibleOf, NodesOf, MatchNode, DecodeXml, RawOffsets;
    var rest := raw[position..];
    var after := position + o + e + |NODE_CLOSE|;
    assert rest[o + e + |NODE_CLOSE|..] == raw[after..];
    NodesNode(rest, position, |text|, o, e);
    JoinAssoc(Some(text), DecodeXml(rest[o..o + e]), VisibleOf(Scan(raw[after..])));
  }

  /** paragraphContainers on one paragraph; None is the RangeError of a numeric reference. */
  method ParagraphContainer(raw: Text) returns (p: Option<Paragraph>)
    ensures p.None? <==> VisibleText(raw).None?
    ensures p.Some? ==> p.value.raw == raw && IsParagraph(p.value)
  {
    hide MatchNode, DecodeXml, RawOffsets, Scan, VisibleOf, NodesOf;
    var nodes: seq<Node> := [];
    var text: Text := [];
    var position: nat := 0;
    var logicalOffset: nat := 0;
    ScanStart(raw);
    while position < |raw|
      invariant logicalOffset == |text|
      invariant PartlyScanned(raw, nodes, text, position)
    {
      var rest := raw[position..];
      var m := MatchNode(rest);
      if m.None? {
        ScanOther(raw, nodes, text, position);
        position := position + 1;
      } else {
        var (o, e) := m.value;
        var decoded := DecodeTextWithRawOffsets(rest[o..o + e]);
        NodesNode(rest, position, |text|, o, e);
        if decoded.None? {
          return None;
        }
        ScanNode(raw, nodes, text, position, o, e);
        var end := position + o + e + |NODE_CLOSE|;
        nodes := nodes + [Node(rest[..o], rest[o..o + e], decoded.value.0, decoded.value.1,
                               position, end, logicalOffset, logicalOffset + |decoded.value.0|)];
        text := text + decoded.value.0;
        logicalOffset := logicalOffset + |decoded.value.0|;
        position := end;
      }
    }
    ScanEnd(raw, nodes, text);
    p := Some(Paragraph(raw, nodes, text));
  }
}
