/**
 The offset map from visible text to encoded text (decodeTextWithRawOffsets in
 src/local/docx-mutation.js).
 */
module TextOffsets {
  import opened Wrappers
  import opened JsStrings
  import opened XmlText

  /** How much of s one turn of the decoding loop consumes. */
  function ChunkLength(s: Text): (n: nat)
    requires s != []
    ensures 0 < n <= |s|
  {
    if ReferenceLength(s) > 0 then ReferenceLength(s)
    else if High(s[0]) && |s| > 1 && Low(s[1]) then 2
    else 1
  }

  /** What one turn of the decoding loop appends to the text. */
  function ChunkText(s: Text): (t: Option<Text>)
    requires s != []
    ensures t.Some? ==> |t.value| == 1 || (|t.value| == 2 && High(t.value[0]) && Low(t.value[1]))
  {
    if ReferenceLength(s) > 0 then ReferenceText(s) else Some(s[..ChunkLength(s)])
  }

  /** The loop's chunks decode to what the pattern replacement of decodeXml decodes. */
  lemma ChunkDecode(s: Text)
    requires s != []
    ensures DecodeXml(s) == Join(ChunkText(s), DecodeXml(s[ChunkLength(s)..]))
  {
    var n := ChunkLength(s);
    if ReferenceLength(s) == 0 {
      if n == 2 {
        assert ReferenceLength(s[1..]) == 0;
        assert s[1..][1..] == s[2..];
        JoinAssoc(Some([s[0]]), Some([s[1]]), DecodeXml(s[2..]));
        assert [s[0]] + [s[1]] == s[..2];
      } else {
        assert s[..1] == [s[0]];
      }
    }
  }

  /** Raw offset of text position k: inside a two-unit chunk it is where the chunk starts. */
  function RawOffset(s: Text, k: nat): (o: nat)
    requires DecodeXml(s).Some? && k <= |DecodeXml(s).value|
    ensures o <= |s|
  {
    if k == 0 then 0
    else
      ChunkDecode(s);
      var n, c := ChunkLength(s), ChunkText(s).value;
      if k < |c| then 0 else n + RawOffset(s[n..], k - |c|)
  }

  function RawOffsets(s: Text): seq<nat>
    requires DecodeXml(s).Some?
  {
    seq(|DecodeXml(s).value| + 1, k requires 0 <= k <= |DecodeXml(s).value| => RawOffset(s, k))
  }

  /** Position k of the text lies between the halves of a surrogate pair. */
  predicate SplitsPair(text: Text, k: nat) {
    0 < k < |text| && High(text[k - 1]) && Low(text[k])
  }

  lemma NoReferenceInPrefix(s: Text, m: nat)
    requires ReferenceLength(s) == 0 && m <= |s|
    ensures ReferenceLength(s[..m]) == 0
  {
    assert s[..m] + s[m..] == s;
    if ReferenceLength(s[..m]) > 0 {
      ReferenceExtend(s[..m], s[m..]);
    }
  }

  /** A prefix that holds the first chunk of s has the same first chunk. */
  lemma ChunkOfPrefix(s: Text, m: nat)
    requires s != [] && ChunkLength(s) <= m <= |s|
    ensures ReferenceLength(s[..m]) == ReferenceLength(s)
    ensures ChunkLength(s[..m]) == ChunkLength(s) && ChunkText(s[..m]) == ChunkText(s)
  {
    hide ReferenceLength, ReferenceText, DecodeXml;
    if ReferenceLength(s) > 0 {
      ReferenceTake(s, m);
    } else {
      NoReferenceInPrefix(s, m);
      assert s[..m][..ChunkLength(s)] == s[..ChunkLength(s)];
    }
  }

  /** A cut past the start, seen from the end of the first chunk. */
  lemma CutStep(s: Text, k: nat)
    requires DecodeXml(s).Some? && 0 < k <= |DecodeXml(s).value|
    requires !SplitsPair(DecodeXml(s).value, k)
    ensures s != [] && ChunkText(s).Some? && DecodeXml(s[ChunkLength(s)..]).Some?
    ensures var n, c, rest := ChunkLength(s), ChunkText(s).value, DecodeXml(s[ChunkLength(s)..]).value;
            && DecodeXml(s).value == c + rest
            && |c| <= k <= |c| + |rest| && !SplitsPair(rest, k - |c|)
            && var o := RawOffset(s[n..], k - |c|);
            && RawOffset(s, k) == n + o
            && s[n + o..] == s[n..][o..]
            && s[..n + o][n..] == s[n..][..o]
            && s[..n + o] != []
  {
    hide ReferenceLength, ReferenceText, DecodeXml, ChunkLength, ChunkText;
    EmptyDecodes();
    ChunkDecode(s);
  }

  /** At a position that splits no pair the raw text can be cut: both halves decode to the
      matching halves of the text. */
  lemma {:induction false} CutAt(s: Text, k: nat)
    requires DecodeXml(s).Some? && k <= |DecodeXml(s).value|
    requires !SplitsPair(DecodeXml(s).value, k)
    ensures DecodeXml(s[..RawOffset(s, k)]) == Some(DecodeXml(s).value[..k])
    ensures DecodeXml(s[RawOffset(s, k)..]) == Some(DecodeXml(s).value[k..])
    decreases |s|
  {
    hide ReferenceLength, ReferenceText, DecodeXml, ChunkLength, ChunkText;
    if k == 0 {
      assert s[..0] == [] && s[0..] == s;
      EmptyDecodes();
    } else {
      CutStep(s, k);
      hide RawOffset;
      var n, c := ChunkLength(s), ChunkText(s).value;
      var rest := DecodeXml(s[n..]).value;
      CutAt(s[n..], k - |c|);
      assert (c + rest)[k..] == rest[k - |c|..];
      assert (c + rest)[..k] == c + rest[..k - |c|];
      ChunkOfPrefix(s, RawOffset(s, k));
      ChunkDecode(s[..RawOffset(s, k)]);
    }
  }

  /** Offsets to the right of a cut are the offsets of the right half. */
  lemma {:induction false} OffsetPastCut(s: Text, k: nat, j: nat)
    requires DecodeXml(s).Some? && k <= j <= |DecodeXml(s).value|
    requires !SplitsPair(DecodeXml(s).value, k)
    ensures DecodeXml(s[RawOffset(s, k)..]) == Some(DecodeXml(s).value[k..])
    ensures RawOffset(s, j) == RawOffset(s, k) + RawOffset(s[RawOffset(s, k)..], j - k)
    decreases |s|
  {
    hide ReferenceLength, ReferenceText, DecodeXml, ChunkLength, ChunkText;
    CutAt(s, k);
    if k == 0 {
      FirstOffset(s);
      assert s[0..] == s;
    } else {
      CutStep(s, k);
      var n, c := ChunkLength(s), ChunkText(s).value;
      assert RawOffset(s, j) == n + RawOffset(s[n..], j - |c|);
      hide *;
      OffsetPastCut(s[n..], k - |c|, j - |c|);
    }
  }

  /** On well-formed or any other input, the raw slice between two cuts decodes to the text
      slice between them. */
  lemma SliceDecodes(s: Text, a: nat, b: nat)
    requires DecodeXml(s).Some? && a <= b <= |DecodeXml(s).value|
    requires !SplitsPair(DecodeXml(s).value, a) && !SplitsPair(DecodeXml(s).value, b)
    ensures RawOffset(s, a) <= RawOffset(s, b) <= |s|
    ensures DecodeXml(s[RawOffset(s, a)..RawOffset(s, b)]) == Some(DecodeXml(s).value[a..b])
    ensures DecodeXml(s[RawOffset(s, b)..]) == Some(DecodeXml(s).value[b..])
  {
    hide ReferenceLength, ReferenceText, DecodeXml, ChunkLength, ChunkText;
    OffsetPastCut(s, a, b);
    CutAt(s, b);
    var o := RawOffset(s, a);
    var right := s[o..];
    assert !SplitsPair(DecodeXml(right).value, b - a);
    CutAt(right, b - a);
    var p := RawOffset(right, b - a);
    assert right[..p] == s[o..o + p];
    assert DecodeXml(s).value[a..][..b - a] == DecodeXml(s).value[a..b];
  }

  /** Offsets never decrease. */
  lemma {:induction false} OffsetsMonotone(s: Text, j: nat, k: nat)
    requires DecodeXml(s).Some? && j <= k <= |DecodeXml(s).value|
    ensures RawOffset(s, j) <= RawOffset(s, k)
    decreases |s|
  {
    hide ReferenceLength, ReferenceText, DecodeXml, ChunkLength, ChunkText;
    if j > 0 {
      EmptyDecodes();
      ChunkDecode(s);
      var n, c := ChunkLength(s), ChunkText(s).value;
      if j >= |c| {
        OffsetsMonotone(s[n..], j - |c|, k - |c|);
      }
    }
  }

  /** The last offset is the end of the encoded text. */
  lemma {:induction false} LastOffset(s: Text)
    requires DecodeXml(s).Some?
    ensures RawOffset(s, |DecodeXml(s).value|) == |s|
    decreases |s|
  {
    hide ReferenceLength, ReferenceText, DecodeXml, ChunkLength, ChunkText;
    if s != [] {
      ChunkDecode(s);
      LastOffset(s[ChunkLength(s)..]);
    }
  }

  /** Well-formed text stays well formed on both sides of a cut. */
  lemma {:induction false} WellFormedCut(s: Text, k: nat)
    requires DecodeXml(s).Some? && k <= |DecodeXml(s).value|
    requires !SplitsPair(DecodeXml(s).value, k)
    requires WellFormed(s)
    ensures WellFormed(s[..RawOffset(s, k)]) && WellFormed(s[RawOffset(s, k)..])
    decreases |s|
  {
    hide *;
    if k == 0 {
      FirstOffset(s);
      EmptyDecodes();
      assert s[..0] == [] && s[0..] == s;
    } else {
      CutStep(s, k);
      WellFormedAfterChunk(s);
      WellFormedCut(s[ChunkLength(s)..], k - |ChunkText(s).value|);
      ChunkOfPrefix(s, RawOffset(s, k));
      WellFormedFromChunk(s, s[..RawOffset(s, k)]);
    }
  }

  lemma WellFormedAfterChunk(s: Text)
    requires s != [] && WellFormed(s)
    ensures WellFormed(s[ChunkLength(s)..])
  {
    if ReferenceLength(s) == 0 && ChunkLength(s) == 2 {
      assert ReferenceLength(s[1..]) == 0;
      assert s[1..][1..] == s[2..];
    }
  }

  lemma WellFormedFromChunk(s: Text, left: Text)
    requires s != [] && WellFormed(s) && left != [] && left[0] == s[0]
    requires ReferenceLength(left) == ReferenceLength(s)
    requires WellFormed(left[ChunkLength(left)..])
    ensures WellFormed(left)
  {
    if ReferenceLength(left) == 0 && ChunkLength(left) == 2 {
      assert ReferenceLength(left[1..]) == 0;
      assert left[1..][1..] == left[2..];
    }
  }

  /** The loop of decodeTextWithRawOffsets, part way: text and offsets so far, and how the
      offsets still to come follow from the rest of the input. */
  ghost predicate PartlyDecoded(encoded: Text, text: Text, rawOffsets: seq<nat>, rawIndex: nat) {
    && rawIndex <= |encoded|
    && DecodeXml(encoded) == Join(Some(text), DecodeXml(encoded[rawIndex..]))
    && |rawOffsets| == |text| + 1
    && (DecodeXml(encoded).Some? ==>
          && (forall k :: 0 <= k < |rawOffsets| ==> rawOffsets[k] == RawOffset(encoded, k))
          && (forall j :: 0 <= j <= |DecodeXml(encoded[rawIndex..]).value| ==>
                RawOffset(encoded, |text| + j) == rawIndex + RawOffset(encoded[rawIndex..], j)))
  }

  lemma ChunkOffsets(rest: Text, j: nat)
    requires rest != [] && DecodeXml(rest).Some?
    requires ChunkText(rest).Some? && DecodeXml(rest[ChunkLength(rest)..]).Some?
    requires j <= |DecodeXml(rest).value|
    ensures var n, c := ChunkLength(rest), ChunkText(rest).value;
            && (0 < j < |c| ==> RawOffset(rest, j) == 0)
            && (|c| <= j <= |DecodeXml(rest).value| ==>
                  j - |c| <= |DecodeXml(rest[n..]).value|
                  && RawOffset(rest, j) == n + RawOffset(rest[n..], j - |c|))
  {
    hide ReferenceLength, ReferenceText, DecodeXml, ChunkLength, ChunkText;
    ChunkDecode(rest);
  }

  lemma DecodeOneMore(encoded: Text, text: Text, rawOffsets: seq<nat>, rawIndex: nat, more: seq<nat>)
    requires PartlyDecoded(encoded, text, rawOffsets, rawIndex) && rawIndex < |encoded|
    requires ChunkText(encoded[rawIndex..]).Some?
    requires ChunkOffsetsAre(encoded[rawIndex..], rawIndex, more)
    ensures PartlyDecoded(encoded, text + ChunkText(encoded[rawIndex..]).value, rawOffsets + more,
                          rawIndex + ChunkLength(encoded[rawIndex..]))
  {
    hide ReferenceLength, ReferenceText, DecodeXml, ChunkLength, ChunkText, RawOffset;
    var rest := encoded[rawIndex..];
    var n, c := ChunkLength(rest), ChunkText(rest).value;
    ChunkDecode(rest);
    assert rest[n..] == encoded[rawIndex + n..];
    JoinAssoc(Some(text), Some(c), DecodeXml(rest[n..]));
    if DecodeXml(encoded).Some? {
      forall j | 0 <= j <= |DecodeXml(rest[n..]).value|
        ensures RawOffset(encoded, |text + c| + j) == rawIndex + n + RawOffset(rest[n..], j)
      {
        assert |text + c| + j == |text| + (|c| + j);
        ChunkOffsets(rest, |c| + j);
      }
      OffsetsOneMore(encoded, text, rawOffsets, rawIndex, more);
    }
  }

  ghost predicate ChunkOffsetsAre(rest: Text, rawIndex: nat, more: seq<nat>)
    requires rest != [] && ChunkText(rest).Some?
  {
    var n, c := ChunkLength(rest), ChunkText(rest).value;
    |more| == |c| && forall k :: 0 <= k < |c| ==> more[k] == if k == |c| - 1 then rawIndex + n else rawIndex
  }

  lemma OffsetsOneMore(encoded: Text, text: Text, rawOffsets: seq<nat>, rawIndex: nat, more: seq<nat>)
    requires PartlyDecoded(encoded, text, rawOffsets, rawIndex) && rawIndex < |encoded|
    requires DecodeXml(encoded).Some?
    requires ChunkText(encoded[rawIndex..]).Some?
    requires DecodeXml(encoded[rawIndex..][ChunkLength(encoded[rawIndex..])..]).Some?
    requires |text| + |more| <= |DecodeXml(encoded).value|
    requires ChunkOffsetsAre(encoded[rawIndex..], rawIndex, more)
    ensures forall k :: 0 <= k < |rawOffsets + more| ==> (rawOffsets + more)[k] == RawOffset(encoded, k)
  {
    hide ReferenceLength, ReferenceText, DecodeXml, ChunkLength, ChunkText, RawOffset;
    var rest := encoded[rawIndex..];
    forall k | |rawOffsets| <= k < |rawOffsets + more| ensures (rawOffsets + more)[k] == RawOffset(encoded, k) {
      var j := k - |text|;
      assert RawOffset(encoded, |text| + j) == rawIndex + RawOffset(rest, j);
      ChunkOffsets(rest, j);
      FirstOffset(rest[ChunkLength(rest)..]);
    }
  }

  lemma FirstOffset(s: Text)
    requires DecodeXml(s).Some?
    ensures RawOffset(s, 0) == 0
  {
  }

  lemma DecodeStart(encoded: Text)
    ensures PartlyDecoded(encoded, [], [0], 0)
  {
    hide ReferenceLength, ReferenceText, DecodeXml, ChunkLength, ChunkText;
    assert encoded[0..] == encoded;
    if DecodeXml(encoded).Some? {
      assert [] + DecodeXml(encoded).value == DecodeXml(encoded).value;
    }
  }

  /** decodeTextWithRawOffsets: the text of decodeXml together with the offset of each position. */
  method DecodeTextWithRawOffsets(encoded: Text) returns (r: Option<(Text, seq<nat>)>)
    ensures r.None? <==> DecodeXml(encoded).None?
    ensures r.Some? ==> r.value.0 == DecodeXml(encoded).value && r.value.1 == RawOffsets(encoded)
  {
    hide ReferenceLength, ReferenceText, DecodeXml, ChunkLength, ChunkText, RawOffset;
    var rawOffsets: seq<nat> := [0];
    var text: Text := [];
    var rawIndex: nat := 0;
    DecodeStart(encoded);
    while rawIndex < |encoded|
      invariant PartlyDecoded(encoded, text, rawOffsets, rawIndex)
    {
      var rest := encoded[rawIndex..];
      var chunk := ChunkText(rest);
      ChunkDecode(rest);
      if chunk.None? {
        return None;
      }
      ghost var textBefore, offsetsBefore := text, rawOffsets;
      var rawStart := rawIndex;
      rawIndex := rawIndex + ChunkLength(rest);
      text := text + chunk.value;
      ghost var more: seq<nat> := [];
      for index := 0 to |chunk.value|
        invariant rawOffsets == offsetsBefore + more && |more| == index
        invariant forall k :: 0 <= k < index ==> more[k] == if k == |chunk.value| - 1 then rawIndex else rawStart
      {
        rawOffsets := rawOffsets + [if index == |chunk.value| - 1 then rawIndex else rawStart];
        more := more + [if index == |chunk.value| - 1 then rawIndex else rawStart];
      }
      DecodeOneMore(encoded, textBefore, offsetsBefore, rawStart, more);
    }
    assert encoded[rawIndex..] == [];
    EmptyDecodes();
    assert text + [] == text;
    r := Some((text, rawOffsets));
  }
}
