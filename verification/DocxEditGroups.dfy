/**
 Editing a document paragraph by paragraph (buildParagraphEditGroups and the edit loop of editText
 in src/local/docx-mutation.js): equal paragraphs form one counted edit, and the edits run one
 after another over the list of paragraphs.
 */
module DocxEditGroups {
  import opened Wrappers
  import opened JsStrings
  import opened FindReplace
  import opened ParagraphText
  import opened DocxTransform
  import opened DocxReadback
  import opened DocxEdit

  /** One counted edit: every paragraph equal to before becomes after, and there must be exactly
      expected of them. */
  datatype Group = Group(before: Text, after: Text, expected: nat)

  function Count(list: seq<Text>, t: Text): nat {
    if list == [] then 0 else (if list[0] == t then 1 else 0) + Count(list[1..], t)
  }

  function Replaced(list: seq<Text>, before: Text, after: Text): seq<Text> {
    seq(|list|, i requires 0 <= i < |list| => if list[i] == before then after else list[i])
  }

  /** editBlock on the list of paragraphs; None is the error of a wrong count. */
  function EditBlock(list: seq<Text>, g: Group): Option<seq<Text>> {
    if Count(list, g.before) != g.expected then None else Some(Replaced(list, g.before, g.after))
  }

  function ApplyGroups(list: seq<Text>, groups: seq<Group>): Option<seq<Text>> {
    if groups == [] then Some(list)
    else
      var done := ApplyGroups(list, groups[..|groups| - 1]);
      if done.None? then None else EditBlock(done.value, groups[|groups| - 1])
  }

  /** One group for each different paragraph that changes, counting how often it occurs. */
  ghost predicate GroupsOf(groups: seq<Group>, raws: seq<Text>, news: map<Text, Text>) {
    && (forall j, k :: 0 <= j < k < |groups| ==> groups[j].before != groups[k].before)
    && (forall k :: 0 <= k < |groups| ==>
          groups[k].before in news && groups[k].after == news[groups[k].before]
          && groups[k].before in raws && groups[k].expected == Count(raws, groups[k].before))
    && (forall r :: r in raws && r in news ==> exists k :: 0 <= k < |groups| && groups[k].before == r)
  }

  /** Every paragraph on its own. */
  function Pointwise(raws: seq<Text>, news: map<Text, Text>): seq<Text> {
    seq(|raws|, i requires 0 <= i < |raws| => if raws[i] in news then news[raws[i]] else raws[i])
  }

  /** What one paragraph has become after some of the groups. */
  function Rewritten(r: Text, groups: seq<Group>): Text {
    if groups == [] then r
    else if groups[|groups| - 1].before == r then groups[|groups| - 1].after
    else Rewritten(r, groups[..|groups| - 1])
  }

  function AllRewritten(raws: seq<Text>, groups: seq<Group>): seq<Text> {
    seq(|raws|, i requires 0 <= i < |raws| => Rewritten(raws[i], groups))
  }

  /** No group produces a paragraph that a later group looks for. */
  predicate NoCollision(groups: seq<Group>) {
    forall j, k :: 0 <= j < k < |groups| ==> groups[j].after != groups[k].before
  }

  lemma {:induction false} CountSame(a: seq<Text>, b: seq<Text>, t: Text)
    requires |a| == |b| && forall i :: 0 <= i < |a| ==> (a[i] == t <==> b[i] == t)
    ensures Count(a, t) == Count(b, t)
  {
    if a != [] {
      CountSame(a[1..], b[1..], t);
    }
  }

  lemma {:induction false} CountMore(a: seq<Text>, b: seq<Text>, t: Text, k: nat)
    requires |a| == |b| && forall i :: 0 <= i < |a| && a[i] == t ==> b[i] == t
    requires k < |a| && a[k] != t && b[k] == t
    ensures Count(a, t) < Count(b, t)
  {
    if k == 0 {
      CountAtLeast(a[1..], b[1..], t);
    } else {
      CountMore(a[1..], b[1..], t, k - 1);
    }
  }

  lemma {:induction false} CountAtLeast(a: seq<Text>, b: seq<Text>, t: Text)
    requires |a| == |b| && forall i :: 0 <= i < |a| && a[i] == t ==> b[i] == t
    ensures Count(a, t) <= Count(b, t)
  {
    if a != [] {
      CountAtLeast(a[1..], b[1..], t);
    }
  }

  lemma {:induction false} RewrittenCases(r: Text, groups: seq<Group>)
    ensures (forall k :: 0 <= k < |groups| ==> groups[k].before != r) ==> Rewritten(r, groups) == r
    ensures (exists k :: 0 <= k < |groups| && groups[k].before == r) ==>
              exists k :: 0 <= k < |groups| && groups[k].before == r && Rewritten(r, groups) == groups[k].after
  {
    if groups != [] && groups[|groups| - 1].before != r {
      var init := groups[..|groups| - 1];
      RewrittenCases(r, init);
      if exists k :: 0 <= k < |groups| && groups[k].before == r {
        var k :| 0 <= k < |groups| && groups[k].before == r;
        assert init[k].before == r;
        var j :| 0 <= j < |init| && init[j].before == r && Rewritten(r, init) == init[j].after;
        assert groups[j] == init[j];
      }
    }
  }

  /** One more edit: it meets its count exactly when no earlier group produced its paragraph, and
      then it rewrites just the paragraphs that were equal to it from the start. */
  lemma NextGroup(raws: seq<Text>, groups: seq<Group>, g: Group)
    requires g.before in raws && g.expected == Count(raws, g.before)
    requires forall k :: 0 <= k < |groups| ==> groups[k].before != g.before && groups[k].before in raws
    requires forall j, k :: 0 <= j < k < |groups| ==> groups[j].before != groups[k].before
    ensures EditBlock(AllRewritten(raws, groups), g).Some? <==> forall k :: 0 <= k < |groups| ==>
            groups[k].after != g.before
    ensures (forall k :: 0 <= k < |groups| ==> groups[k].after != g.before) ==>
              EditBlock(AllRewritten(raws, groups), g) == Some(AllRewritten(raws, groups + [g]))
  {
    hide Rewritten, Count;
    var now := AllRewritten(raws, groups);
    forall i | 0 <= i < |raws| ensures raws[i] == g.before ==> now[i] == g.before {
      RewrittenCases(raws[i], groups);
    }
    if forall k :: 0 <= k < |groups| ==> groups[k].after != g.before {
      forall i | 0 <= i < |raws| ensures now[i] == g.before ==> raws[i] == g.before {
        RewrittenCases(raws[i], groups);
      }
      CountSame(raws, now, g.before);
      RewrittenWith(raws, groups, g);
    } else {
      var k :| 0 <= k < |groups| && groups[k].after == g.before;
      var i :| 0 <= i < |raws| && raws[i] == groups[k].before;
      RewrittenCases(raws[i], groups);
      CountMore(raws, now, g.before, i);
    }
  }

  lemma RewrittenWith(raws: seq<Text>, groups: seq<Group>, g: Group)
    requires forall i :: 0 <= i < |raws| ==> (Rewritten(raws[i], groups) == g.before <==> raws[i] == g.before)
    ensures Replaced(AllRewritten(raws, groups), g.before, g.after) == AllRewritten(raws, groups + [g])
  {
    var more := groups + [g];
    assert more[|more| - 1] == g && more[..|more| - 1] == groups;
  }

  /** Running the groups one after another succeeds exactly when no group produces a paragraph that a
      later one looks for, and then every paragraph became what it becomes on its own. */
  lemma {:induction false} ApplyGroupsIff(raws: seq<Text>, news: map<Text, Text>, groups: seq<Group>, n: nat)
    requires GroupsOf(groups, raws, news) && n <= |groups|
    ensures ApplyGroups(raws, groups[..n]).Some? <==> NoCollision(groups[..n])
    ensures NoCollision(groups[..n]) ==> ApplyGroups(raws, groups[..n]) == Some(AllRewritten(raws, groups[..n]))
  {
    hide EditBlock, AllRewritten;
    if n == 0 {
      NothingRewritten(raws);
    } else {
      ApplyGroupsIff(raws, news, groups, n - 1);
      assert groups[..n][..n - 1] == groups[..n - 1] && groups[..n] == groups[..n - 1] + [groups[n - 1]];
      NextGroup(raws, groups[..n - 1], groups[n - 1]);
      CollisionStep(groups[..n - 1], groups[n - 1]);
    }
  }

  lemma NothingRewritten(raws: seq<Text>)
    ensures AllRewritten(raws, []) == raws
  {
  }

  lemma CollisionStep(groups: seq<Group>, g: Group)
    ensures NoCollision(groups + [g])
       <==> NoCollision(groups) && forall k :: 0 <= k < |groups| ==> groups[k].after != g.before
  {
    var all := groups + [g];
    if NoCollision(all) {
      forall j, k | 0 <= j < k < |groups| ensures groups[j].after != groups[k].before {
        assert all[j] == groups[j] && all[k] == groups[k];
      }
      forall k | 0 <= k < |groups| ensures groups[k].after != g.before {
        assert all[k] == groups[k] && all[|groups|] == g;
      }
    }
  }

  /** If every counted edit succeeds, the document is the pointwise transformed list, even when a
      group's output equals another group's input. */
  lemma GroupsArePointwise(raws: seq<Text>, news: map<Text, Text>, groups: seq<Group>)
    requires GroupsOf(groups, raws, news)
    ensures ApplyGroups(raws, groups).Some? <==> NoCollision(groups)
    ensures ApplyGroups(raws, groups).Some? ==> ApplyGroups(raws, groups) == Some(Pointwise(raws, news))
  {
    assert groups[..|groups|] == groups;
    ApplyGroupsIff(raws, news, groups, |groups|);
    forall i | 0 <= i < |raws| ensures AllRewritten(raws, groups)[i] == Pointwise(raws, news)[i] {
      assert raws[i] in raws;
      RewrittenCases(raws[i], groups);
    }
    assert AllRewritten(raws, groups) == Pointwise(raws, news);
  }

  // ---------------------------------------------------------------------------------------
  // The groups of a document
  // ---------------------------------------------------------------------------------------

  predicate Touched(raw: Text, find: Text)
    requires find != []
  {
    VisibleText(raw).Some? && Occurrences(VisibleText(raw).value, find, 0) != []
  }

  /** What each touched paragraph becomes. */
  function NewsOf(raws: seq<Text>, find: Text, replacement: Text): map<Text, Text>
    requires find != []
  {
    map raw | raw in raws && Touched(raw, find) && EditedRaw(raw, find, replacement).Some?
      :: EditedRaw(raw, find, replacement).value
  }

  /** The groups of the paragraphs seen so far. */
  ghost predicate GroupsSoFar(groups: seq<Group>, raws: seq<Text>, find: Text, replacement: Text)
    requires find != []
  {
    && (forall r :: r in raws && Touched(r, find) ==> EditedRaw(r, find, replacement).Some?)
    && GroupsOf(groups, raws, NewsOf(raws, find, replacement))
  }

  function GroupIndex(groups: seq<Group>, raw: Text): (k: Option<nat>)
    ensures k.Some? ==> k.value < |groups| && groups[k.value].before == raw
    ensures k.None? ==> forall j :: 0 <= j < |groups| ==> groups[j].before != raw
  {
    if groups == [] then None
    else if groups[|groups| - 1].before == raw then Some(|groups| - 1)
    else GroupIndex(groups[..|groups| - 1], raw)
  }

  lemma {:induction false} CountAppend(raws: seq<Text>, r: Text, t: Text)
    ensures Count(raws + [r], t) == Count(raws, t) + if r == t then 1 else 0
  {
    if raws == [] {
      assert raws + [r] == [r] && [r][1..] == [];
    } else {
      assert (raws + [r])[1..] == raws[1..] + [r];
      CountAppend(raws[1..], r, t);
    }
  }

  lemma {:induction false} CountAbsent(raws: seq<Text>, t: Text)
    requires t !in raws
    ensures Count(raws, t) == 0
  {
    if raws != [] {
      CountAbsent(raws[1..], t);
    }
  }

  lemma NewsAppend(raws: seq<Text>, r: Text, find: Text, replacement: Text)
    requires find != []
    ensures forall t :: t in NewsOf(raws, find, replacement) ==>
              t in NewsOf(raws + [r], find, replacement)
              && NewsOf(raws + [r], find, replacement)[t] == NewsOf(raws, find, replacement)[t]
    ensures forall t :: t in NewsOf(raws + [r], find, replacement) ==> t in NewsOf(raws, find, replacement) || t == r
    ensures r in NewsOf(raws + [r], find, replacement) <==> Touched(r, find) && EditedRaw(r, find, replacement).Some?
    ensures r in NewsOf(raws + [r], find, replacement) ==>
              NewsOf(raws + [r], find, replacement)[r] == EditedRaw(r, find, replacement).value
  {
    hide EditedRaw, Touched;
  }

  lemma UntouchedStep(groups: seq<Group>, raws: seq<Text>, r: Text, find: Text, replacement: Text)
    requires find != [] && GroupsSoFar(groups, raws, find, replacement) && !Touched(r, find)
    ensures GroupsSoFar(groups, raws + [r], find, replacement)
  {
    hide EditedRaw, Touched, NewsOf;
    NewsAppend(raws, r, find, replacement);
    NewsTouched(raws, find, replacement);
    forall k | 0 <= k < |groups| ensures Count(raws + [r], groups[k].before) == Count(raws, groups[k].before) {
      CountAppend(raws, r, groups[k].before);
    }
  }

  lemma NewsTouched(raws: seq<Text>, find: Text, replacement: Text)
    requires find != []
    ensures forall t :: t in NewsOf(raws, find, replacement) ==>
              t in raws && Touched(t, find) && EditedRaw(t, find, replacement)
                  == Some(NewsOf(raws, find, replacement)[t])
  {
    hide EditedRaw, Touched;
  }

  /** The parts of GroupsOf that speak about one group. */
  ghost predicate GroupIs(g: Group, raws: seq<Text>, news: map<Text, Text>) {
    g.before in news && g.after == news[g.before] && g.before in raws && g.expected == Count(raws, g.before)
  }

  lemma GroupKept(g: Group, raws: seq<Text>, r: Text, find: Text, replacement: Text)
    requires find != [] && GroupIs(g, raws, NewsOf(raws, find, replacement)) && g.before != r
    ensures GroupIs(g, raws + [r], NewsOf(raws + [r], find, replacement))
  {
    hide NewsOf, Count;
    NewsAppend(raws, r, find, replacement);
    CountAppend(raws, r, g.before);
  }

  lemma GroupGrown(raws: seq<Text>, r: Text, find: Text, replacement: Text, n: nat)
    requires find != [] && Touched(r, find) && EditedRaw(r, find, replacement).Some? && Count(raws, r) == n
    ensures GroupIs(Group(r, EditedRaw(r, find, replacement).value, n + 1), raws + [r],
                    NewsOf(raws + [r], find, replacement))
  {
    hide NewsOf, Count, EditedRaw, Touched;
    NewsAppend(raws, r, find, replacement);
    CountAppend(raws, r, r);
  }

  lemma TouchedStep(groups: seq<Group>, raws: seq<Text>, r: Text, find: Text, replacement: Text, more: seq<Group>)
    requires find != [] && GroupsSoFar(groups, raws, find, replacement)
    requires Touched(r, find) && EditedRaw(r, find, replacement).Some?
    requires var k := GroupIndex(groups, r);
             more == if k.Some? then groups[k.value := Group(r, EditedRaw(r, find, replacement).value,
                                                             groups[k.value].expected + 1)]
                     else groups + [Group(r, EditedRaw(r, find, replacement).value, 1)]
    ensures GroupsSoFar(more, raws + [r], find, replacement)
  {
    hide EditedRaw, Touched, NewsOf, GroupIndex, Count, GroupsSoFar, GroupIs;
    var k := GroupIndex(groups, r);
    NewsHasNone(groups, raws, r, find, replacement);
    SoFarParts(groups, raws, find, replacement);
    if k.Some? {
      assert GroupIs(groups[k.value], raws, NewsOf(raws, find, replacement));
      GroupCount(groups[k.value], raws, NewsOf(raws, find, replacement));
    }
    GroupGrown(raws, r, find, replacement, if k.Some? then groups[k.value].expected else 0);
    forall j | 0 <= j < |more| ensures GroupIs(more[j], raws + [r], NewsOf(raws + [r], find, replacement)) {
      if j < |groups| && k != Some(j) {
        GroupKept(groups[j], raws, r, find, replacement);
      }
    }
    CoveredStep(groups, raws, r, find, replacement, more, if k.Some? then k.value else |groups|);
    Assembled(more, raws + [r], find, replacement);
  }

  lemma GroupCount(g: Group, raws: seq<Text>, news: map<Text, Text>)
    requires GroupIs(g, raws, news)
    ensures g.expected == Count(raws, g.before)
  {
  }

  lemma SoFarParts(groups: seq<Group>, raws: seq<Text>, find: Text, replacement: Text)
    requires find != [] && GroupsSoFar(groups, raws, find, replacement)
    ensures forall j, k :: 0 <= j < k < |groups| ==> groups[j].before != groups[k].before
    ensures forall k :: 0 <= k < |groups| ==> GroupIs(groups[k], raws, NewsOf(raws, find, replacement))
    ensures forall r :: r in raws && Touched(r, find) ==> EditedRaw(r, find, replacement).Some?
  {
    hide EditedRaw, Touched, NewsOf, Count;
  }

  lemma Assembled(groups: seq<Group>, raws: seq<Text>, find: Text, replacement: Text)
    requires find != []
    requires forall j, k :: 0 <= j < k < |groups| ==> groups[j].before != groups[k].before
    requires forall k :: 0 <= k < |groups| ==> GroupIs(groups[k], raws, NewsOf(raws, find, replacement))
    requires forall r :: r in raws && Touched(r, find) ==> EditedRaw(r, find, replacement).Some?
    requires forall t :: t in raws && t in NewsOf(raws, find, replacement) ==>
             exists j :: 0 <= j < |groups| && groups[j].before == t
    ensures GroupsSoFar(groups, raws, find, replacement)
  {
    hide EditedRaw, Touched, NewsOf, Count;
  }

  lemma NewsHasNone(groups: seq<Group>, raws: seq<Text>, r: Text, find: Text, replacement: Text)
    requires find != [] && GroupsSoFar(groups, raws, find, replacement)
    requires Touched(r, find) && EditedRaw(r, find, replacement).Some?
    ensures GroupIndex(groups, r).None? ==> Count(raws, r) == 0
  {
    hide EditedRaw, Touched, NewsOf, GroupIndex;
    if r in raws {
      NewsHas(raws, r, find, replacement);
    } else {
      CountAbsent(raws, r);
    }
  }

  lemma CoveredStep(groups: seq<Group>, raws: seq<Text>, r: Text, find: Text, replacement: Text, more: seq<Group>,
                    at: nat)
    requires find != [] && GroupsSoFar(groups, raws, find, replacement)
    requires |groups| <= |more| && at < |more| && more[at].before == r
    requires forall j :: 0 <= j < |groups| ==> more[j].before == groups[j].before
    ensures forall t :: t in raws + [r] && t in NewsOf(raws + [r], find, replacement) ==>
              exists j :: 0 <= j < |more| && more[j].before == t
  {
    hide EditedRaw, Touched, NewsOf, Count;
    NewsAppend(raws, r, find, replacement);
    NewsTouched(raws, find, replacement);
    forall t | t in raws + [r] && t in NewsOf(raws + [r], find, replacement)
      ensures exists j :: 0 <= j < |more| && more[j].before == t
    {
      if t == r {
        assert more[at].before == t;
      } else {
        var j :| 0 <= j < |groups| && groups[j].before == t;
        assert more[j].before == t;
      }
    }
  }

  lemma NewsHas(raws: seq<Text>, r: Text, find: Text, replacement: Text)
    requires find != [] && r in raws && Touched(r, find) && EditedRaw(r, find, replacement).Some?
    ensures r in NewsOf(raws, find, replacement)
  {
    hide EditedRaw, Touched;
  }

  function Raws(paragraphs: seq<Paragraph>): seq<Text> {
    seq(|paragraphs|, i requires 0 <= i < |paragraphs| => paragraphs[i].raw)
  }

  datatype BuildError = DecodingThrew | Ambiguous

  /** buildParagraphEditGroups: equal paragraphs always have equal edits, so it is never ambiguous. */
  method BuildParagraphEditGroups(paragraphs: seq<Paragraph>, find: Text, replacement: Text)
    returns (groups: Result<seq<Group>, BuildError>)
    requires find != [] && forall i :: 0 <= i < |paragraphs| ==> IsParagraph(paragraphs[i])
    ensures groups != Failure(Ambiguous)
    ensures groups.Failure?
       <==> exists r :: r in Raws(paragraphs) && Touched(r, find) && EditedRaw(r, find, replacement).None?
    ensures groups.Success? ==> GroupsOf(groups.value, Raws(paragraphs), NewsOf(Raws(paragraphs), find, replacement))
  {
    hide EditedRaw, NewsOf, GroupsOf, IsParagraph, Occurrences, VisibleText, GroupIndex, Scan, TransformAll, RenderAll,
         Ordered;
    var built: seq<Group> := [];
    ghost var raws := Raws(paragraphs);
    assert GroupsSoFar(built, raws[..0], find, replacement) by {
      NoGroups(find, replacement);
    }
    var i := 0;
    while i < |paragraphs|
      invariant 0 <= i <= |paragraphs|
      invariant GroupsSoFar(built, raws[..i], find, replacement)
    {
      var p := paragraphs[i];
      assert raws[..i + 1] == raws[..i] + [p.raw];
      ParagraphShows(p);
      var occurrences := FindVisibleOccurrences(p.text, find);
      if occurrences == [] {
        UntouchedStep(built, raws[..i], p.raw, find, replacement);
      } else {
        OccurrencesAreMatches(p.text, find, 0);
        var newString := TransformParagraph(p, occurrences, replacement);
        EditedRawIs(p.raw, find, replacement);
        if newString.None? {
          assert raws[i] == p.raw;
          return Failure(DecodingThrew);
        }
        var k := GroupIndex(built, p.raw);
        if k.Some? {
          ExistingGroup(built, raws[..i], find, replacement, k.value);
        }
        if k.Some? && built[k.value].after != newString.value {
          return Failure(Ambiguous);
        }
        var more := if k.Some? then built[k.value := Group(p.raw, newString.value, built[k.value].expected + 1)]
                    else built + [Group(p.raw, newString.value, 1)];
        TouchedStep(built, raws[..i], p.raw, find, replacement, more);
        built := more;
      }
      i := i + 1;
    }
    assert raws[..i] == raws;
    groups := Success(built);
  }

  lemma NoGroups(find: Text, replacement: Text)
    requires find != []
    ensures GroupsSoFar([], [], find, replacement)
  {
  }

  lemma ParagraphShows(p: Paragraph)
    requires IsParagraph(p)
    ensures VisibleText(p.raw) == Some(p.text)
  {
  }

  lemma EditedRawIs(raw: Text, find: Text, replacement: Text)
    requires find != [] && VisibleText(raw).Some?
    ensures var now := TransformAll(Scan(raw), 0, Occurrences(VisibleText(raw).value, find, 0), replacement);
            EditedRaw(raw, find, replacement) == if now.None? then None else Some(RenderAll(now.value))
  {
  }

  lemma ExistingGroup(groups: seq<Group>, raws: seq<Text>, find: Text, replacement: Text, k: nat)
    requires find != [] && GroupsSoFar(groups, raws, find, replacement) && k < |groups|
    ensures EditedRaw(groups[k].before, find, replacement) == Some(groups[k].after)
  {
    hide EditedRaw, Touched, NewsOf;
    NewsTouched(raws, find, replacement);
  }

  // ---------------------------------------------------------------------------------------
  // The whole document
  // ---------------------------------------------------------------------------------------

  /** The edit loop of editText over the paragraphs of the document; None when a count is off. */
  method ApplyEdits(raws: seq<Text>, groups: seq<Group>) returns (result: Option<seq<Text>>)
    ensures result == ApplyGroups(raws, groups)
  {
    hide EditBlock;
    var list, i := raws, 0;
    while i < |groups|
      invariant 0 <= i <= |groups|
      invariant ApplyGroups(raws, groups[..i]) == Some(list)
    {
      assert groups[..i + 1][..i] == groups[..i];
      var done := EditBlock(list, groups[i]);
      if done.None? {
        StaysNone(raws, groups, i + 1);
        return None;
      }
      list := done.value;
      i := i + 1;
    }
    assert groups[..i] == groups;
    result := Some(list);
  }

  lemma {:induction false} StaysNone(raws: seq<Text>, groups: seq<Group>, n: nat)
    requires n <= |groups| && ApplyGroups(raws, groups[..n]).None?
    ensures ApplyGroups(raws, groups).None?
    decreases |groups| - n
  {
    hide EditBlock;
    if n == |groups| {
      assert groups[..n] == groups;
    } else {
      assert groups[..n + 1][..n] == groups[..n];
      StaysNone(raws, groups, n + 1);
    }
  }

  lemma UntouchedText(raw: Text, find: Text, replacement: Text)
    requires find != [] && VisibleText(raw).Some? && !Touched(raw, find)
    ensures ReplacedFrom(VisibleText(raw).value, find, replacement, 0) == VisibleText(raw).value
  {
    var text := VisibleText(raw).value;
    assert text[0..|text|] == text;
  }

  /** A document whose edits all succeed reads back, paragraph by paragraph, as its visible text with
      every occurrence replaced. */
  lemma DocumentReadsBack(raws: seq<Text>, find: Text, replacement: Text, groups: seq<Group>)
    requires WholeCharacters(find) && forall i :: 0 <= i < |raws| ==> Editable(raws[i], find)
    requires GroupsOf(groups, raws, NewsOf(raws, find, replacement)) && ApplyGroups(raws, groups).Some?
    ensures var result := ApplyGroups(raws, groups).value;
            && |result| == |raws|
            && forall i :: 0 <= i < |raws| ==>
                 VisibleText(raws[i]).Some?
                 && VisibleText(result[i]) == Some(ReplacedFrom(VisibleText(raws[i]).value, find, replacement, 0))
  {
    hide ApplyGroups, GroupsOf, NewsOf, EditedRaw, Occurrences, VisibleOf, Scan, ReplacedFrom, NothingDangling,
         AllPiecesSettled;
    GroupsArePointwise(raws, NewsOf(raws, find, replacement), groups);
    var result := ApplyGroups(raws, groups).value;
    forall i | 0 <= i < |raws|
      ensures VisibleText(result[i]) == Some(ReplacedFrom(VisibleText(raws[i]).value, find, replacement, 0))
    {
      EditMeansReplace(raws[i], find, replacement);
      NewsTouched(raws, find, replacement);
      if Touched(raws[i], find) {
        NewsHas(raws, raws[i], find, replacement);
      } else {
        UntouchedText(raws[i], find, replacement);
      }
    }
  }
}
