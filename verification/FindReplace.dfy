/**
 Find and replace on the plain visible text (findVisibleOccurrences and replaceVisibleText in
 src/local/docx-mutation.js), and the reference definition of an edited range.
 */
module FindReplace {
  import opened Wrappers
  import opened JsStrings

  datatype Occurrence = Occurrence(start: nat, end: nat)

  predicate OccursAt(text: Text, find: Text, i: nat) {
    i + |find| <= |text| && text[i..i + |find|] == find
  }

  /** String.indexOf with a start position. */
  function IndexOf(text: Text, find: Text, from: nat): (i: Option<nat>)
    ensures i.Some? ==> from <= i.value && OccursAt(text, find, i.value)
    ensures i.Some? ==> forall k :: from <= k < i.value ==> !OccursAt(text, find, k)
    ensures i.None? ==> forall k :: from <= k ==> !OccursAt(text, find, k)
    decreases |text| - from
  {
    if from + |find| > |text| then None
    else if OccursAt(text, find, from) then Some(from)
    else IndexOf(text, find, from + 1)
  }

  /** The occurrences found from left to right, each search starting where the last one ended. */
  function Occurrences(text: Text, find: Text, cursor: nat): seq<Occurrence>
    requires find != []
    decreases |text| - cursor
  {
    var i := IndexOf(text, find, cursor);
    if i.None? then []
    else [Occurrence(i.value, i.value + |find|)] + Occurrences(text, find, i.value + |find|)
  }

  /** In order, disjoint, non-empty, and inside [lo, hi]. */
  predicate Ordered(occs: seq<Occurrence>, lo: nat, hi: nat) {
    && (forall k :: 0 <= k < |occs| ==> lo <= occs[k].start < occs[k].end <= hi)
    && (forall j, k :: 0 <= j < k < |occs| ==> occs[j].end <= occs[k].start)
  }

  lemma OccurrencesStep(text: Text, find: Text, cursor: nat)
    requires find != []
    ensures IndexOf(text, find, cursor).None? ==> Occurrences(text, find, cursor) == []
    ensures forall i :: IndexOf(text, find, cursor) == Some(i) ==>
              Occurrences(text, find, cursor)
              == [Occurrence(i, i + |find|)] + Occurrences(text, find, i + |find|)
  {
  }

  /** The occurrences are matches, in order and disjoint. */
  lemma {:induction false} OccurrencesAreMatches(text: Text, find: Text, cursor: nat)
    requires find != [] && cursor <= |text|
    ensures Ordered(Occurrences(text, find, cursor), cursor, |text|)
    ensures forall o :: o in Occurrences(text, find, cursor) ==>
              o.end == o.start + |find| && OccursAt(text, find, o.start)
    decreases |text| - cursor
  {
    hide Occurrences;
    OccurrencesStep(text, find, cursor);
    var i := IndexOf(text, find, cursor);
    if i.Some? {
      OccurrencesAreMatches(text, find, i.value + |find|);
    }
  }

  /** No match is missed: each one overlaps an occurrence that was found. */
  lemma {:induction false} OccurrencesCoverMatches(text: Text, find: Text, cursor: nat, p: nat)
    requires find != [] && cursor <= |text|
    requires cursor <= p && OccursAt(text, find, p)
    ensures exists o :: o in Occurrences(text, find, cursor) && o.start <= p < o.end
    decreases |text| - cursor
  {
    hide Occurrences;
    OccurrencesStep(text, find, cursor);
    var i := IndexOf(text, find, cursor).value;
    var first := Occurrence(i, i + |find|);
    assert first in Occurrences(text, find, cursor);
    if p >= first.end {
      OccurrencesCoverMatches(text, find, first.end, p);
      var o :| o in Occurrences(text, find, first.end) && o.start <= p < o.end;
      assert o in Occurrences(text, find, cursor);
    }
  }

  method FindVisibleOccurrences(text: Text, find: Text) returns (occs: seq<Occurrence>)
    requires find != []
    ensures occs == Occurrences(text, find, 0)
  {
    occs := [];
    var cursor: nat := 0;
    while cursor + |find| <= |text|
      invariant Occurrences(text, find, 0) == occs + Occurrences(text, find, cursor)
    {
      var start := IndexOf(text, find, cursor);
      if start.None? {
        break;
      }
      var end := start.value + |find|;
      assert Occurrences(text, find, cursor) == [Occurrence(start.value, end)] + Occurrences(text, find, end);
      assert occs + ([Occurrence(start.value, end)] + Occurrences(text, find, end))
          == (occs + [Occurrence(start.value, end)]) + Occurrences(text, find, end);
      occs := occs + [Occurrence(start.value, end)];
      cursor := end;
    }
    assert IndexOf(text, find, cursor).None?;
    assert occs + [] == occs;
  }

  function Clamp(x: nat, lo: nat, hi: nat): (r: nat)
    requires lo <= hi
    ensures lo <= r <= hi
  {
    if x < lo then lo else if x > hi then hi else x
  }

  /** What the range [lo, hi) of the text becomes: covered units disappear, and the replacement
      stands where an occurrence starts. */
  function Edited(text: Text, occs: seq<Occurrence>, replacement: Text, lo: nat, hi: nat): Text
    requires lo <= hi <= |text|
  {
    if occs == [] then text[lo..hi]
    else
      var o := occs[|occs| - 1];
      Edited(text, occs[..|occs| - 1], replacement, lo, Clamp(o.start, lo, hi))
      + (if lo <= o.start < hi then replacement else [])
      + text[Clamp(o.end, lo, hi)..hi]
  }

  lemma {:induction false} EditedEmpty(text: Text, occs: seq<Occurrence>, replacement: Text, lo: nat)
    requires lo <= |text|
    ensures Edited(text, occs, replacement, lo, lo) == []
  {
    if occs != [] {
      EditedEmpty(text, occs[..|occs| - 1], replacement, lo);
    }
  }

  /** Editing works range by range. */
  lemma {:induction false} EditedSplit(text: Text, occs: seq<Occurrence>, replacement: Text, lo: nat, mid: nat, hi: nat)
    requires lo <= mid <= hi <= |text|
    requires forall k :: 0 <= k < |occs| ==> occs[k].start <= occs[k].end
    ensures Edited(text, occs, replacement, lo, hi)
         == Edited(text, occs, replacement, lo, mid) + Edited(text, occs, replacement, mid, hi)
  {
    if occs == [] {
      assert text[lo..hi] == text[lo..mid] + text[mid..hi];
    } else {
      var o, before := occs[|occs| - 1], occs[..|occs| - 1];
      hide Edited;
      if mid <= o.start {
        EditedSplit(text, before, replacement, lo, mid, Clamp(o.start, lo, hi));
        SplitRight(text, occs, replacement, lo, mid, hi);
      } else {
        EditedEmpty(text, before, replacement, mid);
        SplitLeft(text, occs, replacement, lo, mid, hi);
      }
    }
  }

  lemma EditedLast(text: Text, occs: seq<Occurrence>, replacement: Text, lo: nat, hi: nat)
    requires lo <= hi <= |text| && occs != []
    ensures Edited(text, occs, replacement, lo, hi)
         == Edited(text, occs[..|occs| - 1], replacement, lo, Clamp(occs[|occs| - 1].start, lo, hi))
            + (if lo <= occs[|occs| - 1].start < hi then replacement else [])
            + text[Clamp(occs[|occs| - 1].end, lo, hi)..hi]
  {
  }

  lemma Regroup<T>(a: seq<T>, b: seq<T>, c: seq<T>, d: seq<T>)
    ensures (a + b) + c + d == a + (b + c + d)
    ensures a + b + (c + d) == a + b + c + d
  {
  }

  lemma SplitRight(text: Text, occs: seq<Occurrence>, replacement: Text, lo: nat, mid: nat, hi: nat)
    requires lo <= mid <= hi <= |text| && occs != []
    requires mid <= occs[|occs| - 1].start <= occs[|occs| - 1].end
    requires Edited(text, occs[..|occs| - 1], replacement, lo, Clamp(occs[|occs| - 1].start, lo, hi))
          == Edited(text, occs[..|occs| - 1], replacement, lo, mid)
             + Edited(text, occs[..|occs| - 1], replacement, mid, Clamp(occs[|occs| - 1].start, lo, hi))
    ensures Edited(text, occs, replacement, lo, hi)
         == Edited(text, occs, replacement, lo, mid) + Edited(text, occs, replacement, mid, hi)
  {
    hide Edited;
    EditedLast(text, occs, replacement, lo, hi);
    EditedLast(text, occs, replacement, lo, mid);
    EditedLast(text, occs, replacement, mid, hi);
    var o, before := occs[|occs| - 1], occs[..|occs| - 1];
    var a, b := Clamp(o.start, lo, hi), Clamp(o.end, lo, hi);
    var left := Edited(text, before, replacement, lo, mid);
    assert left + [] + text[mid..mid] == left;
    Regroup(left, Edited(text, before, replacement, mid, a),
            if o.start < hi then replacement else [], text[b..hi]);
  }

  lemma SplitLeft(text: Text, occs: seq<Occurrence>, replacement: Text, lo: nat, mid: nat, hi: nat)
    requires lo <= mid <= hi <= |text| && occs != []
    requires occs[|occs| - 1].start < mid && occs[|occs| - 1].start <= occs[|occs| - 1].end
    requires Edited(text, occs[..|occs| - 1], replacement, mid, mid) == []
    ensures Edited(text, occs, replacement, lo, hi)
         == Edited(text, occs, replacement, lo, mid) + Edited(text, occs, replacement, mid, hi)
  {
    hide Edited;
    EditedLast(text, occs, replacement, lo, hi);
    EditedLast(text, occs, replacement, lo, mid);
    EditedLast(text, occs, replacement, mid, hi);
    var o, before := occs[|occs| - 1], occs[..|occs| - 1];
    var b1, b2 := Clamp(o.end, lo, mid), Clamp(o.end, mid, hi);
    assert text[Clamp(o.end, lo, hi)..hi] == text[b1..mid] + text[b2..hi];
    assert [] + [] + text[b2..hi] == text[b2..hi];
    Regroup(Edited(text, before, replacement, lo, Clamp(o.start, lo, hi)),
            if lo <= o.start then replacement else [], text[b1..mid], text[b2..hi]);
  }

  /** The same edited range, read from its first occurrence. */
  lemma {:induction false} EditedFirst(text: Text, o: Occurrence, rest: seq<Occurrence>, replacement: Text, lo: nat,
                                       hi: nat)
    requires lo <= o.start < o.end <= hi <= |text|
    requires Ordered(rest, o.end, hi)
    ensures Edited(text, [o] + rest, replacement, lo, hi)
         == text[lo..o.start] + replacement + Edited(text, rest, replacement, o.end, hi)
  {
    var occs := [o] + rest;
    if rest == [] {
      assert occs[..0] == [] && occs[0] == o;
      assert Edited(text, occs[..0], replacement, lo, o.start) == text[lo..o.start];
    } else {
      hide Edited;
      var p, before := rest[|rest| - 1], rest[..|rest| - 1];
      assert occs[..|occs| - 1] == [o] + before && occs[|occs| - 1] == p;
      EditedFirst(text, o, before, replacement, lo, p.start);
      EditedLast(text, occs, replacement, lo, hi);
      EditedLast(text, rest, replacement, o.end, hi);
      Regroup(text[lo..o.start] + replacement, Edited(text, before, replacement, o.end, p.start),
              replacement, text[p.end..hi]);
    }
  }

  /** The result of replaceVisibleText from a cursor on. */
  function ReplacedFrom(text: Text, find: Text, replacement: Text, cursor: nat): Text
    requires find != [] && cursor <= |text|
  {
    Edited(text, Occurrences(text, find, cursor), replacement, cursor, |text|)
  }

  lemma ReplacedStep(text: Text, find: Text, replacement: Text, cursor: nat)
    requires find != [] && cursor <= |text|
    ensures IndexOf(text, find, cursor).None? ==> ReplacedFrom(text, find, replacement, cursor) == text[cursor..]
    ensures forall i :: IndexOf(text, find, cursor) == Some(i) ==>
              && i + |find| <= |text|
              && ReplacedFrom(text, find, replacement, cursor)
              == text[cursor..i] + replacement + ReplacedFrom(text, find, replacement, i + |find|)
  {
    hide Occurrences;
    OccurrencesStep(text, find, cursor);
    var i := IndexOf(text, find, cursor);
    if i.Some? {
      hide Edited;
      var end := i.value + |find|;
      OccurrencesAreMatches(text, find, end);
      EditedFirst(text, Occurrence(i.value, end), Occurrences(text, find, end), replacement, cursor, |text|);
    }
  }

  /** replaceVisibleText: the whole text with every found occurrence edited. */
  method ReplaceVisibleText(text: Text, find: Text, replacement: Text) returns (result: Text)
    requires find != []
    ensures result == ReplacedFrom(text, find, replacement, 0)
  {
    hide Edited, Occurrences, ReplacedFrom;
    var cursor: nat := 0;
    var output: Text := [];
    while cursor + |find| <= |text|
      invariant cursor <= |text|
      invariant ReplacedFrom(text, find, replacement, 0) == output + ReplacedFrom(text, find, replacement, cursor)
    {
      ReplacedStep(text, find, replacement, cursor);
      var start := IndexOf(text, find, cursor);
      if start.None? {
        break;
      }
      ghost var rest := ReplacedFrom(text, find, replacement, start.value + |find|);
      Regroup(output, text[cursor..start.value], replacement, rest);
      output := output + text[cursor..start.value] + replacement;
      cursor := start.value + |find|;
    }
    ReplacedStep(text, find, replacement, cursor);
    assert IndexOf(text, find, cursor).None?;
    result := output + text[cursor..];
  }
}
