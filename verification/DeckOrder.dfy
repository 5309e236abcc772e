/**
 Slides as a filtered view of the child list of <deck-stage>: how moving and
 deleting a child shows in the view, and which slide stays active.
 */
module DeckOrder {
  import opened Wrappers
  import opened ChildList

  /** A light-DOM child; `slide` is false for text, <template>, <script> and <style>. */
  datatype Node = Node(id: nat, slide: bool)

  function SlidesOf(children: seq<Node>): seq<Node> {
    if children == [] then []
    else (if children[0].slide then [children[0]] else []) + SlidesOf(children[1..])
  }

  lemma {:induction false} SlidesOfConcat(a: seq<Node>, b: seq<Node>)
    ensures SlidesOf(a + b) == SlidesOf(a) + SlidesOf(b)
  {
    if a == [] {
      assert a + b == b;
    } else {
      assert (a + b)[0] == a[0] && (a + b)[1..] == a[1..] + b;
      SlidesOfConcat(a[1..], b);
    }
  }

  /** Where the k-th slide stands among the children. */
  function Place(children: seq<Node>, k: nat): (p: nat)
    requires k < |SlidesOf(children)|
    ensures p < |children| && children[p] == SlidesOf(children)[k] && children[p].slide
  {
    if !children[0].slide then 1 + Place(children[1..], k)
    else if k == 0 then 0
    else 1 + Place(children[1..], k - 1)
  }

  /** `p` cuts the children where k cuts the view. */
  ghost predicate SplitAt(children: seq<Node>, p: nat, view: seq<Node>, k: nat)
    requires p < |children| && k < |view|
  {
    SlidesOf(children[..p]) == view[..k] && SlidesOf(children[p + 1..]) == view[k + 1..]
  }

  /** The slides before and after that place. */
  lemma {:induction false} PlaceSplits(children: seq<Node>, k: nat)
    requires k < |SlidesOf(children)|
    ensures SplitAt(children, Place(children, k), SlidesOf(children), k)
  {
    var rest := children[1..];
    if !children[0].slide {
      PlaceSplits(rest, k);
      SplitPastOther(children, Place(rest, k), SlidesOf(rest), k);
    } else if k > 0 {
      PlaceSplits(rest, k - 1);
      SplitPastSlide(children, Place(rest, k - 1), SlidesOf(rest), k - 1);
    }
  }

  lemma SplitPastOther(children: seq<Node>, p: nat, view: seq<Node>, k: nat)
    requires children != [] && !children[0].slide
    requires p < |children[1..]| && k < |view| && SplitAt(children[1..], p, view, k)
    ensures SplitAt(children, p + 1, view, k)
  {
    HeadSplit(children, p + 1);
  }

  lemma SplitPastSlide(children: seq<Node>, p: nat, view: seq<Node>, k: nat)
    requires children != [] && children[0].slide
    requires p < |children[1..]| && k < |view| && SplitAt(children[1..], p, view, k)
    ensures SplitAt(children, p + 1, [children[0]] + view, k + 1)
  {
    HeadSplit(children, p + 1);
    assert ([children[0]] + view)[..k + 1] == [children[0]] + view[..k];
    assert ([children[0]] + view)[k + 2..] == view[k + 1..];
  }

  lemma HeadSplit(children: seq<Node>, p: nat)
    requires 0 < p < |children|
    ensures SlidesOf(children[..p]) == (if children[0].slide then [children[0]] else []) + SlidesOf(children[1..][..p - 1])
    ensures children[p + 1..] == children[1..][p..]
  {
    assert children[..p][0] == children[0] && children[..p][1..] == children[1..][..p - 1];
  }

  lemma SlideIsChild(children: seq<Node>, k: nat)
    requires k < |SlidesOf(children)|
    ensures SlidesOf(children)[k] in children && SlidesOf(children)[k].slide
  {
    var p := Place(children, k);
  }

  lemma {:induction false} SlidesDistinct(children: seq<Node>)
    requires Distinct(children)
    ensures Distinct(SlidesOf(children))
  {
    if children != [] {
      var rest := children[1..];
      assert Distinct(rest);
      SlidesDistinct(rest);
      if children[0].slide {
        forall k | 0 <= k < |SlidesOf(rest)|
          ensures SlidesOf(rest)[k] != children[0]
        {
          SlideIsChild(rest, k);
        }
      }
    }
  }

  lemma {:induction false} PlacesOrdered(children: seq<Node>, i: nat, j: nat)
    requires i < j < |SlidesOf(children)|
    ensures Place(children, i) < Place(children, j)
  {
    if !children[0].slide {
      PlacesOrdered(children[1..], i, j);
    } else if i > 0 {
      PlacesOrdered(children[1..], i - 1, j - 1);
    }
  }

  // ---------------------------------------------------------------- delete

  /** Deleting a slide from the child list deletes exactly it from the view. */
  lemma DeleteCommutes(children: seq<Node>, i: nat)
    requires Distinct(children) && i < |SlidesOf(children)|
    ensures var s := SlidesOf(children); SlidesOf(Remove(children, s[i])) == s[..i] + s[i + 1..]
  {
    var p := Place(children, i);
    PlaceSplits(children, i);
    RemoveAt(children, p);
    SlidesOfConcat(children[..p], children[p + 1..]);
  }

  /** _deleteSlide's index arithmetic. */
  function IndexAfterDelete(n: nat, index: int, i: int): int {
    if i < index || (i == index && i == n - 1) then index - 1 else index
  }

  /**
   Deleting keeps the active slide active; when it is the active slide that goes,
   its successor becomes active, or its predecessor at the end of the deck.
   */
  lemma DeleteKeepsActive(s: seq<Node>, index: nat, i: nat)
    requires index < |s| && i < |s| && 1 < |s|
    ensures var t := s[..i] + s[i + 1..];
            var k := IndexAfterDelete(|s|, index, i);
            && 0 <= k < |t|
            && t[k] == (if i != index then s[index] else if i + 1 < |s| then s[i + 1] else s[i - 1])
  {
  }

  // ---------------------------------------------------------------- move

  /** Take the i-th element out and put it back at position j of the rest. */
  function Moved<T>(s: seq<T>, i: nat, j: nat): seq<T>
    requires i < |s| && j < |s|
  {
    var rest := s[..i] + s[i + 1..];
    rest[..j] + [s[i]] + rest[j..]
  }

  /** _moveSlide's reference node: the target itself, or whatever child follows it. */
  function MoveRef(children: seq<Node>, i: nat, j: nat): Option<Node>
    requires i < |SlidesOf(children)| && j < |SlidesOf(children)|
  {
    var q := Place(children, j);
    if j < i then Some(children[q]) else NextSibling(children, q)
  }

  function NextSibling(children: seq<Node>, q: nat): Option<Node> {
    if q + 1 < |children| then Some(children[q + 1]) else None
  }

  /** A slide inserted after a prefix whose view is known. */
  lemma InsertedAfterHead(r: seq<Node>, head: seq<Node>, x: Node, rest: seq<Node>, m: nat)
    requires head <= r && x.slide && SlidesOf(r) == rest && m <= |rest| && SlidesOf(head) == rest[..m]
    ensures SlidesOf(r[..|head|] + [x] + r[|head|..]) == rest[..m] + [x] + rest[m..]
  {
    var tail := r[|head|..];
    assert r == head + tail;
    SlidesOfConcat(head, tail);
    assert SlidesOf(tail) == rest[m..];
    InsertedBetween(head, x, tail);
  }

  /** A slide inserted before a suffix whose view is known. */
  lemma InsertedBeforeTail(r: seq<Node>, k: nat, tail: seq<Node>, x: Node, rest: seq<Node>, m: nat)
    requires k <= |r| && r[k..] == tail && x.slide
    requires SlidesOf(r) == rest && m <= |rest| && SlidesOf(tail) == rest[m..]
    ensures SlidesOf(r[..k] + [x] + r[k..]) == rest[..m] + [x] + rest[m..]
  {
    var head := r[..k];
    assert r == head + tail;
    SlidesOfConcat(head, tail);
    assert SlidesOf(head) == rest[..m];
    InsertedBetween(head, x, tail);
  }

  lemma InsertedBetween(head: seq<Node>, x: Node, tail: seq<Node>)
    requires x.slide
    ensures SlidesOf(head + [x] + tail) == SlidesOf(head) + [x] + SlidesOf(tail)
  {
    SlidesOfConcat(head + [x], tail);
    SlidesOfConcat(head, [x]);
    assert SlidesOf([x]) == [x];
  }

  /** In the list r without the slide at p, everything before p stands where it stood. */
  lemma InsertBeforeEarlier(children: seq<Node>, x: Node, p: nat, q: nat)
    requires Distinct(children) && q < p < |children| && children[p] == x
    ensures var r := Remove(children, x);
            && q <= |r| && r[..q] == children[..q]
            && InsertBefore(children, x, Some(children[q])) == r[..q] + [x] + r[q..]
  {
    RemoveAt(children, p);
    RemoveFacts(children, x);
    FindAt(Remove(children, x), q);
  }

  /** ... and everything after p has moved up one. */
  lemma InsertAfterLater(children: seq<Node>, x: Node, p: nat, q: nat)
    requires Distinct(children) && p < q < |children| && children[p] == x
    ensures var r := Remove(children, x);
            && q <= |r| && r[q..] == children[q + 1..]
            && InsertBefore(children, x, NextSibling(children, q)) == r[..q] + [x] + r[q..]
  {
    RemoveAt(children, p);
    var r := Remove(children, x);
    assert r[q..] == children[q + 1..];
    if q + 1 < |children| {
      RemoveFacts(children, x);
      assert r[q] == children[q + 1];
      FindAt(r, q);
    } else {
      assert r[q..] == [];
    }
  }

  lemma HeadView(children: seq<Node>, i: nat, j: nat)
    requires j < i < |SlidesOf(children)|
    ensures var s := SlidesOf(children);
            SlidesOf(children[..Place(children, j)]) == (s[..i] + s[i + 1..])[..j]
  {
    PlaceSplits(children, j);
    HeadOfRemoval(SlidesOf(children), i, j);
  }

  lemma TailView(children: seq<Node>, i: nat, j: nat)
    requires i < j < |SlidesOf(children)|
    ensures var s := SlidesOf(children);
            SlidesOf(children[Place(children, j) + 1..]) == (s[..i] + s[i + 1..])[j..]
  {
    PlaceSplits(children, j);
    TailOfRemoval(SlidesOf(children), i, j);
  }

  lemma HeadOfRemoval<T>(s: seq<T>, i: nat, j: nat)
    requires j < i < |s|
    ensures (s[..i] + s[i + 1..])[..j] == s[..j]
  {
  }

  lemma TailOfRemoval<T>(s: seq<T>, i: nat, j: nat)
    requires i < j < |s|
    ensures (s[..i] + s[i + 1..])[j..] == s[j + 1..]
  {
  }

  /** The view after an upward move, given the view `rest` of the other slides. */
  lemma MoveUpView(children: seq<Node>, x: Node, p: nat, q: nat, rest: seq<Node>, j: nat)
    requires Distinct(children) && q < p < |children| && children[p] == x && x.slide && j <= |rest|
    requires SlidesOf(Remove(children, x)) == rest && SlidesOf(children[..q]) == rest[..j]
    ensures SlidesOf(InsertBefore(children, x, Some(children[q]))) == rest[..j] + [x] + rest[j..]
  {
    InsertBeforeEarlier(children, x, p, q);
    InsertedAfterHead(Remove(children, x), children[..q], x, rest, j);
  }

  lemma MoveDownView(children: seq<Node>, x: Node, p: nat, q: nat, rest: seq<Node>, j: nat)
    requires Distinct(children) && p < q < |children| && children[p] == x && x.slide && j <= |rest|
    requires SlidesOf(Remove(children, x)) == rest && SlidesOf(children[q + 1..]) == rest[j..]
    ensures SlidesOf(InsertBefore(children, x, NextSibling(children, q))) == rest[..j] + [x] + rest[j..]
  {
    InsertAfterLater(children, x, p, q);
    InsertedBeforeTail(Remove(children, x), q, children[q + 1..], x, rest, j);
  }

  lemma MoveUp(children: seq<Node>, i: nat, j: nat, p: nat, q: nat, x: Node, rest: seq<Node>)
    requires Distinct(children) && q < p < |children| && children[p] == x && x.slide && j <= |rest|
    requires SlidesOf(Remove(children, x)) == rest && SlidesOf(children[..q]) == rest[..j]
    requires j < i < |SlidesOf(children)| && Place(children, j) == q
    ensures SlidesOf(InsertBefore(children, x, MoveRef(children, i, j))) == rest[..j] + [x] + rest[j..]
  {
    MoveUpView(children, x, p, q, rest, j);
  }

  lemma MoveDown(children: seq<Node>, i: nat, j: nat, p: nat, q: nat, x: Node, rest: seq<Node>)
    requires Distinct(children) && p < q < |children| && children[p] == x && x.slide && j <= |rest|
    requires SlidesOf(Remove(children, x)) == rest && SlidesOf(children[q + 1..]) == rest[j..]
    requires i < j < |SlidesOf(children)| && Place(children, j) == q
    ensures SlidesOf(InsertBefore(children, x, MoveRef(children, i, j))) == rest[..j] + [x] + rest[j..]
  {
    MoveDownView(children, x, p, q, rest, j);
  }

  /** The slide being moved is never its own reference node. */
  lemma RefIsAnother(children: seq<Node>, i: nat, j: nat)
    requires Distinct(children) && i < |SlidesOf(children)| && j < |SlidesOf(children)| && i != j
    ensures MoveRef(children, i, j) != Some(SlidesOf(children)[i])
  {
    if j < i {
      PlacesOrdered(children, j, i);
    } else {
      PlacesOrdered(children, i, j);
    }
  }

  /**
   Moving a slide in the child list, whatever text, style or script nodes stand
   between, is removing it from the view and inserting it at position j; every
   other child keeps its place relative to the others.
   */
  lemma MoveCommutes(children: seq<Node>, i: nat, j: nat)
    requires Distinct(children) && i < |SlidesOf(children)| && j < |SlidesOf(children)| && i != j
    ensures var s := SlidesOf(children);
            var after := InsertBefore(children, s[i], MoveRef(children, i, j));
            && SlidesOf(after) == Moved(s, i, j)
            && Remove(after, s[i]) == Remove(children, s[i])
            && Distinct(after)
  {
    if j < i {
      MoveUpShows(children, i, j);
    } else {
      MoveDownShows(children, i, j);
    }
    RefIsAnother(children, i, j);
    InsertBeforeFacts(children, SlidesOf(children)[i], MoveRef(children, i, j));
  }

  lemma MoveUpShows(children: seq<Node>, i: nat, j: nat)
    requires Distinct(children) && j < i < |SlidesOf(children)|
    ensures SlidesOf(InsertBefore(children, SlidesOf(children)[i], MoveRef(children, i, j))) == Moved(SlidesOf(children), i, j)
  {
    var s := SlidesOf(children);
    MoveUpAt(children, i, j, s, Place(children, i), Place(children, j), s[..i] + s[i + 1..]);
  }

  lemma MoveUpAt(children: seq<Node>, i: nat, j: nat, s: seq<Node>, p: nat, q: nat, rest: seq<Node>)
    requires Distinct(children) && j < i < |s| && s == SlidesOf(children) && p == Place(children, i) && q == Place(children, j)
    requires rest == s[..i] + s[i + 1..]
    ensures SlidesOf(InsertBefore(children, s[i], MoveRef(children, i, j))) == rest[..j] + [s[i]] + rest[j..]
  {
    DeleteCommutes(children, i);
    HeadView(children, i, j);
    PlacesOrdered(children, j, i);
    MoveUp(children, i, j, p, q, s[i], rest);
  }

  lemma MoveDownShows(children: seq<Node>, i: nat, j: nat)
    requires Distinct(children) && i < j < |SlidesOf(children)|
    ensures SlidesOf(InsertBefore(children, SlidesOf(children)[i], MoveRef(children, i, j))) == Moved(SlidesOf(children), i, j)
  {
    var s := SlidesOf(children);
    MoveDownAt(children, i, j, s, Place(children, i), Place(children, j), s[..i] + s[i + 1..]);
  }

  lemma MoveDownAt(children: seq<Node>, i: nat, j: nat, s: seq<Node>, p: nat, q: nat, rest: seq<Node>)
    requires Distinct(children) && i < j < |s| && s == SlidesOf(children) && p == Place(children, i) && q == Place(children, j)
    requires rest == s[..i] + s[i + 1..]
    ensures SlidesOf(InsertBefore(children, s[i], MoveRef(children, i, j))) == rest[..j] + [s[i]] + rest[j..]
  {
    DeleteCommutes(children, i);
    TailView(children, i, j);
    PlacesOrdered(children, i, j);
    MoveDown(children, i, j, p, q, s[i], rest);
  }

  lemma MovedNowhere<T>(s: seq<T>, i: nat)
    requires i < |s|
    ensures Moved(s, i, i) == s
  {
  }

  // ---------------------------------------------------------------- a slide list that is out of date

  /**
   The node _moveSlide inserts before, read off a slide list the children may
   have left behind; `stray` is what follows a slide that is no longer a child.
   */
  function StaleRef(children: seq<Node>, slides: seq<Node>, i: nat, j: nat, stray: Option<Node>): Option<Node>
    requires j < |slides|
  {
    if j < i then Some(slides[j])
    else if slides[j] in children then NextSibling(children, Find(children, slides[j]))
    else stray
  }

  /** insertBefore raises when its reference is not a child. */
  predicate Refuses(children: seq<Node>, ref: Option<Node>) {
    ref.Some? && ref.value !in children
  }

  /** insertBefore when it does not raise; a node before itself goes before its own successor. */
  function Insertion(children: seq<Node>, x: Node, ref: Option<Node>): seq<Node> {
    InsertBefore(children, x, if ref == Some(x) then NextSibling(children, Find(children, x)) else ref)
  }

  lemma InsertionFacts(children: seq<Node>, x: Node, ref: Option<Node>)
    requires Distinct(children) && !Refuses(children, ref)
    ensures Distinct(Insertion(children, x, ref)) && Remove(Insertion(children, x, ref), x) == Remove(children, x)
    ensures x in Insertion(children, x, ref)
  {
    InsertBeforeFacts(children, x, if ref == Some(x) then NextSibling(children, Find(children, x)) else ref);
  }

  /**
   A move to a slide that is still a child never raises; a move to one that is not
   raises when it is backwards, or when that slide now stands before a node of
   another parent, and otherwise puts the moved slide at the end.
   */
  lemma RefusesExactly(children: seq<Node>, slides: seq<Node>, i: nat, j: nat, stray: Option<Node>)
    requires j < |slides| && i != j && !(stray.Some? && stray.value in children)
    ensures var ref := StaleRef(children, slides, i, j, stray);
            && (Refuses(children, ref) <==> slides[j] !in children && (j < i || stray.Some?))
            && (slides[j] !in children && !Refuses(children, ref) ==> ref.None?)
  {
    if i < j && slides[j] in children {
      var q := Find(children, slides[j]);
      assert q + 1 < |children| ==> children[q + 1] in children;
    }
  }

  /** With no reference the slide goes to the end. */
  lemma InsertedLast(children: seq<Node>, x: Node)
    ensures Insertion(children, x, None) == Remove(children, x) + [x]
  {
  }

  /** On an up-to-date list it is the node `MoveRef` finds, and the insertion does not raise. */
  lemma CurrentRef(children: seq<Node>, i: nat, j: nat, stray: Option<Node>)
    requires Distinct(children) && i < |SlidesOf(children)| && j < |SlidesOf(children)| && i != j
    ensures var ref := StaleRef(children, SlidesOf(children), i, j, stray);
            && ref == MoveRef(children, i, j) && !Refuses(children, ref)
            && Insertion(children, SlidesOf(children)[i], ref) == InsertBefore(children, SlidesOf(children)[i], ref)
  {
    FindAt(children, Place(children, j));
    RefIsAnother(children, i, j);
  }

  /** Where the index goes when the list turns out shorter than it. */
  function Clamped(index: int, n: nat): int {
    if index < n then index else if n == 0 then 0 else n - 1
  }

  /** _moveSlide's index arithmetic. */
  function IndexAfterMove(index: int, i: int, j: int): int {
    if index == i then j
    else if i < index && j >= index then index - 1
    else if i > index && j <= index then index + 1
    else index
  }

  /** The same slide stays active across a move. */
  lemma MoveKeepsActive<T>(s: seq<T>, index: nat, i: nat, j: nat)
    requires index < |s| && i < |s| && j < |s|
    ensures var k := IndexAfterMove(index, i, j); 0 <= k < |s| && Moved(s, i, j)[k] == s[index]
  {
  }

  /** Moving within a list that is up to date: nothing raises, and the view and the active slide are as promised. */
  lemma CurrentMove(children: seq<Node>, index: nat, i: nat, j: nat, stray: Option<Node>)
    requires Distinct(children) && index < |SlidesOf(children)| && i < |SlidesOf(children)| && j < |SlidesOf(children)| && i != j
    ensures var s := SlidesOf(children);
            var ref := StaleRef(children, s, i, j, stray);
            var k := Clamped(IndexAfterMove(index, i, j), |s|);
            && !Refuses(children, ref)
            && SlidesOf(Insertion(children, s[i], ref)) == Moved(s, i, j)
            && Remove(Insertion(children, s[i], ref), s[i]) == Remove(children, s[i])
            && 0 <= k < |s| && Moved(s, i, j)[k] == s[index]
  {
    CurrentRef(children, i, j, stray);
    MoveCommutes(children, i, j);
    MoveKeepsActive(SlidesOf(children), index, i, j);
  }

  /** Deleting from a list that is up to date. */
  lemma CurrentDelete(children: seq<Node>, index: nat, i: nat)
    requires Distinct(children) && index < |SlidesOf(children)| && i < |SlidesOf(children)| && 1 < |SlidesOf(children)|
    ensures var s := SlidesOf(children);
            var t := SlidesOf(Remove(children, s[i]));
            var k := Clamped(IndexAfterDelete(|s|, index, i), |t|);
            && t == s[..i] + s[i + 1..]
            && 0 <= k < |t|
            && t[k] == (if i != index then s[index] else if i + 1 < |s| then s[i + 1] else s[i - 1])
  {
    DeleteCommutes(children, i);
    DeleteKeepsActive(SlidesOf(children), index, i);
  }

  /** The drop handler's target position, from the thumb dropped on and the half of it under the pointer. */
  function DropTarget(from: int, i: int, lowerHalf: bool): int {
    var to := if lowerHalf then i + 1 else i;
    if from < to then to - 1 else to
  }

  /** `moved` stands at k, immediately after (lowerHalf) or before `target`. */
  predicate BesideAt<T(==)>(s: seq<T>, k: int, moved: T, target: T, lowerHalf: bool) {
    && 0 <= k < |s| && s[k] == moved
    && if lowerHalf then 0 < k && s[k - 1] == target else k + 1 < |s| && s[k + 1] == target
  }

  /** Dropping on another slide's thumb lands immediately before or after that slide. */
  lemma DropLandsBesideTarget<T>(s: seq<T>, from: nat, i: nat, lowerHalf: bool)
    requires from < |s| && i < |s| && from != i
    ensures 0 <= DropTarget(from, i, lowerHalf) < |s|
    ensures BesideAt(Moved(s, from, DropTarget(from, i, lowerHalf)), DropTarget(from, i, lowerHalf), s[from], s[i], lowerHalf)
  {
  }

  /** Dropping a thumb on itself, on either half, moves nothing. */
  lemma DropOnItself(from: int, lowerHalf: bool)
    ensures DropTarget(from, from, lowerHalf) == from
  {
  }

  /** Where a drop on any thumb, the dragged one included, leaves the slides. */
  lemma DropFacts<T>(s: seq<T>, from: nat, i: nat, lowerHalf: bool)
    requires from < |s| && i < |s|
    ensures var to := DropTarget(from, i, lowerHalf);
            && 0 <= to < |s|
            && (from == i ==> Moved(s, from, to) == s)
            && Moved(s, from, to)[to] == s[from]
            && (from != i ==> BesideAt(Moved(s, from, to), to, s[from], s[i], lowerHalf))
  {
    if from == i {
      MovedNowhere(s, from);
    } else {
      DropLandsBesideTarget(s, from, i, lowerHalf);
    }
  }

  // ---------------------------------------------------------------- skipping

  /** _advance's loop: the first position from i on, in direction dir, that is not skipped or off the deck. */
  function Landing(s: seq<Node>, skip: set<Node>, i: int, dir: int): int
    requires dir == 1 || dir == -1
    decreases if dir == 1 then |s| - i else i + 1
  {
    if 0 <= i < |s| && s[i] in skip then Landing(s, skip, i + dir, dir) else i
  }

  /** Nothing but skipped slides lie between the start of the search and where it lands. */
  lemma {:induction false} LandingIsNearest(s: seq<Node>, skip: set<Node>, i: int, dir: int)
    requires (dir == 1 || dir == -1) && -1 <= i <= |s|
    ensures var k := Landing(s, skip, i, dir);
            && -1 <= k <= |s|
            && (0 <= k < |s| ==> s[k] !in skip)
            && (dir == 1 ==> i <= k && forall m :: i <= m < k ==> s[m] in skip)
            && (dir == -1 ==> k <= i && forall m :: k < m <= i ==> s[m] in skip)
    decreases if dir == 1 then |s| - i else i + 1
  {
    if 0 <= i < |s| && s[i] in skip {
      LandingIsNearest(s, skip, i + dir, dir);
    }
  }

  /** A successful step from a slide that is not skipped is undone by the opposite step. */
  lemma StepAndBack(s: seq<Node>, skip: set<Node>, i: nat, dir: int)
    requires (dir == 1 || dir == -1) && i < |s| && s[i] !in skip
    ensures var k := Landing(s, skip, i + dir, dir);
            0 <= k < |s| ==> Landing(s, skip, k - dir, -dir) == i
  {
    var k := Landing(s, skip, i + dir, dir);
    LandingIsNearest(s, skip, i + dir, dir);
    if 0 <= k < |s| {
      LandingIsNearest(s, skip, k - dir, -dir);
      var m := Landing(s, skip, k - dir, -dir);
      assert 0 <= m < |s| ==> s[m] !in skip;
    }
  }

  /** The last slide print output shows: -1 when every slide is skipped. */
  function LastVisible(s: seq<Node>, skip: set<Node>): (k: int)
    ensures -1 <= k < |s|
    ensures 0 <= k ==> s[k] !in skip
    ensures forall m :: k < m < |s| ==> s[m] in skip
  {
    if s == [] then -1
    else if s[|s| - 1] !in skip then |s| - 1
    else LastVisible(s[..|s| - 1], skip)
  }
}
