/**
 The deck element: cursor, skip flags and the attributes derived from them,
 kept consistent by every navigation and mutation.
 */
module DeckStage {
  import opened Wrappers
  import opened ChildList
  import opened DeckOrder
  import opened ThumbRail

  /** The index is in range and exactly the slide there is marked active. */
  ghost predicate Marked(slides: seq<Node>, index: int, active: set<Node>) {
    && (if slides == [] then index == 0 else 0 <= index < |slides|)
    && forall k :: 0 <= k < |slides| ==> (slides[k] in active <==> k == index)
  }

  /** The last-visible mark is on exactly the last slide that is not skipped. */
  ghost predicate LastMarked(slides: seq<Node>, skip: set<Node>, lastVisible: set<Node>) {
    forall k :: 0 <= k < |slides| ==> (slides[k] in lastVisible <==> k == LastVisible(slides, skip))
  }

  /** data-deck-slide holds each slide's position. */
  ghost predicate Numbered(slides: seq<Node>, numbers: map<Node, nat>) {
    forall k :: 0 <= k < |slides| ==> slides[k] in numbers && numbers[slides[k]] == k
  }

  /** The #n hash is 1-based; anything out of range is ignored. */
  function HashIndex(index: int, hash: Option<nat>, n: nat): int {
    if hash.Some? && 1 <= hash.value <= n then hash.value - 1 else index
  }

  class Deck {
    const rail: Rail
    const railEnabled: bool
    // Light-DOM children and the attributes on them.
    var children: seq<Node>
    var skip: set<Node>
    var active: set<Node>
    var lastVisible: set<Node>
    var numbers: map<Node, nat>
    // Fields of the element.
    var slides: seq<Node>
    var index: int
    var squelchSlotChange: bool

    ghost predicate Sound()
      reads this, rail
    {
      && Distinct(children) && Distinct(slides) && 0 <= index
      && rail.Valid() && (!railEnabled ==> rail.thumbs == [])
    }

    ghost predicate RailShows()
      reads this, rail
    {
      railEnabled ==> Shown(rail.thumbs) == slides && rail.Labelled(skip)
    }

    /**
     Holds always: last-visible mark, position numbers, thumbs and skip marks
     fit the slide list, which the children may have left behind.
     */
    ghost predicate Collected()
      reads this, rail
    {
      Sound() && LastMarked(slides, skip, lastVisible) && Numbered(slides, numbers) && RailShows()
    }

    /** The index is in range, and exactly the slide and the thumb there are marked. */
    ghost predicate View()
      reads this, rail
    {
      && Collected() && Marked(slides, index, active)
      && (railEnabled && slides != [] ==> rail.CurrentIs(index))
    }

    /** The view of the children as they are now. */
    ghost predicate Valid()
      reads this, rail
    {
      View() && slides == SlidesOf(children)
    }

    /** Upgrade and first slotchange. */
    constructor (kids: seq<Node>, skipped: set<Node>, withRail: bool, hash: Option<nat>)
      requires Distinct(kids)
      ensures Valid() && children == kids && skip == skipped && fresh(rail) && !squelchSlotChange
      ensures railEnabled == withRail && index == HashIndex(0, hash, |slides|)
    {
      rail := new Rail();
      railEnabled := withRail;
      children, skip, active, lastVisible, numbers := kids, skipped, {}, {}, map[];
      slides, index, squelchSlotChange := [], 0, false;
      new;
      OnSlotChange(hash);
    }

    method MarkLastVisible()
      requires Distinct(slides)
      modifies this`lastVisible
      ensures LastMarked(slides, skip, lastVisible)
    {
      var last := -1;
      for i := 0 to |slides|
        invariant -1 <= last < i
        invariant 0 <= last ==> slides[last] !in skip
        invariant forall m :: last < m < i ==> slides[m] in skip
        invariant forall k :: 0 <= k < i ==> slides[k] !in lastVisible
      {
        lastVisible := lastVisible - {slides[i]};
        if slides[i] !in skip {
          last := i;
        }
      }
      if 0 <= last {
        lastVisible := lastVisible + {slides[last]};
      }
    }

    method CollectSlides()
      requires Sound()
      modifies this`slides, this`index, this`lastVisible, this`numbers, rail
      ensures slides == SlidesOf(children)
      ensures Collected() && index == Clamped(old(index), |slides|)
      ensures railEnabled ==> Reuses(old(rail.thumbs), rail.thumbs, old(rail.made))
    {
      SlidesDistinct(children);
      slides := FilterSlides();
      NumberSlides();
      if index >= |slides| {
        index := if |slides| == 0 then 0 else |slides| - 1;
      }
      MarkLastVisible();
      if railEnabled {
        rail.Render(slides, skip);
      }
    }

    method FilterSlides() returns (s: seq<Node>)
      ensures s == SlidesOf(children)
    {
      s := [];
      for i := 0 to |children|
        invariant s == SlidesOf(children[..i])
      {
        assert children[..i + 1] == children[..i] + [children[i]];
        SlidesOfConcat(children[..i], [children[i]]);
        if children[i].slide {
          s := s + [children[i]];
        }
      }
      assert children[..|children|] == children;
    }

    method NumberSlides()
      requires Distinct(slides)
      modifies this`numbers
      ensures Numbered(slides, numbers)
    {
      for i := 0 to |slides|
        invariant forall k :: 0 <= k < i ==> slides[k] in numbers && numbers[slides[k]] == k
      {
        numbers := numbers[slides[i] := i];
      }
    }

    method ApplyIndex()
      requires Sound()
      requires slides != [] ==> index < |slides|
      modifies this`active, rail`currentMarks
      ensures forall k :: 0 <= k < |slides| ==> (slides[k] in active <==> k == index)
      ensures slides != [] ==> rail.CurrentIs(index)
      ensures slides == [] ==> rail.currentMarks == old(rail.currentMarks)
    {
      if slides == [] {
        return;
      }
      for i := 0 to |slides|
        invariant forall k :: 0 <= k < i ==> (slides[k] in active <==> k == index)
      {
        active := if i == index then active + {slides[i]} else active - {slides[i]};
      }
      rail.Sync(index);
    }

    method RestoreIndex(hash: Option<nat>)
      modifies this`index
      ensures index == HashIndex(old(index), hash, |slides|)
    {
      if hash.Some? {
        var n := hash.value as int - 1;
        if 0 <= n < |slides| {
          index := n;
        }
      }
    }

    /** A squelched event only clears the flag; any other one rebuilds everything from the children. */
    method OnSlotChange(hash: Option<nat>)
      requires Collected()
      modifies this, rail
      ensures Collected() && !squelchSlotChange && children == old(children) && skip == old(skip)
      ensures old(squelchSlotChange) ==>
                slides == old(slides) && index == old(index) && active == old(active) && unchanged(rail)
                && lastVisible == old(lastVisible) && numbers == old(numbers)
      ensures !old(squelchSlotChange) ==> Valid() && index == HashIndex(Clamped(old(index), |slides|), hash, |slides|)
      ensures !old(squelchSlotChange) && slides != [] ==>
                && (hash.Some? && 1 <= hash.value <= |slides| ==> slides[hash.value - 1] in active)
                && (hash.None? || !(1 <= hash.value <= |slides|) ==>
                      slides[if old(index) < |slides| then old(index) else |slides| - 1] in active)
    {
      if squelchSlotChange {
        squelchSlotChange := false;
        return;
      }
      CollectSlides();
      RestoreIndex(hash);
      ApplyIndex();
    }

    /** The host rewrites the children; the event for it comes later. */
    method HostMutates(kids: seq<Node>)
      requires Collected() && Distinct(kids)
      modifies this`children
      ensures children == kids && Collected() && (old(View()) ==> View())
    {
      children := kids;
    }

    /**
     The host rewrites the children and the browser reports it once. The view
     follows unless an earlier move or delete left the event to be squelched and
     the change touched the slides; it is a consistent view in either case.
     */
    method HostChange(kids: seq<Node>, hash: Option<nat>)
      requires Collected() && Distinct(kids)
      modifies this, rail
      ensures Collected() && children == kids && !squelchSlotChange
      ensures !old(squelchSlotChange) ==> Valid() && index == HashIndex(Clamped(old(index), |slides|), hash, |slides|)
      ensures old(squelchSlotChange) ==>
                slides == old(slides) && index == old(index) && active == old(active) && unchanged(rail)
      ensures old(View()) ==> View()
      ensures slides == SlidesOf(kids) <==> !old(squelchSlotChange) || old(slides) == SlidesOf(kids)
    {
      HostMutates(kids);
      OnSlotChange(hash);
    }

    method Go(i: int)
      requires Collected()
      modifies this`index, this`active, rail`currentMarks
      ensures Collected()
      ensures index == if slides == [] then old(index) else Clamped(if i < 0 then 0 else i, |slides|)
      ensures old(View()) || index != old(index) ==> View()
      ensures slides != [] && View() ==>
                && (0 <= i < |slides| ==> slides[i] in active)
                && (i < 0 ==> slides[0] in active)
                && (|slides| <= i ==> slides[|slides| - 1] in active)
    {
      if |slides| == 0 {
        return;
      }
      var clamped := if i < 0 then 0 else if i > |slides| - 1 then |slides| - 1 else i;
      if clamped == index {
        return;
      }
      index := clamped;
      ApplyIndex();
    }

    /** Lands on the nearest slide in direction dir that is not skipped, or stays. */
    method Advance(dir: int)
      requires Collected() && (dir == 1 || dir == -1)
      modifies this`index, this`active, rail`currentMarks
      ensures Collected()
      ensures var k := Landing(slides, skip, old(index) + dir, dir);
              index == if 0 <= k < |slides| then k else old(index)
      ensures old(View()) || index != old(index) ==> View()
    {
      if |slides| == 0 {
        return;
      }
      var i := index + dir;
      while 0 <= i < |slides| && slides[i] in skip
        invariant Landing(slides, skip, i, dir) == Landing(slides, skip, index + dir, dir)
        decreases if dir == 1 then |slides| - i else i + 1
      {
        i := i + dir;
      }
      if i < 0 || i >= |slides| {
        return;
      }
      Go(i);
    }

    method SkippedIndices() returns (out: seq<int>)
      ensures forall i, j :: 0 <= i < j < |out| ==> out[i] < out[j]
      ensures forall k :: k in out <==> 0 <= k < |slides| && slides[k] in skip
    {
      out := [];
      for i := 0 to |slides|
        invariant forall j :: 0 <= j < |out| ==> out[j] < i
        invariant forall j, k :: 0 <= j < k < |out| ==> out[j] < out[k]
        invariant forall k :: k in out <==> 0 <= k < i && slides[k] in skip
      {
        if slides[i] in skip {
          out := out + [i];
        }
      }
    }

    method ToggleSkip(i: int)
      requires Collected()
      modifies this`skip, this`lastVisible, rail`skipMarks
      ensures Collected() && (old(View()) ==> View())
      ensures if 0 <= i < |slides|
              then skip == if slides[i] in old(skip) then old(skip) - {slides[i]} else old(skip) + {slides[i]}
              else skip == old(skip)
    {
      if !(0 <= i < |slides|) {
        return;
      }
      var slide := slides[i];
      var on := slide !in skip;
      if railEnabled {
        assert Shown(rail.thumbs)[i] == rail.thumbs[i].slide;
        rail.MarkSkip(i, skip, on);
      }
      skip := if on then skip + {slide} else skip - {slide};
      MarkLastVisible();
    }

    /** The common end of a rail mutation: the view is rebuilt around the index just chosen. */
    method Recollect()
      requires Sound()
      modifies this`slides, this`index, this`active, this`lastVisible, this`numbers, rail
      ensures Valid() && index == Clamped(old(index), |slides|)
    {
      CollectSlides();
      ApplyIndex();
    }

    /** Deleting needs a second slide; whatever the view was, it is that of the children left. */
    method DeleteSlide(i: int)
      requires Collected()
      modifies this, rail
      ensures skip == old(skip)
      ensures !(0 <= i < |old(slides)| && 1 < |old(slides)|) ==> unchanged(this) && unchanged(rail)
      ensures 0 <= i < |old(slides)| && 1 < |old(slides)| ==>
                && Valid() && squelchSlotChange
                && children == Remove(old(children), old(slides)[i])
                && index == Clamped(IndexAfterDelete(|old(slides)|, old(index), i), |slides|)
      ensures old(Valid()) && 0 <= i < |old(slides)| && 1 < |old(slides)| ==>
                && slides == old(slides)[..i] + old(slides)[i + 1..]
                && slides[index] == (if i != old(index) then old(slides)[old(index)]
                                     else if i + 1 < |old(slides)| then old(slides)[i + 1]
                                     else old(slides)[i - 1])
    {
      if slides == SlidesOf(children) && 0 <= i < |slides| && 1 < |slides| && index < |slides| {
        CurrentDelete(children, index, i);
      }
      if !(0 <= i < |slides|) || |slides| <= 1 {
        return;
      }
      RemoveSlide(i);
    }

    method RemoveSlide(i: nat)
      requires Collected() && i < |slides| && 1 < |slides|
      modifies this, rail
      ensures Valid() && skip == old(skip) && squelchSlotChange
      ensures children == Remove(old(children), old(slides)[i])
      ensures index == Clamped(IndexAfterDelete(|old(slides)|, old(index), i), |slides|)
    {
      var slide := slides[i];
      RemoveFacts(children, slide);
      var wasCurrent := i == index;
      if i < index || (wasCurrent && i == |slides| - 1) {
        index := index - 1;
      }
      squelchSlotChange := true;
      children := Remove(children, slide);
      Recollect();
    }

    /** Track the active slide across the reorder. */
    method FollowActive(i: nat, j: nat)
      modifies this`index
      ensures index == IndexAfterMove(old(index), i, j)
    {
      var cur := index;
      if cur == i {
        index := j;
      } else if i < cur && j >= cur {
        index := cur - 1;
      } else if i > cur && j <= cur {
        index := cur + 1;
      }
    }

    /**
     Moves slide i to position j. `stray` is what follows slide j when it is no
     child any more. The index and the squelch flag are set before insertBefore
     can raise, for a slide that does not exist or a reference that is gone.
     */
    method MoveSlide(i: nat, j: int, stray: Option<Node>) returns (raised: bool)
      requires Collected() && !(stray.Some? && stray.value in children)
      modifies this, rail
      ensures Collected() && skip == old(skip)
      ensures !(0 <= j < |old(slides)| && j != i) ==> !raised && unchanged(this) && unchanged(rail)
      ensures 0 <= j < |old(slides)| && j != i ==>
                && squelchSlotChange
                && (raised <==> i >= |old(slides)| || Refuses(old(children), StaleRef(old(children), old(slides), i, j, stray)))
                && (raised ==> index == IndexAfterMove(old(index), i, j) && children == old(children)
                               && slides == old(slides) && active == old(active) && unchanged(rail))
                && (raised && old(View()) ==> (View() <==> index == old(index)))
                && (!raised ==>
                      && Valid() && index == Clamped(IndexAfterMove(old(index), i, j), |slides|)
                      && children == Insertion(old(children), old(slides)[i], StaleRef(old(children), old(slides), i, j, stray)))
      ensures raised && old(View()) && |old(slides)| <= i ==>
                && (View() <==> old(index) < j)
                && (index < |slides| <==> old(index) < j || old(index) + 1 < |slides|)
      ensures old(Valid()) && i < |old(slides)| && 0 <= j < |old(slides)| && j != i ==>
                && !raised && slides == Moved(old(slides), i, j)
                && Remove(children, old(slides)[i]) == Remove(old(children), old(slides)[i])
                && slides[index] == old(slides)[old(index)]
    {
      if j < 0 || j >= |slides| || j == i {
        return false;
      }
      if slides == SlidesOf(children) && i < |slides| && index < |slides| {
        CurrentMove(children, index, i, j, stray);
      }
      MarkIsElsewhere(slides, active, index, IndexAfterMove(index, i, j));
      raised := Reorder(i, j, stray);
    }

    method Reorder(i: nat, j: nat, stray: Option<Node>) returns (raised: bool)
      requires Collected() && !(stray.Some? && stray.value in children) && j < |slides| && j != i
      modifies this, rail
      ensures Collected() && skip == old(skip) && squelchSlotChange
      ensures raised <==> i >= |old(slides)| || Refuses(old(children), StaleRef(old(children), old(slides), i, j, stray))
      ensures raised ==>
                && index == IndexAfterMove(old(index), i, j)
                && children == old(children) && slides == old(slides) && active == old(active) && unchanged(rail)
      ensures !raised ==>
                && Valid() && index == Clamped(IndexAfterMove(old(index), i, j), |slides|)
                && children == Insertion(old(children), old(slides)[i], StaleRef(old(children), old(slides), i, j, stray))
    {
      FollowActive(i, j);
      squelchSlotChange := true;
      if i >= |slides| {
        return true;
      }
      var ref := StaleRef(children, slides, i, j, stray);
      if ref.Some? && ref.value !in children {
        return true;
      }
      InsertSlide(slides[i], ref);
      return false;
    }

    /** The end of a drop: `from` is a position taken earlier. */
    method MoveIfElsewhere(from: nat, to: int, stray: Option<Node>) returns (raised: bool)
      requires Collected() && !(stray.Some? && stray.value in children)
      modifies this, rail
      ensures Collected() && (!raised && old(View()) ==> View())
      ensures old(Valid()) ==> (raised <==> |old(slides)| <= from && 0 <= to < |old(slides)|)
      ensures old(Valid()) && |old(slides)| <= from ==> slides == old(slides)
      ensures old(Valid()) && from < |old(slides)| && 0 <= to < |old(slides)| ==>
                Valid() && slides == Moved(old(slides), from, to) && slides[index] == old(slides)[old(index)]
    {
      if to == from {
        if from < |slides| {
          MovedNowhere(slides, from);
        }
        return false;
      }
      raised := MoveSlide(from, to, stray);
    }

    method InsertSlide(slide: Node, ref: Option<Node>)
      requires Sound() && !Refuses(children, ref)
      modifies this`children, this`slides, this`index, this`active, this`lastVisible, this`numbers, rail
      ensures Valid() && index == Clamped(old(index), |slides|)
      ensures children == Insertion(old(children), slide, ref)
    {
      InsertionFacts(children, slide, ref);
      children := Insertion(children, slide, ref);
      Recollect();
    }
  }

  /** Where the index is not where the mark is, the view is broken. */
  lemma MarkIsElsewhere(slides: seq<Node>, active: set<Node>, cur: int, index: int)
    requires slides != []
    ensures Marked(slides, cur, active) ==> (Marked(slides, index, active) <==> index == cur)
  {
    assert Marked(slides, cur, active) ==> slides[cur] in active;
  }

  /** `grabbed` stands at `to`, beside the target unless it was dropped on itself, and nothing was raised. */
  ghost predicate Lands(raised: bool, slides: seq<Node>, to: int, grabbed: Node, onItself: bool, target: Node, lowerHalf: bool) {
    && !raised && 0 <= to < |slides| && slides[to] == grabbed
    && (onItself || BesideAt(slides, to, grabbed, target, lowerHalf))
  }

  /** A drag of a thumb: the position is taken at dragstart and used at drop. */
  class ThumbDrag {
    const deck: Deck
    var dragFrom: Option<nat>
    ghost var grabbed: Option<Node>

    ghost predicate Valid()
      reads this
    {
      dragFrom.Some? <==> grabbed.Some?
    }

    /** The position taken at dragstart still names the slide that was grabbed. */
    ghost predicate NamesGrabbed()
      reads this, deck
    {
      dragFrom.Some? && dragFrom.value < |deck.slides| && Some(deck.slides[dragFrom.value]) == grabbed
    }

    constructor (deck: Deck)
      ensures Valid() && this.deck == deck && dragFrom.None?
    {
      this.deck := deck;
      dragFrom, grabbed := None, None;
    }

    method DragStart(i: nat)
      requires deck.Collected() && deck.railEnabled && i < |deck.rail.thumbs|
      modifies this
      ensures Valid() && NamesGrabbed() && dragFrom == Some(i) && grabbed == Some(deck.slides[i])
    {
      assert Shown(deck.rail.thumbs)[i] == deck.rail.thumbs[i].slide;
      dragFrom := Some(deck.rail.position[deck.rail.thumbs[i].thumb]);
      grabbed := Some(deck.rail.thumbs[i].slide);
    }

    method DragEnd()
      modifies this
      ensures Valid() && dragFrom.None?
    {
      dragFrom, grabbed := None, None;
    }

    /**
     A drop on the upper or lower half of thumb i. With the list up to date, the
     slide that was grabbed lands beside the target exactly when the position
     taken at dragstart still names it; the active slide stays active as long as
     the position names any slide.
     */
    method Drop(i: nat, lowerHalf: bool, stray: Option<Node>) returns (raised: bool)
      requires Valid() && deck.Collected() && deck.railEnabled && i < |deck.rail.thumbs|
      requires !(stray.Some? && stray.value in deck.children)
      modifies this, deck, deck.rail
      ensures Valid() && dragFrom.None? && deck.Collected()
      ensures old(dragFrom).None? ==> !raised && unchanged(deck) && unchanged(deck.rail)
      ensures !raised && old(deck.View()) ==> deck.View()
      ensures old(deck.Valid()) && old(dragFrom).Some? ==>
                var from := old(dragFrom).value;
                var to := DropTarget(from, i, lowerHalf);
                && (Lands(raised, deck.slides, to, old(grabbed).value, from == i, old(deck.slides)[i], lowerHalf)
                    <==> old(NamesGrabbed()))
                && (raised <==> |old(deck.slides)| <= from && to < |old(deck.slides)|)
                && (from < |old(deck.slides)| ==>
                      && deck.Valid() && deck.slides == Moved(old(deck.slides), from, to)
                      && deck.slides[deck.index] == old(deck.slides)[old(deck.index)])
    {
      if dragFrom.None? {
        return false;
      }
      var from := dragFrom.value;
      var to := if lowerHalf then i + 1 else i;
      if from < to {
        to := to - 1;
      }
      ghost var before, was := deck.slides, grabbed;
      dragFrom, grabbed := None, None;
      assert |Shown(deck.rail.thumbs)| == |before|;
      raised := deck.MoveIfElsewhere(from, to, stray);
      DropLands(before, deck.slides, raised, from, i, lowerHalf, was.value);
    }
  }

  /** Whoever is expected lands exactly when `from` names him. */
  lemma DropLands(s: seq<Node>, t: seq<Node>, raised: bool, from: nat, i: nat, lowerHalf: bool, grabbed: Node)
    requires i < |s|
    ensures var to := DropTarget(from, i, lowerHalf);
            && 0 <= to <= |s| && (from < |s| ==> to < |s|)
            && ((raised <==> |s| <= from && to < |s|) && (if from < |s| then t == Moved(s, from, to) else t == s) ==>
                  (Lands(raised, t, to, grabbed, from == i, s[i], lowerHalf) <==> from < |s| && s[from] == grabbed))
  {
    if from < |s| {
      DropFacts(s, from, i, lowerHalf);
    }
  }

  // ---------------------------------------------------------------- decks the promises fail on

  method TwoSlides(a: Node, b: Node) returns (deck: Deck)
    requires a != b && a.slide && b.slide
    ensures fresh(deck) && fresh(deck.rail) && deck.Valid() && deck.railEnabled && !deck.squelchSlotChange
    ensures deck.children == deck.slides == [a, b] && deck.index == 0
  {
    deck := new Deck([a, b], {}, true, None);
    SlidesOfConcat([a], [b]);
    assert [a, b] == [a] + [b];
  }

  /** A slide that the host appends while an event is to be squelched is not shown. */
  method AppendUnseen(deck: Deck, added: Node)
    requires deck.Valid() && deck.squelchSlotChange && added.slide && added !in deck.children
    modifies deck, deck.rail
    ensures deck.View()
    ensures deck.slides == old(deck.slides) && SlidesOf(deck.children) == old(deck.slides) + [added]
  {
    SlidesOfConcat(deck.children, [added]);
    assert SlidesOf([added]) == [added];
    deck.HostChange(deck.children + [added], None);
  }

  /** Deleting a slide leaves such an event behind: here a deck of two slides ends up showing one. */
  method HostChangeMissed() returns (shown: seq<Node>, present: seq<Node>)
    ensures shown == [Node(1, true)] && present == [Node(1, true), Node(2, true)]
  {
    var a, b := Node(0, true), Node(1, true);
    var deck := TwoSlides(a, b);
    assert Remove([a, b], a) == [b];
    deck.RemoveSlide(0);
    assert deck.children == [b] && deck.slides == [b];
    AppendUnseen(deck, Node(2, true));
    shown := deck.slides;
    present := deck.FilterSlides();
  }

  /**
   "Move up" chosen from a menu that was opened on the last slide before the host
   removed it: the call raises with the index one past the only slide left, which
   stays marked, and the next event will be dropped.
   */
  method MenuOutlivesSlide() returns (raised: bool, index: int, n: nat, squelched: bool)
    ensures raised && index == 1 && n == 1 && squelched
  {
    var a, b := Node(0, true), Node(1, true);
    var deck := TwoSlides(a, b);
    var menuIndex := |deck.slides| - 1;
    deck.HostChange([a], None);
    assert deck.slides == [a] && deck.View();
    raised := deck.MoveSlide(menuIndex, menuIndex - 1, None);
    index, n, squelched := deck.index, |deck.slides|, deck.squelchSlotChange;
  }

  /**
   A move before a slide that the host has just removed, the event still to come:
   the call raises, the index has moved, and the mark has not.
   */
  method MoveBeforeGone() returns (raised: bool, index: int)
    ensures raised && index == 1
  {
    var a, b := Node(0, true), Node(1, true);
    var deck := TwoSlides(a, b);
    deck.HostMutates([b]);
    raised := deck.MoveSlide(1, 0, None);
    index := deck.index;
  }

  /** A slide that the host puts first while a thumb is dragged makes the drag name another slide. */
  method PrependDuringDrag(drag: ThumbDrag, added: Node)
    requires drag.deck.Valid() && drag.NamesGrabbed() && !drag.deck.squelchSlotChange
    requires added.slide && added !in drag.deck.children
    modifies drag.deck, drag.deck.rail
    ensures drag.deck.Valid() && !drag.NamesGrabbed()
    ensures drag.deck.slides == [added] + old(drag.deck.slides)
  {
    var deck, from := drag.deck, drag.dragFrom.value;
    ghost var before := deck.slides;
    SlidesOfConcat([added], deck.children);
    assert SlidesOf([added]) == [added];
    deck.HostChange([added] + deck.children, None);
    assert deck.slides[from] != before[from] by {
      assert deck.slides[from + 1] == before[from];
    }
  }

  /** A drop below the last thumb of a drag that names the first slide. */
  method DropLast(drag: ThumbDrag)
    requires drag.Valid() && drag.deck.Valid() && drag.deck.railEnabled && drag.dragFrom == Some(0) && 1 < |drag.deck.slides|
    modifies drag, drag.deck, drag.deck.rail
    ensures drag.deck.slides == old(drag.deck.slides)[1..] + [old(drag.deck.slides)[0]]
  {
    ghost var s := drag.deck.slides;
    var last := |drag.deck.slides| - 1;
    assert |Shown(drag.deck.rail.thumbs)| == |s|;
    FirstToLast(s);
    var raised := drag.Drop(last, true, None);
  }

  lemma FirstToLast(s: seq<Node>)
    requires 1 < |s|
    ensures DropTarget(0, |s| - 1, true) == |s| - 1 && Moved(s, 0, |s| - 1) == s[1..] + [s[0]]
  {
  }

  /** Of slides 0 and 1 the first is dragged, slide 2 is put before them, and the drop moves slide 2. */
  method DragNamesAnother() returns (shown: seq<Node>)
    ensures shown == [Node(0, true), Node(1, true), Node(2, true)]
  {
    var deck := TwoSlides(Node(0, true), Node(1, true));
    var drag := new ThumbDrag(deck);
    assert |Shown(deck.rail.thumbs)| == 2;
    drag.DragStart(0);
    PrependDuringDrag(drag, Node(2, true));
    DropLast(drag);
    shown := deck.slides;
  }
}
