/**
 The thumbnail rail: _renderRail's keyed reconciliation of the old thumbs with
 the new slide list, done in place on the rail's children.
 */
module ThumbRail {
  import opened Wrappers
  import opened ChildList
  import opened DeckOrder

  /** A rail entry: its element, known by a number, and the slide it shows. */
  datatype Entry = Entry(thumb: nat, slide: Node)

  function Ids(ts: seq<Entry>): seq<nat> {
    seq(|ts|, i requires 0 <= i < |ts| => ts[i].thumb)
  }

  function Members(s: seq<Node>): set<Node> {
    set x | x in s
  }

  function Shown(ts: seq<Entry>): seq<Node> {
    seq(|ts|, i requires 0 <= i < |ts| => ts[i].slide)
  }

  /** Entries for distinct slides, with distinct elements made so far. */
  ghost predicate GoodEntries(ts: seq<Entry>, made: nat) {
    Distinct(Ids(ts)) && Distinct(Shown(ts)) && forall k :: 0 <= k < |ts| ==> ts[k].thumb < made
  }

  /** Surviving slides keep their entry; the others get an element that did not exist. */
  ghost predicate Reuses(before: seq<Entry>, next: seq<Entry>, made: nat) {
    && (forall t :: t in before && t.slide in Shown(next) ==> t in next)
    && (forall k :: 0 <= k < |next| && next[k].slide !in Shown(before) ==> made <= next[k].thumb)
  }

  class Rail {
    var thumbs: seq<Entry>
    var children: seq<nat>
    var position: map<nat, nat>
    var skipMarks: set<nat>
    var currentMarks: set<nat>
    var made: nat

    ghost predicate Valid()
      reads this
    {
      GoodEntries(thumbs, made) && children == Ids(thumbs)
    }

    /** Every entry knows its position, and the skip mark of its slide is on its thumb. */
    ghost predicate Labelled(skip: set<Node>)
      reads this
    {
      forall k :: 0 <= k < |thumbs| ==>
        && thumbs[k].thumb in position && position[thumbs[k].thumb] == k
        && (thumbs[k].thumb in skipMarks <==> thumbs[k].slide in skip)
    }

    /** Exactly the thumb at `index` carries the current mark. */
    ghost predicate CurrentIs(index: int)
      reads this
    {
      forall k :: 0 <= k < |thumbs| ==> (thumbs[k].thumb in currentMarks <==> k == index)
    }

    constructor ()
      ensures Valid() && thumbs == []
    {
      thumbs, children, position, made := [], [], map[], 0;
      skipMarks, currentMarks := {}, {};
    }

    method IndexBySlide() returns (bySlide: map<Node, Entry>)
      requires Valid()
      ensures forall s :: s in bySlide <==> s in Shown(thumbs)
      ensures forall s :: s in bySlide ==> bySlide[s] in thumbs && bySlide[s].slide == s
      ensures forall t :: t in thumbs ==> t.slide in bySlide && bySlide[t.slide] == t
    {
      bySlide := map[];
      for i := 0 to |thumbs|
        invariant forall s :: s in bySlide ==> bySlide[s] in thumbs && bySlide[s].slide == s
        invariant forall k :: 0 <= k < i ==> thumbs[k].slide in bySlide && bySlide[thumbs[k].slide] == thumbs[k]
      {
        assert forall k :: 0 <= k < i ==> Shown(thumbs)[k] != Shown(thumbs)[i] && Shown(thumbs)[k] == thumbs[k].slide;
        bySlide := bySlide[thumbs[i].slide := thumbs[i]];
      }
      forall s | s in bySlide
        ensures s in Shown(thumbs)
      {
        var k :| 0 <= k < |thumbs| && thumbs[k] == bySlide[s];
        assert Shown(thumbs)[k] == s;
      }
    }

    /** The new entry list, and the entries left over for slides that are gone. */
    method CollectEntries(slides: seq<Node>, bySlide: map<Node, Entry>) returns (next: seq<Entry>, orphans: map<Node, Entry>)
      requires Distinct(slides)
      requires forall s :: s in bySlide ==> bySlide[s].slide == s && bySlide[s].thumb < made
      requires forall s, u :: s in bySlide && u in bySlide && s != u ==> bySlide[s].thumb != bySlide[u].thumb
      modifies this`made
      ensures old(made) <= made && Shown(next) == slides && GoodEntries(next, made)
      ensures forall k :: 0 <= k < |next| ==>
                if slides[k] in bySlide then next[k] == bySlide[slides[k]] else old(made) <= next[k].thumb
      ensures orphans == bySlide - Members(slides)
    {
      next, orphans := [], bySlide;
      for i := 0 to |slides|
        invariant |next| == i && old(made) <= made
        invariant forall k :: 0 <= k < i ==>
                    && next[k].slide == slides[k] && next[k].thumb < made
                    && if slides[k] in bySlide then next[k] == bySlide[slides[k]] else old(made) <= next[k].thumb
        invariant forall j, k :: 0 <= j < k < i ==> next[j].thumb != next[k].thumb
        invariant orphans == bySlide - Members(slides[..i])
      {
        assert slides[i] !in slides[..i];
        assert Members(slides[..i + 1]) == Members(slides[..i]) + {slides[i]};
        if slides[i] in orphans {
          next := next + [orphans[slides[i]]];
          orphans := orphans - {slides[i]};
        } else {
          next := next + [Entry(made, slides[i])];
          made := made + 1;
        }
      }
      assert slides[..|slides|] == slides;
      assert Shown(next) == slides;
    }

    method RemoveOrphans(orphans: map<Node, Entry>)
      requires Distinct(children)
      modifies this`children
      ensures Distinct(children)
      ensures forall c :: c in children ==> c in old(children) && forall s :: s in orphans ==> orphans[s].thumb != c
    {
      var todo := orphans.Keys;
      while todo != {}
        invariant todo <= orphans.Keys && Distinct(children)
        invariant forall c :: c in children ==>
                    c in old(children) && forall s :: s in orphans && s !in todo ==> orphans[s].thumb != c
        decreases todo
      {
        var s :| s in todo;
        RemoveFacts(children, orphans[s].thumb);
        children := Remove(children, orphans[s].thumb);
        todo := todo - {s};
      }
    }

    /** The insertBefore loop: thumbs are put into slide order, and relabelled. */
    method PlaceThumbs(next: seq<Entry>, skip: set<Node>)
      requires Distinct(Ids(next)) && Distinct(children)
      requires forall c :: c in children ==> c in Ids(next)
      modifies this`children, this`position, this`skipMarks
      ensures children == Ids(next)
      ensures forall k :: 0 <= k < |next| ==>
                && next[k].thumb in position && position[next[k].thumb] == k
                && (next[k].thumb in skipMarks <==> next[k].slide in skip)
    {
      for i := 0 to |next|
        invariant Distinct(children) && forall c :: c in children ==> c in Ids(next)
        invariant i <= |children| && children[..i] == Ids(next)[..i]
        invariant forall k :: 0 <= k < i ==>
                    && next[k].thumb in position && position[next[k].thumb] == k
                    && (next[k].thumb in skipMarks <==> next[k].slide in skip)
      {
        var want := next[i].thumb;
        assert forall k :: 0 <= k < i ==> Ids(next)[k] != Ids(next)[i] && Ids(next)[k] == next[k].thumb;
        var at := if i < |children| then Some(children[i]) else None;
        if at != Some(want) {
          PlaceOne(Ids(next), children, i);
          children := InsertBefore(children, want, at);
        }
        position := position[want := i];
        skipMarks := if next[i].slide in skip then skipMarks + {want} else skipMarks - {want};
      }
      FullOrder(Ids(next), children);
    }

    /** _renderRail with the rail enabled. */
    method Render(slides: seq<Node>, skip: set<Node>)
      requires Valid() && Distinct(slides)
      modifies this
      ensures Valid() && Labelled(skip) && currentMarks == old(currentMarks)
      ensures Shown(thumbs) == slides
      ensures Reuses(old(thumbs), thumbs, old(made))
    {
      var bySlide := IndexBySlide();
      ThumbsDiffer(thumbs, bySlide);
      var next, orphans := CollectEntries(slides, bySlide);
      RemoveOrphans(orphans);
      forall c | c in children
        ensures c in Ids(next)
      {
        SurvivorListed(thumbs, bySlide, slides, next, orphans, c);
      }
      PlaceThumbs(next, skip);
      ReuseHolds(thumbs, bySlide, slides, next, old(made));
      thumbs := next;
    }

    /** _syncRail */
    method Sync(index: int)
      requires Valid()
      modifies this`currentMarks
      ensures CurrentIs(index)
    {
      for i := 0 to |thumbs|
        invariant forall k :: 0 <= k < i ==> (thumbs[k].thumb in currentMarks <==> k == index)
      {
        assert forall k :: 0 <= k < i ==> Ids(thumbs)[k] != Ids(thumbs)[i] && Ids(thumbs)[k] == thumbs[k].thumb;
        var t := thumbs[i].thumb;
        currentMarks := if i == index then currentMarks + {t} else currentMarks - {t};
      }
    }

    /** _toggleSkip's update of one thumb. */
    method MarkSkip(i: nat, skip: set<Node>, on: bool)
      requires Valid() && Labelled(skip) && i < |thumbs|
      modifies this`skipMarks
      ensures Labelled(if on then skip + {thumbs[i].slide} else skip - {thumbs[i].slide})
    {
      var t := thumbs[i].thumb;
      skipMarks := if on then skipMarks + {t} else skipMarks - {t};
      forall k | 0 <= k < |thumbs| && k != i
        ensures thumbs[k].thumb != t && thumbs[k].slide != thumbs[i].slide
      {
        assert Ids(thumbs)[k] == thumbs[k].thumb && Shown(thumbs)[k] == thumbs[k].slide;
        assert Ids(thumbs)[i] == t && Shown(thumbs)[i] == thumbs[i].slide;
      }
    }
  }

  /** One insertBefore extends the part of the rail that is in order. */
  lemma PlaceOne(want: seq<nat>, children: seq<nat>, i: nat)
    requires Distinct(want) && Distinct(children) && i < |want| && i <= |children|
    requires children[..i] == want[..i] && (i < |children| ==> children[i] != want[i])
    ensures var after := InsertBefore(children, want[i], if i < |children| then Some(children[i]) else None);
            && Distinct(after) && i < |after| && after[..i + 1] == want[..i + 1]
            && forall c :: c in after <==> c in children || c == want[i]
  {
    var ref := if i < |children| then Some(children[i]) else None;
    InsertBeforeFacts(children, want[i], ref);
    RemovalKeepsHead(want, children, i);
    var r := Remove(children, want[i]);
    RemoveFacts(children, want[i]);
    if i < |children| {
      FindAt(r, i);
    }
    var after := InsertBefore(children, want[i], ref);
    assert after == r[..i] + [want[i]] + r[i..];
    assert after[..i + 1] == want[..i] + [want[i]];
  }

  /** The wanted thumb is not among those already in order, so taking it out leaves them there. */
  lemma RemovalKeepsHead(want: seq<nat>, children: seq<nat>, i: nat)
    requires Distinct(want) && Distinct(children) && i < |want| && i <= |children|
    requires children[..i] == want[..i] && (i < |children| ==> children[i] != want[i])
    ensures var r := Remove(children, want[i]);
            i <= |r| && r[..i] == want[..i] && (if i < |children| then i < |r| && r[i] == children[i] else i == |r|)
  {
    assert forall k :: 0 <= k < i ==> children[k] == children[..i][k] == want[..i][k] == want[k];
    if want[i] in children {
      var k :| 0 <= k < |children| && children[k] == want[i];
      RemoveAt(children, k);
    } else {
      RemoveAbsent(children, want[i]);
    }
  }

  lemma NextIsNew(want: seq<nat>, children: seq<nat>)
    requires Distinct(children) && |want| < |children| && children[..|want|] == want
    ensures children[|want|] !in want
  {
    assert forall k :: 0 <= k < |want| ==> want[k] == children[..|want|][k] == children[k];
  }

  /** A distinct list that starts with all of `want` and holds nothing else is `want`. */
  lemma FullOrder(want: seq<nat>, children: seq<nat>)
    requires Distinct(children) && |want| <= |children| && children[..|want|] == want
    requires forall c :: c in children ==> c in want
    ensures children == want
  {
    if |want| < |children| {
      NextIsNew(want, children);
      assert false;
    }
  }

  lemma ThumbsDiffer(ts: seq<Entry>, bySlide: map<Node, Entry>)
    requires Distinct(Ids(ts)) && forall s :: s in bySlide ==> bySlide[s] in ts && bySlide[s].slide == s
    ensures forall s, u :: s in bySlide && u in bySlide && s != u ==> bySlide[s].thumb != bySlide[u].thumb
  {
    forall s, u | s in bySlide && u in bySlide && s != u
      ensures bySlide[s].thumb != bySlide[u].thumb
    {
      var j :| 0 <= j < |ts| && ts[j] == bySlide[s];
      var k :| 0 <= k < |ts| && ts[k] == bySlide[u];
      assert Ids(ts)[j] == bySlide[s].thumb && Ids(ts)[k] == bySlide[u].thumb;
    }
  }

  /** A thumb that was not an orphan belongs to a slide still in the deck. */
  lemma SurvivorListed(ts: seq<Entry>, bySlide: map<Node, Entry>, slides: seq<Node>, next: seq<Entry>,
                       orphans: map<Node, Entry>, c: nat)
    requires c in Ids(ts) && forall t :: t in ts ==> t.slide in bySlide && bySlide[t.slide] == t
    requires orphans == bySlide - Members(slides) && forall s :: s in orphans ==> orphans[s].thumb != c
    requires |next| == |slides| && forall k :: 0 <= k < |next| && slides[k] in bySlide ==> next[k] == bySlide[slides[k]]
    ensures c in Ids(next)
  {
    var j :| 0 <= j < |ts| && Ids(ts)[j] == c;
    var t := ts[j];
    assert t in ts;
    assert t.slide !in orphans;
    var k :| 0 <= k < |slides| && slides[k] == t.slide;
    assert Ids(next)[k] == c;
  }

  lemma ReuseHolds(ts: seq<Entry>, bySlide: map<Node, Entry>, slides: seq<Node>, next: seq<Entry>, made: nat)
    requires Shown(next) == slides
    requires forall t :: t in ts ==> t.slide in bySlide && bySlide[t.slide] == t
    requires forall s :: s in bySlide <==> s in Shown(ts)
    requires forall k :: 0 <= k < |next| ==>
               if slides[k] in bySlide then next[k] == bySlide[slides[k]] else made <= next[k].thumb
    ensures Reuses(ts, next, made)
  {
    forall t | t in ts && t.slide in Shown(next)
      ensures t in next
    {
      var k :| 0 <= k < |slides| && slides[k] == t.slide;
      assert next[k] == t;
    }
    forall k | 0 <= k < |next| && next[k].slide !in Shown(ts)
      ensures made <= next[k].thumb
    {
      assert Shown(next)[k] == slides[k];
    }
  }
}
