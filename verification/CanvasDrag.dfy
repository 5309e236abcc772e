/** Live drag-reorder of the artboards of a section, and what it persists. */
module CanvasDrag {
  import opened Wrappers
  import opened CanvasOrder

  /** `order` with the dragged id taken out and put back at `slot` (splice clamps to the end). */
  function DragTo(order: seq<Id>, id: Id, slot: nat): seq<Id> {
    var rest := Drop(order, [id]);
    var k := if slot <= |rest| then slot else |rest|;
    rest[..k] + [id] + rest[k..]
  }

  function Distance(a: real, b: real): real {
    if a < b then b - a else a - b
  }

  /** The first of the closest slots. */
  ghost predicate Nearest(xs: seq<real>, cur: real, n: nat) {
    && n < |xs|
    && (forall i :: 0 <= i < |xs| ==> Distance(xs[n], cur) <= Distance(xs[i], cur))
    && (forall i :: 0 <= i < n ==> Distance(xs[n], cur) < Distance(xs[i], cur))
  }

  /** The closure state of onGripDown. */
  class Drag {
    const order: seq<Id>
    const id: Id
    const slotXs: seq<real>
    const startX: real
    var liveOrder: seq<Id>

    /** The live order is the start order with the dragged id at some slot. */
    ghost predicate Valid()
      reads this
    {
      && Distinct(order) && id in order && |slotXs| == |order|
      && exists slot :: 0 <= slot < |order| && liveOrder == DragTo(order, id, slot)
    }

    constructor (order: seq<Id>, id: Id, slotXs: seq<real>, startIdx: nat)
      requires Distinct(order) && startIdx < |order| && order[startIdx] == id && |slotXs| == |order|
      ensures Valid() && liveOrder == order && this.order == order && this.id == id && this.slotXs == slotXs
      ensures startX == slotXs[startIdx]
    {
      this.order, this.id, this.slotXs, this.startX := order, id, slotXs, slotXs[startIdx];
      liveOrder := order;
      new;
      DragHome(order, id, startIdx);
    }

    /** A pointer move by dx from where the drag began. */
    method Move(dx: real)
      requires Valid()
      modifies this
      ensures Valid()
      ensures exists n: nat :: Nearest(slotXs, startX + dx, n) && liveOrder == DragTo(order, id, n)
      ensures OthersInOrder(order, liveOrder, id)
    {
      var cur := startX + dx;
      var nearest, best := 0, Distance(slotXs[0], cur);
      for i := 1 to |slotXs|
        invariant 0 <= nearest < i && best == Distance(slotXs[nearest], cur)
        invariant forall j :: 0 <= j < i ==> best <= Distance(slotXs[j], cur)
        invariant forall j :: 0 <= j < nearest ==> best < Distance(slotXs[j], cur)
      {
        var d := Distance(slotXs[i], cur);
        if d < best {
          best, nearest := d, i;
        }
      }
      assert Nearest(slotXs, cur, nearest);
      DragKeepsOthers(order, id, nearest);
      ghost var slot :| 0 <= slot < |order| && liveOrder == DragTo(order, id, slot);
      DragPlaces(order, id, slot);
      if IndexOf(liveOrder, id) != nearest {
        liveOrder := DragTo(order, id, nearest);
      }
    }

    /** Pointer up: the new order is handed to onReorder only when its joined form changed. */
    method Up() returns (committed: Option<seq<Id>>)
      requires Valid()
      ensures committed == if Join(liveOrder, BAR) != Join(order, BAR) then Some(liveOrder) else None
      ensures Plain(order, BAR) ==> committed == if liveOrder != order then Some(liveOrder) else None
      ensures committed.Some? ==> Distinct(committed.value) && multiset(committed.value) == multiset(order)
      ensures committed.Some? ==> OthersInOrder(order, committed.value, id)
    {
      ghost var slot :| 0 <= slot < |order| && liveOrder == DragTo(order, id, slot);
      DragPermutes(order, id, slot);
      DragKeepsOthers(order, id, slot);
      if Plain(order, BAR) {
        PlainPermuted(order, liveOrder, BAR);
        JoinInjective(liveOrder, order, BAR);
      }
      if Join(liveOrder, BAR) != Join(order, BAR) {
        return Some(liveOrder);
      }
      return None;
    }
  }

  /** Ids with bars can hide a change: dragging "x" past "x|x" leaves the joined form as it was. */
  lemma BarHidesDrag()
    ensures DragTo(["x", "x|x"], "x", 1) == ["x|x", "x"]
    ensures Join(["x|x", "x"], BAR) == Join(["x", "x|x"], BAR)
  {
    assert ["x", "x|x"][1..] == ["x|x"] && ["x|x", "x"][1..] == ["x"];
    assert Drop(["x|x"], ["x"]) == ["x|x"];
    assert Drop(["x", "x|x"], ["x"]) == ["x|x"];
    assert Join(["x", "x|x"], BAR) == "x" + [BAR] + "x|x" == "x|x|x";
    assert Join(["x|x", "x"], BAR) == "x|x" + [BAR] + "x" == "x|x|x";
  }

  function IndexOf(s: seq<Id>, k: Id): int {
    if s == [] then -1 else if s[0] == k then 0
    else
      var i := IndexOf(s[1..], k);
      if i < 0 then -1 else i + 1
  }

  lemma {:induction false} IndexOfFirst(a: seq<Id>, k: Id, b: seq<Id>)
    requires k !in a
    ensures IndexOf(a + [k] + b, k) == |a|
  {
    if a == [] {
      assert a + [k] + b == [k] + b;
    } else {
      assert (a + [k] + b)[1..] == a[1..] + [k] + b;
      IndexOfFirst(a[1..], k, b);
    }
  }

  /** The dragged id stands at its slot. */
  lemma DragPlaces(order: seq<Id>, id: Id, slot: nat)
    requires Distinct(order) && id in order && slot < |order|
    ensures IndexOf(DragTo(order, id, slot), id) == slot
  {
    var rest := Drop(order, [id]);
    DropOneLength(order, id);
    KeepMembers(order, [id], id);
    assert id !in rest[..slot];
    IndexOfFirst(rest[..slot], id, rest[slot..]);
  }

  lemma {:induction false} DropAbsent(order: seq<Id>, id: Id)
    requires id !in order
    ensures Drop(order, [id]) == order
  {
    if order != [] {
      DropAbsent(order[1..], id);
    }
  }

  lemma {:induction false} DropAt(order: seq<Id>, id: Id, i: nat)
    requires Distinct(order) && i < |order| && order[i] == id
    ensures Drop(order, [id]) == order[..i] + order[i + 1..]
  {
    var t := order[1..];
    assert Distinct(t);
    if i == 0 {
      assert forall k :: 0 <= k < |t| ==> t[k] == order[k + 1];
      DropAbsent(t, id);
    } else {
      DropAt(t, id, i - 1);
      assert order[..i] + order[i + 1..] == [order[0]] + (t[..i - 1] + t[i..]);
    }
  }

  /** a stands somewhere before b. */
  ghost predicate Before(s: seq<Id>, a: Id, b: Id) {
    exists i, j :: 0 <= i < j < |s| && s[i] == a && s[j] == b
  }

  /** Ids other than the dragged one stand in the same order in both lists. */
  ghost predicate OthersInOrder(order: seq<Id>, live: seq<Id>, id: Id) {
    forall a, b :: a != id && b != id ==> (Before(order, a, b) <==> Before(live, a, b))
  }

  lemma BeforeSplit(s: seq<Id>, k: nat, x: Id, a: Id, b: Id)
    requires k <= |s| && a != x && b != x
    ensures Before(s[..k] + [x] + s[k..], a, b) <==> Before(s, a, b)
  {
    var t := s[..k] + [x] + s[k..];
    if Before(s, a, b) {
      var i, j :| 0 <= i < j < |s| && s[i] == a && s[j] == b;
      assert t[if i < k then i else i + 1] == a && t[if j < k then j else j + 1] == b;
    }
    if Before(t, a, b) {
      var i, j :| 0 <= i < j < |t| && t[i] == a && t[j] == b;
      assert t[k] == x;
      assert s[if i < k then i else i - 1] == a && s[if j < k then j else j - 1] == b;
    }
  }

  /** Dragging moves one id past the others, which keep their order. */
  lemma DragKeepsOthers(order: seq<Id>, id: Id, slot: nat)
    requires Distinct(order) && id in order
    ensures OthersInOrder(order, DragTo(order, id, slot), id)
  {
    var i :| 0 <= i < |order| && order[i] == id;
    DropAt(order, id, i);
    var rest := Drop(order, [id]);
    PutBack(order, rest, id, i);
    OthersAround(rest, id, i, if slot <= |rest| then slot else |rest|);
  }

  lemma PutBack(order: seq<Id>, rest: seq<Id>, id: Id, i: nat)
    requires i < |order| && order[i] == id && rest == order[..i] + order[i + 1..]
    ensures i <= |rest| && rest[..i] + [id] + rest[i..] == order
  {
  }

  lemma OthersAround(rest: seq<Id>, id: Id, i: nat, k: nat)
    requires i <= |rest| && k <= |rest|
    ensures OthersInOrder(rest[..i] + [id] + rest[i..], rest[..k] + [id] + rest[k..], id)
  {
    forall a, b | a != id && b != id
      ensures Before(rest[..i] + [id] + rest[i..], a, b) <==> Before(rest[..k] + [id] + rest[k..], a, b)
    {
      BeforeSplit(rest, i, id, a, b);
      BeforeSplit(rest, k, id, a, b);
    }
  }

  /** ... so taking the id out again gives the start order without it. */
  lemma DragTakenOut(order: seq<Id>, id: Id, slot: nat)
    requires Distinct(order) && id in order && slot < |order|
    ensures Drop(DragTo(order, id, slot), [id]) == Drop(order, [id])
  {
    var rest := Drop(order, [id]);
    DragPermutes(order, id, slot);
    DropOneLength(order, id);
    SplicedOut(rest, id, slot);
    DropAt(DragTo(order, id, slot), id, slot);
  }

  lemma SplicedOut(rest: seq<Id>, id: Id, k: nat)
    requires k <= |rest|
    ensures var t := rest[..k] + [id] + rest[k..]; t[k] == id && t[..k] + t[k + 1..] == rest
  {
  }

  lemma DropOneLength(order: seq<Id>, id: Id)
    requires Distinct(order) && id in order
    ensures |Drop(order, [id])| == |order| - 1
  {
    var i :| 0 <= i < |order| && order[i] == id;
    DropAt(order, id, i);
  }

  /** Dragging back to the start slot restores the start order. */
  lemma DragHome(order: seq<Id>, id: Id, i: nat)
    requires Distinct(order) && i < |order| && order[i] == id
    ensures DragTo(order, id, i) == order
  {
    DropAt(order, id, i);
  }

  /** A live order is a duplicate-free permutation of the start order. */
  lemma DragPermutes(order: seq<Id>, id: Id, slot: nat)
    requires Distinct(order) && id in order
    ensures multiset(DragTo(order, id, slot)) == multiset(order) && Distinct(DragTo(order, id, slot))
  {
    DragBag(order, id, slot);
    SameBagDistinct(order, DragTo(order, id, slot));
  }

  lemma DragBag(order: seq<Id>, id: Id, slot: nat)
    requires Distinct(order) && id in order
    ensures multiset(DragTo(order, id, slot)) == multiset(order)
  {
    var i :| 0 <= i < |order| && order[i] == id;
    TakenOutBag(order, i);
    assert Drop(order, [id]) == order[..i] + order[i + 1..] by {
      DropAt(order, id, i);
    }
    SplicedBag(Drop(order, [id]), id, slot);
  }

  lemma TakenOutBag(order: seq<Id>, i: nat)
    requires i < |order|
    ensures multiset(order) == multiset(order[..i] + order[i + 1..]) + multiset{order[i]}
  {
    InsertedBag(order[..i], order[i], order[i + 1..]);
    assert order[..i] + [order[i]] + order[i + 1..] == order;
  }

  lemma SplicedBag(rest: seq<Id>, id: Id, slot: nat)
    ensures var k := if slot <= |rest| then slot else |rest|;
            multiset(rest[..k] + [id] + rest[k..]) == multiset(rest) + multiset{id}
  {
    var k := if slot <= |rest| then slot else |rest|;
    InsertedBag(rest[..k], id, rest[k..]);
    assert rest[..k] + rest[k..] == rest;
  }

  lemma InsertedBag(a: seq<Id>, k: Id, b: seq<Id>)
    ensures multiset(a + [k] + b) == multiset(a + b) + multiset{k}
  {
  }

  lemma SameBagDistinct(a: seq<Id>, b: seq<Id>)
    requires Distinct(a) && multiset(a) == multiset(b)
    ensures Distinct(b)
  {
    DistinctIsCount(a);
    DistinctIsCount(b);
  }

  lemma PlainPermuted(a: seq<Id>, b: seq<Id>, sep: char)
    requires Plain(a, sep) && multiset(a) == multiset(b)
    ensures Plain(b, sep)
  {
    forall i | 0 <= i < |b|
      ensures b[i] != "" && sep !in b[i]
    {
      InCounts(b, b[i]);
      InCounts(a, b[i]);
    }
  }

  // ---------------------------------------------------------------- whole runs of a section

  /** A drag under way, or released and settling: the order it captured at grip, and the dragged id. */
  datatype Grip = Grip(order: seq<Id>, id: Id)

  datatype Canvas = Canvas(sec: Section, grips: seq<Grip>)

  datatype Edit =
    | Gripped(ids: seq<Id>, id: Id)      // onGripDown on `id`
    | Committed(grip: nat, slot: nat)    // the timeout after that drag was released over `slot`
    | Removed(ids: seq<Id>, id: Id)      // onDelete of `id`

  /** What a commit persists: it looks at the captured order only. */
  function Commit(sec: Section, g: Grip, slot: nat): Section {
    var live := DragTo(g.order, g.id, slot);
    if Join(live, BAR) != Join(g.order, BAR) then sec.(order := live) else sec
  }

  /** `ids` is what the source lists at the time of the edit. */
  function Edited(c: Canvas, e: Edit): Canvas {
    match e
    case Gripped(ids, id) =>
      if id in SlotIds(c.sec, ids) then c.(grips := c.grips + [Grip(SlotIds(c.sec, ids), id)]) else c
    case Committed(k, slot) =>
      if k < |c.grips| then Canvas(Commit(c.sec, c.grips[k], slot), c.grips[..k] + c.grips[k + 1..]) else c
    case Removed(ids, id) => c.(sec := Deleted(c.sec, ids, id))
  }

  function AfterEdits(c: Canvas, es: seq<Edit>): Canvas
    decreases es
  {
    if es == [] then c else AfterEdits(Edited(c, es[0]), es[1..])
  }

  lemma DropDistinct(s: seq<Id>, among: seq<Id>)
    requires Distinct(s)
    ensures Distinct(Drop(s, among))
  {
    DistinctIsCount(s);
    DistinctIsCount(Drop(s, among));
    forall k
      ensures multiset(Drop(s, among))[k] <= 1
    {
      DropCounts(s, among, k);
    }
  }

  /** The persisted order, and every order captured by a drag, is free of duplicates. */
  ghost predicate Orderly(c: Canvas) {
    && Distinct(c.sec.order)
    && forall k :: 0 <= k < |c.grips| ==> Distinct(c.grips[k].order) && c.grips[k].id in c.grips[k].order
  }

  /** A drag gripped and committed: what it captured is what it commits, and other drags under way are untouched. */
  lemma GripThenCommit(c: Canvas, ids: seq<Id>, id: Id, slot: nat)
    requires id in SlotIds(c.sec, ids)
    ensures Edited(Edited(c, Gripped(ids, id)), Committed(|c.grips|, slot))
            == c.(sec := Commit(c.sec, Grip(SlotIds(c.sec, ids), id), slot))
  {
    var held := Edited(c, Gripped(ids, id)).grips;
    assert held[..|c.grips|] + held[|c.grips| + 1..] == c.grips;
  }

  predicate Listing(e: Edit) {
    e.Gripped? || e.Removed?
  }

  lemma ShownOrderly(sec: Section, ids: seq<Id>)
    requires Distinct(sec.order) && Distinct(ids)
    ensures Distinct(SlotIds(sec, ids)) && multiset(SlotIds(sec, ids)) == multiset(Visible(sec, ids))
  {
    DropDistinct(ids, Hidden(sec, ids));
    MergePermutes(sec.order, Visible(sec, ids));
  }

  lemma EditKeepsOrderly(c: Canvas, e: Edit)
    requires Orderly(c) && (Listing(e) ==> Distinct(e.ids))
    ensures Orderly(Edited(c, e))
  {
    match e {
      case Gripped(ids, id) => ShownOrderly(c.sec, ids);
      case Committed(k, slot) =>
        if k < |c.grips| {
          DragPermutes(c.grips[k].order, c.grips[k].id, slot);
        }
      case Removed(_, _) =>
    }
  }

  /**
   However drags, their delayed commits and deletions fall between one another,
   against whatever duplicate-free source lists, the persisted order stays
   duplicate-free, and the order shown for any source list is a permutation of
   its visible ids.
   */
  lemma {:induction false} OrdersStayDistinct(c: Canvas, es: seq<Edit>, ids: seq<Id>)
    requires Orderly(c) && Distinct(ids)
    requires forall i :: 0 <= i < |es| && Listing(es[i]) ==> Distinct(es[i].ids)
    ensures var after := AfterEdits(c, es);
            && Orderly(after)
            && Distinct(SlotIds(after.sec, ids))
            && multiset(SlotIds(after.sec, ids)) == multiset(Visible(after.sec, ids))
    decreases es
  {
    if es == [] {
      ShownOrderly(c.sec, ids);
    } else {
      EditKeepsOrderly(c, es[0]);
      OrdersStayDistinct(Edited(c, es[0]), es[1..], ids);
    }
  }

  /** With bar-free ids a commit persists the live order exactly when the drag changed the captured one, whatever happened since. */
  lemma CommitExactly(sec: Section, g: Grip, slot: nat)
    requires Distinct(g.order) && g.id in g.order && Plain(g.order, BAR)
    ensures Commit(sec, g, slot)
            == if DragTo(g.order, g.id, slot) != g.order then sec.(order := DragTo(g.order, g.id, slot)) else sec
  {
    var live := DragTo(g.order, g.id, slot);
    DragPermutes(g.order, g.id, slot);
    PlainPermuted(g.order, live, BAR);
    JoinInjective(live, g.order, BAR);
  }

  lemma {:induction false} KeepAll(s: seq<Id>, among: seq<Id>)
    requires forall i :: 0 <= i < |s| ==> s[i] in among
    ensures Keep(s, among) == s && Drop(s, among) == []
  {
    if s != [] {
      KeepAll(s[1..], among);
    }
  }

  /** Merging an arrangement of the visible ids shows that arrangement. */
  lemma MergeArranged(live: seq<Id>, shown: seq<Id>)
    requires multiset(live) == multiset(shown)
    ensures Merge(live, shown) == live
  {
    forall i | 0 <= i < |live|
      ensures live[i] in shown
    {
      InCounts(live, live[i]);
      InCounts(shown, live[i]);
    }
    forall i | 0 <= i < |shown|
      ensures shown[i] in live
    {
      InCounts(live, shown[i]);
      InCounts(shown, shown[i]);
    }
    KeepAll(live, shown);
    KeepAll(shown, live);
  }

  /** What was dragged is what is shown: with nothing deleted since the grip, the section shows the live order. */
  lemma CommitShowsDrag(sec: Section, ids: seq<Id>, id: Id, slot: nat)
    requires Distinct(sec.order) && Distinct(ids) && id in SlotIds(sec, ids) && Plain(SlotIds(sec, ids), BAR)
    ensures SlotIds(Commit(sec, Grip(SlotIds(sec, ids), id), slot), ids) == DragTo(SlotIds(sec, ids), id, slot)
  {
    var g := Grip(SlotIds(sec, ids), id);
    ShownOrderly(sec, ids);
    CommitExactly(sec, g, slot);
    DragPermutes(g.order, id, slot);
    MergeArranged(DragTo(g.order, id, slot), Visible(sec, ids));
  }

  /**
   A commit brings back no deleted artboard, whatever was deleted since the grip:
   it shows what is visible, the captured order first.
   */
  lemma CommitShowsVisible(sec: Section, g: Grip, slot: nat, ids: seq<Id>, k: Id)
    ensures Visible(Commit(sec, g, slot), ids) == Visible(sec, ids)
    ensures k in SlotIds(Commit(sec, g, slot), ids) <==> k in SlotIds(sec, ids)
  {
    var after, shown := Commit(sec, g, slot), Visible(sec, ids);
    ShownIsVisible(after.order, shown, k);
    ShownIsVisible(sec.order, shown, k);
  }

  lemma ShownIsVisible(order: seq<Id>, shown: seq<Id>, k: Id)
    ensures k in Merge(order, shown) <==> k in shown
  {
    MergeCounts(order, shown, k);
    InCounts(shown, k);
    InCounts(order, k);
    InCounts(Merge(order, shown), k);
  }
}
