/**
 The persisted arrangement of a canvas section: which artboards are visible and
 in which order, computed once by DesignCanvas and once by DCSection.
 */
module CanvasOrder {
  import opened Wrappers

  type Id = string

  // ---------------------------------------------------------------- ids of the artboards in a section

  /** A React child: fragments are unwrapped, anything but an artboard is passed over. */
  datatype Child = Fragment(children: seq<Child>) | Artboard(id: Option<Id>, title: Option<Id>) | Other

  function Flatten(cs: seq<Child>): seq<Child> {
    if cs == [] then []
    else (match cs[0]
          case Fragment(inner) => Flatten(inner)
          case _ => [cs[0]]) + Flatten(cs[1..])
  }

  lemma {:induction false} FlattenConcat(a: seq<Child>, b: seq<Child>)
    ensures Flatten(a + b) == Flatten(a) + Flatten(b)
  {
    if a == [] {
      assert a + b == b;
    } else {
      assert (a + b)[0] == a[0] && (a + b)[1..] == a[1..] + b;
      FlattenConcat(a[1..], b);
    }
  }

  /** Unwrapping a fragment puts its flattened children in its place, and touches nothing else. */
  lemma FlattenInPlace(a: seq<Child>, c: Child, b: seq<Child>)
    ensures Flatten(a + [c] + b) == Flatten(a) + (if c.Fragment? then Flatten(c.children) else [c]) + Flatten(b)
  {
    FlattenConcat(a + [c], b);
    FlattenConcat(a, [c]);
    assert [c][1..] == [];
  }

  /** How often the child x, no fragment itself, occurs anywhere in the tree. */
  function Occurrences(cs: seq<Child>, x: Child): nat {
    if cs == [] then 0
    else
      (match cs[0]
       case Fragment(inner) => Occurrences(inner, x)
       case _ => if cs[0] == x then 1 else 0) + Occurrences(cs[1..], x)
  }

  /** Grouping loses and invents nothing, at any depth. */
  lemma {:induction false} FlattenKeepsChildren(cs: seq<Child>, x: Child)
    requires !x.Fragment?
    ensures multiset(Flatten(cs))[x] == Occurrences(cs, x)
  {
    if cs != [] {
      FlattenKeepsChildren(cs[1..], x);
      match cs[0] {
        case Fragment(inner) => FlattenKeepsChildren(inner, x);
        case _ =>
      }
    }
  }

  /** dcFlatten: the push buffer yields the flattened list, and no fragment is left in it. */
  method DcFlatten(cs: seq<Child>) returns (out: seq<Child>)
    ensures out == Flatten(cs)
    ensures forall i :: 0 <= i < |out| ==> !out[i].Fragment?
    decreases cs
  {
    out := [];
    for i := 0 to |cs|
      invariant out == Flatten(cs[..i])
      invariant forall j :: 0 <= j < |out| ==> !out[j].Fragment?
    {
      assert cs[..i + 1] == cs[..i] + [cs[i]];
      FlattenConcat(cs[..i], [cs[i]]);
      assert [cs[i]][1..] == [];
      match cs[i] {
        case Fragment(inner) =>
          var rest := DcFlatten(inner);
          out := out + rest;
        case _ => out := out + [cs[i]];
      }
    }
    assert cs[..|cs|] == cs;
  }

  /** props.id ?? props.label */
  function IdOf(c: Child): Option<Id>
    requires c.Artboard?
  {
    if c.id.Some? then c.id else c.title
  }

  /** DCSection: filter by type, map to ids, filter(Boolean). */
  function SectionIds(cs: seq<Child>): seq<Id> {
    Truthy(ArtboardIds(cs))
  }

  function ArtboardIds(cs: seq<Child>): seq<Option<Id>> {
    if cs == [] then [] else (if cs[0].Artboard? then [IdOf(cs[0])] else []) + ArtboardIds(cs[1..])
  }

  function Truthy(ids: seq<Option<Id>>): seq<Id> {
    if ids == [] then []
    else (if ids[0].Some? && ids[0].value != "" then [ids[0].value] else []) + Truthy(ids[1..])
  }

  /** An id wins over the title, even an empty one; an artboard with neither, or an empty name, has no slot. */
  lemma IdWinsOverLabel(x: Id, title: Option<Id>, rest: seq<Child>)
    ensures SectionIds([Artboard(Some(x), title)] + rest) == (if x == "" then [] else [x]) + SectionIds(rest)
    ensures SectionIds([Artboard(None, Some(x))] + rest) == (if x == "" then [] else [x]) + SectionIds(rest)
    ensures SectionIds([Artboard(None, None)] + rest) == SectionIds(rest)
    ensures SectionIds([Other] + rest) == SectionIds(rest)
  {
    OneChild(Artboard(Some(x), title), rest);
    OneChild(Artboard(None, Some(x)), rest);
    OneChild(Artboard(None, None), rest);
    OneChild(Other, rest);
  }

  lemma OneChild(c: Child, rest: seq<Child>)
    ensures ArtboardIds([c] + rest) == (if c.Artboard? then [IdOf(c)] else []) + ArtboardIds(rest)
    ensures c.Artboard? ==> SectionIds([c] + rest)
                            == (if IdOf(c).Some? && IdOf(c).value != "" then [IdOf(c).value] else []) + SectionIds(rest)
    ensures !c.Artboard? ==> SectionIds([c] + rest) == SectionIds(rest)
  {
    assert ([c] + rest)[0] == c && ([c] + rest)[1..] == rest;
    assert [] + ArtboardIds(rest) == ArtboardIds(rest);
    if c.Artboard? {
      var ids := ArtboardIds(rest);
      assert ([IdOf(c)] + ids)[0] == IdOf(c) && ([IdOf(c)] + ids)[1..] == ids;
    }
  }

  lemma {:induction false} ArtboardIdsConcat(a: seq<Child>, b: seq<Child>)
    ensures ArtboardIds(a + b) == ArtboardIds(a) + ArtboardIds(b)
  {
    if a == [] {
      assert a + b == b;
    } else {
      assert (a + b)[0] == a[0] && (a + b)[1..] == a[1..] + b;
      ArtboardIdsConcat(a[1..], b);
    }
  }

  lemma {:induction false} TruthyConcat(a: seq<Option<Id>>, b: seq<Option<Id>>)
    ensures Truthy(a + b) == Truthy(a) + Truthy(b)
  {
    if a == [] {
      assert a + b == b;
    } else {
      assert (a + b)[0] == a[0] && (a + b)[1..] == a[1..] + b;
      TruthyConcat(a[1..], b);
    }
  }

  lemma SectionIdsAppend(cs: seq<Child>, c: Child)
    ensures SectionIds(cs + [c])
            == if c.Artboard? && IdOf(c).Some? && IdOf(c).value != "" then SectionIds(cs) + [IdOf(c).value] else SectionIds(cs)
  {
    ArtboardIdsConcat(cs, [c]);
    TruthyConcat(ArtboardIds(cs), ArtboardIds([c]));
    assert [c][1..] == [];
    if c.Artboard? {
      assert ArtboardIds([c]) == [IdOf(c)] && [IdOf(c)][1..] == [];
    }
  }

  /** DesignCanvas: one pass with early returns and a push gives the ids DCSection filters out. */
  method CanvasIds(children: seq<Child>) returns (ids: seq<Id>)
    ensures ids == SectionIds(Flatten(children))
  {
    var cs := DcFlatten(children);
    ids := [];
    for i := 0 to |cs|
      invariant ids == SectionIds(cs[..i])
    {
      assert cs[..i + 1] == cs[..i] + [cs[i]];
      SectionIdsAppend(cs[..i], cs[i]);
      if !cs[i].Artboard? {
        continue;
      }
      var aid := IdOf(cs[i]);
      if aid.Some? && aid.value != "" {
        ids := ids + [aid.value];
      }
    }
    assert cs[..|cs|] == cs;
  }

  // ---------------------------------------------------------------- joined keys

  /** ids.join(sep) for a one-character separator. */
  function Join(ids: seq<Id>, sep: char): string {
    if ids == [] then "" else if |ids| == 1 then ids[0] else ids[0] + [sep] + Join(ids[1..], sep)
  }

  predicate Plain(ids: seq<Id>, sep: char) {
    forall i :: 0 <= i < |ids| ==> ids[i] != "" && sep !in ids[i]
  }

  function Split(s: string, sep: char): seq<Id> {
    if s == "" then [""]
    else if s[0] == sep then [""] + Split(s[1..], sep)
    else
      var rest := Split(s[1..], sep);
      if rest == [] then [[s[0]]] else [[s[0]] + rest[0]] + rest[1..]
  }

  lemma {:induction false} SplitHead(a: Id, t: string, sep: char)
    requires sep !in a
    ensures Split(a, sep) == [a]
    ensures Split(a + [sep] + t, sep) == [a] + Split(t, sep)
  {
    if a == "" {
      assert a + [sep] + t == [sep] + t;
    } else {
      SplitHead(a[1..], t, sep);
      var s := a + [sep] + t;
      assert s[1..] == a[1..] + [sep] + t;
      assert [a[0]] + a[1..] == a;
    }
  }

  lemma {:induction false} JoinSplitsBack(ids: seq<Id>, sep: char)
    requires ids != [] && Plain(ids, sep)
    ensures Split(Join(ids, sep), sep) == ids
  {
    SplitHead(ids[0], "", sep);
    if |ids| > 1 {
      JoinSplitsBack(ids[1..], sep);
      SplitHead(ids[0], Join(ids[1..], sep), sep);
    }
  }

  /** Non-empty ids without the separator can be read back from the joined key. */
  lemma JoinInjective(a: seq<Id>, b: seq<Id>, sep: char)
    requires Plain(a, sep) && Plain(b, sep)
    ensures Join(a, sep) == Join(b, sep) <==> a == b
  {
    if a != [] && b != [] {
      JoinSplitsBack(a, sep);
      JoinSplitsBack(b, sep);
    } else {
      assert a != [] ==> Join(a, sep) != "";
      assert b != [] ==> Join(b, sep) != "";
    }
  }

  // ---------------------------------------------------------------- merging saved order with source order

  function Keep(s: seq<Id>, among: seq<Id>): seq<Id> {
    if s == [] then [] else (if s[0] in among then [s[0]] else []) + Keep(s[1..], among)
  }

  function Drop(s: seq<Id>, among: seq<Id>): seq<Id> {
    if s == [] then [] else (if s[0] in among then [] else [s[0]]) + Drop(s[1..], among)
  }

  /** Saved ids that still exist, in saved order; then the new ones in source order. */
  function Merge(saved: seq<Id>, src: seq<Id>): seq<Id> {
    var kept := Keep(saved, src);
    kept + Drop(src, kept)
  }

  lemma {:induction false} KeepCounts(s: seq<Id>, among: seq<Id>, k: Id)
    ensures multiset(Keep(s, among))[k] == if k in among then multiset(s)[k] else 0
  {
    if s != [] {
      KeepCounts(s[1..], among, k);
      assert s == [s[0]] + s[1..];
    }
  }

  lemma {:induction false} DropCounts(s: seq<Id>, among: seq<Id>, k: Id)
    ensures multiset(Drop(s, among))[k] == if k in among then 0 else multiset(s)[k]
  {
    if s != [] {
      DropCounts(s[1..], among, k);
      assert s == [s[0]] + s[1..];
    }
  }

  lemma InCounts(s: seq<Id>, k: Id)
    ensures k in s <==> 0 < multiset(s)[k]
  {
    assert k in s <==> k in multiset(s);
  }

  /**
   How often each id occurs in the merged order, for any saved and source lists:
   as often as it was saved if it is both saved and in the source, as often as in
   the source if it was not saved, and never if it left the source.
   */
  lemma MergeCounts(saved: seq<Id>, src: seq<Id>, k: Id)
    ensures multiset(Merge(saved, src))[k]
            == if k in src && k in saved then multiset(saved)[k] else multiset(src)[k]
  {
    var kept := Keep(saved, src);
    KeepCounts(saved, src, k);
    DropCounts(src, kept, k);
    InCounts(kept, k);
    InCounts(saved, k);
    InCounts(src, k);
  }

  lemma {:induction false} DistinctIsCount(s: seq<Id>)
    ensures Distinct(s) <==> forall k :: multiset(s)[k] <= 1
  {
    if s != [] {
      var t := s[1..];
      DistinctIsCount(t);
      assert s == [s[0]] + t;
      InCounts(t, s[0]);
      if Distinct(s) {
        assert s[0] !in t;
      } else if Distinct(t) {
        var i, j :| 0 <= i < j < |s| && s[i] == s[j];
        assert i == 0 && t[j - 1] == s[0];
        assert multiset(s)[s[0]] == 1 + multiset(t)[s[0]];
      } else {
        var k :| multiset(t)[k] > 1;
        assert multiset(s)[k] >= multiset(t)[k];
      }
    }
  }

  /** With duplicate-free lists the merged order is a permutation of the visible ids. */
  lemma MergePermutes(saved: seq<Id>, src: seq<Id>)
    requires Distinct(saved) && Distinct(src)
    ensures multiset(Merge(saved, src)) == multiset(src) && Distinct(Merge(saved, src))
  {
    DistinctIsCount(saved);
    DistinctIsCount(src);
    forall k
      ensures multiset(Merge(saved, src))[k] == multiset(src)[k]
    {
      MergeCounts(saved, src, k);
      InCounts(saved, k);
      InCounts(src, k);
    }
    DistinctIsCount(Merge(saved, src));
  }

  lemma {:induction false} KeepAll(s: seq<Id>, among: seq<Id>)
    requires forall k :: k in s ==> k in among
    ensures Keep(s, among) == s
  {
    if s != [] {
      KeepAll(s[1..], among);
    }
  }

  lemma {:induction false} DropAll(s: seq<Id>, among: seq<Id>)
    requires forall k :: k in s ==> k in among
    ensures Drop(s, among) == []
  {
    if s != [] {
      DropAll(s[1..], among);
    }
  }

  /** Saving the merged order and merging again changes nothing, whatever the lists. */
  lemma MergeIdempotent(saved: seq<Id>, src: seq<Id>)
    ensures Merge(Merge(saved, src), src) == Merge(saved, src)
  {
    var m := Merge(saved, src);
    forall k
      ensures k in m <==> k in src
    {
      MergeCounts(saved, src, k);
      InCounts(m, k);
      InCounts(saved, k);
      InCounts(src, k);
    }
    KeepAll(m, src);
    DropAll(src, m);
  }

  /** a stands somewhere before b. */
  ghost predicate Before(s: seq<Id>, a: Id, b: Id) {
    exists i, j :: 0 <= i < j < |s| && s[i] == a && s[j] == b
  }

  lemma BeforeAcross(p: seq<Id>, q: seq<Id>, a: Id, b: Id)
    ensures a in p && b in q ==> Before(p + q, a, b)
    ensures Before(p, a, b) || Before(q, a, b) ==> Before(p + q, a, b)
  {
    var s := p + q;
    if a in p && b in q {
      var i :| 0 <= i < |p| && p[i] == a;
      var j :| 0 <= j < |q| && q[j] == b;
      assert s[i] == a && s[|p| + j] == b;
    }
    if Before(p, a, b) {
      var i, j :| 0 <= i < j < |p| && p[i] == a && p[j] == b;
      assert s[i] == a && s[j] == b;
    }
    if Before(q, a, b) {
      var i, j :| 0 <= i < j < |q| && q[i] == a && q[j] == b;
      assert s[|p| + i] == a && s[|p| + j] == b;
    }
  }

  lemma BeforeTail(s: seq<Id>, a: Id, b: Id)
    requires Before(s, a, b)
    ensures Before(s[1..], a, b) || (s[0] == a && b in s[1..])
  {
    var i, j :| 0 <= i < j < |s| && s[i] == a && s[j] == b;
    assert s[1..][j - 1] == b;
    if i > 0 {
      assert s[1..][i - 1] == a;
    }
  }

  lemma KeepMembers(s: seq<Id>, among: seq<Id>, k: Id)
    ensures k in Keep(s, among) <==> k in s && k in among
    ensures k in Drop(s, among) <==> k in s && k !in among
  {
    KeepCounts(s, among, k);
    DropCounts(s, among, k);
    InCounts(s, k);
    InCounts(Keep(s, among), k);
    InCounts(Drop(s, among), k);
  }

  lemma {:induction false} FiltersKeepOrder(s: seq<Id>, among: seq<Id>, a: Id, b: Id)
    requires Before(s, a, b)
    ensures a in among && b in among ==> Before(Keep(s, among), a, b)
    ensures a !in among && b !in among ==> Before(Drop(s, among), a, b)
  {
    if s != [] {
      BeforeTail(s, a, b);
      var t := s[1..];
      if Before(t, a, b) {
        FiltersKeepOrder(t, among, a, b);
      }
      KeepMembers(t, among, b);
      BeforeAcross(if s[0] in among then [s[0]] else [], Keep(t, among), a, b);
      BeforeAcross(if s[0] in among then [] else [s[0]], Drop(t, among), a, b);
    }
  }

  /** Saved ids come first, in saved order; unsaved ones follow, in source order. */
  lemma MergeOrder(saved: seq<Id>, src: seq<Id>, a: Id, b: Id)
    requires a in src && b in src
    ensures a in saved && b in saved && Before(saved, a, b) ==> Before(Merge(saved, src), a, b)
    ensures a in saved && b !in saved ==> Before(Merge(saved, src), a, b)
    ensures a !in saved && b !in saved && Before(src, a, b) ==> Before(Merge(saved, src), a, b)
  {
    var kept := Keep(saved, src);
    KeepMembers(saved, src, a);
    KeepMembers(saved, src, b);
    KeepMembers(src, kept, b);
    BeforeAcross(kept, Drop(src, kept), a, b);
    if a in saved && b in saved && Before(saved, a, b) {
      FiltersKeepOrder(saved, src, a, b);
    }
    if a !in saved && b !in saved && Before(src, a, b) {
      FiltersKeepOrder(src, kept, a, b);
    }
  }

  // ---------------------------------------------------------------- hiding per source revision

  const UNIT_SEPARATOR: char := '\U{1F}'

  /** The sidecar's record for one section. */
  datatype Section = Section(order: seq<Id>, hidden: seq<Id>, srcKey: Option<string>)

  const UNTOUCHED: Section := Section([], [], None)

  function Hidden(sec: Section, ids: seq<Id>): seq<Id> {
    if sec.srcKey == Some(Join(ids, UNIT_SEPARATOR)) then sec.hidden else []
  }

  function Visible(sec: Section, ids: seq<Id>): seq<Id> {
    Drop(ids, Hidden(sec, ids))
  }

  function SlotIds(sec: Section, ids: seq<Id>): seq<Id> {
    Merge(sec.order, Visible(sec, ids))
  }

  /** DesignCanvas's second loop, with its own hidden test, and its spelling of the merge. */
  method CanvasSlotIds(sec: Section, children: seq<Child>) returns (slotIds: seq<Id>)
    ensures slotIds == SlotIds(sec, SectionIds(Flatten(children)))
  {
    var abs := CanvasIds(children);
    var hidden := if sec.srcKey == Some(Join(abs, UNIT_SEPARATOR)) then sec.hidden else [];
    var srcIds := [];
    for i := 0 to |abs|
      invariant srcIds == Drop(abs[..i], hidden)
    {
      assert abs[..i + 1] == abs[..i] + [abs[i]];
      DropConcat(abs[..i], [abs[i]], hidden);
      if abs[i] in hidden {
        continue;
      }
      srcIds := srcIds + [abs[i]];
    }
    assert abs[..|abs|] == abs;
    var kept := Keep(sec.order, srcIds);
    slotIds := kept + Drop(srcIds, kept);
  }

  lemma {:induction false} DropConcat(a: seq<Id>, b: seq<Id>, among: seq<Id>)
    ensures Drop(a + b, among) == Drop(a, among) + Drop(b, among)
  {
    if a == [] {
      assert a + b == b;
    } else {
      assert (a + b)[0] == a[0] && (a + b)[1..] == a[1..] + b;
      DropConcat(a[1..], b, among);
    }
  }

  /** onDelete of artboard k while the source lists `ids`. */
  function Deleted(sec: Section, ids: seq<Id>, k: Id): Section {
    sec.(hidden := Hidden(sec, ids) + [k], srcKey := Some(Join(ids, UNIT_SEPARATOR)))
  }

  /** One deletion, made while the source listed `ids`. */
  datatype Deletion = Deletion(ids: seq<Id>, k: Id)

  function AfterDeletions(sec: Section, ds: seq<Deletion>): Section {
    if ds == [] then sec
    else Deleted(AfterDeletions(sec, ds[..|ds| - 1]), ds[|ds| - 1].ids, ds[|ds| - 1].k)
  }

  /** The deletions made since the source last listed something other than `ids`. */
  function SinceChange(ds: seq<Deletion>, ids: seq<Id>): seq<Id> {
    if ds == [] || ds[|ds| - 1].ids != ids then []
    else SinceChange(ds[..|ds| - 1], ids) + [ds[|ds| - 1].k]
  }

  /**
   Over any run of deletions, against whatever source lists: what is hidden from
   `ids` is exactly what was deleted since the source last differed, so deletes
   never apply to a different list of artboards.
   */
  lemma {:induction false} DeletionsAreScoped(ds: seq<Deletion>, ids: seq<Id>)
    requires Plain(ids, UNIT_SEPARATOR)
    requires forall i :: 0 <= i < |ds| ==> Plain(ds[i].ids, UNIT_SEPARATOR)
    ensures Hidden(AfterDeletions(UNTOUCHED, ds), ids) == SinceChange(ds, ids)
  {
    if ds != [] {
      var front, last := ds[..|ds| - 1], ds[|ds| - 1];
      DeletionsAreScoped(front, ids);
      JoinInjective(last.ids, ids, UNIT_SEPARATOR);
    }
  }

  /** An artboard is shown exactly when the source lists it and it was not deleted from this list. */
  lemma ShownUnlessDeleted(ds: seq<Deletion>, ids: seq<Id>, order: seq<Id>, k: Id)
    requires Plain(ids, UNIT_SEPARATOR)
    requires forall i :: 0 <= i < |ds| ==> Plain(ds[i].ids, UNIT_SEPARATOR)
    ensures var sec := AfterDeletions(UNTOUCHED, ds).(order := order);
            k in SlotIds(sec, ids) <==> k in ids && k !in SinceChange(ds, ids)
  {
    var sec := AfterDeletions(UNTOUCHED, ds).(order := order);
    var shown := Visible(sec, ids);
    DeletionsAreScoped(ds, ids);
    KeepMembers(ids, Hidden(sec, ids), k);
    MergeCounts(order, shown, k);
    InCounts(shown, k);
    InCounts(order, k);
    InCounts(Merge(order, shown), k);
  }

  // ---------------------------------------------------------------- DCSection's memo

  const BAR: char := '|'

  /** useMemo in DCSection: the last dependencies and the list computed for them. */
  datatype Memo = Memo(order: seq<Id>, joined: string, value: seq<Id>)

  function Remember(order: seq<Id>, src: seq<Id>): Memo {
    Memo(order, Join(src, BAR), Merge(order, src))
  }

  function Recall(m: Memo, order: seq<Id>, src: seq<Id>): seq<Id> {
    if m.order == order && m.joined == Join(src, BAR) then m.value else Merge(order, src)
  }

  /**
   Whatever order was saved, the memo for the earlier source list gives the list
   DesignCanvas computes, exactly when that list is unchanged or its key is not.
   */
  lemma MemoExactly(srcBefore: seq<Id>, src: seq<Id>)
    ensures (forall order :: Recall(Remember(order, srcBefore), order, src) == Merge(order, src))
            <==> srcBefore == src || Join(srcBefore, BAR) != Join(src, BAR)
  {
    MergeUnsaved(srcBefore);
    MergeUnsaved(src);
    if Join(srcBefore, BAR) == Join(src, BAR) && srcBefore != src {
      assert Recall(Remember([], srcBefore), [], src) == srcBefore;
    }
  }

  /** With no saved order the source order is shown. */
  lemma MergeUnsaved(src: seq<Id>)
    ensures Merge([], src) == src
  {
    DropNone(src);
  }

  lemma {:induction false} DropNone(s: seq<Id>)
    ensures Drop(s, []) == s
  {
    if s != [] {
      DropNone(s[1..]);
    }
  }

  /** With ids free of bars, the memoised order is the one DesignCanvas computes. */
  lemma MemoAgrees(before: seq<Id>, srcBefore: seq<Id>, order: seq<Id>, src: seq<Id>)
    requires Plain(srcBefore, BAR) && Plain(src, BAR)
    ensures Recall(Remember(before, srcBefore), order, src) == Merge(order, src)
  {
    JoinInjective(srcBefore, src, BAR);
    MemoExactly(srcBefore, src);
  }

  /**
   Without that condition the two can disagree: replacing one artboard "a|b" by
   two artboards "a" and "b" leaves the key unchanged and the old list in place.
   */
  lemma MemoGoesStale()
    ensures Recall(Remember([], ["a|b"]), [], ["a", "b"]) == ["a|b"] && Merge([], ["a", "b"]) == ["a", "b"]
  {
    assert ["a", "b"][1..] == ["b"] && ["b"][1..] == [] && ["a|b"][1..] == [];
    assert Join(["a", "b"], BAR) == "a" + [BAR] + Join(["b"], BAR) == "a|b";
    assert Merge([], ["a|b"]) == ["a|b"];
  }
}
