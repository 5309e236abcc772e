/** The DOM child-list operations used by the deck and its rail, on sequences of distinct nodes. */
module ChildList {
  import opened Wrappers

  /** node.remove() */
  function Remove<T(==)>(s: seq<T>, x: T): seq<T> {
    if s == [] then [] else if s[0] == x then s[1..] else [s[0]] + Remove(s[1..], x)
  }

  function Find<T(==)>(s: seq<T>, x: T): (k: nat)
    ensures k <= |s| && x !in s[..k] && (k < |s| ==> s[k] == x)
    ensures k == |s| ==> x !in s
  {
    if s == [] || s[0] == x then 0
    else
      var k := Find(s[1..], x);
      assert s[..k + 1] == [s[0]] + s[1..][..k];
      k + 1
  }

  /** parent.insertBefore(x, ref): x leaves its old place first; no ref means at the end. */
  function InsertBefore<T(==)>(s: seq<T>, x: T, ref: Option<T>): seq<T> {
    var r := Remove(s, x);
    var k := if ref.None? then |r| else Find(r, ref.value);
    r[..k] + [x] + r[k..]
  }

  lemma {:induction false} RemoveAt<T>(s: seq<T>, k: nat)
    requires k < |s| && Distinct(s)
    ensures Remove(s, s[k]) == s[..k] + s[k + 1..]
  {
    if k > 0 {
      var t := s[1..];
      assert Distinct(t) && t[k - 1] == s[k];
      RemoveAt(t, k - 1);
      assert s[..k] + s[k + 1..] == [s[0]] + (t[..k - 1] + t[k..]);
    }
  }

  lemma {:induction false} RemoveAbsent<T>(s: seq<T>, x: T)
    requires x !in s
    ensures Remove(s, x) == s
  {
    if s != [] {
      RemoveAbsent(s[1..], x);
    }
  }

  lemma FindAt<T>(s: seq<T>, k: nat)
    requires k < |s| && Distinct(s)
    ensures Find(s, s[k]) == k
  {
    var n := Find(s, s[k]);
    assert forall m :: 0 <= m < n ==> s[..n][m] == s[m];
  }

  lemma RemoveFacts<T>(s: seq<T>, x: T)
    requires Distinct(s)
    ensures Distinct(Remove(s, x)) && x !in Remove(s, x)
    ensures forall y :: y in Remove(s, x) <==> y in s && y != x
    ensures |Remove(s, x)| == |s| - (if x in s then 1 else 0)
  {
    if x in s {
      var k :| 0 <= k < |s| && s[k] == x;
      RemoveAt(s, k);
      var r := s[..k] + s[k + 1..];
      forall y
        ensures y in r <==> y in s && y != x
      {
        if y in s && y != x {
          var j :| 0 <= j < |s| && s[j] == y;
          assert r[if j < k then j else j - 1] == y;
        }
      }
    } else {
      RemoveAbsent(s, x);
    }
  }

  /** Putting x back anywhere and taking it out again gives the list without x. */
  lemma {:induction false} RemoveInserted<T>(r: seq<T>, x: T, k: nat)
    requires x !in r && k <= |r|
    ensures Remove(r[..k] + [x] + r[k..], x) == r
  {
    var s := r[..k] + [x] + r[k..];
    if k == 0 {
      assert s == [x] + r;
    } else {
      assert s[1..] == r[1..][..k - 1] + [x] + r[1..][k - 1..];
      RemoveInserted(r[1..], x, k - 1);
    }
  }

  lemma InsertedMembers<T>(r: seq<T>, x: T, k: nat)
    requires k <= |r|
    ensures forall y :: y in r[..k] + [x] + r[k..] <==> y in r || y == x
  {
    assert r == r[..k] + r[k..];
  }

  lemma InsertedDistinct<T>(r: seq<T>, x: T, k: nat)
    requires Distinct(r) && x !in r && k <= |r|
    ensures Distinct(r[..k] + [x] + r[k..])
  {
    var t := r[..k] + [x] + r[k..];
    forall i, j | 0 <= i < j < |t|
      ensures t[i] != t[j]
    {
      assert i != k ==> t[i] == r[if i < k then i else i - 1];
      assert j != k ==> t[j] == r[if j < k then j else j - 1];
    }
  }

  /** insertBefore moves x and nothing else. */
  lemma InsertBeforeFacts<T>(s: seq<T>, x: T, ref: Option<T>)
    requires Distinct(s) && ref != Some(x)
    ensures var t := InsertBefore(s, x, ref);
            && Distinct(t)
            && Remove(t, x) == Remove(s, x)
            && (forall y :: y in t <==> y in s || y == x)
  {
    RemoveFacts(s, x);
    var r := Remove(s, x);
    var k := if ref.None? then |r| else Find(r, ref.value);
    RemoveInserted(r, x, k);
    InsertedDistinct(r, x, k);
    InsertedMembers(r, x, k);
  }
}
