/** Focus mode: moving between sections, past those whose artboards are all deleted. */
module SectionNav {
  import opened Wrappers

  /** JavaScript's %: the remainder takes the sign of the dividend. */
  function JsMod(a: int, n: int): int
    requires 0 < n
  {
    if a < 0 then -((-a) % n) else a % n
  }

  /** The index expression of goSection. */
  function Wrap(a: int, n: int): int
    requires 0 < n
  {
    JsMod(JsMod(a, n) + n, n)
  }

  /** The double remainder brings any integer into range. */
  lemma WrapInRange(a: int, n: int)
    requires 0 < n
    ensures 0 <= Wrap(a, n) < n
  {
  }

  lemma SmallMod(x: int, n: int)
    requires 0 <= x < 2 * n
    ensures x % n == if x < n then x else x - n
  {
    var q, r := x / n, x % n;
    assert x == q * n + r && 0 <= r < n;
    assert q <= -1 ==> q * n <= -n;
    assert q >= 2 ==> q * n >= 2 * n;
  }

  /** Less than one turn either way, it is the cyclic position. */
  lemma WrapNear(a: int, n: int)
    requires 0 < n && -n < a < 2 * n
    ensures Wrap(a, n) == if a < 0 then a + n else if a < n then a else a - n
  {
    if a < 0 {
      SmallMod(-a, n);
      SmallMod(a + n, n);
    } else {
      SmallMod(a, n);
      SmallMod((if a < n then a else a - n) + n, n);
    }
  }

  /** The section i steps away in direction d has an artboard to focus. */
  predicate Open(slots: seq<seq<string>>, from: int, d: int, i: int)
    requires slots != []
  {
    WrapInRange(from + d * i, |slots|);
    slots[Wrap(from + d * i, |slots|)] != []
  }

  /** `steps` is the distance to the nearest other non-empty section in direction d, if there is one. */
  ghost predicate NearestOpen(slots: seq<seq<string>>, from: int, d: int, steps: Option<int>)
    requires slots != []
  {
    match steps
    case None => forall i :: 1 <= i < |slots| ==> !Open(slots, from, d, i)
    case Some(k) => 1 <= k < |slots| && Open(slots, from, d, k) && forall i :: 1 <= i < k ==> !Open(slots, from, d, i)
  }

  /** goSection: the section focused next, or the present one when there is nowhere to go. */
  method GoSection(slots: seq<seq<string>>, from: nat, d: int) returns (target: nat, ghost steps: Option<int>)
    requires from < |slots| && (d == 1 || d == -1)
    ensures target < |slots| && NearestOpen(slots, from, d, steps)
    ensures target == if steps.Some? then Wrap(from + d * steps.value, |slots|) else from
    ensures steps.Some? ==> slots[target] != []
  {
    var n := |slots|;
    for i := 1 to n
      invariant forall j :: 1 <= j < i ==> !Open(slots, from, d, j)
    {
      WrapInRange(from + d * i, n);
      var ns := Wrap(from + d * i, n);
      if slots[ns] != [] {
        assert Open(slots, from, d, i);
        return ns, Some(i);
      }
      assert !Open(slots, from, d, i);
    }
    return from, None;
  }

  /** Going y back from where x steps lead is going x - y from the start. */
  lemma WrapFromWrapped(from: int, x: int, y: int, n: int)
    requires 0 <= from < n && -n < x < n && -n < y < n && -n < x - y < n
    ensures Wrap(Wrap(from + x, n) - y, n) == Wrap(from + x - y, n)
  {
    WrapNear(from + x, n);
    WrapNear(Wrap(from + x, n) - y, n);
    WrapNear(from + x - y, n);
  }

  /** Seen from k steps ahead, i steps back is k - i steps from the start. */
  lemma StepsBack(from: int, d: int, k: int, i: int, n: int)
    requires 0 <= from < n && (d == 1 || d == -1) && 1 <= i <= k < n
    ensures Wrap(Wrap(from + d * k, n) + -d * i, n) == Wrap(from + d * (k - i), n)
  {
    Signed(d, k, i);
    WrapFromWrapped(from, d * k, d * i, n);
  }

  lemma Signed(d: int, x: int, y: int)
    requires d == 1 || d == -1
    ensures d * x == (if d == 1 then x else -x) && -d * x == -(d * x)
    ensures d * y == (if d == 1 then y else -y) && -d * y == -(d * y)
    ensures d * (x - y) == d * x - d * y
  {
    if d == -1 {
      assert -1 * x == -x && -1 * y == -y && -1 * (x - y) == -(x - y);
    }
  }

  /** There is one nearest section, so every goSection from here goes the same number of steps. */
  lemma NearestIsUnique(slots: seq<seq<string>>, from: int, d: int, a: Option<int>, b: Option<int>)
    requires slots != [] && NearestOpen(slots, from, d, a) && NearestOpen(slots, from, d, b)
    ensures a == b
  {
    if a.Some? && b.Some? {
      assert Open(slots, from, d, a.value) && Open(slots, from, d, b.value);
    }
  }

  lemma WrapTurn(a: int, n: int)
    requires 0 < n && -n < a < n
    ensures Wrap(a + n, n) == Wrap(a, n)
  {
    WrapNear(a, n);
    WrapNear(a + n, n);
  }

  /** i steps one way round is n - i steps the other way. */
  lemma OtherWayRound(from: int, d: int, i: int, n: int)
    requires 0 <= from < n && (d == 1 || d == -1) && 1 <= i < n
    ensures Wrap(from + -d * i, n) == Wrap(from + d * (n - i), n)
  {
    Signed(d, n, i);
    WrapTurn(if d == 1 then from - i else from - n + i, n);
  }

  /** With nowhere to go one way there is nowhere to go the other way. */
  lemma NowhereEitherWay(slots: seq<seq<string>>, from: nat, d: int)
    requires from < |slots| && (d == 1 || d == -1) && NearestOpen(slots, from, d, None)
    ensures NearestOpen(slots, from, -d, None)
  {
    var back := -d;
    forall i | 1 <= i < |slots|
      ensures !Open(slots, from, back, i)
    {
      OtherWayRound(from, d, i, |slots|);
      assert !Open(slots, from, d, |slots| - i);
    }
  }

  /** Two calls of goSection, there and back. */
  method GoThereAndBack(slots: seq<seq<string>>, from: nat, d: int) returns (there: nat, back: nat)
    requires from < |slots| && (d == 1 || d == -1) && slots[from] != []
    ensures there < |slots| && back == from
  {
    ghost var out, home;
    there, out := GoSection(slots, from, d);
    back, home := GoSection(slots, there, -d);
    if out.Some? {
      ThereAndBack(slots, from, d, out.value);
    } else {
      NowhereEitherWay(slots, from, d);
    }
    NearestIsUnique(slots, there, -d, home, out);
  }

  /** Going one way and then back from a non-empty section returns to it. */
  lemma ThereAndBack(slots: seq<seq<string>>, from: nat, d: int, k: int)
    requires from < |slots| && (d == 1 || d == -1) && slots[from] != []
    requires NearestOpen(slots, from, d, Some(k))
    ensures var target := Wrap(from + d * k, |slots|);
            NearestOpen(slots, target, -d, Some(k)) && Wrap(target + -d * k, |slots|) == from
  {
    var target, back := Wrap(from + d * k, |slots|), -d;
    StepsBack(from, d, k, k, |slots|);
    WrapNear(from + d * 0, |slots|);
    forall i | 1 <= i < k
      ensures !Open(slots, target, back, i)
    {
      StepsBack(from, d, k, i, |slots|);
      assert !Open(slots, from, d, k - i);
    }
  }
}
