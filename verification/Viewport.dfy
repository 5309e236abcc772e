/** Pan and zoom of the canvas viewport over the reals, before the DOM drift correction. */
module Viewport {

  datatype Transform = Transform(x: real, y: real, scale: real)

  function Clamp(v: real, lo: real, hi: real): real {
    var raised := if v < lo then lo else v;
    if hi < raised then hi else raised
  }

  function Zoomed(t: Transform, lo: real, hi: real, px: real, py: real, factor: real): Transform
    requires 0.0 < t.scale
  {
    var next := Clamp(t.scale * factor, lo, hi);
    Transform(Pinned(t.x, t.scale, next, px), Pinned(t.y, t.scale, next, py), next)
  }

  /** The origin, along one axis, after rescaling about screen coordinate p. */
  function Pinned(origin: real, scale: real, next: real, p: real): real
    requires 0.0 < scale
  {
    p - (p - origin) * (next / scale)
  }

  function Panned(t: Transform, dx: real, dy: real): Transform {
    t.(x := t.x + dx, y := t.y + dy)
  }

  /** The world coordinate shown at screen coordinate p, along one axis. */
  function World(origin: real, scale: real, p: real): real
    requires 0.0 < scale
  {
    (p - origin) / scale
  }

  class DCViewport {
    const minScale: real
    const maxScale: real
    var x: real
    var y: real
    var scale: real

    predicate Valid()
      reads this
    {
      0.0 < minScale <= maxScale && 0.0 < scale
    }

    function Now(): Transform
      reads this
    {
      Transform(x, y, scale)
    }

    /** The restored viewport is clamped; the default one is not. */
    constructor (minScale: real, maxScale: real, saved: bool, sx: real, sy: real, sscale: real)
      requires 0.0 < minScale <= maxScale
      ensures Valid() && this.minScale == minScale && this.maxScale == maxScale
      ensures Now() == if saved then Transform(sx, sy, Clamp(sscale, minScale, maxScale)) else Transform(0.0, 0.0, 1.0)
    {
      this.minScale, this.maxScale := minScale, maxScale;
      x := if saved then sx else 0.0;
      y := if saved then sy else 0.0;
      scale := if saved then Clamp(sscale, minScale, maxScale) else 1.0;
    }

    method ZoomAt(px: real, py: real, factor: real)
      requires Valid()
      modifies this
      ensures Valid() && Now() == Zoomed(old(Now()), minScale, maxScale, px, py, factor)
      ensures minScale <= scale <= maxScale
      ensures minScale <= old(scale) * factor <= maxScale ==> scale == old(scale) * factor
    {
      var next := Clamp(scale * factor, minScale, maxScale);
      Rescale(px, py, next);
    }

    /** The origin moves so that the cursor keeps its world point. */
    method Rescale(px: real, py: real, next: real)
      requires Valid() && 0.0 < next
      modifies this
      ensures Valid() && Now() == Transform(Pinned(old(x), old(scale), next, px), Pinned(old(y), old(scale), next, py), next)
    {
      var k := next / scale;
      PinnedBy(x, scale, next, px, k);
      PinnedBy(y, scale, next, py, k);
      x, y := px - (px - x) * k, py - (py - y) * k;
      scale := next;
    }

    method Pan(dx: real, dy: real)
      requires Valid()
      modifies this
      ensures Valid() && Now() == Panned(old(Now()), dx, dy)
    {
      x := x + dx;
      y := y + dy;
    }
  }

  lemma PinnedBy(origin: real, scale: real, next: real, p: real, k: real)
    requires 0.0 < scale && k == next / scale
    ensures p - (p - origin) * k == Pinned(origin, scale, next, p)
  {
  }

  lemma ZoomFixesPoint(origin: real, scale: real, p: real, next: real)
    requires 0.0 < scale && 0.0 < next
    ensures World(Pinned(origin, scale, next, p), next, p) == World(origin, scale, p)
  {
    var d, k := p - origin, next / scale;
    var q := d / scale;
    assert d == q * scale && next == k * scale;
    assert d * k == q * (scale * k) == q * next;
    assert (d * k) / next == q;
    assert p - (p - d * k) == d * k;
  }

  /** The world point under the cursor stays under it, on both axes, clamped or not. */
  lemma ZoomedFixesPoint(t: Transform, lo: real, hi: real, px: real, py: real, factor: real)
    requires 0.0 < lo <= hi && 0.0 < t.scale
    ensures var u := Zoomed(t, lo, hi, px, py, factor);
            && lo <= u.scale <= hi
            && World(u.x, u.scale, px) == World(t.x, t.scale, px)
            && World(u.y, u.scale, py) == World(t.y, t.scale, py)
  {
    var next := Clamp(t.scale * factor, lo, hi);
    ZoomFixesPoint(t.x, t.scale, px, next);
    ZoomFixesPoint(t.y, t.scale, py, next);
  }

  lemma ScaledUp(s: real, f: real)
    requires 0.0 < s
    ensures 1.0 <= f ==> s <= s * f
    ensures f <= 1.0 ==> s * f <= s
  {
    var d := f - 1.0;
    assert s * f == s + s * d;
  }

  /** Zooming further at the limit changes nothing at all. */
  lemma ZoomAtLimitIsIdentity(t: Transform, lo: real, hi: real, px: real, py: real, factor: real)
    requires 0.0 < lo <= hi
    requires (t.scale == hi && 1.0 <= factor) || (t.scale == lo && factor <= 1.0)
    ensures Zoomed(t, lo, hi, px, py, factor) == t
  {
    ScaledUp(t.scale, factor);
    assert Clamp(t.scale * factor, lo, hi) == t.scale;
    assert t.scale / t.scale == 1.0;
  }

  /** Zooming by f and back by 1/f at one cursor is the identity when neither step is clamped. */
  lemma ZoomAndBack(t: Transform, lo: real, hi: real, px: real, py: real, f: real)
    requires 0.0 < lo <= t.scale <= hi && 0.0 < f && lo <= t.scale * f <= hi
    ensures var u := Zoomed(t, lo, hi, px, py, f);
            0.0 < u.scale && Zoomed(u, lo, hi, px, py, 1.0 / f) == t
  {
    var u := Zoomed(t, lo, hi, px, py, f);
    var s := t.scale;
    assert u.scale == s * f;
    assert (s * f) * (1.0 / f) == s by {
      assert f * (1.0 / f) == 1.0;
      assert (s * f) * (1.0 / f) == s * (f * (1.0 / f));
    }
    ThereAndBack(px, t.x, s, s * f);
    ThereAndBack(py, t.y, s, s * f);
  }

  lemma ThereAndBack(p: real, origin: real, s: real, m: real)
    requires 0.0 < s && 0.0 < m
    ensures Pinned(Pinned(origin, s, m, p), m, s, p) == origin
  {
    var d, k, j := p - origin, m / s, s / m;
    assert k * s == m && j * m == s;
    assert (k * j) * m == k * s == m;
    assert k * j == 1.0;
    assert (d * k) * j == d * (k * j) == d;
  }

  /** Where the world coordinate u is shown, along one axis. */
  function Screen(origin: real, scale: real, u: real): real {
    origin + u * scale
  }

  /** Within the limits a zoom multiplies the scale by the factor; beyond them it stops at the limit. */
  lemma ZoomScales(t: Transform, lo: real, hi: real, px: real, py: real, factor: real)
    requires 0.0 < lo <= hi && 0.0 < t.scale
    ensures var u := Zoomed(t, lo, hi, px, py, factor);
            && (lo <= t.scale * factor <= hi ==> u.scale == t.scale * factor)
            && (t.scale * factor < lo ==> u.scale == lo)
            && (hi < t.scale * factor ==> u.scale == hi)
  {
  }

  /** A pan moves everything shown by its two distances and keeps the scale. */
  lemma PanMovesWorld(t: Transform, dx: real, dy: real, ux: real, uy: real)
    ensures var v := Panned(t, dx, dy);
            && v.scale == t.scale
            && Screen(v.x, v.scale, ux) == Screen(t.x, t.scale, ux) + dx
            && Screen(v.y, v.scale, uy) == Screen(t.y, t.scale, uy) + dy
  {
  }

  /** Pans add up, and the opposite pan undoes one. */
  lemma PansCompose(t: Transform, dx: real, dy: real, ex: real, ey: real)
    ensures Panned(Panned(t, dx, dy), ex, ey) == Panned(t, dx + ex, dy + ey)
    ensures Panned(Panned(t, dx, dy), -dx, -dy) == t
  {
  }

  // ---------------------------------------------------------------- whole runs

  datatype Gesture = Pan(dx: real, dy: real) | Zoom(px: real, py: real, factor: real)

  function After(t: Transform, lo: real, hi: real, gs: seq<Gesture>): (r: Transform)
    requires 0.0 < lo <= hi && 0.0 < t.scale
    ensures 0.0 < r.scale
    decreases gs
  {
    if gs == [] then t
    else
      match gs[0]
      case Pan(dx, dy) => After(Panned(t, dx, dy), lo, hi, gs[1..])
      case Zoom(px, py, f) => After(Zoomed(t, lo, hi, px, py, f), lo, hi, gs[1..])
  }

  predicate HasZoom(gs: seq<Gesture>) {
    exists i :: 0 <= i < |gs| && gs[i].Zoom?
  }

  /**
   After any run of pans and zooms the scale is within its limits exactly when
   it started there or there was a zoom: the default scale 1 is not clamped.
   */
  lemma {:induction false} ScaleWithinLimits(t: Transform, lo: real, hi: real, gs: seq<Gesture>)
    requires 0.0 < lo <= hi && 0.0 < t.scale
    ensures lo <= After(t, lo, hi, gs).scale <= hi <==> (lo <= t.scale <= hi || HasZoom(gs))
    decreases gs
  {
    if gs != [] {
      var rest := gs[1..];
      assert HasZoom(gs) <==> gs[0].Zoom? || HasZoom(rest) by {
        if HasZoom(rest) {
          var i :| 0 <= i < |rest| && rest[i].Zoom?;
          assert gs[i + 1].Zoom?;
        }
        if HasZoom(gs) && !gs[0].Zoom? {
          var i :| 0 <= i < |gs| && gs[i].Zoom?;
          assert rest[i - 1].Zoom?;
        }
      }
      match gs[0] {
        case Pan(dx, dy) => ScaleWithinLimits(Panned(t, dx, dy), lo, hi, rest);
        case Zoom(px, py, f) => ScaleWithinLimits(Zoomed(t, lo, hi, px, py, f), lo, hi, rest);
      }
    }
  }

  /** A canvas with limits 2 and 8 opens at scale 1, below its minimum, and panning leaves it there. */
  lemma DefaultScaleEscapes(dx: real, dy: real)
    ensures After(Transform(0.0, 0.0, 1.0), 2.0, 8.0, [Pan(dx, dy)]).scale < 2.0
  {
    assert [Pan(dx, dy)][1..] == [];
  }
}
