/**
 * The geometric values the serializer reads: points, texture coordinates,
 * colors, placements, and the component-wise bounds that glTF accessors carry.
 * Coordinates are `real`; floating-point rounding is outside the model.
 */
module Geometry {

  datatype Vec3 = Vec3(x: real, y: real, z: real)

  /** Vector3.Origin, also default(Vector3). */
  const Origin := Vec3(0.0, 0.0, 0.0)

  datatype UV = UV(u: real, v: real)

  /** default(UV). */
  const DefaultUV := UV(0.0, 0.0)

  datatype Color = Color(red: real, green: real, blue: real, alpha: real)

  /** default(Color): all four components zero. */
  const DefaultColor := Color(0.0, 0.0, 0.0, 0.0)

  /**
   * A placement, kept symbolic: the source multiplies 4x4 matrices, the model
   * records which placements were composed and in what order.
   */
  datatype Transform =
    | Identity                                   // new Transform()
    | Given(tag: nat)                            // a placement read from the input model
    | Concat(first: Transform, second: Transform) // first.Concatenate(second)
    | Scaled(base: Transform, factor: real)      // base.Scaled(factor)
    | Inverted(base: Transform)                  // a copy of base, then Invert()
    | UpRotation(base: Transform)                // a copy of base, then Rotate(+X, -90 degrees)

  /** The smallest value of a non-empty sequence, folded left to right as a running Math.Min. */
  function MinOf(xs: seq<real>): real
    requires |xs| > 0
  {
    if |xs| == 1 then xs[0]
    else var m := MinOf(xs[..|xs| - 1]); if xs[|xs| - 1] < m then xs[|xs| - 1] else m
  }

  /** The largest value of a non-empty sequence, folded left to right as a running Math.Max. */
  function MaxOf(xs: seq<real>): real
    requires |xs| > 0
  {
    if |xs| == 1 then xs[0]
    else var m := MaxOf(xs[..|xs| - 1]); if xs[|xs| - 1] > m then xs[|xs| - 1] else m
  }

  /** MinOf is a lower bound that the sequence attains. */
  lemma {:induction false} MinOfIsMinimum(xs: seq<real>)
    requires |xs| > 0
    ensures forall i :: 0 <= i < |xs| ==> MinOf(xs) <= xs[i]
    ensures exists i :: 0 <= i < |xs| && MinOf(xs) == xs[i]
  {
    if |xs| > 1 {
      var p := xs[..|xs| - 1];
      MinOfIsMinimum(p);
      var j :| 0 <= j < |p| && MinOf(p) == p[j];
      assert forall i :: 0 <= i < |p| ==> p[i] == xs[i];
      if xs[|xs| - 1] < MinOf(p) {
        assert MinOf(xs) == xs[|xs| - 1];
      } else {
        assert MinOf(xs) == xs[j];
      }
    } else {
      assert MinOf(xs) == xs[0];
    }
  }

  /** MaxOf is an upper bound that the sequence attains. */
  lemma {:induction false} MaxOfIsMaximum(xs: seq<real>)
    requires |xs| > 0
    ensures forall i :: 0 <= i < |xs| ==> xs[i] <= MaxOf(xs)
    ensures exists i :: 0 <= i < |xs| && MaxOf(xs) == xs[i]
  {
    if |xs| > 1 {
      var p := xs[..|xs| - 1];
      MaxOfIsMaximum(p);
      var j :| 0 <= j < |p| && MaxOf(p) == p[j];
      assert forall i :: 0 <= i < |p| ==> p[i] == xs[i];
      if xs[|xs| - 1] > MaxOf(p) {
        assert MaxOf(xs) == xs[|xs| - 1];
      } else {
        assert MaxOf(xs) == xs[j];
      }
    } else {
      assert MaxOf(xs) == xs[0];
    }
  }

  /** Component-wise Math.Min of a running corner and one more point. */
  function Min3(m: seq<real>, p: Vec3): (r: seq<real>)
    requires |m| == 3
    ensures |r| == 3
  {
    [if p.x < m[0] then p.x else m[0], if p.y < m[1] then p.y else m[1], if p.z < m[2] then p.z else m[2]]
  }

  /** Component-wise Math.Max of a running corner and one more point. */
  function Max3(m: seq<real>, p: Vec3): (r: seq<real>)
    requires |m| == 3
    ensures |r| == 3
  {
    [if p.x > m[0] then p.x else m[0], if p.y > m[1] then p.y else m[1], if p.z > m[2] then p.z else m[2]]
  }

  function AsArray(p: Vec3): seq<real> { [p.x, p.y, p.z] }

  /** Component-wise minimum of a non-empty point list, as `[x, y, z]`, folded left to right. */
  function MinCorner(ps: seq<Vec3>): (r: seq<real>)
    requires |ps| > 0
    ensures |r| == 3
  {
    if |ps| == 1 then AsArray(ps[0]) else Min3(MinCorner(ps[..|ps| - 1]), ps[|ps| - 1])
  }

  /** Component-wise maximum of a non-empty point list, as `[x, y, z]`, folded left to right. */
  function MaxCorner(ps: seq<Vec3>): (r: seq<real>)
    requires |ps| > 0
    ensures |r| == 3
  {
    if |ps| == 1 then AsArray(ps[0]) else Max3(MaxCorner(ps[..|ps| - 1]), ps[|ps| - 1])
  }

  /** A point lies inside the closed box given by two corners. */
  ghost predicate InBox(p: Vec3, lo: seq<real>, hi: seq<real>)
    requires |lo| == 3 && |hi| == 3
  {
    lo[0] <= p.x <= hi[0] && lo[1] <= p.y <= hi[1] && lo[2] <= p.z <= hi[2]
  }

  /** On each axis some point of `ps` has the corner's coordinate. */
  ghost predicate Attained(ps: seq<Vec3>, c: seq<real>)
    requires |c| == 3
  {
    && (exists i :: 0 <= i < |ps| && ps[i].x == c[0])
    && (exists i :: 0 <= i < |ps| && ps[i].y == c[1])
    && (exists i :: 0 <= i < |ps| && ps[i].z == c[2])
  }

  /**
   * The corners enclose every point, and on each axis some point touches each
   * corner: they are the tight axis-aligned bounds that an accessor's min/max
   * must hold.
   */
  lemma {:induction false} CornersAreTight(ps: seq<Vec3>)
    requires |ps| > 0
    ensures forall i :: 0 <= i < |ps| ==> InBox(ps[i], MinCorner(ps), MaxCorner(ps))
    ensures Attained(ps, MinCorner(ps)) && Attained(ps, MaxCorner(ps))
  {
    if |ps| == 1 {
      assert ps[0].x == MinCorner(ps)[0] && ps[0].x == MaxCorner(ps)[0];
    } else {
      var q := ps[..|ps| - 1];
      CornersAreTight(q);
      assert forall i :: 0 <= i < |q| ==> q[i] == ps[i];
      AttainedSnoc(ps, MinCorner(q), MinCorner(ps));
      AttainedSnoc(ps, MaxCorner(q), MaxCorner(ps));
    }
  }

  /** Folding one more point into the corners is one more Math.Min / Math.Max step. */
  lemma CornersSnoc(ps: seq<Vec3>, p: Vec3)
    requires |ps| > 0
    ensures MinCorner(ps + [p]) == Min3(MinCorner(ps), p)
    ensures MaxCorner(ps + [p]) == Max3(MaxCorner(ps), p)
  {
    assert (ps + [p])[..|ps|] == ps;
  }

  /** A folded corner is attained if each of its coordinates is the new point's or the old corner's. */
  lemma AttainedSnoc(ps: seq<Vec3>, old3: seq<real>, new3: seq<real>)
    requires |ps| > 1 && |old3| == 3 && |new3| == 3
    requires Attained(ps[..|ps| - 1], old3)
    requires new3[0] == ps[|ps| - 1].x || new3[0] == old3[0]
    requires new3[1] == ps[|ps| - 1].y || new3[1] == old3[1]
    requires new3[2] == ps[|ps| - 1].z || new3[2] == old3[2]
    ensures Attained(ps, new3)
  {
    var q := ps[..|ps| - 1];
    var last := |ps| - 1;
    var i :| 0 <= i < |q| && q[i].x == old3[0];
    var j :| 0 <= j < |q| && q[j].y == old3[1];
    var k :| 0 <= k < |q| && q[k].z == old3[2];
    assert ps[i] == q[i] && ps[j] == q[j] && ps[k] == q[k];
    if new3[0] == ps[last].x { assert ps[last].x == new3[0]; } else { assert ps[i].x == new3[0]; }
    if new3[1] == ps[last].y { assert ps[last].y == new3[1]; } else { assert ps[j].y == new3[1]; }
    if new3[2] == ps[last].z { assert ps[last].z == new3[2]; } else { assert ps[k].z == new3[2]; }
  }

  /**
   * new BBox3(points).Min / .Max as arrays. BBox3 itself is not part of this
   * model; for a non-empty list its corners are the component-wise bounds, and
   * the model gives the origin for an empty list.
   */
  function BoxMin(ps: seq<Vec3>): (r: seq<real>)
    ensures |r| == 3
  {
    if |ps| == 0 then [0.0, 0.0, 0.0] else MinCorner(ps)
  }

  function BoxMax(ps: seq<Vec3>): (r: seq<real>)
    ensures |r| == 3
  {
    if |ps| == 0 then [0.0, 0.0, 0.0] else MaxCorner(ps)
  }

  /**
   * Tight bounds of points that lie within [-h, h] on every axis and include
   * the two opposite corners (-h, -h, -h) and (h, h, h) are those corners.
   */
  lemma CubeCorners(ps: seq<Vec3>, h: real, lo: seq<real>, hi: seq<real>)
    requires |lo| == 3 && |hi| == 3
    requires Vec3(-h, -h, -h) in ps && Vec3(h, h, h) in ps
    requires forall i :: 0 <= i < |ps| ==> -h <= ps[i].x <= h && -h <= ps[i].y <= h && -h <= ps[i].z <= h
    requires forall i :: 0 <= i < |ps| ==> InBox(ps[i], lo, hi)
    requires Attained(ps, lo) && Attained(ps, hi)
    ensures lo == [-h, -h, -h] && hi == [h, h, h]
  {
    var a :| 0 <= a < |ps| && ps[a] == Vec3(-h, -h, -h);
    var b :| 0 <= b < |ps| && ps[b] == Vec3(h, h, h);
    assert InBox(ps[a], lo, hi) && InBox(ps[b], lo, hi);
  }
}
