/** The view frustum shared by the two point buffers: `Plane` and
    `Frustum::new` / `Frustum::contains` of project/rust/lidar_3d/src/timed_point_map.rs,
    and `isPointInside` of the C++ `Frustum` in
    project/hybrid-frustum-pointnet/lidar/src/util/frustum.h. The C++
    constructor makes the same planes, but its inside test rejects a point
    only on a plane's strictly positive side, so the two tests differ on a
    NaN plane: the Rust one accepts no point, the C++ one every point.

    Coordinates are reals. `Plane::new` and the construction normalise the
    normal; the model keeps the unnormalised normal, and `ScaledPlane`
    shows that a positive rescaling of a plane does not change which points
    it accepts. Normalising a zero normal (two parallel edges) divides by
    zero and gives NaN, which the model keeps as `NaNPlane`. */
module Frustum {
  datatype Vec3 = Vec3(x: real, y: real, z: real)

  function Sub(a: Vec3, b: Vec3): Vec3
  {
    Vec3(a.x - b.x, a.y - b.y, a.z - b.z)
  }

  function Dot(a: Vec3, b: Vec3): real
  {
    a.x * b.x + a.y * b.y + a.z * b.z
  }

  function Cross(a: Vec3, b: Vec3): Vec3
  {
    Vec3(a.y * b.z - a.z * b.y, a.z * b.x - a.x * b.z, a.x * b.y - a.y * b.x)
  }

  function Neg(a: Vec3): Vec3
  {
    Vec3(-a.x, -a.y, -a.z)
  }

  function Scale(k: real, a: Vec3): Vec3
  {
    Vec3(k * a.x, k * a.y, k * a.z)
  }

  /** A plane, or the plane whose normal and distance are NaN because its
      normal was normalised from the zero vector. */
  datatype Plane = Plane(normal: Vec3, distance: real) | NaNPlane

  /** `signed_distance`: the normal's dot product with the point, less the
      plane's distance. */
  function SignedDistance(p: Plane, q: Vec3): real
    requires p.Plane?
  {
    Dot(p.normal, q) - p.distance
  }

  /** `signed_distance(point) <= 0.0`, which is false for a NaN distance. */
  predicate Below(p: Plane, q: Vec3)
  {
    p.Plane? && SignedDistance(p, q) <= 0.0
  }

  /** `contains`: no plane has the point strictly on its positive side. */
  predicate Contains(planes: seq<Plane>, q: Vec3)
    ensures Contains(planes, q) ==> forall i :: 0 <= i < |planes| ==> planes[i].Plane?
  {
    forall i :: 0 <= i < |planes| ==> Below(planes[i], q)
  }

  /** `signedDistance(point) > 0` is false: the C++ test's plane does not
      reject the point. A NaN distance compares false, so a NaN plane
      rejects nothing. */
  predicate NotAbove(p: Plane, q: Vec3)
  {
    p.NaNPlane? || SignedDistance(p, q) <= 0.0
  }

  /** `isPointInside` of the C++ `Frustum`: no plane rejects the point. */
  predicate IsPointInside(planes: seq<Plane>, q: Vec3)
    ensures (forall i :: 0 <= i < |planes| ==> planes[i].NaNPlane?) ==> IsPointInside(planes, q)
  {
    forall i :: 0 <= i < |planes| ==> NotAbove(planes[i], q)
  }

  /** On real planes the C++ and the Rust inside tests agree. */
  lemma InsideTestsAgree(planes: seq<Plane>, q: Vec3)
    requires forall i :: 0 <= i < |planes| ==> planes[i].Plane?
    ensures IsPointInside(planes, q) <==> Contains(planes, q)
  {
  }

  /** The edges from the origin to corners i and i + 1 are not parallel, so
      their cross product can be normalised. */
  predicate Spans(origin: Vec3, corners: seq<Vec3>, i: nat)
    requires |corners| == 4 && i < 4
  {
    Cross(Sub(corners[i], origin), Sub(corners[(i + 1) % 4], origin)) != Vec3(0.0, 0.0, 0.0)
  }

  /** Plane i of `Frustum::new`: through the origin and corners i and i + 1,
      its normal flipped when corner i + 2 lies on the positive side; NaN
      when the two edges are parallel. */
  function PlaneAt(origin: Vec3, corners: seq<Vec3>, i: nat): (r: Plane)
    requires |corners| == 4 && i < 4
    ensures r.NaNPlane? <==> !Spans(origin, corners, i)
  {
    var n := Cross(Sub(corners[i], origin), Sub(corners[(i + 1) % 4], origin));
    if n == Vec3(0.0, 0.0, 0.0) then NaNPlane
    else
      var normal := if Dot(n, Sub(corners[(i + 2) % 4], origin)) > 0.0 then Neg(n) else n;
      Plane(normal, Dot(normal, origin))
  }

  /** `Frustum::new`: four planes, one per pair of neighbouring corners. */
  function NewFrustum(origin: Vec3, corners: seq<Vec3>): (planes: seq<Plane>)
    requires |corners| == 4
    ensures |planes| == 4
  {
    seq(4, i requires 0 <= i < 4 => PlaneAt(origin, corners, i))
  }

  /** The signed distance of a point from a plane through the origin is the
      normal's dot product with the point's offset from the origin. */
  lemma OffsetDistance(normal: Vec3, origin: Vec3, q: Vec3)
    ensures SignedDistance(Plane(normal, Dot(normal, origin)), q) == Dot(normal, Sub(q, origin))
  {
  }

  /** A cross product is orthogonal to both its factors, and so is its negation. */
  lemma CrossOrthogonal(a: Vec3, b: Vec3)
    ensures Dot(Cross(a, b), a) == 0.0 && Dot(Cross(a, b), b) == 0.0
    ensures Dot(Neg(Cross(a, b)), a) == 0.0 && Dot(Neg(Cross(a, b)), b) == 0.0
  {
  }

  /** Plane i passes through the origin and through corners i and i + 1, and
      corner i + 2 is never on its positive side. */
  lemma PlaneAtFacts(origin: Vec3, corners: seq<Vec3>, i: nat)
    requires |corners| == 4 && i < 4 && Spans(origin, corners, i)
    ensures PlaneAt(origin, corners, i).Plane?
    ensures SignedDistance(PlaneAt(origin, corners, i), origin) == 0.0
    ensures SignedDistance(PlaneAt(origin, corners, i), corners[i]) == 0.0
    ensures SignedDistance(PlaneAt(origin, corners, i), corners[(i + 1) % 4]) == 0.0
    ensures SignedDistance(PlaneAt(origin, corners, i), corners[(i + 2) % 4]) <= 0.0
  {
    var a := Sub(corners[i], origin);
    var b := Sub(corners[(i + 1) % 4], origin);
    var p := PlaneAt(origin, corners, i);
    CrossOrthogonal(a, b);
    OffsetDistance(p.normal, origin, origin);
    OffsetDistance(p.normal, origin, corners[i]);
    OffsetDistance(p.normal, origin, corners[(i + 1) % 4]);
    OffsetDistance(p.normal, origin, corners[(i + 2) % 4]);
  }

  /** When no two neighbouring edges are parallel, the frustum contains its
      own apex, and each side plane holds its two corners and has the
      opposite corner on its inner side. */
  lemma {:induction false} NewFrustumFacts(origin: Vec3, corners: seq<Vec3>)
    requires |corners| == 4 && forall i :: 0 <= i < 4 ==> Spans(origin, corners, i)
    ensures Contains(NewFrustum(origin, corners), origin)
    ensures forall i :: 0 <= i < 4 ==>
      NewFrustum(origin, corners)[i].Plane?
      && SignedDistance(NewFrustum(origin, corners)[i], corners[i]) == 0.0
      && SignedDistance(NewFrustum(origin, corners)[i], corners[(i + 1) % 4]) == 0.0
      && SignedDistance(NewFrustum(origin, corners)[i], corners[(i + 2) % 4]) <= 0.0
  {
    forall i | 0 <= i < 4
      ensures NewFrustum(origin, corners)[i].Plane?
      ensures SignedDistance(NewFrustum(origin, corners)[i], origin) == 0.0
      ensures SignedDistance(NewFrustum(origin, corners)[i], corners[i]) == 0.0
      ensures SignedDistance(NewFrustum(origin, corners)[i], corners[(i + 1) % 4]) == 0.0
      ensures SignedDistance(NewFrustum(origin, corners)[i], corners[(i + 2) % 4]) <= 0.0
    {
      PlaneAtFacts(origin, corners, i);
    }
  }

  /** When two neighbouring edges are parallel, that plane is NaN and the
      frustum contains no point at all, not even its apex. */
  lemma DegenerateRejectsAll(origin: Vec3, corners: seq<Vec3>, i: nat, q: Vec3)
    requires |corners| == 4 && i < 4 && !Spans(origin, corners, i)
    ensures !Contains(NewFrustum(origin, corners), q)
  {
    assert !Below(NewFrustum(origin, corners)[i], q);
  }

  /** The C++ test skips the planes of parallel neighbouring edges: a point
      is inside exactly when every real plane has it on its inner side. */
  lemma InsideSkipsDegenerate(origin: Vec3, corners: seq<Vec3>, q: Vec3)
    requires |corners| == 4
    ensures IsPointInside(NewFrustum(origin, corners), q)
        <==> forall i :: 0 <= i < 4 && Spans(origin, corners, i) ==> Below(NewFrustum(origin, corners)[i], q)
  {
    var planes := NewFrustum(origin, corners);
    forall i | 0 <= i < 4
      ensures NotAbove(planes[i], q) <==> (Spans(origin, corners, i) ==> Below(planes[i], q))
    {
      assert planes[i] == PlaneAt(origin, corners, i);
    }
  }

  /** All four corners on the apex: every plane is NaN, so the C++ frustum
      accepts every point while the Rust frustum accepts none. */
  lemma CollapsedFrustum(origin: Vec3, q: Vec3)
    ensures IsPointInside(NewFrustum(origin, [origin, origin, origin, origin]), q)
    ensures !Contains(NewFrustum(origin, [origin, origin, origin, origin]), q)
  {
    var corners := [origin, origin, origin, origin];
    forall i | 0 <= i < 4
      ensures !Spans(origin, corners, i)
    {
      assert Sub(corners[i], origin) == Vec3(0.0, 0.0, 0.0);
    }
    InsideSkipsDegenerate(origin, corners, q);
    DegenerateRejectsAll(origin, corners, 0, q);
  }

  /** Multiplying a plane's normal and distance by a positive factor (as
      normalising does) keeps the sign of every signed distance, so it
      accepts the same points. */
  lemma ScaledPlane(p: Plane, k: real, q: Vec3)
    requires p.Plane? && k > 0.0
    ensures SignedDistance(Plane(Scale(k, p.normal), k * p.distance), q) == k * SignedDistance(p, q)
    ensures SignedDistance(Plane(Scale(k, p.normal), k * p.distance), q) <= 0.0 <==> SignedDistance(p, q) <= 0.0
  {
    var s := SignedDistance(p, q);
    assert SignedDistance(Plane(Scale(k, p.normal), k * p.distance), q) == k * s;
    if s <= 0.0 {
      assert k * s <= 0.0;
    } else {
      assert k * s > 0.0;
    }
  }
}
