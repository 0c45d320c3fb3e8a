/** `SphericalMap` of project/hybrid-frustum-pointnet/lidar/src/util/spherical_map.h:
    a time-stamped point store that drops points older than the existence
    time, at most once per cleaning interval. Times are reals (the source's
    doubles); the frustum test is the C++ `Frustum::isPointInside`,
    `Frustum.IsPointInside`. */
module SphericalMap {
  import opened Frustum

  datatype TimedPoint = TimedPoint(x: real, y: real, z: real, timestamp: real)

  function Position(p: TimedPoint): Vec3
  {
    Vec3(p.x, p.y, p.z)
  }

  /** The points `cleanOldPoints(now)` keeps: those with
      `now - timestamp <= maxAge`, in order. */
  function Fresh(points: seq<TimedPoint>, now: real, maxAge: real): (r: seq<TimedPoint>)
    ensures |r| <= |points|
    ensures forall i :: 0 <= i < |r| ==> now - r[i].timestamp <= maxAge
  {
    if points == [] then []
    else
      var n := |points| - 1;
      Fresh(points[..n], now, maxAge) + (if now - points[n].timestamp > maxAge then [] else [points[n]])
  }

  /** A point survives cleaning exactly when it was stored and is not too old. */
  lemma {:induction false} FreshMembers(points: seq<TimedPoint>, now: real, maxAge: real, p: TimedPoint)
    ensures p in Fresh(points, now, maxAge) <==> p in points && now - p.timestamp <= maxAge
  {
    if points != [] {
      var n := |points| - 1;
      FreshMembers(points[..n], now, maxAge, p);
      assert points == points[..n] + [points[n]];
    }
  }

  /** Cleaning works piece by piece, so the kept points stay in their order. */
  lemma {:induction false} FreshAppend(a: seq<TimedPoint>, b: seq<TimedPoint>, now: real, maxAge: real)
    ensures Fresh(a + b, now, maxAge) == Fresh(a, now, maxAge) + Fresh(b, now, maxAge)
  {
    if b == [] {
      assert a + b == a;
    } else {
      var n := |b| - 1;
      assert (a + b)[..|a + b| - 1] == a + b[..n];
      FreshAppend(a, b[..n], now, maxAge);
    }
  }

  /** Cleaning twice at the same time is cleaning once. */
  lemma {:induction false} FreshIdempotent(points: seq<TimedPoint>, now: real, maxAge: real)
    ensures Fresh(Fresh(points, now, maxAge), now, maxAge) == Fresh(points, now, maxAge)
  {
    if points != [] {
      var n := |points| - 1;
      FreshIdempotent(points[..n], now, maxAge);
      var last := if now - points[n].timestamp > maxAge then [] else [points[n]];
      FreshAppend(Fresh(points[..n], now, maxAge), last, now, maxAge);
      if last != [] {
        assert last[..0] == [];
      }
    }
  }

  /** The points the frustum accepts, in order. */
  function InFrustum(points: seq<TimedPoint>, frustum: seq<Plane>): (r: seq<TimedPoint>)
    ensures |r| <= |points|
    ensures forall i :: 0 <= i < |r| ==> IsPointInside(frustum, Position(r[i]))
  {
    if points == [] then []
    else
      var n := |points| - 1;
      InFrustum(points[..n], frustum) + (if IsPointInside(frustum, Position(points[n])) then [points[n]] else [])
  }

  lemma {:induction false} InFrustumMembers(points: seq<TimedPoint>, frustum: seq<Plane>, p: TimedPoint)
    ensures p in InFrustum(points, frustum) <==> p in points && IsPointInside(frustum, Position(p))
  {
    if points != [] {
      var n := |points| - 1;
      InFrustumMembers(points[..n], frustum, p);
      assert points == points[..n] + [points[n]];
    }
  }

  class SphericalMap {
    var points: seq<TimedPoint>
    const maxPointExistenceTimeMs: real
    const pointCleanIntervalMs: real
    var lastCleanTimeMs: real

    /** A new map: no points, last cleaned at time 0. */
    constructor(existenceTimeMs: real, cleanIntervalMs: real)
      ensures maxPointExistenceTimeMs == existenceTimeMs && pointCleanIntervalMs == cleanIntervalMs
      ensures points == [] && lastCleanTimeMs == 0.0
    {
      maxPointExistenceTimeMs := existenceTimeMs;
      pointCleanIntervalMs := cleanIntervalMs;
      lastCleanTimeMs := 0.0;
      points := [];
    }

    /** `cleanOldPoints`: erase the points older than the existence time. */
    method CleanOldPoints(currentTime: real)
      modifies this
      ensures points == Fresh(old(points), currentTime, maxPointExistenceTimeMs)
      ensures lastCleanTimeMs == old(lastCleanTimeMs)
      ensures forall p :: p in points ==> currentTime - p.timestamp <= maxPointExistenceTimeMs
    {
      points := Fresh(points, currentTime, maxPointExistenceTimeMs);
      forall p | p in points
        ensures currentTime - p.timestamp <= maxPointExistenceTimeMs
      {
        FreshMembers(old(points), currentTime, maxPointExistenceTimeMs, p);
      }
    }

    /** `addPoint`: the point is appended; when more than the cleaning
        interval has passed since the last cleaning, the store is cleaned at
        the point's time, which becomes the last cleaning time. A cleaning
        add leaves only points within the existence time of the new one and
        keeps the new point last when the existence time is not negative. */
    method AddPoint(x: real, y: real, z: real, timestamp: real)
      modifies this
      ensures var appended := old(points) + [TimedPoint(x, y, z, timestamp)];
        if timestamp - old(lastCleanTimeMs) > pointCleanIntervalMs then
          points == Fresh(appended, timestamp, maxPointExistenceTimeMs) && lastCleanTimeMs == timestamp
        else
          points == appended && lastCleanTimeMs == old(lastCleanTimeMs)
      ensures timestamp - old(lastCleanTimeMs) > pointCleanIntervalMs ==>
        (forall p :: p in points ==> timestamp - p.timestamp <= maxPointExistenceTimeMs)
        && (maxPointExistenceTimeMs >= 0.0 ==> points != [] && points[|points| - 1] == TimedPoint(x, y, z, timestamp))
    {
      var point := TimedPoint(x, y, z, timestamp);
      points := points + [point];
      if timestamp - lastCleanTimeMs > pointCleanIntervalMs {
        CleanOldPoints(timestamp);
        lastCleanTimeMs := timestamp;
        FreshAppend(old(points), [point], timestamp, maxPointExistenceTimeMs);
        assert [point][..0] == [];
      }
    }

    /** `queryPointsInFrustum`: the stored points the frustum accepts, in
        order; the store is not changed. */
    method QueryPointsInFrustum(frustum: seq<Plane>) returns (result: seq<TimedPoint>)
      ensures result == InFrustum(points, frustum)
    {
      result := [];
      for i := 0 to |points|
        invariant result == InFrustum(points[..i], frustum)
      {
        assert points[..i + 1][..i] == points[..i];
        if IsPointInside(frustum, Position(points[i])) {
          result := result + [points[i]];
        }
      }
      assert points[..|points|] == points;
    }
  }
}
