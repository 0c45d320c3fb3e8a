/** `TimedPointMap` of project/rust/lidar_3d/src/timed_point_map.rs: point
    clouds stamped with the time they were added, dropped once the cleaning
    interval has passed.

    The source reads its clock as `Instant::now().elapsed().as_millis()`:
    the time since an instant created in the same expression, so every
    reading is 0 ms and nothing is ever dropped (`ElapsedClockKeepsAll`).
    The class models the evidently intended design instead, with the
    millisecond reading of one running clock as the parameter `now`.
    Timestamps are `u128`, here `nat`; the `u128` subtraction `now -
    timestamp` overflows when a stored timestamp is after `now`, so the
    cleaning operations require timestamps up to `now`. */
module TimedPointMap {
  import opened Frustum

  datatype TimedPointCloud = TimedPointCloud(points: seq<Vec3>, timestamp: nat)

  predicate NotAfter(clouds: seq<TimedPointCloud>, now: nat)
  {
    forall i :: 0 <= i < |clouds| ==> clouds[i].timestamp <= now
  }

  /** The clouds `retain` keeps: `now - timestamp < interval`, in order. */
  function Recent(clouds: seq<TimedPointCloud>, now: nat, interval: nat): (r: seq<TimedPointCloud>)
    requires NotAfter(clouds, now)
    ensures NotAfter(r, now)
  {
    if clouds == [] then []
    else
      var n := |clouds| - 1;
      Recent(clouds[..n], now, interval) + (if now - clouds[n].timestamp < interval then [clouds[n]] else [])
  }

  /** A cloud is kept exactly when it was stored and is younger than the
      interval. */
  lemma {:induction false} RecentMembers(clouds: seq<TimedPointCloud>, now: nat, interval: nat, c: TimedPointCloud)
    requires NotAfter(clouds, now)
    ensures c in Recent(clouds, now, interval) <==> c in clouds && now - c.timestamp < interval
  {
    if clouds != [] {
      var n := |clouds| - 1;
      RecentMembers(clouds[..n], now, interval, c);
      assert clouds == clouds[..n] + [clouds[n]];
    }
  }

  /** As written, every stamp and every `now` is the 0 ms that
      `Instant::now().elapsed()` reads, and with a positive interval
      `retain` keeps every cloud: the store only grows. */
  lemma {:induction false} ElapsedClockKeepsAll(clouds: seq<TimedPointCloud>, interval: nat)
    requires interval > 0 && forall i :: 0 <= i < |clouds| ==> clouds[i].timestamp == 0
    ensures Recent(clouds, 0, interval) == clouds
  {
    if clouds != [] {
      var n := |clouds| - 1;
      ElapsedClockKeepsAll(clouds[..n], interval);
      assert clouds == clouds[..n] + [clouds[n]];
    }
  }

  /** Every point of every cloud, in insertion order (`flat_map`). */
  function AllPoints(clouds: seq<TimedPointCloud>): seq<Vec3>
  {
    if clouds == [] then [] else AllPoints(clouds[..|clouds| - 1]) + clouds[|clouds| - 1].points
  }

  lemma {:induction false} AllPointsMembers(clouds: seq<TimedPointCloud>, q: Vec3)
    ensures q in AllPoints(clouds) <==> exists i :: 0 <= i < |clouds| && q in clouds[i].points
  {
    if clouds != [] {
      var n := |clouds| - 1;
      AllPointsMembers(clouds[..n], q);
      if q in clouds[n].points {
        assert 0 <= n < |clouds| && q in clouds[n].points;
      }
      if exists i :: 0 <= i < |clouds| && q in clouds[i].points {
        var i :| 0 <= i < |clouds| && q in clouds[i].points;
        if i < n {
          assert clouds[..n][i] == clouds[i];
        }
      }
    }
  }

  /** The points the frustum contains, in order (`filter`). */
  function Filter(points: seq<Vec3>, frustum: seq<Plane>): (r: seq<Vec3>)
    ensures |r| <= |points|
    ensures forall i :: 0 <= i < |r| ==> Contains(frustum, r[i])
  {
    if points == [] then []
    else
      var n := |points| - 1;
      Filter(points[..n], frustum) + (if Contains(frustum, points[n]) then [points[n]] else [])
  }

  lemma {:induction false} FilterMembers(points: seq<Vec3>, frustum: seq<Plane>, q: Vec3)
    ensures q in Filter(points, frustum) <==> q in points && Contains(frustum, q)
  {
    if points != [] {
      var n := |points| - 1;
      FilterMembers(points[..n], frustum, q);
      assert points == points[..n] + [points[n]];
    }
  }

  class TimedPointMap {
    var pointclouds: seq<TimedPointCloud>
    var lastCleanTime: nat
    const cleanIntervalMillis: nat

    /** `new`: no clouds; the last cleaning time is the clock's reading
        (which the source stores and never reads again). */
    constructor(interval: nat, now: nat)
      ensures pointclouds == [] && lastCleanTime == now && cleanIntervalMillis == interval
    {
      pointclouds := [];
      lastCleanTime := now;
      cleanIntervalMillis := interval;
    }

    /** `clean_old_points`: keep the clouds younger than the interval. */
    method CleanOldPoints(now: nat)
      requires NotAfter(pointclouds, now)
      modifies this
      ensures pointclouds == Recent(old(pointclouds), now, cleanIntervalMillis)
      ensures forall c :: c in pointclouds ==> now - c.timestamp < cleanIntervalMillis
      ensures lastCleanTime == old(lastCleanTime)
    {
      pointclouds := Recent(pointclouds, now, cleanIntervalMillis);
      forall c | c in pointclouds
        ensures now - c.timestamp < cleanIntervalMillis
      {
        RecentMembers(old(pointclouds), now, cleanIntervalMillis, c);
      }
    }

    /** `add_all`: clean first, then store the new cloud stamped `now`; all
        clouds but the new one are then younger than the interval. */
    method AddAll(points: seq<Vec3>, now: nat)
      requires NotAfter(pointclouds, now)
      modifies this
      ensures pointclouds == Recent(old(pointclouds), now, cleanIntervalMillis) + [TimedPointCloud(points, now)]
      ensures NotAfter(pointclouds, now)
      ensures forall i :: 0 <= i < |pointclouds| - 1 ==> now - pointclouds[i].timestamp < cleanIntervalMillis
      ensures lastCleanTime == old(lastCleanTime)
    {
      CleanOldPoints(now);
      pointclouds := pointclouds + [TimedPointCloud(points, now)];
      assert forall i :: 0 <= i < |pointclouds| - 1 ==> pointclouds[i] in old(Recent(pointclouds, now, cleanIntervalMillis));
    }

    /** `query_points_frustum`: the points of all clouds, in insertion order,
        that the frustum contains. */
    function QueryPointsFrustum(frustum: seq<Plane>): (r: seq<Vec3>)
      reads this
      ensures forall i :: 0 <= i < |r| ==> Contains(frustum, r[i])
    {
      Filter(AllPoints(pointclouds), frustum)
    }

    /** A point is returned exactly when some stored cloud holds it and the
        frustum contains it. */
    lemma QueryMembers(frustum: seq<Plane>, q: Vec3)
      ensures q in QueryPointsFrustum(frustum) <==>
        (exists i :: 0 <= i < |pointclouds| && q in pointclouds[i].points) && Contains(frustum, q)
    {
      FilterMembers(AllPoints(pointclouds), frustum, q);
      AllPointsMembers(pointclouds, q);
    }
  }
}
