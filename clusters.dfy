/** Point instancing of a deduplicated pair: its placements are clustered
    by orientation (scale and rotation), and each cluster becomes a point
    cloud whose points are the placements' offsets from the cluster's first
    location. */
module Clusters {
  import opened Common
  import opened Scene
  import opened Multimap

  datatype Vec3 = Vec3(x: real, y: real, z: real)

  function Sub(a: Vec3, b: Vec3): Vec3 {
    Vec3(a.x - b.x, a.y - b.y, a.z - b.z)
  }

  const Zero: Vec3 := Vec3(0.0, 0.0, 0.0)

  /** The decomposition of each placement's transform into its orientation
      key (scale and rotation, of any type with equality) and its location. */
  function Decomposed<K>(ts: seq<Transform>, decompose: Transform -> (K, Vec3)): (r: seq<(K, Vec3)>)
    ensures |r| == |ts| && forall i :: 0 <= i < |ts| ==> r[i] == decompose(ts[i])
  {
    seq(|ts|, i requires 0 <= i < |ts| => decompose(ts[i]))
  }

  /** `get_orientations`: one bucket per orientation, in the order the
      orientations are first met, each holding its placements' locations in
      order. */
  method GetOrientations<K(==,!new)>(ts: seq<Transform>, decompose: Transform -> (K, Vec3))
    returns (buckets: Multi<K, Vec3>)
    ensures buckets == AppendAll(Empty(), Decomposed(ts, decompose))
  {
    buckets := Empty();
    var i := 0;
    while i < |ts|
      invariant i <= |ts|
      invariant buckets == AppendAll(Empty(), Decomposed(ts[..i], decompose))
    {
      var p := decompose(ts[i]);
      OrientationStep(ts, i, decompose);
      buckets := Append(buckets, p.0, p.1);
      i := i + 1;
    }
    TakeAll(ts);
  }

  lemma OrientationStep<K(!new)>(ts: seq<Transform>, i: nat, decompose: Transform -> (K, Vec3))
    requires i < |ts|
    ensures AppendAll(Empty(), Decomposed(ts[..i + 1], decompose))
            == Append(AppendAll(Empty(), Decomposed(ts[..i], decompose)), decompose(ts[i]).0, decompose(ts[i]).1)
  {
    var a, b := Decomposed(ts[..i], decompose), Decomposed(ts[..i + 1], decompose);
    assert b == a + [decompose(ts[i])];
    AppendAllSnoc(Empty(), b, i);
    assert b[..i] == a;
  }

  /** The points of one cluster: each location minus the first, so the
      first point is the origin. */
  method Offsets(locs: seq<Vec3>) returns (points: seq<Vec3>)
    requires locs != []
    ensures |points| == |locs|
    ensures forall i :: 0 <= i < |locs| ==> points[i] == Sub(locs[i], locs[0])
    ensures points[0] == Zero
  {
    var main := locs[0];
    points := [];
    var i := 0;
    while i < |locs|
      invariant i <= |locs| && |points| == i
      invariant forall j :: 0 <= j < i ==> points[j] == Sub(locs[j], main)
    {
      points := points + [Sub(locs[i], main)];
      i := i + 1;
    }
  }

  /** One point cloud per orientation bucket, in bucket order: the bucket's
      orientation, the cloud's own location (the bucket's first location)
      and its points. */
  datatype Cloud<K> = Cloud(orientation: K, location: Vec3, points: seq<Vec3>)

  /** The loop of `instance_group_dupli_vert` over the orientation buckets
      of one pair's placements. */
  method PointClouds<K(==,!new)>(ts: seq<Transform>, decompose: Transform -> (K, Vec3))
    returns (clouds: seq<Cloud<K>>)
    ensures var buckets := AppendAll(Empty(), Decomposed(ts, decompose));
      && |clouds| == |buckets.order|
      && forall j :: 0 <= j < |clouds| ==> CloudOf(clouds[j], buckets.order[j], Get(buckets, buckets.order[j]))
  {
    var buckets := GetOrientations(ts, decompose);
    BucketsNonEmpty(Decomposed(ts, decompose));
    clouds := [];
    var j := 0;
    while j < |buckets.order|
      invariant j <= |buckets.order| && |clouds| == j
      invariant forall l :: 0 <= l < j ==> CloudOf(clouds[l], buckets.order[l], Get(buckets, buckets.order[l]))
    {
      var k := buckets.order[j];
      var locs := Get(buckets, k);
      var points := Offsets(locs);
      clouds := clouds + [Cloud(k, locs[0], points)];
      j := j + 1;
    }
  }

  /** A cloud for orientation `k` placed at the first of `locs`, with one
      point per location, relative to that first location. */
  ghost predicate CloudOf<K>(c: Cloud<K>, k: K, locs: seq<Vec3>) {
    && locs != []
    && c.orientation == k
    && c.location == locs[0]
    && |c.points| == |locs|
    && forall i :: 0 <= i < |locs| ==> c.points[i] == Sub(locs[i], c.location)
  }

  // ---------------------------------------------------------------------
  // The clustering is a partition

  /** The bucket of an orientation holds exactly the locations of the
      placements with that orientation, in order: two placements share a
      bucket exactly when their orientations are equal. */
  lemma BucketContents<K(!new)>(ps: seq<(K, Vec3)>, k: K)
    ensures Get(AppendAll(Empty(), ps), k) == ValuesFor(ps, k)
  {
    AppendAllGet(Empty(), ps, k);
  }

  /** Every placement lands in its orientation's bucket. */
  lemma {:induction false} PlacementInBucket<K(!new)>(ps: seq<(K, Vec3)>, i: nat)
    requires i < |ps|
    ensures ps[i].1 in ValuesFor(ps, ps[i].0)
    decreases |ps|
  {
    var n := |ps| - 1;
    if i < n {
      PlacementInBucket(ps[..n], i);
    }
  }

  /** A bucket holds nothing but placements of its own orientation. */
  lemma {:induction false} BucketOnlyOwn<K(!new)>(ps: seq<(K, Vec3)>, k: K, v: Vec3)
    requires v in ValuesFor(ps, k)
    ensures exists i :: 0 <= i < |ps| && ps[i] == (k, v)
    decreases |ps|
  {
    var n := |ps| - 1;
    if v in ValuesFor(ps[..n], k) {
      BucketOnlyOwn(ps[..n], k, v);
      var i :| 0 <= i < n && ps[..n][i] == (k, v);
      assert ps[i] == (k, v);
    } else {
      assert ps[n] == (k, v);
    }
  }

  /** The bucket sizes add up to the number of placements, and the buckets
      come in the order their orientations are first met. */
  lemma BucketsPartition<K(!new)>(ps: seq<(K, Vec3)>)
    ensures Total(AppendAll(Empty(), ps)) == |ps|
    ensures AppendAll(Empty(), ps).order == FirstSeen(KeysOf(ps))
  {
    AppendAllTotal(Empty(), ps);
    AppendAllOrder(Empty(), ps);
    assert [] + KeysOf(ps) == KeysOf(ps);
  }

  /** Every bucket holds at least one location, so every cloud has a
      first location to be placed at. */
  lemma BucketsNonEmpty<K(!new)>(ps: seq<(K, Vec3)>)
    ensures Valid(AppendAll(Empty(), ps))
    ensures forall k :: k in AppendAll(Empty(), ps).order ==> Get(AppendAll(Empty(), ps), k) != []
  {
    AppendAllValid(Empty(), ps);
    BucketsPartition(ps);
    FirstSeenFacts(KeysOf(ps));
    forall k | k in AppendAll(Empty(), ps).order
      ensures Get(AppendAll(Empty(), ps), k) != []
    {
      var i := KeyOccurs(ps, k);
      PlacementInBucket(ps, i);
      BucketContents(ps, k);
    }
  }

  lemma {:induction false} KeyOccurs<K, V>(ps: seq<(K, V)>, k: K) returns (i: nat)
    requires k in KeysOf(ps)
    ensures i < |ps| && ps[i].0 == k
    decreases |ps|
  {
    var n := |ps| - 1;
    if k in KeysOf(ps[..n]) {
      i := KeyOccurs(ps[..n], k);
    } else {
      i := n;
    }
  }
}
