/** The problem instance (`VRPPDParameters`): per-delivery and per-courier data
    with 0-based location indices, the travel-time matrix, and two rankings per
    location that drive the greedy construction. */
module Parameters {

  /** One row of the couriers table, as read: 1-based location id. */
  datatype CourierRecord = CourierRecord(id: int, location: int, capacity: int)

  /** One row of the deliveries table, as read: 1-based location ids. */
  datatype DeliveryRecord = DeliveryRecord(
    id: int, capacity: int, pickupLocation: int, releaseTime: int, stackingId: int, dropoffLocation: int)

  /** The loaded instance: couriers, deliveries and the travel-time matrix
      indexed by 0-based location. */
  datatype InstanceData = InstanceData(
    couriers: seq<CourierRecord>, deliveries: seq<DeliveryRecord>, travelTime: seq<seq<int>>)

  datatype Params = Params(
    deliveryCount: int,
    deliveryCapacity: seq<int>,
    releaseTime: seq<int>,
    pickup: seq<int>,
    dropoff: seq<int>,
    courierCount: int,
    courierCapacity: seq<int>,
    courierStart: seq<int>,
    locationCount: int,
    distance: seq<seq<int>>,
    nearestLocation: seq<seq<int>>,
    nearestDelivery: seq<seq<int>>)
  {
    /** Shape and index ranges every other component relies on when it
        indexes these vectors. */
    predicate Valid() {
      && deliveryCount == |deliveryCapacity| == |releaseTime| == |pickup| == |dropoff|
      && courierCount == |courierCapacity| == |courierStart|
      && locationCount == |distance|
      && (forall i :: 0 <= i < |distance| ==> |distance[i]| == locationCount)
      && (forall d :: 0 <= d < |pickup| ==> 0 <= pickup[d] < locationCount)
      && (forall d :: 0 <= d < |dropoff| ==> 0 <= dropoff[d] < locationCount)
      && (forall c :: 0 <= c < |courierStart| ==> 0 <= courierStart[c] < locationCount)
      && |nearestDelivery| == locationCount
      && (forall i :: 0 <= i < |nearestDelivery| ==> |nearestDelivery[i]| == deliveryCount)
      && (forall i, k :: 0 <= i < |nearestDelivery| && 0 <= k < |nearestDelivery[i]| ==>
            1 <= nearestDelivery[i][k] <= deliveryCount)
    }
  }

  /** A square matrix. */
  predicate Square(m: seq<seq<int>>) {
    forall i :: 0 <= i < |m| ==> |m[i]| == |m|
  }

  /** `s` lists indices into `key` in non-decreasing order of key. */
  predicate SortedByKey(s: seq<int>, key: seq<int>) {
    && (forall k :: 0 <= k < |s| ==> 0 <= s[k] < |key|)
    && (forall a, b :: 0 <= a < b < |s| ==> key[s[a]] <= key[s[b]])
  }

  /** 0, 1, ..., n-1 */
  function Range(n: nat): (r: seq<int>)
    ensures |r| == n && forall k :: 0 <= k < n ==> r[k] == k
  {
    if n == 0 then [] else Range(n - 1) + [n - 1]
  }

  /** `s` with every occurrence of `x` erased, order kept
      (`erase(remove(begin, end, x), end)`). */
  function Without(s: seq<int>, x: int): seq<int> {
    if s == [] then []
    else Without(s[..|s| - 1], x) + (if s[|s| - 1] == x then [] else [s[|s| - 1]])
  }

  lemma {:induction false} RangeOccursOnce(n: nat, x: int)
    ensures multiset(Range(n))[x] == if 0 <= x < n then 1 else 0
  {
    if n > 0 {
      RangeOccursOnce(n - 1, x);
      assert Range(n) == Range(n - 1) + [n - 1];
    }
  }

  lemma {:induction false} WithoutFacts(s: seq<int>, x: int, key: seq<int>)
    ensures |Without(s, x)| == |s| - multiset(s)[x]
    ensures forall y :: y in Without(s, x) <==> y in s && y != x
    ensures SortedByKey(s, key) ==> SortedByKey(Without(s, x), key)
  {
    if s != [] {
      var init, last := s[..|s| - 1], s[|s| - 1];
      assert s == init + [last];
      WithoutFacts(init, x, key);
      assert multiset(s) == multiset(init) + multiset{last};
      if SortedByKey(s, key) {
        assert SortedByKey(init, key);
        forall y | y in Without(init, x) ensures 0 <= y < |key| && key[y] <= key[last] {
          var k :| 0 <= k < |init| && init[k] == y;
          assert s[k] == y;
        }
      }
    }
  }

  /** Swaps two entries of an index array. */
  method Swap(a: array<int>, i: int, j: int)
    requires 0 <= i < a.Length && 0 <= j < a.Length
    modifies a
    ensures a[..] == old(a[..])[i := old(a[j])][j := old(a[i])]
    ensures multiset(a[..]) == old(multiset(a[..]))
  {
    a[i], a[j] := a[j], a[i];
  }

  /** In-place sort of an index array by a key (the `std::sort` calls with a
      key comparator).  Its contract is that of `std::sort`: the result is
      sorted and a permutation of the input; the order among equal keys is not
      promised. */
  method SortIndicesByKey(a: array<int>, key: seq<int>)
    requires forall k :: 0 <= k < a.Length ==> 0 <= a[k] < |key|
    modifies a
    ensures SortedByKey(a[..], key)
    ensures multiset(a[..]) == old(multiset(a[..]))
  {
    var i := 0;
    while i < a.Length
      invariant 0 <= i <= a.Length
      invariant forall k :: 0 <= k < a.Length ==> 0 <= a[k] < |key|
      invariant forall x, y :: 0 <= x < y < i ==> key[a[x]] <= key[a[y]]
      invariant multiset(a[..]) == old(multiset(a[..]))
    {
      var j := i;
      while j > 0 && key[a[j - 1]] > key[a[j]]
        invariant 0 <= j <= i
        invariant forall k :: 0 <= k < a.Length ==> 0 <= a[k] < |key|
        invariant forall x, y :: 0 <= x < y <= i && y != j ==> key[a[x]] <= key[a[y]]
        invariant 0 < j < i ==> key[a[j - 1]] <= key[a[j + 1]]
        invariant multiset(a[..]) == old(multiset(a[..]))
      {
        Swap(a, j - 1, j);
        j := j - 1;
      }
      i := i + 1;
    }
  }

  /** Sorted ranking of the indices 0..n-1 by `key`. */
  method RankByKey(n: nat, key: seq<int>) returns (r: seq<int>)
    requires n <= |key|
    ensures |r| == n
    ensures multiset(r) == multiset(Range(n))
    ensures SortedByKey(r, key)
  {
    var indices := new int[n];
    var j := 0;
    while j < n
      invariant 0 <= j <= n
      invariant indices[..j] == Range(j)
    {
      indices[j] := j;
      j := j + 1;
      assert indices[..j] == indices[..j - 1] + [j - 1];
    }
    assert indices[..] == Range(n);
    SortIndicesByKey(indices, key);
    r := indices[..];
  }

  /** Row `l` of the nearest-location matrix: every other location once,
      closest first. */
  ghost predicate NearestLocationsOk(distance: seq<seq<int>>, l: int, row: seq<int>)
    requires 0 <= l < |distance|
  {
    && |row| == |distance| - 1
    && (forall x :: x in row <==> 0 <= x < |distance| && x != l)
    && SortedByKey(row, distance[l])
  }

  /** Every pickup is a location of the matrix. */
  predicate PickupsIn(distance: seq<seq<int>>, pickup: seq<int>) {
    forall d :: 0 <= d < |pickup| ==> 0 <= pickup[d] < |distance|
  }

  /** Row `l` of the nearest-delivery matrix: every 1-based delivery id once,
      by travel time from `l` to the delivery's pickup. */
  ghost predicate NearestDeliveriesOk(distance: seq<seq<int>>, pickup: seq<int>, l: int, row: seq<int>)
    requires Square(distance) && PickupsIn(distance, pickup) && 0 <= l < |distance|
  {
    && |row| == |pickup|
    && (forall x :: x in row <==> 1 <= x <= |pickup|)
    && (forall k :: 0 <= k < |row| ==> 1 <= row[k] <= |pickup|)
    && (forall a, b :: 0 <= a < b < |row| ==>
          distance[l][pickup[row[a] - 1]] <= distance[l][pickup[row[b] - 1]])
  }

  /** One row of `location_nearest_location_matrix`: all locations sorted by
      travel time from `i`, then `i` itself erased. */
  method NearestLocationRow(distance: seq<seq<int>>, i: int) returns (row: seq<int>)
    requires Square(distance) && 0 <= i < |distance|
    ensures NearestLocationsOk(distance, i, row)
  {
    var locationCount := |distance|;
    var ranked := RankByKey(locationCount, distance[i]);
    row := [];
    var j := 0;
    while j < |ranked|
      invariant 0 <= j <= |ranked|
      invariant row == Without(ranked[..j], i)
    {
      if ranked[j] != i {
        row := row + [ranked[j]];
      }
      j := j + 1;
      assert ranked[..j][..j - 1] == ranked[..j - 1];
    }
    assert ranked[..j] == ranked;
    WithoutFacts(ranked, i, distance[i]);
    RangeOccursOnce(locationCount, i);
    RangeMembers(ranked, locationCount);
  }

  /** A permutation of 0..n-1 holds exactly 0..n-1. */
  lemma RangeMembers(ranked: seq<int>, n: nat)
    requires multiset(ranked) == multiset(Range(n))
    ensures forall x :: x in ranked <==> 0 <= x < n
  {
    forall x ensures x in ranked <==> 0 <= x < n {
      RangeOccursOnce(n, x);
      assert x in ranked <==> x in multiset(ranked);
    }
  }

  /** One row of `location_nearest_delivery_matrix`: the 1-based delivery ids
      sorted by travel time from `i` to each delivery's pickup location. */
  method NearestDeliveryRow(distance: seq<seq<int>>, pickup: seq<int>, i: int) returns (row: seq<int>)
    requires Square(distance) && PickupsIn(distance, pickup) && 0 <= i < |distance|
    ensures NearestDeliveriesOk(distance, pickup, i, row)
  {
    var deliveryCount := |pickup|;
    var key := seq(deliveryCount, j requires 0 <= j < deliveryCount => distance[i][pickup[j]]);
    var ranked := RankByKey(deliveryCount, key);
    row := [];
    var j := 0;
    while j < |ranked|
      invariant 0 <= j <= |ranked|
      invariant |row| == j
      invariant forall m :: 0 <= m < j ==> row[m] == ranked[m] + 1
    {
      row := row + [ranked[j] + 1];
      j := j + 1;
    }
    RangeMembers(ranked, deliveryCount);
    ShiftedRow(distance, pickup, i, key, ranked, row);
  }

  /** Adding one to a ranking of the 0-based delivery indices by travel time
      gives a nearest-delivery row. */
  lemma ShiftedRow(distance: seq<seq<int>>, pickup: seq<int>, i: int, key: seq<int>, ranked: seq<int>, row: seq<int>)
    requires Square(distance) && PickupsIn(distance, pickup) && 0 <= i < |distance|
    requires |key| == |pickup| && forall j :: 0 <= j < |key| ==> key[j] == distance[i][pickup[j]]
    requires |ranked| == |pickup| && SortedByKey(ranked, key)
    requires forall x :: x in ranked <==> 0 <= x < |pickup|
    requires |row| == |ranked| && forall m :: 0 <= m < |row| ==> row[m] == ranked[m] + 1
    ensures NearestDeliveriesOk(distance, pickup, i, row)
  {
    forall x ensures x in row <==> 1 <= x <= |pickup| {
      if x in row {
        var m :| 0 <= m < |row| && row[m] == x;
        assert ranked[m] == x - 1;
      }
      if 1 <= x <= |pickup| {
        assert x - 1 in ranked;
        var m :| 0 <= m < |ranked| && ranked[m] == x - 1;
        assert row[m] == x;
      }
    }
    forall a, b | 0 <= a < b < |row|
      ensures distance[i][pickup[row[a] - 1]] <= distance[i][pickup[row[b] - 1]]
    {
      assert key[ranked[a]] <= key[ranked[b]];
    }
  }

  /** The per-delivery vectors, with locations made 0-based. */
  method ReadDeliveries(deliveries: seq<DeliveryRecord>)
    returns (capacity: seq<int>, release: seq<int>, pickup: seq<int>, dropoff: seq<int>)
    ensures |capacity| == |release| == |pickup| == |dropoff| == |deliveries|
    ensures forall k :: 0 <= k < |deliveries| ==>
              && capacity[k] == deliveries[k].capacity
              && release[k] == deliveries[k].releaseTime
              && pickup[k] == deliveries[k].pickupLocation - 1
              && dropoff[k] == deliveries[k].dropoffLocation - 1
  {
    capacity, release, pickup, dropoff := [], [], [], [];
    var k := 0;
    while k < |deliveries|
      invariant 0 <= k <= |deliveries|
      invariant |capacity| == |release| == |pickup| == |dropoff| == k
      invariant forall m :: 0 <= m < k ==>
                  && capacity[m] == deliveries[m].capacity
                  && release[m] == deliveries[m].releaseTime
                  && pickup[m] == deliveries[m].pickupLocation - 1
                  && dropoff[m] == deliveries[m].dropoffLocation - 1
    {
      capacity := capacity + [deliveries[k].capacity];
      release := release + [deliveries[k].releaseTime];
      pickup := pickup + [deliveries[k].pickupLocation - 1];
      dropoff := dropoff + [deliveries[k].dropoffLocation - 1];
      k := k + 1;
    }
  }

  /** The per-courier vectors, with locations made 0-based. */
  method ReadCouriers(couriers: seq<CourierRecord>) returns (courierCapacity: seq<int>, courierStart: seq<int>)
    ensures |courierCapacity| == |courierStart| == |couriers|
    ensures forall c :: 0 <= c < |couriers| ==>
              courierCapacity[c] == couriers[c].capacity && courierStart[c] == couriers[c].location - 1
  {
    courierCapacity, courierStart := [], [];
    var c := 0;
    while c < |couriers|
      invariant 0 <= c <= |couriers|
      invariant |courierCapacity| == |courierStart| == c
      invariant forall m :: 0 <= m < c ==>
                  courierCapacity[m] == couriers[m].capacity && courierStart[m] == couriers[m].location - 1
    {
      courierCapacity := courierCapacity + [couriers[c].capacity];
      courierStart := courierStart + [couriers[c].location - 1];
      c := c + 1;
    }
  }

  /** `location_nearest_location_matrix`, row by row. */
  method NearestLocationMatrix(distance: seq<seq<int>>) returns (nearest: seq<seq<int>>)
    requires Square(distance)
    ensures |nearest| == |distance|
    ensures forall l :: 0 <= l < |distance| ==> NearestLocationsOk(distance, l, nearest[l])
  {
    nearest := [];
    var i := 0;
    while i < |distance|
      invariant 0 <= i <= |distance| && |nearest| == i
      invariant forall l :: 0 <= l < i ==> NearestLocationsOk(distance, l, nearest[l])
    {
      var row := NearestLocationRow(distance, i);
      nearest := nearest + [row];
      i := i + 1;
    }
  }

  /** `location_nearest_delivery_matrix`, row by row. */
  method NearestDeliveryMatrix(distance: seq<seq<int>>, pickup: seq<int>) returns (nearest: seq<seq<int>>)
    requires Square(distance) && PickupsIn(distance, pickup)
    ensures |nearest| == |distance|
    ensures forall l :: 0 <= l < |distance| ==> NearestDeliveriesOk(distance, pickup, l, nearest[l])
  {
    nearest := [];
    var i := 0;
    while i < |distance|
      invariant 0 <= i <= |distance| && |nearest| == i
      invariant forall l :: 0 <= l < i ==> NearestDeliveriesOk(distance, pickup, l, nearest[l])
    {
      var row := NearestDeliveryRow(distance, pickup, i);
      nearest := nearest + [row];
      i := i + 1;
    }
  }

  /** The `VRPPDParameters` constructor. */
  method NewParameters(instance: InstanceData) returns (p: Params)
    requires Square(instance.travelTime)
    requires forall k :: 0 <= k < |instance.deliveries| ==>
               1 <= instance.deliveries[k].pickupLocation <= |instance.travelTime|
    ensures p.deliveryCount == |instance.deliveries|
    ensures p.courierCount == |instance.couriers|
    ensures p.locationCount == |instance.travelTime| && p.distance == instance.travelTime
    ensures |p.deliveryCapacity| == |p.releaseTime| == |p.pickup| == |p.dropoff| == p.deliveryCount
    ensures |p.courierCapacity| == |p.courierStart| == p.courierCount
    ensures forall k :: 0 <= k < p.deliveryCount ==>
              && p.deliveryCapacity[k] == instance.deliveries[k].capacity
              && p.releaseTime[k] == instance.deliveries[k].releaseTime
              && p.pickup[k] == instance.deliveries[k].pickupLocation - 1
              && p.dropoff[k] == instance.deliveries[k].dropoffLocation - 1
    ensures forall c :: 0 <= c < p.courierCount ==>
              && p.courierCapacity[c] == instance.couriers[c].capacity
              && p.courierStart[c] == instance.couriers[c].location - 1
    ensures PickupsIn(p.distance, p.pickup)
    ensures |p.nearestLocation| == p.locationCount
    ensures forall l :: 0 <= l < p.locationCount ==> NearestLocationsOk(p.distance, l, p.nearestLocation[l])
    ensures |p.nearestDelivery| == p.locationCount
    ensures forall l :: 0 <= l < p.locationCount ==>
              NearestDeliveriesOk(p.distance, p.pickup, l, p.nearestDelivery[l])
    ensures (forall k :: 0 <= k < |instance.deliveries| ==>
               1 <= instance.deliveries[k].dropoffLocation <= |instance.travelTime|)
            && (forall c :: 0 <= c < |instance.couriers| ==>
               1 <= instance.couriers[c].location <= |instance.travelTime|)
            ==> p.Valid()
  {
    var capacity, release, pickup, dropoff := ReadDeliveries(instance.deliveries);
    var courierCapacity, courierStart := ReadCouriers(instance.couriers);
    var distance := instance.travelTime;
    var nearestLocation := NearestLocationMatrix(distance);
    var nearestDelivery := NearestDeliveryMatrix(distance, pickup);
    p := Params(|instance.deliveries|, capacity, release, pickup, dropoff,
                |instance.couriers|, courierCapacity, courierStart,
                |distance|, distance, nearestLocation, nearestDelivery);
    ValidFromRows(p);
  }

  /** With every location in range, the loaded instance is valid. */
  lemma ValidFromRows(p: Params)
    requires p.deliveryCount == |p.deliveryCapacity| == |p.releaseTime| == |p.pickup| == |p.dropoff|
    requires p.courierCount == |p.courierCapacity| == |p.courierStart|
    requires p.locationCount == |p.distance| && Square(p.distance) && PickupsIn(p.distance, p.pickup)
    requires |p.nearestDelivery| == p.locationCount
    requires forall l :: 0 <= l < p.locationCount ==> NearestDeliveriesOk(p.distance, p.pickup, l, p.nearestDelivery[l])
    ensures (forall d :: 0 <= d < |p.dropoff| ==> 0 <= p.dropoff[d] < p.locationCount)
            && (forall c :: 0 <= c < |p.courierStart| ==> 0 <= p.courierStart[c] < p.locationCount)
            ==> p.Valid()
  {
  }
}
