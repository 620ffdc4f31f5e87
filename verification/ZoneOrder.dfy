/** Which zones a list shows and in what order (src/zone_list.rs). */
module ZoneOrder {
  import opened Zones

  // ---------------------------------------------------------------------------
  // Sequences
  // ---------------------------------------------------------------------------

  function Keep<T>(s: seq<T>, wanted: T -> bool): seq<T> {
    if s == [] then []
    else if wanted(s[0]) then [s[0]] + Keep(s[1..], wanted)
    else Keep(s[1..], wanted)
  }

  lemma {:induction false} KeepAppend<T>(s: seq<T>, t: seq<T>, wanted: T -> bool)
    ensures Keep(s + t, wanted) == Keep(s, wanted) + Keep(t, wanted)
  {
    if s == [] {
      assert s + t == t;
    } else {
      KeepAppend(s[1..], t, wanted);
      assert (s + t)[1..] == s[1..] + t;
    }
  }

  lemma {:induction false} KeepMembers<T>(s: seq<T>, wanted: T -> bool)
    ensures forall x :: x in Keep(s, wanted) <==> x in s && wanted(x)
  {
    if s != [] {
      KeepMembers(s[1..], wanted);
      assert s == [s[0]] + s[1..];
    }
  }

  // ---------------------------------------------------------------------------
  // The comparator
  // ---------------------------------------------------------------------------

  /** Text compared character by character; a proper prefix comes first. */
  predicate TextBefore(a: string, b: string) {
    b != [] && (a == [] || a[0] < b[0] || (a[0] == b[0] && TextBefore(a[1..], b[1..])))
  }

  lemma {:induction false} TextBeforeIsTotal(a: string, b: string)
    ensures !(TextBefore(a, b) && TextBefore(b, a))
    ensures a != b <==> TextBefore(a, b) || TextBefore(b, a)
  {
    if a != [] && b != [] {
      TextBeforeIsTotal(a[1..], b[1..]);
      assert a == [a[0]] + a[1..] && b == [b[0]] + b[1..];
    }
  }

  lemma {:induction false} TextBeforeIsTransitive(a: string, b: string, c: string)
    requires TextBefore(a, b) && TextBefore(b, c)
    ensures TextBefore(a, c)
  {
    if a != [] && a[0] == b[0] && b[0] == c[0] {
      TextBeforeIsTransitive(a[1..], b[1..], c[1..]);
    }
  }

  /** The position an id has in the stored order. The lookup table is filled from left to right, so an
      id stored twice has its last position. */
  function Rank(order: seq<ZoneId>, id: ZoneId): (rank: Option<nat>)
    ensures rank.None? <==> id !in order
    ensures rank.Some? ==> rank.value < |order| && order[rank.value] == id
    ensures rank.Some? ==> forall later :: rank.value < later < |order| ==> order[later] != id
  {
    if order == [] then None
    else if order[|order| - 1] == id then Some(|order| - 1)
    else Rank(order[..|order| - 1], id)
  }

  /** What the list is sorted by: the stored order, and how names are folded to lower case. */
  datatype Sorting = Sorting(order: seq<ZoneId>, lower: string -> string)

  datatype Key = Placed(rank: nat) | Unplaced(name: string, id: ZoneId)

  function KeyOf(z: Zone, sorting: Sorting): Key {
    match Rank(sorting.order, z.zoneId)
    case Some(rank) => Placed(rank)
    case None => Unplaced(sorting.lower(z.zoneName), z.zoneId)
  }

  predicate KeyBefore(a: Key, b: Key) {
    match (a, b)
    case (Placed(left), Placed(right)) => left < right
    case (Placed(_), Unplaced(_, _)) => true
    case (Unplaced(_, _), Placed(_)) => false
    case (Unplaced(leftName, left), Unplaced(rightName, right)) =>
      TextBefore(leftName, rightName) || (leftName == rightName && TextBefore(left, right))
  }

  predicate Before(a: Zone, b: Zone, sorting: Sorting) {
    KeyBefore(KeyOf(a, sorting), KeyOf(b, sorting))
  }

  lemma {:induction false} BeforeIsTransitive(a: Zone, b: Zone, c: Zone, sorting: Sorting)
    requires Before(a, b, sorting) && Before(b, c, sorting)
    ensures Before(a, c, sorting)
  {
    var x, y, z := KeyOf(a, sorting), KeyOf(b, sorting), KeyOf(c, sorting);
    if x.Unplaced? && y.Unplaced? && z.Unplaced? {
      if TextBefore(x.name, y.name) && TextBefore(y.name, z.name) {
        TextBeforeIsTransitive(x.name, y.name, z.name);
      } else if x.name == y.name && y.name == z.name {
        TextBeforeIsTotal(x.name, x.name);
        TextBeforeIsTransitive(x.id, y.id, z.id);
      }
    }
  }

  /** The comparison never ties for two zones with different ids, whatever their names: this is what
      makes the order deterministic and not merely sorted. */
  lemma {:induction false} BeforeIsTotal(a: Zone, b: Zone, sorting: Sorting)
    ensures !(Before(a, b, sorting) && Before(b, a, sorting))
    ensures a.zoneId != b.zoneId ==> Before(a, b, sorting) || Before(b, a, sorting)
  {
    var x, y := KeyOf(a, sorting), KeyOf(b, sorting);
    if x.Unplaced? && y.Unplaced? {
      TextBeforeIsTotal(x.name, y.name);
      TextBeforeIsTotal(x.id, y.id);
    }
  }

  // ---------------------------------------------------------------------------
  // The stable sort, and the sort in place
  // ---------------------------------------------------------------------------

  /** Place a zone after everything it does not precede. */
  function Insert(sorted: seq<Zone>, z: Zone, sorting: Sorting): seq<Zone> {
    var n := |sorted|;
    if n == 0 || !Before(z, sorted[n - 1], sorting) then sorted + [z]
    else Insert(sorted[..n - 1], z, sorting) + [sorted[n - 1]]
  }

  function Ordered(zones: seq<Zone>, sorting: Sorting): seq<Zone> {
    var n := |zones|;
    if n == 0 then [] else Insert(Ordered(zones[..n - 1], sorting), zones[n - 1], sorting)
  }

  lemma {:induction false} OrderedNothing(sorting: Sorting)
    ensures Ordered([], sorting) == []
  {
  }

  lemma {:induction false} OrderedSnoc(zones: seq<Zone>, i: nat, sorting: Sorting)
    requires i < |zones|
    ensures Ordered(zones[..i + 1], sorting) == Insert(Ordered(zones[..i], sorting), zones[i], sorting)
  {
    assert zones[..i + 1][..i] == zones[..i];
  }

  /** Where a zone lands: after the last zone it does not precede. */
  lemma {:induction false} InsertLands(sorted: seq<Zone>, z: Zone, j: nat, sorting: Sorting)
    requires j <= |sorted|
    requires forall k :: j <= k < |sorted| ==> Before(z, sorted[k], sorting)
    requires j > 0 ==> !Before(z, sorted[j - 1], sorting)
    ensures Insert(sorted, z, sorting) == sorted[..j] + [z] + sorted[j..]
  {
    hide Before;
    if j < |sorted| {
      var front := sorted[..|sorted| - 1];
      InsertLands(front, z, j, sorting);
      assert front[..j] == sorted[..j] && front[j..] + [sorted[|sorted| - 1]] == sorted[j..];
    }
  }

  /** Fill the lookup table from the stored order. */
  method RankTable(order: seq<ZoneId>) returns (rank: map<ZoneId, nat>)
    ensures forall id :: (if id in rank then Some(rank[id]) else None) == Rank(order, id)
  {
    rank := map[];
    for index := 0 to |order|
      invariant forall id :: (if id in rank then Some(rank[id]) else None) == Rank(order[..index], id)
    {
      rank := rank[order[index] := index];
      assert order[..index + 1][..index] == order[..index];
    }
    assert order[..|order|] == order;
  }

  /** Sort in place, stably. */
  method OrderZones(zones: array<Zone>, sorting: Sorting)
    modifies zones
    ensures zones[..] == Ordered(old(zones[..]), sorting)
  {
    hide Insert, Ordered;
    ghost var was := zones[..];
    var rank := RankTable(sorting.order);
    OrderedNothing(sorting);
    for i := 0 to zones.Length
      invariant zones[..i] == Ordered(was[..i], sorting)
      invariant zones[i..] == was[i..]
    {
      assert zones[i] == was[i..][0];
      SinkInto(zones, i, rank, sorting);
      OrderedSnoc(was, i, sorting);
      assert zones[i + 1..] == was[i..][1..];
    }
    assert zones[..] == zones[..zones.Length] && was[..zones.Length] == was;
  }

  /** Move the zone at `i` down to its place among the zones before it. */
  method SinkInto(zones: array<Zone>, i: nat, rank: map<ZoneId, nat>, sorting: Sorting)
    requires i < zones.Length
    requires forall id :: (if id in rank then Some(rank[id]) else None) == Rank(sorting.order, id)
    modifies zones
    ensures zones[..i + 1] == Insert(old(zones[..i]), old(zones[i]), sorting)
    ensures zones[i + 1..] == old(zones[i + 1..])
  {
    hide Before, Precedes, Insert, Rank;
    var j, z := i, zones[i];
    ghost var was := zones[..];
    while j > 0 && Precedes(z, zones[j - 1], rank, sorting.lower)
      invariant 0 <= j <= i && zones[j] == z
      invariant forall k :: 0 <= k < j ==> zones[k] == was[k]
      invariant forall k :: j < k <= i ==> zones[k] == was[k - 1]
      invariant forall k :: j <= k < i ==> Before(z, was[k], sorting)
      invariant forall k :: i < k < zones.Length ==> zones[k] == was[k]
    {
      PrecedesIsBefore(z, zones[j - 1], rank, sorting);
      zones[j - 1], zones[j] := zones[j], zones[j - 1];
      j := j - 1;
    }
    if j > 0 {
      PrecedesIsBefore(z, zones[j - 1], rank, sorting);
    }
    InsertLands(was[..i], z, j, sorting);
    SunkenRow(was, zones[..], i, j);
    assert zones[..i + 1] == zones[..][..i + 1] && zones[i + 1..] == zones[..][i + 1..];
  }

  lemma {:induction false} SunkenRow(was: seq<Zone>, now: seq<Zone>, i: nat, j: nat)
    requires j <= i < |was| && |now| == |was| && now[j] == was[i]
    requires forall k :: 0 <= k < j ==> now[k] == was[k]
    requires forall k :: j < k <= i ==> now[k] == was[k - 1]
    requires forall k :: i < k < |was| ==> now[k] == was[k]
    ensures now[..i + 1] == was[..i][..j] + [was[i]] + was[..i][j..]
    ensures now[i + 1..] == was[i + 1..]
  {
  }

  lemma {:induction false} PrecedesIsBefore(a: Zone, b: Zone, rank: map<ZoneId, nat>, sorting: Sorting)
    requires forall id :: (if id in rank then Some(rank[id]) else None) == Rank(sorting.order, id)
    ensures Precedes(a, b, rank, sorting.lower) == Before(a, b, sorting)
  {
  }

  /** The comparison the sort makes, reading positions from the lookup table. */
  predicate Precedes(a: Zone, b: Zone, rank: map<ZoneId, nat>, lower: string -> string) {
    if a.zoneId in rank && b.zoneId in rank then rank[a.zoneId] < rank[b.zoneId]
    else if a.zoneId in rank then true
    else if b.zoneId in rank then false
    else
      TextBefore(lower(a.zoneName), lower(b.zoneName))
      || (lower(a.zoneName) == lower(b.zoneName) && TextBefore(a.zoneId, b.zoneId))
  }

  // ---------------------------------------------------------------------------
  // The sorted list is determined by the zones and the settings
  // ---------------------------------------------------------------------------

  predicate DistinctIds(zones: seq<Zone>) {
    forall i, j :: 0 <= i < j < |zones| ==> zones[i].zoneId != zones[j].zoneId
  }

  predicate Sorted(zones: seq<Zone>, sorting: Sorting) {
    forall i, j :: 0 <= i < j < |zones| ==> Before(zones[i], zones[j], sorting)
  }

  lemma {:induction false} InsertAdds(sorted: seq<Zone>, z: Zone, sorting: Sorting)
    ensures multiset(Insert(sorted, z, sorting)) == multiset(sorted) + multiset{z}
  {
    hide Before;
    var n := |sorted|;
    if n > 0 && Before(z, sorted[n - 1], sorting) {
      InsertAdds(sorted[..n - 1], z, sorting);
      assert sorted == sorted[..n - 1] + [sorted[n - 1]];
    }
  }

  lemma {:induction false} InsertKeepsSorted(sorted: seq<Zone>, z: Zone, sorting: Sorting)
    requires Sorted(sorted, sorting)
    requires forall x :: x in sorted ==> x.zoneId != z.zoneId
    ensures Sorted(Insert(sorted, z, sorting), sorting)
  {
    hide Before, Sorted;
    var n := |sorted|;
    if n == 0 {
      SortedSnoc([], z, sorting);
    } else {
      var front, last := sorted[..n - 1], sorted[n - 1];
      assert sorted == front + [last];
      SortedFront(front, last, sorting);
      if Before(z, last, sorting) {
        InsertKeepsSorted(front, z, sorting);
        InsertMembers(front, z, sorting);
        SortedSnoc(Insert(front, z, sorting), last, sorting);
      } else {
        BeforeIsTotal(last, z, sorting);
        forall x | x in front ensures Before(x, z, sorting) {
          BeforeIsTransitive(x, last, z, sorting);
        }
        SortedSnoc(sorted, z, sorting);
      }
    }
  }

  lemma {:induction false} InsertMembers(sorted: seq<Zone>, z: Zone, sorting: Sorting)
    ensures forall x :: x in Insert(sorted, z, sorting) <==> x in sorted || x == z
  {
    hide Insert;
    InsertAdds(sorted, z, sorting);
    forall x ensures x in Insert(sorted, z, sorting) <==> x in sorted || x == z {
      assert x in multiset(Insert(sorted, z, sorting)) <==> x in multiset(sorted) + multiset{z};
    }
  }

  lemma {:induction false} SortedSnoc(s: seq<Zone>, z: Zone, sorting: Sorting)
    requires Sorted(s, sorting) && forall x :: x in s ==> Before(x, z, sorting)
    ensures Sorted(s + [z], sorting)
  {
    hide Before;
  }

  lemma {:induction false} SortedFront(front: seq<Zone>, last: Zone, sorting: Sorting)
    requires Sorted(front + [last], sorting)
    ensures Sorted(front, sorting) && forall x :: x in front ==> Before(x, last, sorting)
  {
    hide Before;
    var s := front + [last];
    forall i, j | 0 <= i < j < |front| ensures Before(front[i], front[j], sorting) {
      assert s[i] == front[i] && s[j] == front[j];
    }
    forall x | x in front ensures Before(x, last, sorting) {
      var i :| 0 <= i < |front| && front[i] == x;
      assert s[i] == x && s[|front|] == last;
    }
  }

  ghost predicate SameZones(s: seq<Zone>, t: seq<Zone>) {
    forall z :: z in s <==> z in t
  }

  /** Sorting neither loses, invents nor repeats a zone. */
  lemma {:induction false} OrderedPermutes(zones: seq<Zone>, sorting: Sorting)
    ensures multiset(Ordered(zones, sorting)) == multiset(zones)
    ensures SameZones(Ordered(zones, sorting), zones)
  {
    var n := |zones|;
    if n > 0 {
      var front, last := zones[..n - 1], zones[n - 1];
      OrderedPermutes(front, sorting);
      InsertAdds(Ordered(front, sorting), last, sorting);
      assert zones == front + [last];
    }
    forall z ensures z in Ordered(zones, sorting) <==> z in zones {
      assert z in multiset(Ordered(zones, sorting)) <==> z in multiset(zones);
    }
  }

  lemma {:induction false} OrderedSorts(zones: seq<Zone>, sorting: Sorting)
    requires DistinctIds(zones)
    ensures Sorted(Ordered(zones, sorting), sorting)
  {
    var n := |zones|;
    if n > 0 {
      var front, last := zones[..n - 1], zones[n - 1];
      OrderedSorts(front, sorting);
      OrderedPermutes(front, sorting);
      InsertKeepsSorted(Ordered(front, sorting), last, sorting);
    }
  }

  lemma {:induction false} SortedTail(s: seq<Zone>, sorting: Sorting, z: Zone)
    requires s != [] && Sorted(s, sorting)
    ensures Sorted(s[1..], sorting)
    ensures z in s[1..] <==> z in s && z != s[0]
    ensures z in s[1..] ==> Before(s[0], z, sorting)
  {
    hide Before;
    assert s == [s[0]] + s[1..];
    if z in s[1..] {
      var i :| 1 <= i < |s| && s[i] == z;
      BeforeIsTotal(s[0], s[i], sorting);
    }
  }

  lemma {:induction false} EmptyAlike(s: seq<Zone>, t: seq<Zone>)
    requires SameZones(s, t)
    ensures s == [] <==> t == []
  {
    if s != [] { assert s[0] in t; }
    if t != [] { assert t[0] in s; }
  }

  lemma {:induction false} SortedIsUnique(s: seq<Zone>, t: seq<Zone>, sorting: Sorting)
    requires Sorted(s, sorting) && Sorted(t, sorting)
    requires SameZones(s, t)
    ensures s == t
  {
    hide Before, Sorted;
    EmptyAlike(s, t);
    if s != [] {
      SortedTail(s, sorting, t[0]);
      SortedTail(t, sorting, s[0]);
      assert s[0] in t && t[0] in s;
      BeforeIsTotal(s[0], t[0], sorting);
      forall z ensures z in s[1..] <==> z in t[1..] {
        SortedTail(s, sorting, z);
        SortedTail(t, sorting, z);
      }
      SortedIsUnique(s[1..], t[1..], sorting);
    }
  }

  /** The sort has exactly one possible answer: a list is the ordered one exactly when it is sorted
      and shows the same zones. */
  lemma {:induction false} OrderedExactly(zones: seq<Zone>, answer: seq<Zone>, sorting: Sorting)
    requires DistinctIds(zones)
    ensures answer == Ordered(zones, sorting) <==> Sorted(answer, sorting) && SameZones(answer, zones)
  {
    OrderedSorts(zones, sorting);
    OrderedPermutes(zones, sorting);
    if Sorted(answer, sorting) && SameZones(answer, zones) {
      SortedIsUnique(answer, Ordered(zones, sorting), sorting);
    }
  }

  /** How the list reads: the zones the user placed come first, by their stored positions, and the others
      follow alphabetically, capitals aside, by id where names agree. */
  lemma {:induction false} OrderedReads(zones: seq<Zone>, sorting: Sorting, i: nat, j: nat)
    requires DistinctIds(zones)
    requires i < j < |zones|
    ensures |Ordered(zones, sorting)| == |zones|
    ensures var a, b := Ordered(zones, sorting)[i], Ordered(zones, sorting)[j];
            && (b.zoneId in sorting.order ==>
                  a.zoneId in sorting.order
                  && Rank(sorting.order, a.zoneId).value < Rank(sorting.order, b.zoneId).value)
            && (a.zoneId !in sorting.order ==>
                  && b.zoneId !in sorting.order
                  && !TextBefore(sorting.lower(b.zoneName), sorting.lower(a.zoneName))
                  && (sorting.lower(a.zoneName) == sorting.lower(b.zoneName) ==> TextBefore(a.zoneId, b.zoneId)))
  {
    OrderedSorts(zones, sorting);
    OrderedPermutes(zones, sorting);
    var ordered := Ordered(zones, sorting);
    assert |ordered| == |multiset(ordered)| == |multiset(zones)| == |zones|;
    assert Before(ordered[i], ordered[j], sorting);
    TextBeforeIsTotal(sorting.lower(ordered[i].zoneName), sorting.lower(ordered[j].zoneName));
  }

  // ---------------------------------------------------------------------------
  // Filtering and sorting commute
  // ---------------------------------------------------------------------------

  lemma {:induction false} KeepOfSorted(s: seq<Zone>, wanted: Zone -> bool, sorting: Sorting)
    requires Sorted(s, sorting)
    ensures Sorted(Keep(s, wanted), sorting)
  {
    if s != [] {
      KeepOfSorted(s[1..], wanted, sorting);
      KeepMembers(s[1..], wanted);
      forall x | x in Keep(s[1..], wanted) ensures Before(s[0], x, sorting) {
        assert x in s[1..];
      }
    }
  }

  lemma {:induction false} KeepOfDistinct(s: seq<Zone>, wanted: Zone -> bool)
    requires DistinctIds(s)
    ensures DistinctIds(Keep(s, wanted))
  {
    if s != [] {
      KeepOfDistinct(s[1..], wanted);
      KeepMembers(s[1..], wanted);
      forall x | x in Keep(s[1..], wanted) ensures s[0].zoneId != x.zoneId {
        assert x in s[1..];
      }
    }
  }

  lemma {:induction false} KeepCommutesWithOrdered(zones: seq<Zone>, wanted: Zone -> bool, sorting: Sorting)
    requires DistinctIds(zones)
    ensures Keep(Ordered(zones, sorting), wanted) == Ordered(Keep(zones, wanted), sorting)
  {
    OrderedSorts(zones, sorting);
    OrderedPermutes(zones, sorting);
    KeepOfSorted(Ordered(zones, sorting), wanted, sorting);
    KeepMembers(Ordered(zones, sorting), wanted);
    KeepMembers(zones, wanted);
    KeepOfDistinct(zones, wanted);
    OrderedExactly(Keep(zones, wanted), Keep(Ordered(zones, sorting), wanted), sorting);
  }

  // ---------------------------------------------------------------------------
  // Only ids of present zones matter in the stored order
  // ---------------------------------------------------------------------------

  lemma {:induction false} KeepTracksRanks(order: seq<ZoneId>, wanted: ZoneId -> bool, x: ZoneId, y: ZoneId)
    requires wanted(x) && wanted(y)
    ensures x in Keep(order, wanted) <==> x in order
    ensures y in Keep(order, wanted) <==> y in order
    ensures x in order && y in order ==>
              (Rank(Keep(order, wanted), x).value < Rank(Keep(order, wanted), y).value
               <==> Rank(order, x).value < Rank(order, y).value)
  {
    hide Keep, Rank;
    KeepMembers(order, wanted);
    if order != [] {
      var front, last := order[..|order| - 1], order[|order| - 1];
      assert order == front + [last];
      KeepTracksRanks(front, wanted, x, y);
      KeepSnoc(front, last, wanted);
      RankSnoc(front, last, x);
      RankSnoc(front, last, y);
      RankSnoc(Keep(front, wanted), last, x);
      RankSnoc(Keep(front, wanted), last, y);
    }
  }

  lemma {:induction false} KeepSnoc<T>(s: seq<T>, x: T, wanted: T -> bool)
    ensures Keep(s + [x], wanted) == if wanted(x) then Keep(s, wanted) + [x] else Keep(s, wanted)
  {
    KeepAppend(s, [x], wanted);
    assert [x][1..] == [];
    assert Keep([x], wanted) == if wanted(x) then [x] else [];
  }

  lemma {:induction false} RankSnoc(order: seq<ZoneId>, last: ZoneId, id: ZoneId)
    ensures Rank(order + [last], id) == if last == id then Some(|order|) else Rank(order, id)
  {
    assert (order + [last])[..|order|] == order;
  }

  /** Ids of absent zones may be added to the stored order, anywhere and any number of times, without
      any effect: two stored orders that mention the present zones alike sort them alike. */
  lemma {:induction false} AbsentIdsAreInert(zones: seq<Zone>, sorting: Sorting, other: Sorting,
                                             present: ZoneId -> bool)
    requires DistinctIds(zones)
    requires sorting.lower == other.lower
    requires forall z :: z in zones ==> present(z.zoneId)
    requires Keep(sorting.order, present) == Keep(other.order, present)
    ensures Ordered(zones, sorting) == Ordered(zones, other)
  {
    OrderedSorts(zones, sorting);
    OrderedPermutes(zones, sorting);
    var answer := Ordered(zones, sorting);
    forall i, j | 0 <= i < j < |answer| ensures Before(answer[i], answer[j], other) {
      var a, b := answer[i], answer[j];
      assert a in zones && b in zones;
      assert Before(a, b, sorting);
      KeepTracksRanks(sorting.order, present, a.zoneId, b.zoneId);
      KeepTracksRanks(sorting.order, present, b.zoneId, a.zoneId);
      KeepTracksRanks(other.order, present, a.zoneId, b.zoneId);
      KeepTracksRanks(other.order, present, b.zoneId, a.zoneId);
    }
    OrderedExactly(zones, answer, other);
  }

  // ---------------------------------------------------------------------------
  // A stored order is followed
  // ---------------------------------------------------------------------------

  function IdsOf(zones: seq<Zone>): (ids: seq<ZoneId>)
    ensures |ids| == |zones|
    ensures forall i :: 0 <= i < |ids| ==> ids[i] == zones[i].zoneId
  {
    seq(|zones|, i requires 0 <= i < |zones| => zones[i].zoneId)
  }

  /** Storing the ids of an arrangement of the zones makes the sorted list exactly that arrangement. */
  lemma {:induction false} StoredOrderIsFollowed(zones: seq<Zone>, arrangement: seq<Zone>, sorting: Sorting)
    requires DistinctIds(zones) && DistinctIds(arrangement)
    requires SameZones(arrangement, zones)
    requires sorting.order == IdsOf(arrangement)
    ensures Ordered(zones, sorting) == arrangement
  {
    forall i, j | 0 <= i < j < |arrangement| ensures Before(arrangement[i], arrangement[j], sorting) {
      assert sorting.order[i] == arrangement[i].zoneId && sorting.order[j] == arrangement[j].zoneId;
    }
    OrderedExactly(zones, arrangement, sorting);
  }

  // ---------------------------------------------------------------------------
  // The zone lists
  // ---------------------------------------------------------------------------

  datatype AdapterSettings = AdapterSettings(
    roon: bool,
    upnp: bool,
    openhome: bool,
    lms: bool,
    hqplayer: bool,
    spotify: bool,
    applemusic: bool,
    musicassistant: bool,
    mqtt: bool)
  {
    function Toggle(provider: string): Option<bool> {
      if provider == "roon" then Some(roon)
      else if provider == "upnp" then Some(upnp)
      else if provider == "openhome" then Some(openhome)
      else if provider == "lms" || provider == "lms-cli" then Some(lms)
      else if provider == "hqplayer" then Some(hqplayer)
      else if provider == "spotify" then Some(spotify)
      else if provider == "applemusic" then Some(applemusic)
      else if provider == "musicassistant" then Some(musicassistant)
      else if provider == "mqtt" then Some(mqtt)
      else None
    }
  }

  datatype Settings = Settings(
    adapters: AdapterSettings,
    hidden: set<ZoneId>,
    names: map<ZoneId, string>,
    sorting: Sorting)

  /** The text before the first colon, if there is one. */
  function PrefixOf(id: ZoneId): Option<string> {
    if id == [] then None
    else if id[0] == ':' then Some([])
    else match PrefixOf(id[1..])
         case Some(rest) => Some([id[0]] + rest)
         case None => None
  }

  predicate AdapterEnabled(id: ZoneId, adapters: AdapterSettings) {
    match PrefixOf(id)
    case Some(prefix) => adapters.Toggle(prefix).GetOr(true)
    case None => true
  }

  function WithCustomName(z: Zone, names: map<ZoneId, string>): Zone {
    if z.zoneId in names then z.(zoneName := names[z.zoneId]) else z
  }

  function Renamed(zones: seq<Zone>, names: map<ZoneId, string>): (r: seq<Zone>)
    ensures |r| == |zones|
    ensures forall i :: 0 <= i < |r| ==> r[i] == WithCustomName(zones[i], names)
  {
    seq(|zones|, i requires 0 <= i < |zones| => WithCustomName(zones[i], names))
  }

  function Enabled(adapters: AdapterSettings): Zone -> bool {
    (z: Zone) => AdapterEnabled(z.zoneId, adapters)
  }

  function Shown(hidden: set<ZoneId>): Zone -> bool {
    (z: Zone) => z.zoneId !in hidden
  }

  /** The zones of enabled adapters under the names the user gave them, not yet sorted. */
  function Listable(zones: seq<Zone>, settings: Settings): seq<Zone> {
    Renamed(Keep(zones, Enabled(settings.adapters)), settings.names)
  }

  /** The settings page's list: nothing is hidden there, so that hiding can be undone. */
  function Manageable(zones: seq<Zone>, settings: Settings): seq<Zone> {
    Ordered(Listable(zones, settings), settings.sorting)
  }

  /** The list every other surface shows. */
  function Visible(zones: seq<Zone>, settings: Settings): seq<Zone> {
    Keep(Manageable(zones, settings), Shown(settings.hidden))
  }

  lemma {:induction false} ListableIsDistinct(zones: seq<Zone>, settings: Settings)
    requires DistinctIds(zones)
    ensures DistinctIds(Listable(zones, settings))
  {
    KeepOfDistinct(zones, Enabled(settings.adapters));
  }

  lemma {:induction false} ManageableIsDistinct(zones: seq<Zone>, settings: Settings)
    requires DistinctIds(zones)
    ensures DistinctIds(Manageable(zones, settings))
    ensures SameZones(Manageable(zones, settings), Listable(zones, settings))
  {
    ListableIsDistinct(zones, settings);
    var listable, m := Listable(zones, settings), Manageable(zones, settings);
    OrderedSorts(listable, settings.sorting);
    OrderedPermutes(listable, settings.sorting);
    forall i, j | 0 <= i < j < |m| ensures m[i].zoneId != m[j].zoneId {
      BeforeIsTotal(m[i], m[j], settings.sorting);
      assert Before(m[i], m[j], settings.sorting);
      assert m[i] in listable && m[j] in listable;
    }
  }

  lemma {:induction false} ListableMembers(zones: seq<Zone>, settings: Settings, z: Zone)
    ensures z in Listable(zones, settings)
            <==> exists origin :: origin in zones && AdapterEnabled(origin.zoneId, settings.adapters)
                                  && WithCustomName(origin, settings.names) == z
  {
    hide WithCustomName, AdapterEnabled;
    var enabled := Keep(zones, Enabled(settings.adapters));
    KeepMembers(zones, Enabled(settings.adapters));
    var listable := Listable(zones, settings);
    if z in listable {
      var i :| 0 <= i < |listable| && listable[i] == z;
      assert enabled[i] in zones;
    }
    if origin :| origin in zones && AdapterEnabled(origin.zoneId, settings.adapters)
                 && WithCustomName(origin, settings.names) == z {
      assert origin in enabled;
      var i :| 0 <= i < |enabled| && enabled[i] == origin;
      assert listable[i] == z;
    }
  }

  /** The zone lists depend on which zones there are, never on the order they arrive in. */
  lemma {:induction false} ListsIgnoreArrival(zones: seq<Zone>, again: seq<Zone>, settings: Settings)
    requires DistinctIds(zones) && DistinctIds(again)
    requires SameZones(zones, again)
    ensures Manageable(zones, settings) == Manageable(again, settings)
    ensures Visible(zones, settings) == Visible(again, settings)
  {
    forall z ensures z in Listable(zones, settings) <==> z in Listable(again, settings) {
      ListableMembers(zones, settings, z);
      ListableMembers(again, settings, z);
    }
    ListableIsDistinct(zones, settings);
    ListableIsDistinct(again, settings);
    OrderedExactly(Listable(zones, settings), Manageable(zones, settings), settings.sorting);
    OrderedExactly(Listable(again, settings), Manageable(zones, settings), settings.sorting);
  }

  lemma {:induction false} KeepOfRenamed(zones: seq<Zone>, names: map<ZoneId, string>, hidden: set<ZoneId>)
    ensures Keep(Renamed(zones, names), Shown(hidden)) == Renamed(Keep(zones, Shown(hidden)), names)
  {
    if zones != [] {
      KeepOfRenamed(zones[1..], names, hidden);
      assert Renamed(zones, names)[1..] == Renamed(zones[1..], names);
      if Shown(hidden)(zones[0]) {
        assert Renamed(Keep(zones, Shown(hidden)), names)
            == [WithCustomName(zones[0], names)] + Renamed(Keep(zones[1..], Shown(hidden)), names);
      }
    }
  }

  lemma {:induction false} KeepsCommute(zones: seq<Zone>, p: Zone -> bool, q: Zone -> bool)
    ensures Keep(Keep(zones, p), q) == Keep(Keep(zones, q), p)
  {
    if zones != [] {
      KeepsCommute(zones[1..], p, q);
      var z, rest := zones[0], zones[1..];
      assert p(z) ==> Keep(zones, p)[1..] == Keep(rest, p);
      assert q(z) ==> Keep(zones, q)[1..] == Keep(rest, q);
    }
  }

  /** Removing the hidden zones before everything else gives the same list as removing them last. */
  lemma {:induction false} HidingCommutes(zones: seq<Zone>, settings: Settings)
    requires DistinctIds(zones)
    ensures Visible(zones, settings) == Manageable(Keep(zones, Shown(settings.hidden)), settings)
  {
    var enabled := Enabled(settings.adapters);
    ListableIsDistinct(zones, settings);
    KeepCommutesWithOrdered(Listable(zones, settings), Shown(settings.hidden), settings.sorting);
    KeepOfRenamed(Keep(zones, enabled), settings.names, settings.hidden);
    KeepsCommute(zones, enabled, Shown(settings.hidden));
    assert Keep(Keep(zones, enabled), Shown(settings.hidden)) == Keep(Keep(zones, Shown(settings.hidden)), enabled);
  }

  /** Ids in the stored order of zones that are not there have no effect on any zone list. */
  lemma {:induction false} StaleOrderIsIgnored(zones: seq<Zone>, settings: Settings, order: seq<ZoneId>,
                                                present: ZoneId -> bool)
    requires DistinctIds(zones)
    requires forall z :: z in zones ==> present(z.zoneId)
    requires Keep(order, present) == Keep(settings.sorting.order, present)
    ensures Visible(zones, settings.(sorting := settings.sorting.(order := order))) == Visible(zones, settings)
  {
    var other := settings.(sorting := settings.sorting.(order := order));
    ListableIsDistinct(zones, settings);
    forall z | z in Listable(zones, settings) ensures present(z.zoneId) {
      ListableMembers(zones, settings, z);
    }
    AbsentIdsAreInert(Listable(zones, settings), settings.sorting, other.sorting, present);
  }
}
