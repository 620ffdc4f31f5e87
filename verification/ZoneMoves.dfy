/** Rearranging the zone list (src/zone_list.rs): the step of a button and the drop of a drag. */
module ZoneMoves {
  import opened Zones
  import opened ZoneOrder

  datatype Direction = Up | Down

  // ---------------------------------------------------------------------------
  // Positions
  // ---------------------------------------------------------------------------

  /** The position of the zone with this id. */
  function Position(zones: seq<Zone>, id: ZoneId): (at: Option<nat>)
    ensures at.Some? ==> at.value < |zones| && zones[at.value].zoneId == id
    ensures at.None? ==> forall z :: z in zones ==> z.zoneId != id
  {
    if zones == [] then None
    else if zones[0].zoneId == id then Some(0)
    else match Position(zones[1..], id)
         case Some(at) => Some(at + 1)
         case None => None
  }

  lemma {:induction false} PositionIsUnique(zones: seq<Zone>, i: nat)
    requires DistinctIds(zones) && i < |zones|
    ensures Position(zones, zones[i].zoneId) == Some(i)
  {
    assert zones[i] in zones;
  }

  /** A zone a step may trade places with: a hidden zone takes the adjacent slot, a shown one the slot
      of the nearest shown zone. */
  predicate Candidate(z: Zone, moverHidden: bool, hidden: set<ZoneId>) {
    moverHidden || z.zoneId !in hidden
  }

  /** The nearest candidate before position `index`. */
  function CandidateAbove(zones: seq<Zone>, index: nat, moverHidden: bool, hidden: set<ZoneId>): (at: Option<nat>)
    requires index <= |zones|
    ensures at.Some? ==> at.value < index && Candidate(zones[at.value], moverHidden, hidden)
    ensures at.Some? ==> forall k :: at.value < k < index ==> !Candidate(zones[k], moverHidden, hidden)
    ensures at.None? ==> forall k :: 0 <= k < index ==> !Candidate(zones[k], moverHidden, hidden)
  {
    if index == 0 then None
    else if Candidate(zones[index - 1], moverHidden, hidden) then Some(index - 1)
    else CandidateAbove(zones, index - 1, moverHidden, hidden)
  }

  /** The nearest candidate at or after position `index`. */
  function CandidateBelow(zones: seq<Zone>, index: nat, moverHidden: bool, hidden: set<ZoneId>): (at: Option<nat>)
    requires index <= |zones|
    ensures at.Some? ==> index <= at.value < |zones| && Candidate(zones[at.value], moverHidden, hidden)
    ensures at.Some? ==> forall k :: index <= k < at.value ==> !Candidate(zones[k], moverHidden, hidden)
    ensures at.None? ==> forall k :: index <= k < |zones| ==> !Candidate(zones[k], moverHidden, hidden)
    decreases |zones| - index
  {
    if index == |zones| then None
    else if Candidate(zones[index], moverHidden, hidden) then Some(index)
    else CandidateBelow(zones, index + 1, moverHidden, hidden)
  }

  // ---------------------------------------------------------------------------
  // Moving one element
  // ---------------------------------------------------------------------------

  /** Take the element at `from` out and put it back so that it is at `to`. */
  function Shifted<T>(s: seq<T>, from: nat, to: nat): (r: seq<T>)
    requires from < |s| && to < |s|
    ensures |r| == |s| && r[to] == s[from]
  {
    var rest := s[..from] + s[from + 1..];
    rest[..to] + [s[from]] + rest[to..]
  }

  /** Remove and insert, as the list of ids is edited. */
  method MoveInList(ids: seq<ZoneId>, from: nat, to: nat) returns (moved: seq<ZoneId>)
    requires from < |ids| && to < |ids|
    ensures moved == Shifted(ids, from, to)
  {
    moved := ids;
    var id := moved[from];
    moved := moved[..from] + moved[from + 1..];
    moved := moved[..to] + [id] + moved[to..];
  }

  lemma {:induction false} ShiftedBack<T>(s: seq<T>, from: nat, to: nat)
    requires from < |s| && to < |s|
    ensures Shifted(Shifted(s, from, to), to, from) == s
  {
    var rest := s[..from] + s[from + 1..];
    var r := Shifted(s, from, to);
    assert r[..to] + r[to + 1..] == rest;
    assert rest[..from] == s[..from] && rest[from..] == s[from + 1..];
  }

  lemma {:induction false} ShiftedPermutes<T>(s: seq<T>, from: nat, to: nat)
    requires from < |s| && to < |s|
    ensures multiset(Shifted(s, from, to)) == multiset(s)
  {
    var rest := s[..from] + s[from + 1..];
    assert s == s[..from] + [s[from]] + s[from + 1..];
    assert rest == rest[..to] + rest[to..];
    assert multiset(rest) == multiset(s[..from]) + multiset(s[from + 1..]);
    assert multiset(s) == multiset(rest) + multiset{s[from]};
    assert Shifted(s, from, to) == rest[..to] + [s[from]] + rest[to..];
    assert multiset(Shifted(s, from, to)) == multiset(rest) + multiset{s[from]};
  }

  /** Where the element now at `i` was before. */
  function Origin(from: nat, to: nat, i: nat): nat {
    var j := if i < to then i else i - 1;
    if i == to then from else if j < from then j else j + 1
  }

  lemma {:induction false} ShiftedAt<T>(s: seq<T>, from: nat, to: nat, i: nat)
    requires from < |s| && to < |s| && i < |s|
    ensures Origin(from, to, i) < |s|
    ensures Shifted(s, from, to)[i] == s[Origin(from, to, i)]
  {
    var rest := s[..from] + s[from + 1..];
    assert forall j :: 0 <= j < |rest| ==> rest[j] == s[if j < from then j else j + 1];
  }

  lemma {:induction false} ShiftedIds(zones: seq<Zone>, from: nat, to: nat)
    requires from < |zones| && to < |zones|
    ensures Shifted(IdsOf(zones), from, to) == IdsOf(Shifted(zones, from, to))
  {
    var ids := IdsOf(zones);
    assert IdsOf(zones[..from] + zones[from + 1..]) == ids[..from] + ids[from + 1..];
  }

  lemma {:induction false} ShiftedIsDistinct(zones: seq<Zone>, from: nat, to: nat)
    requires DistinctIds(zones) && from < |zones| && to < |zones|
    ensures DistinctIds(Shifted(zones, from, to))
    ensures SameZones(Shifted(zones, from, to), zones)
  {
    hide Shifted;
    var moved := Shifted(zones, from, to);
    forall i, j | 0 <= i < j < |moved| ensures moved[i].zoneId != moved[j].zoneId {
      ShiftedAt(zones, from, to, i);
      ShiftedAt(zones, from, to, j);
      assert Origin(from, to, i) != Origin(from, to, j);
    }
    ShiftedPermutes(zones, from, to);
    forall z ensures z in moved <==> z in zones {
      assert z in multiset(moved) <==> z in multiset(zones);
    }
  }

  // ---------------------------------------------------------------------------
  // The two moves
  // ---------------------------------------------------------------------------

  /** Where a step takes the zone at `index`. */
  function StepTarget(zones: seq<Zone>, index: nat, direction: Direction, hidden: set<ZoneId>): (to: Option<nat>)
    requires index < |zones|
    ensures to.Some? ==> to.value < |zones|
  {
    var moverHidden := zones[index].zoneId in hidden;
    match direction
    case Up => CandidateAbove(zones, index, moverHidden, hidden)
    case Down => CandidateBelow(zones, index + 1, moverHidden, hidden)
  }

  function Step(zones: seq<Zone>, id: ZoneId, direction: Direction, hidden: set<ZoneId>): Option<seq<ZoneId>> {
    match Position(zones, id)
    case None => None
    case Some(index) =>
      match StepTarget(zones, index, direction, hidden)
      case None => None
      case Some(to) => Some(Shifted(IdsOf(zones), index, to))
  }

  method Reorder(zones: seq<Zone>, id: ZoneId, direction: Direction, hidden: set<ZoneId>)
    returns (order: Option<seq<ZoneId>>)
    ensures order == Step(zones, id, direction, hidden)
  {
    var at := Position(zones, id);
    if at.None? {
      return None;
    }
    var to := StepTarget(zones, at.value, direction, hidden);
    if to.None? {
      return None;
    }
    var moved := MoveInList(IdsOf(zones), at.value, to.value);
    order := Some(moved);
  }

  function Drop(zones: seq<Zone>, id: ZoneId, target: ZoneId): Option<seq<ZoneId>> {
    if id == target then None
    else
      match (Position(zones, id), Position(zones, target))
      case (Some(from), Some(to)) => Some(Shifted(IdsOf(zones), from, to))
      case _ => None
  }

  method ReorderTo(zones: seq<Zone>, id: ZoneId, target: ZoneId) returns (order: Option<seq<ZoneId>>)
    ensures order == Drop(zones, id, target)
  {
    if id == target {
      return None;
    }
    var from, to := Position(zones, id), Position(zones, target);
    if from.None? || to.None? {
      return None;
    }
    var moved := MoveInList(IdsOf(zones), from.value, to.value);
    order := Some(moved);
  }

  // ---------------------------------------------------------------------------
  // Storing a move and sorting again
  // ---------------------------------------------------------------------------

  function WithOrder(settings: Settings, order: seq<ZoneId>): Settings {
    settings.(sorting := settings.sorting.(order := order))
  }

  /** Once a move is stored, the list is the one shown before with that one zone moved. */
  lemma {:induction false} StoredMove(zones: seq<Zone>, settings: Settings, from: nat, to: nat)
    requires DistinctIds(zones)
    requires from < |Manageable(zones, settings)| && to < |Manageable(zones, settings)|
    ensures var before := Manageable(zones, settings);
            Manageable(zones, WithOrder(settings, Shifted(IdsOf(before), from, to))) == Shifted(before, from, to)
  {
    var before := Manageable(zones, settings);
    var after := Shifted(before, from, to);
    var stored := WithOrder(settings, Shifted(IdsOf(before), from, to));
    ManageableIsDistinct(zones, settings);
    ListableIsDistinct(zones, settings);
    ShiftedIsDistinct(before, from, to);
    ShiftedIds(before, from, to);
    StoredOrderIsFollowed(Listable(zones, stored), after, stored.sorting);
  }

  // ---------------------------------------------------------------------------
  // What a step does to what the user sees
  // ---------------------------------------------------------------------------

  function Swapped<T>(s: seq<T>, k: nat): seq<T>
    requires k + 1 < |s|
  {
    s[..k] + [s[k + 1], s[k]] + s[k + 2..]
  }

  lemma {:induction false} KeepNone<T>(s: seq<T>, wanted: T -> bool)
    requires forall x :: x in s ==> !wanted(x)
    ensures Keep(s, wanted) == []
  {
    if s != [] {
      KeepNone(s[1..], wanted);
    }
  }

  lemma {:induction false} KeepOne<T>(x: T, wanted: T -> bool)
    ensures Keep([x], wanted) == if wanted(x) then [x] else []
  {
    assert [x][1..] == [];
  }

  /** A zone that is shown is at the position given by how many shown zones precede it. */
  lemma {:induction false} ShownPosition(zones: seq<Zone>, hidden: set<ZoneId>, i: nat)
    requires i < |zones| && zones[i].zoneId !in hidden
    ensures Keep(zones, Shown(hidden))
            == Keep(zones[..i], Shown(hidden)) + [zones[i]] + Keep(zones[i + 1..], Shown(hidden))
  {
    assert zones == zones[..i] + [zones[i]] + zones[i + 1..];
    KeepAppend(zones[..i] + [zones[i]], zones[i + 1..], Shown(hidden));
    KeepAppend(zones[..i], [zones[i]], Shown(hidden));
    KeepOne(zones[i], Shown(hidden));
  }

  lemma {:induction false} CutAt<T>(s: seq<T>, low: nat, high: nat)
    requires low < high < |s|
    ensures s == s[..low] + [s[low]] + s[low + 1..high] + [s[high]] + s[high + 1..]
  {
  }

  lemma {:induction false} ShiftedUp<T>(s: seq<T>, low: nat, high: nat)
    requires low < high < |s|
    ensures Shifted(s, high, low) == s[..low] + [s[high]] + [] + [s[low]] + (s[low + 1..high] + s[high + 1..])
  {
    var rest := s[..high] + s[high + 1..];
    assert rest[..low] == s[..low];
    assert rest[low..] == [s[low]] + (s[low + 1..high] + s[high + 1..]);
  }

  lemma {:induction false} ShiftedDown<T>(s: seq<T>, low: nat, high: nat)
    requires low < high < |s|
    ensures Shifted(s, low, high) == (s[..low] + s[low + 1..high]) + [s[high]] + [] + [s[low]] + s[high + 1..]
  {
    var rest := s[..low] + s[low + 1..];
    assert rest[..high] == (s[..low] + s[low + 1..high]) + [s[high]];
    assert rest[high..] == s[high + 1..];
  }

  /** The heart of a step: moving a shown zone across hidden ones onto the slot of a shown one trades
      exactly those two in the shown list. */
  lemma {:induction false} ShiftAcrossHidden(zones: seq<Zone>, hidden: set<ZoneId>, low: nat, high: nat, up: bool)
    requires low < high < |zones|
    requires zones[low].zoneId !in hidden && zones[high].zoneId !in hidden
    requires forall k :: low < k < high ==> zones[k].zoneId in hidden
    ensures var shown := Keep(zones, Shown(hidden));
            var k := |Keep(zones[..low], Shown(hidden))|;
            && k + 1 < |shown| && shown[k] == zones[low] && shown[k + 1] == zones[high]
            && Keep(if up then Shifted(zones, high, low) else Shifted(zones, low, high), Shown(hidden))
               == Swapped(shown, k)
  {
    hide Keep, Shifted;
    var p := Shown(hidden);
    var front, x, between, y, back := zones[..low], zones[low], zones[low + 1..high], zones[high], zones[high + 1..];
    KeepNone(between, p);
    KeepNone([], p);
    CutAt(zones, low, high);
    KeepPieces(front, x, between, y, back, p);
    SwappedMiddle(Keep(front, p), x, y, Keep(back, p));
    if up {
      ShiftedUp(zones, low, high);
      KeepAppend(between, back, p);
      KeepPieces(front, y, [], x, between + back, p);
      assert [] + Keep(back, p) == Keep(back, p);
    } else {
      ShiftedDown(zones, low, high);
      KeepAppend(front, between, p);
      KeepPieces(front + between, y, [], x, back, p);
      assert Keep(front, p) + [] == Keep(front, p);
    }
  }

  lemma {:induction false} SwappedMiddle<T>(front: seq<T>, x: T, y: T, back: seq<T>)
    ensures Swapped(front + [x, y] + back, |front|) == front + [y, x] + back
  {
  }

  lemma {:induction false} KeepPieces(front: seq<Zone>, x: Zone, between: seq<Zone>, y: Zone, back: seq<Zone>,
                                      wanted: Zone -> bool)
    requires wanted(x) && wanted(y)
    requires Keep(between, wanted) == []
    ensures Keep(front + [x] + between + [y] + back, wanted)
            == Keep(front, wanted) + [x, y] + Keep(back, wanted)
  {
    KeepAppend(front + [x] + between + [y], back, wanted);
    KeepAppend(front + [x] + between, [y], wanted);
    KeepAppend(front + [x], between, wanted);
    KeepAppend(front, [x], wanted);
    KeepOne(x, wanted);
    KeepOne(y, wanted);
  }

  /** Where the step of a zone at place `k` of the shown list trades: with the zone before or after. */
  function TradePlace(k: nat, direction: Direction): int {
    if direction == Up then k - 1 else k
  }

  lemma {:induction false} ShownPlace(list: seq<Zone>, hidden: set<ZoneId>, k: nat) returns (index: nat)
    requires DistinctIds(list)
    requires k < |Keep(list, Shown(hidden))|
    ensures index < |list| && list[index] == Keep(list, Shown(hidden))[k] && list[index].zoneId !in hidden
    ensures |Keep(list[..index], Shown(hidden))| == k
  {
    var shown := Keep(list, Shown(hidden));
    KeepMembers(list, Shown(hidden));
    assert shown[k] in shown;
    index :| 0 <= index < |list| && list[index] == shown[k];
    ShownPosition(list, hidden, index);
    assert shown[|Keep(list[..index], Shown(hidden))|] == list[index];
    KeepOfDistinct(list, Shown(hidden));
  }

  /** The step of a shown zone, on the list itself. */
  lemma {:induction false} StepTrades(list: seq<Zone>, hidden: set<ZoneId>, k: nat, direction: Direction)
    returns (index: nat)
    requires DistinctIds(list)
    requires k < |Keep(list, Shown(hidden))|
    ensures index < |list| && list[index] == Keep(list, Shown(hidden))[k]
    ensures StepTarget(list, index, direction, hidden).Some?
            <==> 0 <= TradePlace(k, direction) < |Keep(list, Shown(hidden))| - 1
    ensures StepTarget(list, index, direction, hidden).Some? ==>
              Keep(Shifted(list, index, StepTarget(list, index, direction, hidden).value), Shown(hidden))
              == Swapped(Keep(list, Shown(hidden)), TradePlace(k, direction))
  {
    hide Keep;
    var p := Shown(hidden);
    index := ShownPlace(list, hidden, k);
    ShownPosition(list, hidden, index);
    match StepTarget(list, index, direction, hidden)
    case Some(target) =>
      if direction == Up {
        ShiftAcrossHidden(list, hidden, target, index, true);
        assert list[..index] == list[..target] + [list[target]] + list[target + 1..index];
        KeepAppend(list[..target] + [list[target]], list[target + 1..index], p);
        KeepAppend(list[..target], [list[target]], p);
        KeepNone(list[target + 1..index], p);
        KeepOne(list[target], p);
      } else {
        ShiftAcrossHidden(list, hidden, index, target, false);
      }
    case None =>
      if direction == Up {
        KeepNone(list[..index], p);
      } else {
        KeepNone(list[index + 1..], p);
      }
  }

  /** Exactly what the step of a zone the user sees does. It is refused exactly when the zone is at that
      end of the shown list. Otherwise, once the new order is stored and everything is sorted and
      filtered again, the shown list is the old one with the zone and its neighbour swapped. */
  lemma {:induction false} StepMovesOnePlace(zones: seq<Zone>, settings: Settings, k: nat, direction: Direction)
    requires DistinctIds(zones)
    requires k < |Visible(zones, settings)|
    ensures var shown := Visible(zones, settings);
            var moved := Step(Manageable(zones, settings), shown[k].zoneId, direction, settings.hidden);
            var place := TradePlace(k, direction);
            && (moved.Some? <==> 0 <= place < |shown| - 1)
            && (moved.Some? ==> Visible(zones, WithOrder(settings, moved.value)) == Swapped(shown, place))
  {
    hide Manageable, Keep, Swapped;
    var list := Manageable(zones, settings);
    ManageableIsDistinct(zones, settings);
    var index := StepTrades(list, settings.hidden, k, direction);
    PositionIsUnique(list, index);
    match StepTarget(list, index, direction, settings.hidden)
    case Some(target) => StoredMove(zones, settings, index, target);
    case None =>
  }

  /** Exactly when a step is refused, for any zone: when it is not listed, or when nothing on that side
      may trade places with it. */
  lemma {:induction false} StepRefusedExactly(list: seq<Zone>, id: ZoneId, direction: Direction, hidden: set<ZoneId>)
    requires DistinctIds(list)
    ensures Step(list, id, direction, hidden).Some?
            <==> exists index, other ::
                   && 0 <= index < |list| && 0 <= other < |list|
                   && list[index].zoneId == id
                   && (if direction == Up then other < index else index < other)
                   && (id in hidden || list[other].zoneId !in hidden)
  {
    match Position(list, id)
    case Some(index) =>
      if StepTarget(list, index, direction, hidden).Some? {
        var other := StepTarget(list, index, direction, hidden).value;
        assert list[index].zoneId == id && Candidate(list[other], id in hidden, hidden);
      }
    case None =>
  }

  function Opposite(direction: Direction): Direction {
    if direction == Up then Down else Up
  }

  lemma {:induction false} SwappedTwice<T>(s: seq<T>, k: nat)
    requires k + 1 < |s|
    ensures |Swapped(s, k)| == |s| && Swapped(s, k)[k] == s[k + 1] && Swapped(s, k)[k + 1] == s[k]
    ensures Swapped(Swapped(s, k), k) == s
  {
  }

  /** A step followed by the opposite step restores what the user sees. */
  lemma {:induction false} StepBackRestores(zones: seq<Zone>, settings: Settings, k: nat, direction: Direction)
    requires DistinctIds(zones)
    requires k < |Visible(zones, settings)|
    requires 0 <= TradePlace(k, direction) < |Visible(zones, settings)| - 1
    ensures var id := Visible(zones, settings)[k].zoneId;
            var there := Step(Manageable(zones, settings), id, direction, settings.hidden);
            && there.Some?
            && var after := WithOrder(settings, there.value);
               var back := Step(Manageable(zones, after), id, Opposite(direction), settings.hidden);
               && back.Some?
               && Visible(zones, WithOrder(after, back.value)) == Visible(zones, settings)
  {
    hide Visible, Manageable, Step, Swapped;
    var shown := Visible(zones, settings);
    StepMovesOnePlace(zones, settings, k, direction);
    SwappedTwice(shown, TradePlace(k, direction));
    var there := Step(Manageable(zones, settings), shown[k].zoneId, direction, settings.hidden);
    var after := WithOrder(settings, there.value);
    var landed := if direction == Up then k - 1 else k + 1;
    StepMovesOnePlace(zones, after, landed, Opposite(direction));
  }

  /** Stepping a hidden zone changes nothing the user sees. */
  lemma {:induction false} HiddenStepIsUnseen(zones: seq<Zone>, settings: Settings, id: ZoneId, direction: Direction)
    requires DistinctIds(zones)
    requires id in settings.hidden
    ensures var moved := Step(Manageable(zones, settings), id, direction, settings.hidden);
            moved.Some? ==> Visible(zones, WithOrder(settings, moved.value)) == Visible(zones, settings)
  {
    var list, p := Manageable(zones, settings), Shown(settings.hidden);
    if Step(list, id, direction, settings.hidden).Some? {
      var from := Position(list, id).value;
      var to := StepTarget(list, from, direction, settings.hidden).value;
      StoredMove(zones, settings, from, to);
      ShiftKeepsOthers(list, from, to, p);
    }
  }

  /** Exactly what the step of a hidden zone does: in the full list it trades places with its neighbour on
      that side, hidden or not, and it is refused exactly at that end. */
  lemma {:induction false} HiddenStepSwapsNeighbours(zones: seq<Zone>, settings: Settings, k: nat,
                                                     direction: Direction)
    requires DistinctIds(zones)
    requires k < |Manageable(zones, settings)| && Manageable(zones, settings)[k].zoneId in settings.hidden
    ensures var list, place := Manageable(zones, settings), TradePlace(k, direction);
            var moved := Step(list, list[k].zoneId, direction, settings.hidden);
            && (moved.Some? <==> 0 <= place < |list| - 1)
            && (moved.Some? ==> Manageable(zones, WithOrder(settings, moved.value)) == Swapped(list, place))
  {
    var list := Manageable(zones, settings);
    ManageableIsDistinct(zones, settings);
    PositionIsUnique(list, k);
    match StepTarget(list, k, direction, settings.hidden)
    case Some(to) =>
      assert Candidate(list[if direction == Up then k - 1 else k + 1], true, settings.hidden);
      assert to == if direction == Up then k - 1 else k + 1;
      StoredMove(zones, settings, k, to);
      ShiftIsSwap(list, k, to);
    case None =>
      assert forall z :: z in list ==> Candidate(z, true, settings.hidden);
  }

  lemma {:induction false} ShiftIsSwap<T>(s: seq<T>, from: nat, to: nat)
    requires from < |s| && to < |s| && (to == from + 1 || from == to + 1)
    ensures Shifted(s, from, to) == Swapped(s, if to < from then to else from)
  {
  }

  /** Moving an element keeps the order of all the others. */
  lemma {:induction false} ShiftKeepsOthers<T>(s: seq<T>, from: nat, to: nat, wanted: T -> bool)
    requires from < |s| && to < |s| && !wanted(s[from])
    ensures Keep(Shifted(s, from, to), wanted) == Keep(s, wanted)
  {
    hide Keep;
    var rest, x := s[..from] + s[from + 1..], [s[from]];
    KeepOne(s[from], wanted);
    assert s == s[..from] + x + s[from + 1..] && rest == rest[..to] + rest[to..];
    KeepSkips(s[..from], x, s[from + 1..], wanted);
    KeepSkips(rest[..to], x, rest[to..], wanted);
  }

  lemma {:induction false} KeepSkips<T>(front: seq<T>, x: seq<T>, back: seq<T>, wanted: T -> bool)
    requires Keep(x, wanted) == []
    ensures Keep(front + x + back, wanted) == Keep(front + back, wanted)
  {
    KeepAppend(front + x, back, wanted);
    KeepAppend(front, x, wanted);
    KeepAppend(front, back, wanted);
    assert Keep(front, wanted) + [] == Keep(front, wanted);
  }

  // ---------------------------------------------------------------------------
  // Drops
  // ---------------------------------------------------------------------------

  /** Exactly what a drop does: it is refused exactly when it names an unknown zone or the same zone
      twice; otherwise the zone lands in the slot the target had, and all others keep their order. */
  lemma {:induction false} DropLandsOnTarget(zones: seq<Zone>, settings: Settings, id: ZoneId, target: ZoneId)
    requires DistinctIds(zones)
    ensures var list := Manageable(zones, settings);
            var moved := Drop(list, id, target);
            && (moved.Some? <==> id != target && id in IdsOf(list) && target in IdsOf(list))
            && (moved.Some? ==>
                  var after := Manageable(zones, WithOrder(settings, moved.value));
                  && Position(after, id) == Position(list, target)
                  && SameZones(after, list)
                  && Keep(after, (z: Zone) => z.zoneId != id) == Keep(list, (z: Zone) => z.zoneId != id))
  {
    var list := Manageable(zones, settings);
    var from, to := Position(list, id), Position(list, target);
    assert id in IdsOf(list) <==> from.Some? by { KnownId(list, id); }
    assert target in IdsOf(list) <==> to.Some? by { KnownId(list, target); }
    if Drop(list, id, target).Some? {
      ManageableIsDistinct(zones, settings);
      StoredMove(zones, settings, from.value, to.value);
      ShiftedIsDistinct(list, from.value, to.value);
      PositionIsUnique(Shifted(list, from.value, to.value), to.value);
      ShiftKeepsOthers(list, from.value, to.value, (z: Zone) => z.zoneId != id);
    }
  }

  lemma {:induction false} KnownId(zones: seq<Zone>, id: ZoneId)
    ensures id in IdsOf(zones) <==> Position(zones, id).Some?
  {
    forall i | 0 <= i < |zones| ensures zones[i] in zones {
    }
    if Position(zones, id).Some? {
      assert IdsOf(zones)[Position(zones, id).value] == id;
    }
  }

  lemma {:induction false} DropAt(zones: seq<Zone>, from: nat, to: nat)
    requires DistinctIds(zones) && from < |zones| && to < |zones| && from != to
    ensures Drop(zones, zones[from].zoneId, zones[to].zoneId) == Some(Shifted(IdsOf(zones), from, to))
  {
    PositionIsUnique(zones, from);
    PositionIsUnique(zones, to);
  }

  /** One further drop undoes a drop: onto the zone that now occupies the slot it came from. */
  lemma {:induction false} DropIsUndone(zones: seq<Zone>, settings: Settings, id: ZoneId, target: ZoneId)
    requires DistinctIds(zones)
    requires Drop(Manageable(zones, settings), id, target).Some?
    ensures var list := Manageable(zones, settings);
            var after := WithOrder(settings, Drop(list, id, target).value);
            var from := Position(list, id).value;
            && from < |Manageable(zones, after)|
            && var back := Drop(Manageable(zones, after), id, Manageable(zones, after)[from].zoneId);
               back.Some? && Manageable(zones, WithOrder(after, back.value)) == list
  {
    var list := Manageable(zones, settings);
    var from, to := Position(list, id).value, Position(list, target).value;
    ManageableIsDistinct(zones, settings);
    PositionIsUnique(list, from);
    PositionIsUnique(list, to);
    StoredMove(zones, settings, from, to);
    var moved := Shifted(list, from, to);
    var after := WithOrder(settings, Drop(list, id, target).value);
    ShiftedIsDistinct(list, from, to);
    PositionIsUnique(moved, to);
    PositionIsUnique(moved, from);
    StoredMove(zones, after, to, from);
    ShiftedBack(list, from, to);
  }

  /** Perform drops one after the other, each on the list the previous one produced. */
  function Drops(zones: seq<Zone>, settings: Settings, moves: seq<(ZoneId, ZoneId)>): Option<Settings>
    decreases |moves|
  {
    if moves == [] then Some(settings)
    else
      match Drop(Manageable(zones, settings), moves[0].0, moves[0].1)
      case None => None
      case Some(order) => Drops(zones, WithOrder(settings, order), moves[1..])
  }

  lemma {:induction false} DropsReachFrom(zones: seq<Zone>, settings: Settings, wanted: seq<Zone>, done: nat)
    returns (moves: seq<(ZoneId, ZoneId)>)
    requires DistinctIds(zones) && DistinctIds(wanted)
    requires SameZones(wanted, Manageable(zones, settings))
    requires done <= |wanted| && done <= |Manageable(zones, settings)|
    requires wanted[..done] == Manageable(zones, settings)[..done]
    ensures |moves| <= |wanted| - done
    ensures var reached := Drops(zones, settings, moves);
            reached.Some? && Manageable(zones, reached.value) == wanted
    decreases |wanted| - done
  {
    hide Manageable, Ordered, Shifted, Drop;
    var list := Manageable(zones, settings);
    ManageableIsDistinct(zones, settings);
    SameLength(wanted, list);
    if done == |wanted| {
      assert wanted[..done] == wanted && list[..done] == list;
      moves := [];
    } else if wanted[done] == list[done] {
      assert wanted[..done + 1] == wanted[..done] + [wanted[done]] == list[..done + 1];
      moves := DropsReachFrom(zones, settings, wanted, done + 1);
    } else {
      assert wanted[done] in list;
      forall i | 0 <= i < done ensures list[i] == wanted[i] {
        assert wanted[..done][i] == list[..done][i];
      }
      var from :| 0 <= from < |list| && list[from] == wanted[done];
      DropAt(list, from, done);
      StoredMove(zones, settings, from, done);
      ShiftedPrefix(list, from, done);
      ShiftedIsDistinct(list, from, done);
      var stored := WithOrder(settings, Shifted(IdsOf(list), from, done));
      assert wanted[..done + 1] == wanted[..done] + [wanted[done]];
      var rest := DropsReachFrom(zones, stored, wanted, done + 1);
      moves := [(wanted[done].zoneId, list[done].zoneId)] + rest;
      assert moves[1..] == rest;
    }
  }

  /** Any arrangement of the zones is reached by drops, at most one for each zone. */
  lemma {:induction false} DropsReachEverything(zones: seq<Zone>, settings: Settings, wanted: seq<Zone>)
    requires DistinctIds(zones) && DistinctIds(wanted)
    requires SameZones(wanted, Manageable(zones, settings))
    ensures exists moves ::
              && |moves| <= |wanted|
              && Drops(zones, settings, moves).Some?
              && Manageable(zones, Drops(zones, settings, moves).value) == wanted
  {
    hide Manageable, Drops;
    var moves := DropsReachFrom(zones, settings, wanted, 0);
  }

  lemma {:induction false} ShiftedPrefix<T>(s: seq<T>, from: nat, to: nat)
    requires to <= from < |s|
    ensures Shifted(s, from, to)[..to + 1] == s[..to] + [s[from]]
  {
  }

  lemma {:induction false} SameLength(s: seq<Zone>, t: seq<Zone>)
    requires DistinctIds(s) && DistinctIds(t) && SameZones(s, t)
    ensures |s| == |t|
  {
    SetSize(s);
    SetSize(t);
    assert (set z | z in s) == (set z | z in t);
  }

  lemma {:induction false} SetSize(s: seq<Zone>)
    requires DistinctIds(s)
    ensures |set z | z in s| == |s|
  {
    if s != [] {
      SetSize(s[1..]);
      assert s == [s[0]] + s[1..];
      forall z | z in s[1..] ensures z.zoneId != s[0].zoneId {
      }
      assert (set z | z in s) == {s[0]} + (set z | z in s[1..]);
      assert s[0] !in s[1..];
    }
  }

  // ---------------------------------------------------------------------------
  // What a stored move forgets
  // ---------------------------------------------------------------------------

  /** A move stores the ids of the zones listed at that moment and nothing else. A zone that was not
      listed then (offline, or its adapter disabled) loses whatever place it had: when it comes back it
      sorts after every zone that was listed. */
  lemma {:induction false} MoveForgetsAbsentZones(zones: seq<Zone>, settings: Settings, from: nat, to: nat,
                                                  later: seq<Zone>, i: nat, j: nat)
    requires DistinctIds(zones) && DistinctIds(later)
    requires from < |Manageable(zones, settings)| && to < |Manageable(zones, settings)|
    requires var stored := WithOrder(settings, Shifted(IdsOf(Manageable(zones, settings)), from, to));
             && i < |Manageable(later, stored)| && j < |Manageable(later, stored)|
             && Manageable(later, stored)[i].zoneId in IdsOf(Manageable(zones, settings))
             && Manageable(later, stored)[j].zoneId !in IdsOf(Manageable(zones, settings))
    ensures i < j
  {
    hide Ordered, Shifted, Listable, IdsOf, Rank, TextBefore;
    var ids := IdsOf(Manageable(zones, settings));
    var order := Shifted(ids, from, to);
    var stored := WithOrder(settings, order);
    ShiftedPermutes(ids, from, to);
    var list := Manageable(later, stored);
    assert list[i].zoneId in multiset(order) && list[j].zoneId !in multiset(order);
    assert !Before(list[j], list[i], stored.sorting);
    ListableIsDistinct(later, stored);
    OrderedSorts(Listable(later, stored), stored.sorting);
  }
}
