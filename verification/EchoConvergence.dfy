/** The aggregator reads its own notifications. Every reliable commit is echoed onto the bus the
    aggregator subscribes to (src/aggregator.rs), so a commit and the event loop can interleave
    arbitrarily. This module says exactly when that lag is harmless. */
module EchoConvergence {
  import opened Zones
  import opened ZoneEvents
  import opened Projection

  // ---------------------------------------------------------------------------
  // Output ownership
  // ---------------------------------------------------------------------------

  /** Which zone a volume output belongs to. Adapters must agree on one such assignment, since a
      volume event names its output and not its zone. */
  type Owner = string -> ZoneId

  /** The output a zone's volume echo will name belongs to that zone. */
  predicate OwnsOutput(owner: Owner, zone: Zone) {
    zone.volumeControl.Some? ==> owner(EchoOutput(zone)) == zone.zoneId
  }

  predicate OwnedCell(owner: Owner, id: ZoneId, cell: Option<Zone>) {
    cell.Some? ==> cell.value.zoneId == id && OwnsOutput(owner, cell.value)
  }

  ghost predicate OwnedMap(owner: Owner, zones: ZoneMap) {
    forall id :: OwnedCell(owner, id, Cell(zones, id))
  }

  /** Under one assignment no two zones share an output. */
  lemma {:induction false} OwnedOutputsAreUnique(owner: Owner, zones: ZoneMap)
    requires OwnedMap(owner, zones)
    ensures UniqueOutputs(zones)
  {
    forall a, b, o | a in zones && b in zones && Controls(zones[a], o) && Controls(zones[b], o) ensures a == b {
      assert OwnedCell(owner, a, Cell(zones, a)) && OwnedCell(owner, b, Cell(zones, b));
    }
  }

  predicate OwnedEvent(owner: Owner, e: BusEvent) {
    e.ZoneDiscovered? ==> OwnsOutput(owner, e.zone)
  }

  lemma {:induction false} ApplyAtKeepsOwned(owner: Owner, id: ZoneId, cell: Option<Zone>, e: BusEvent)
    requires OwnedCell(owner, id, cell) && OwnedEvent(owner, e)
    ensures OwnedCell(owner, id, ApplyAt(id, cell, e))
  {
  }

  // ---------------------------------------------------------------------------
  // The echo of one zone
  // ---------------------------------------------------------------------------

  /** On its own id, an echo reproduces the committed zone, seek position rounded, whatever
      state it finds. */
  lemma {:induction false} EchoReproduces(zone: Zone, cell: Option<Zone>)
    requires Parses(zone.zoneId)
    ensures FoldAt(zone.zoneId, cell, Echo(zone)) == Some(Rounded(zone))
  {
    hide Parses, ParseState, StateText, Round;
    var id := zone.zoneId;
    var head := [ZoneDiscovered(zone), ZoneUpdated(id, zone.zoneName, StateText(zone.state))];
    StateRoundTrip(zone.state);
    FoldAtAppend(id, cell, head + TrackEcho(zone), VolumeEcho(zone));
    FoldAtAppend(id, cell, head, TrackEcho(zone));
    assert head[1..] == [head[1]] && head[1..][1..] == [];
    assert FoldAt(id, cell, head) == FoldAt(id, Some(zone), head[1..]) == Some(zone);
    TrackEchoRounds(zone);
    VolumeEchoKeeps(Rounded(zone));
    assert VolumeEcho(Rounded(zone)) == VolumeEcho(zone);
  }

  /** Nothing is announced exactly for a zone whose id has no known adapter's prefix. */
  lemma {:induction false} SilentExactly(zone: Zone)
    ensures Echo(zone) == [] <==> forall adapter :: adapter in KNOWN_ADAPTERS ==> !(adapter + ":" <= zone.zoneId)
  {
  }

  lemma {:induction false} TrackEchoRounds(zone: Zone)
    ensures FoldAt(zone.zoneId, Some(zone), TrackEcho(zone)) == Some(Rounded(zone))
  {
    hide Round;
    if zone.nowPlaying.Some? {
      var np := zone.nowPlaying.value;
      var heard := NowPlayingChanged(zone.zoneId, Some(np.title), Some(np.artist), Some(np.album), np.imageKey);
      assert Heard(zone.nowPlaying, heard.title, heard.artist, heard.album, heard.imageKey) == zone.nowPlaying;
      assert ApplyAt(zone.zoneId, Some(zone), heard) == Some(zone);
      var echo := TrackEcho(zone);
      assert echo[0] == heard;
      if np.seekPosition.Some? {
        assert echo[1..] == [SeekPositionChanged(zone.zoneId, Round(np.seekPosition.value))];
        assert echo[1..][1..] == [];
        assert ApplyAt(zone.zoneId, Some(zone), echo[1..][0]) == Some(Rounded(zone));
        assert FoldAt(zone.zoneId, Some(zone), echo[1..]) == Some(Rounded(zone));
      } else {
        assert echo[1..] == [];
      }
    }
  }

  lemma {:induction false} VolumeEchoKeeps(zone: Zone)
    ensures FoldAt(zone.zoneId, Some(zone), VolumeEcho(zone)) == Some(zone)
  {
    if zone.volumeControl.Some? {
      assert VolumeEcho(zone)[1..] == [];
    }
  }

  /** What a subscriber that ignores the discovery, and holds some earlier version of the zone, learns from the
      rest of an echo: name, state, track identity and image, whole-second position, volume and mute. A zone
      without a track or volume leaves those as they were. */
  lemma {:induction false} HintsBringUpToDate(zone: Zone, was: Zone)
    requires Parses(zone.zoneId) && was.zoneId == zone.zoneId
    ensures |Echo(zone)| > 0 && Echo(zone)[0] == ZoneDiscovered(zone)
    ensures var after := FoldAt(zone.zoneId, Some(was), Echo(zone)[1..]);
      && after.Some?
      && after.value == was.(zoneName := zone.zoneName, state := zone.state,
                             nowPlaying := after.value.nowPlaying, volumeControl := after.value.volumeControl)
      && TrackLearnt(zone.nowPlaying, was.nowPlaying, after.value.nowPlaying)
      && VolumeLearnt(zone, was.volumeControl, after.value.volumeControl)
  {
    hide Parses, ParseState, StateText, Round, Heard, TrackLearnt, VolumeLearnt;
    var id, hint := zone.zoneId, ZoneUpdated(zone.zoneId, zone.zoneName, StateText(zone.state));
    var named := was.(zoneName := zone.zoneName, state := zone.state);
    StateRoundTrip(zone.state);
    assert Echo(zone)[1..] == [hint] + TrackEcho(zone) + VolumeEcho(zone);
    FoldAtAppend(id, Some(was), [hint] + TrackEcho(zone), VolumeEcho(zone));
    FoldAtAppend(id, Some(was), [hint], TrackEcho(zone));
    assert [hint][1..] == [];
    assert FoldAt(id, Some(was), [hint]) == Some(named);
    TrackIsLearnt(zone, named);
    VolumeIsLearnt(zone, FoldAt(id, Some(named), TrackEcho(zone)).value);
  }

  ghost predicate TrackLearnt(sent: Option<NowPlaying>, was: Option<NowPlaying>, after: Option<NowPlaying>) {
    if sent.None? then after == was
    else
      && after.Some?
      && after.value.title == sent.value.title && after.value.artist == sent.value.artist
      && after.value.album == sent.value.album && after.value.imageKey == sent.value.imageKey
      && (sent.value.seekPosition.Some? ==>
            after.value.seekPosition == Some(Round(sent.value.seekPosition.value) as real))
      && (sent.value.seekPosition.None? && was.Some? ==> after.value.seekPosition == was.value.seekPosition)
  }

  /** A volume hint reaches a control that names the very output the echo names. */
  ghost predicate VolumeLearnt(sent: Zone, was: Option<VolumeControl>, after: Option<VolumeControl>) {
    if && sent.volumeControl.Some? && was.Some? && was.value.outputId.Some?
       && was.value.outputId.value == sent.volumeControl.value.outputId.GetOr(sent.zoneId)
    then after == Some(was.value.(value := sent.volumeControl.value.value, isMuted := sent.volumeControl.value.isMuted))
    else after == was
  }

  lemma {:induction false} TrackIsLearnt(zone: Zone, was: Zone)
    ensures var after := FoldAt(zone.zoneId, Some(was), TrackEcho(zone));
      && after.Some? && after.value == was.(nowPlaying := after.value.nowPlaying)
      && TrackLearnt(zone.nowPlaying, was.nowPlaying, after.value.nowPlaying)
  {
    hide Round, ParseState, WithVolume, OwnedBy, Controls, FoldAt;
    if zone.nowPlaying.Some? {
      var id, np, echo := zone.zoneId, zone.nowPlaying.value, TrackEcho(zone);
      var heard := NowPlayingChanged(id, Some(np.title), Some(np.artist), Some(np.album), np.imageKey);
      var named := ApplyAt(id, Some(was), heard);
      FoldOne(id, Some(was), heard);
      if np.seekPosition.Some? {
        var position := SeekPositionChanged(id, Round(np.seekPosition.value));
        assert echo == [heard] + [position];
        FoldAtAppend(id, Some(was), [heard], [position]);
        FoldOne(id, named, position);
      } else {
        assert echo == [heard];
      }
    } else {
      FoldNothing(zone.zoneId, Some(was));
    }
  }

  lemma {:induction false} VolumeIsLearnt(zone: Zone, was: Zone)
    ensures var after := FoldAt(zone.zoneId, Some(was), VolumeEcho(zone));
      && after.Some? && after.value == was.(volumeControl := after.value.volumeControl)
      && VolumeLearnt(zone, was.volumeControl, after.value.volumeControl)
  {
    hide FoldAt, ApplyAt;
    FoldNothing(zone.zoneId, Some(was));
    if zone.volumeControl.Some? {
      var vc := zone.volumeControl.value;
      FoldOne(zone.zoneId, Some(was), VolumeChanged(EchoOutput(zone), vc.value, vc.isMuted));
      VolumeHint(zone.zoneId, was, EchoOutput(zone), vc.value, vc.isMuted);
    }
  }

  lemma {:induction false} VolumeHint(id: ZoneId, was: Zone, outputId: string, volume: real, isMuted: bool)
    ensures ApplyAt(id, Some(was), VolumeChanged(outputId, volume, isMuted))
         == Some(if was.volumeControl.Some? && was.volumeControl.value.outputId == Some(outputId)
                 then was.(volumeControl := Some(was.volumeControl.value.(value := volume, isMuted := isMuted)))
                 else was)
  {
  }

  lemma {:induction false} FoldOne(id: ZoneId, cell: Option<Zone>, e: BusEvent)
    ensures FoldAt(id, cell, [e]) == ApplyAt(id, cell, e)
  {
    hide ApplyAt;
    assert [e][1..] == [];
  }

  /** On any other id, an echo of an owned zone does nothing. */
  lemma {:induction false} EchoSparesOthers(owner: Owner, zone: Zone, id: ZoneId, cell: Option<Zone>)
    requires id != zone.zoneId && OwnsOutput(owner, zone) && OwnedCell(owner, id, cell)
    ensures FoldAt(id, cell, Echo(zone)) == cell
  {
    hide Parses;
    forall e | e in Echo(zone) ensures ApplyAt(id, cell, e) == cell {
      if e.VolumeChanged? {
        assert zone.volumeControl.Some? && e.outputId == EchoOutput(zone);
      }
    }
    FoldInert(id, cell, Echo(zone));
  }

  /** The last zone in `zones` with this id. */
  function Latest(zones: seq<Zone>, id: ZoneId): Option<Zone>
    decreases zones
  {
    if zones == [] then None
    else if zones[|zones| - 1].zoneId == id then Some(zones[|zones| - 1])
    else Latest(zones[..|zones| - 1], id)
  }

  ghost predicate Announceable(owner: Owner, zones: seq<Zone>) {
    forall z :: z in zones ==> Parses(z.zoneId) && OwnsOutput(owner, z)
  }

  lemma {:induction false} EchoesAppend(zones: seq<Zone>, z: Zone)
    ensures Echoes(zones + [z]) == Echoes(zones) + Echo(z)
    decreases zones
  {
    hide Echo;
    if zones == [] {
      assert (zones + [z])[1..] == [];
    } else {
      assert (zones + [z])[1..] == zones[1..] + [z];
      EchoesAppend(zones[1..], z);
    }
  }

  /** A whole commit's zone echoes leave, at each id, the last announced zone rounded. */
  lemma {:induction false} EchoesAt(owner: Owner, zones: seq<Zone>, id: ZoneId, cell: Option<Zone>)
    requires Announceable(owner, zones) && OwnedCell(owner, id, cell)
    ensures FoldAt(id, cell, Echoes(zones))
         == match Latest(zones, id) case None => cell case Some(z) => Some(Rounded(z))
    decreases zones
  {
    hide Echo, Parses, FoldAt;
    if zones == [] {
      FoldNothing(id, cell);
    } else {
      var init, z := zones[..|zones| - 1], zones[|zones| - 1];
      assert zones == init + [z];
      assert z in zones;
      EchoesAppend(init, z);
      FoldAtAppend(id, cell, Echoes(init), Echo(z));
      EchoesAt(owner, init, id, cell);
      if z.zoneId == id {
        EchoReproduces(z, FoldAt(id, cell, Echoes(init)));
      } else {
        LatestIsMember(init, id);
        EchoSparesOthers(owner, z, id, FoldAt(id, cell, Echoes(init)));
      }
    }
  }

  lemma {:induction false} FoldNothing(id: ZoneId, cell: Option<Zone>)
    ensures FoldAt(id, cell, []) == cell
  {
  }

  lemma {:induction false} LatestIsMember(zones: seq<Zone>, id: ZoneId)
    ensures Latest(zones, id).Some? <==> exists z :: z in zones && z.zoneId == id
    ensures Latest(zones, id).Some? ==> Latest(zones, id).value in zones && Latest(zones, id).value.zoneId == id
    decreases zones
  {
    if zones != [] {
      LatestIsMember(zones[..|zones| - 1], id);
      assert zones == zones[..|zones| - 1] + [zones[|zones| - 1]];
    }
  }

  lemma {:induction false} RetractionsAt(ids: seq<ZoneId>, id: ZoneId, cell: Option<Zone>)
    ensures FoldAt(id, cell, Retractions(ids)) == if id in ids then None else cell
    decreases ids
  {
    if ids != [] {
      var next := ApplyAt(id, cell, BusEvent.ZoneRemoved(ids[0]));
      assert Retractions(ids)[1..] == Retractions(ids[1..]);
      RetractionsAt(ids[1..], id, next);
      assert ids == [ids[0]] + ids[1..];
    }
  }

  // ---------------------------------------------------------------------------
  // What a commit says about each zone
  // ---------------------------------------------------------------------------

  /** The zone map if every entry of a commit took visible effect at once, in order. */
  function SequentialEntry(seen: ZoneMap, e: Effect, payload: Payload): ZoneMap {
    match payload
    case ZonePayload(zone) => seen[zone.zoneId := Rounded(zone)]
    case ZoneRetired(id) => seen - {id}
    case HqpRemoved(name, producerEpoch) =>
      if name in e.body.hqp && e.body.hqp[name].observation.producerEpoch == producerEpoch
      then seen - {HqpZoneId(name)} else seen
    case HqpManagerStopped(_) => map id | id in seen && !OwnedBy("hqplayer", id) :: seen[id]
    case _ => seen
  }

  function SequentialEntries(seen: ZoneMap, e: Effect, entries: seq<Entry>, epoch: nat, revision: nat): ZoneMap
    decreases entries
  {
    if entries == [] then seen
    else
      SequentialEntries(SequentialEntry(seen, e, entries[0].payload),
                        ApplyEntry(e, entries[0], epoch, revision), entries[1..], epoch, revision)
  }

  /** The last word of a commit about one zone id. */
  datatype Word = Silent | Present(zone: Zone) | Absent

  function Speak(w: Word, e: Effect, payload: Payload, id: ZoneId): Word {
    match payload
    case ZonePayload(zone) => if zone.zoneId == id then Present(zone) else w
    case ZoneRetired(target) => if target == id then Absent else w
    case HqpRemoved(name, producerEpoch) =>
      if name in e.body.hqp && e.body.hqp[name].observation.producerEpoch == producerEpoch && HqpZoneId(name) == id
      then Absent else w
    case HqpManagerStopped(_) => if OwnedBy("hqplayer", id) then Absent else w
    case _ => w
  }

  function LastWord(w: Word, e: Effect, entries: seq<Entry>, epoch: nat, revision: nat, id: ZoneId): Word
    decreases entries
  {
    if entries == [] then w
    else
      LastWord(Speak(w, e, entries[0].payload, id), ApplyEntry(e, entries[0], epoch, revision), entries[1..],
               epoch, revision, id)
  }

  function Obey(w: Word, cell: Option<Zone>): Option<Zone> {
    match w
    case Silent => cell
    case Present(zone) => Some(zone)
    case Absent => None
  }

  function ObeyRounded(w: Word, cell: Option<Zone>): Option<Zone> {
    match w
    case Silent => cell
    case Present(zone) => Some(Rounded(zone))
    case Absent => None
  }

  /** The announcements gathered so far agree with the last word at `id`. */
  predicate Gathered(w: Word, e: Effect, id: ZoneId) {
    && (w.Silent? ==> Latest(e.changed, id).None? && id !in e.removed)
    && (w.Present? ==> Latest(e.changed, id) == Some(w.zone))
  }

  lemma {:induction false} OneEntryAt(w: Word, e: Effect, entry: Entry, epoch: nat, revision: nat, id: ZoneId,
                                      seen: ZoneMap)
    requires Gathered(w, e, id)
    ensures Gathered(Speak(w, e, entry.payload, id), ApplyEntry(e, entry, epoch, revision), id)
    ensures Cell(ApplyEntry(e, entry, epoch, revision).body.zones, id)
         == Obey(Speak(Silent, e, entry.payload, id), Cell(e.body.zones, id))
    ensures Cell(SequentialEntry(seen, e, entry.payload), id)
         == ObeyRounded(Speak(Silent, e, entry.payload, id), Cell(seen, id))
  {
    hide Latest, Observe, Attach, WithProfiles, Retained, Withdrawn, AdmitsOutputs, Stamped, Rounded;
    if entry.payload.ZonePayload? {
      LatestSnoc(e.changed, entry.payload.zone, id);
    }
  }

  lemma {:induction false} LatestSnoc(zones: seq<Zone>, z: Zone, id: ZoneId)
    ensures Latest(zones + [z], id) == if z.zoneId == id then Some(z) else Latest(zones, id)
  {
    assert (zones + [z])[..|zones|] == zones;
  }

  lemma {:induction false} EntriesAt(w: Word, e: Effect, entries: seq<Entry>, epoch: nat, revision: nat, id: ZoneId,
                                     zones: ZoneMap, seen: ZoneMap, now: ZoneMap)
    requires Gathered(w, e, id)
    requires Cell(e.body.zones, id) == Obey(w, Cell(zones, id))
    requires Cell(now, id) == ObeyRounded(w, Cell(seen, id))
    ensures var last := LastWord(w, e, entries, epoch, revision, id);
            var end := ApplyEntries(e, entries, epoch, revision);
      && Gathered(last, end, id)
      && Cell(end.body.zones, id) == Obey(last, Cell(zones, id))
      && Cell(SequentialEntries(now, e, entries, epoch, revision), id) == ObeyRounded(last, Cell(seen, id))
    decreases entries
  {
    hide ApplyEntry, Latest, Speak, SequentialEntry, Cell;
    if entries != [] {
      OneEntryAt(w, e, entries[0], epoch, revision, id, now);
      SpeakOver(w, e, entries[0].payload, id);
      EntriesAt(Speak(w, e, entries[0].payload, id), ApplyEntry(e, entries[0], epoch, revision), entries[1..],
                epoch, revision, id, zones, seen, SequentialEntry(now, e, entries[0].payload));
    }
  }

  /** A later entry either says nothing new or overrides what came before. */
  lemma {:induction false} SpeakOver(w: Word, e: Effect, payload: Payload, id: ZoneId)
    ensures Speak(Silent, e, payload, id) == Silent ==> Speak(w, e, payload, id) == w
    ensures Speak(Silent, e, payload, id) != Silent ==> Speak(w, e, payload, id) == Speak(Silent, e, payload, id)
  {
  }
}
