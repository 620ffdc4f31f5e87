/** What one bus event does to the zone map (src/aggregator.rs, `run_inner`), and the fold of a
    whole queue of events. The central fact is that an event acts on each zone id separately. */
module ZoneEvents {
  import opened Zones

  type ZoneMap = map<ZoneId, Zone>

  /** The entry of `zones` at `id`, if any. */
  function Cell(zones: ZoneMap, id: ZoneId): Option<Zone> {
    if id in zones then Some(zones[id]) else None
  }

  // ---------------------------------------------------------------------------
  // One event
  // ---------------------------------------------------------------------------

  /** The track a zone shows after a `NowPlayingChanged`. All fields absent is the clear
      sentinel; otherwise seek, duration and modes carry over, and details only for the same track. */
  function Heard(current: Option<NowPlaying>, title: Option<string>, artist: Option<string>,
                 album: Option<string>, imageKey: Option<string>): Option<NowPlaying>
  {
    if title.None? && artist.None? && album.None? && imageKey.None? then None
    else
      var t, r, b := title.GetOr(""), artist.GetOr(""), album.GetOr("");
      match current
      case None => Some(NowPlaying(t, r, b, imageKey, None, None, None, None, None))
      case Some(np) =>
        var metadata := if np.title == t && np.artist == r && np.album == b then np.metadata else None;
        Some(NowPlaying(t, r, b, imageKey, np.seekPosition, np.duration, metadata, np.repeatMode, np.shuffle))
  }

  function WithModes(zone: Zone, repeatMode: Option<RepeatMode>, shuffle: Option<bool>): Zone {
    match zone.nowPlaying
    case None => zone
    case Some(np) => zone.(nowPlaying := Some(np.(repeatMode := repeatMode, shuffle := shuffle)))
  }

  function WithSeek(zone: Zone, position: int): Zone {
    match zone.nowPlaying
    case None => zone
    case Some(np) => zone.(nowPlaying := Some(np.(seekPosition := Some(position as real))))
  }

  /** The zone's volume control is the output `outputId`. */
  predicate Controls(zone: Zone, outputId: string) {
    zone.volumeControl.Some? && zone.volumeControl.value.outputId == Some(outputId)
  }

  function WithVolume(zone: Zone, volume: real, isMuted: bool): Zone {
    match zone.volumeControl
    case None => zone
    case Some(vc) => zone.(volumeControl := Some(vc.(value := volume, isMuted := isMuted)))
  }

  /** The zone map after one event. When several zones name the same output the code updates
      only the first it meets; see `UniqueOutputs`. */
  function Apply(zones: ZoneMap, e: BusEvent): ZoneMap {
    match e
    case ZoneDiscovered(zone) => zones[zone.zoneId := zone]
    case ZoneUpdated(id, name, text) =>
      if id in zones then zones[id := zones[id].(zoneName := name, state := ParseState(text))] else zones
    case ZoneRemoved(id) => zones - {id}
    case NowPlayingChanged(id, title, artist, album, imageKey) =>
      if id in zones
      then zones[id := zones[id].(nowPlaying := Heard(zones[id].nowPlaying, title, artist, album, imageKey))]
      else zones
    case PlaybackModesChanged(id, repeatMode, shuffle) =>
      if id in zones then zones[id := WithModes(zones[id], repeatMode, shuffle)] else zones
    case SeekPositionChanged(id, position) =>
      if id in zones then zones[id := WithSeek(zones[id], position)] else zones
    case VolumeChanged(outputId, volume, isMuted) =>
      map id | id in zones :: if Controls(zones[id], outputId) then WithVolume(zones[id], volume, isMuted) else zones[id]
    case AdapterStopping(adapter) => map id | id in zones && !OwnedBy(adapter, id) :: zones[id]
    case ZonesFlushed(_, _) => zones
    case ShuttingDown => zones
    case OtherEvent(_) => zones
  }

  /** No two zones claim one output, so a volume event has at most one zone to update. */
  ghost predicate UniqueOutputs(zones: ZoneMap) {
    forall a, b, o :: a in zones && b in zones && Controls(zones[a], o) && Controls(zones[b], o) ==> a == b
  }

  /** The effect of one event on a single zone id. */
  function ApplyAt(id: ZoneId, cell: Option<Zone>, e: BusEvent): Option<Zone> {
    match e
    case ZoneDiscovered(zone) => if zone.zoneId == id then Some(zone) else cell
    case ZoneUpdated(target, name, text) =>
      if target == id && cell.Some? then Some(cell.value.(zoneName := name, state := ParseState(text))) else cell
    case ZoneRemoved(target) => if target == id then None else cell
    case NowPlayingChanged(target, title, artist, album, imageKey) =>
      if target == id && cell.Some?
      then Some(cell.value.(nowPlaying := Heard(cell.value.nowPlaying, title, artist, album, imageKey)))
      else cell
    case PlaybackModesChanged(target, repeatMode, shuffle) =>
      if target == id && cell.Some? then Some(WithModes(cell.value, repeatMode, shuffle)) else cell
    case SeekPositionChanged(target, position) =>
      if target == id && cell.Some? then Some(WithSeek(cell.value, position)) else cell
    case VolumeChanged(outputId, volume, isMuted) =>
      if cell.Some? && Controls(cell.value, outputId) then Some(WithVolume(cell.value, volume, isMuted)) else cell
    case AdapterStopping(adapter) => if OwnedBy(adapter, id) then None else cell
    case ZonesFlushed(_, _) => cell
    case ShuttingDown => cell
    case OtherEvent(_) => cell
  }

  /** Events act pointwise: what happens at one id depends on that id alone. */
  lemma {:induction false} ApplyIsPointwise(zones: ZoneMap, e: BusEvent, id: ZoneId)
    ensures Cell(Apply(zones, e), id) == ApplyAt(id, Cell(zones, id), e)
  {
  }

  // ---------------------------------------------------------------------------
  // A queue of events
  // ---------------------------------------------------------------------------

  function Fold(zones: ZoneMap, queue: seq<BusEvent>): ZoneMap
    decreases queue
  {
    if queue == [] then zones else Fold(Apply(zones, queue[0]), queue[1..])
  }

  function FoldAt(id: ZoneId, cell: Option<Zone>, queue: seq<BusEvent>): Option<Zone>
    decreases queue
  {
    if queue == [] then cell else FoldAt(id, ApplyAt(id, cell, queue[0]), queue[1..])
  }

  lemma {:induction false} FoldIsPointwise(zones: ZoneMap, queue: seq<BusEvent>, id: ZoneId)
    ensures Cell(Fold(zones, queue), id) == FoldAt(id, Cell(zones, id), queue)
    decreases queue
  {
    if queue != [] {
      ApplyIsPointwise(zones, queue[0], id);
      FoldIsPointwise(Apply(zones, queue[0]), queue[1..], id);
    }
  }

  lemma {:induction false} FoldAtAppend(id: ZoneId, cell: Option<Zone>, p: seq<BusEvent>, q: seq<BusEvent>)
    ensures FoldAt(id, cell, p + q) == FoldAt(id, FoldAt(id, cell, p), q)
    decreases p
  {
    if p == [] {
      assert p + q == q;
    } else {
      assert (p + q)[1..] == p[1..] + q;
      FoldAtAppend(id, ApplyAt(id, cell, p[0]), p[1..], q);
    }
  }

  lemma {:induction false} FoldAppend(zones: ZoneMap, p: seq<BusEvent>, q: seq<BusEvent>)
    ensures Fold(zones, p + q) == Fold(Fold(zones, p), q)
    decreases p
  {
    if p == [] {
      assert p + q == q;
    } else {
      assert (p + q)[1..] == p[1..] + q;
      FoldAppend(Apply(zones, p[0]), p[1..], q);
    }
  }

  /** Two maps that agree at every id are the same map. */
  lemma {:induction false} SameCells(a: ZoneMap, b: ZoneMap)
    requires forall id :: Cell(a, id) == Cell(b, id)
    ensures a == b
  {
    forall id ensures (id in a <==> id in b) && (id in a ==> a[id] == b[id]) {
      assert Cell(a, id) == Cell(b, id);
    }
  }

  lemma {:induction false} FoldInert(id: ZoneId, cell: Option<Zone>, queue: seq<BusEvent>)
    requires forall e :: e in queue ==> ApplyAt(id, cell, e) == cell
    ensures FoldAt(id, cell, queue) == cell
    decreases queue
  {
    if queue != [] {
      assert queue[0] in queue;
      assert forall e :: e in queue[1..] ==> e in queue;
      FoldInert(id, cell, queue[1..]);
    }
  }

  // ---------------------------------------------------------------------------
  // Tracks
  // ---------------------------------------------------------------------------

  /** What is shown of a track's details, with the track they belong to. */
  datatype Detailed = Detailed(title: string, artist: string, album: string, metadata: TrackMetadata)

  function DetailsOf(cell: Option<Zone>): Option<Detailed> {
    if cell.Some? && cell.value.nowPlaying.Some? && cell.value.nowPlaying.value.metadata.Some? then
      var np := cell.value.nowPlaying.value;
      Some(Detailed(np.title, np.artist, np.album, np.metadata.value))
    else None
  }

  /** Over any queue of events, details never move from one track to another: whenever a zone shows
      details, it shows them with the track they came with, either at the start or in a discovery of
      that zone. */
  lemma {:induction false} DetailsStayWithTheirTrack(id: ZoneId, cell: Option<Zone>, queue: seq<BusEvent>)
    ensures var shown := DetailsOf(FoldAt(id, cell, queue));
            shown.Some? ==>
              || shown == DetailsOf(cell)
              || exists e :: e in queue && e.ZoneDiscovered? && e.zone.zoneId == id && shown == DetailsOf(Some(e.zone))
    decreases queue
  {
    hide ApplyAt, DetailsOf;
    if queue != [] {
      assert queue[0] in queue && forall e :: e in queue[1..] ==> e in queue;
      DetailsStep(id, cell, queue[0]);
      DetailsStayWithTheirTrack(id, ApplyAt(id, cell, queue[0]), queue[1..]);
    }
  }

  lemma {:induction false} DetailsStep(id: ZoneId, cell: Option<Zone>, e: BusEvent)
    ensures var shown := DetailsOf(ApplyAt(id, cell, e));
            shown.Some? ==>
              || shown == DetailsOf(cell)
              || (e.ZoneDiscovered? && e.zone.zoneId == id && shown == DetailsOf(Some(e.zone)))
  {
    hide ParseState;
  }

  function DurationOf(cell: Option<Zone>): Option<real> {
    if cell.Some? && cell.value.nowPlaying.Some? then cell.value.nowPlaying.value.duration else None
  }

  /** Over any queue of events, a duration on display was there at the start or came with a discovery of the
      zone: no other event carries one, so the duration of a changed track stays the earlier one's. */
  lemma {:induction false} DurationsComeFromDiscoveries(id: ZoneId, cell: Option<Zone>, queue: seq<BusEvent>)
    ensures var shown := DurationOf(FoldAt(id, cell, queue));
            shown.Some? ==>
              || shown == DurationOf(cell)
              || exists e :: e in queue && e.ZoneDiscovered? && e.zone.zoneId == id && shown == DurationOf(Some(e.zone))
    decreases queue
  {
    hide ApplyAt, DurationOf;
    if queue != [] {
      assert queue[0] in queue && forall e :: e in queue[1..] ==> e in queue;
      DurationStep(id, cell, queue[0]);
      DurationsComeFromDiscoveries(id, ApplyAt(id, cell, queue[0]), queue[1..]);
    }
  }

  lemma {:induction false} DurationStep(id: ZoneId, cell: Option<Zone>, e: BusEvent)
    ensures var shown := DurationOf(ApplyAt(id, cell, e));
            shown.Some? ==>
              || shown == DurationOf(cell)
              || (e.ZoneDiscovered? && e.zone.zoneId == id && shown == DurationOf(Some(e.zone)))
  {
    hide ParseState;
  }

  /** What a track event leaves shown, field by field. It names the track; position, duration and modes
      of what was shown carry over; details carry over exactly when title, artist and album are those
      already shown; and with all four fields absent nothing is shown any more. */
  ghost predicate ShownAfter(e: BusEvent, was: Option<NowPlaying>, now: Option<NowPlaying>)
    requires e.NowPlayingChanged?
  {
    && (now.None? <==> e.title.None? && e.artist.None? && e.album.None? && e.imageKey.None?)
    && (now.Some? ==>
          var np := now.value;
          && np.title == e.title.GetOr("") && np.artist == e.artist.GetOr("") && np.album == e.album.GetOr("")
          && np.imageKey == e.imageKey
          && (was.None? ==> np.seekPosition.None? && np.duration.None? && np.metadata.None?
                            && np.repeatMode.None? && np.shuffle.None?)
          && (was.Some? ==>
                && np.seekPosition == was.value.seekPosition && np.duration == was.value.duration
                && np.repeatMode == was.value.repeatMode && np.shuffle == was.value.shuffle
                && np.metadata == if np.title == was.value.title && np.artist == was.value.artist
                                     && np.album == was.value.album
                                  then was.value.metadata else None))
  }

  lemma {:induction false} TrackEventShows(zone: Zone, e: BusEvent)
    requires e.NowPlayingChanged? && e.zoneId == zone.zoneId
    ensures var after := ApplyAt(zone.zoneId, Some(zone), e);
            && after.Some? && after.value == zone.(nowPlaying := after.value.nowPlaying)
            && ShownAfter(e, zone.nowPlaying, after.value.nowPlaying)
  {
    hide ShownAfter, Heard;
    HeardShows(zone.nowPlaying, e);
  }

  lemma {:induction false} HeardShows(was: Option<NowPlaying>, e: BusEvent)
    requires e.NowPlayingChanged?
    ensures ShownAfter(e, was, Heard(was, e.title, e.artist, e.album, e.imageKey))
  {
  }
}
