/** The Music Assistant publisher (src/adapters/musicassistant.rs) sends differences between
    successive player snapshots; the aggregator rebuilds the snapshot from them. */
module MusicAssistant {
  import opened Zones
  import opened ZoneEvents
  import A = Aggregator
  import C = EchoConvergence
  import E = EchoRuns
  import P = Projection

  datatype PlayerSnapshot = PlayerSnapshot(
    id: string,
    name: string,
    state: PlaybackState,
    available: bool,
    volume: Option<real>,
    muted: bool,
    nowPlaying: Option<NowPlaying>,
    seekable: bool)

  type Players = map<string, PlayerSnapshot>

  function ZoneIdOf(player: string): ZoneId {
    Prefixed("musicassistant", player)
  }

  /** `snapshot_to_zone`; the update timestamp is not modelled. */
  function SnapshotZone(s: PlayerSnapshot): Zone {
    Zone(
      ZoneIdOf(s.id), s.name, s.state,
      if s.volume.Some?
      then Some(VolumeControl(s.volume.value, 0.0, 100.0, 1.0, s.muted, Percentage, Some(ZoneIdOf(s.id))))
      else None,
      s.nowPlaying, "musicassistant", s.available, s.seekable, 0,
      s.state != Playing, s.state == Playing, s.available, s.available)
  }

  // ---------------------------------------------------------------------------
  // The published differences
  // ---------------------------------------------------------------------------

  predicate TrackChanged(previous: Option<NowPlaying>, current: Option<NowPlaying>) {
    match (previous, current)
    case (None, None) => false
    case (Some(p), Some(c)) =>
      p.title != c.title || p.artist != c.artist || p.album != c.album || p.imageKey != c.imageKey
      || p.duration != c.duration || p.repeatMode != c.repeatMode || p.shuffle != c.shuffle
    case _ => true
  }

  function TrackEvents(previous: PlayerSnapshot, s: PlayerSnapshot): seq<BusEvent> {
    if !TrackChanged(previous.nowPlaying, s.nowPlaying) then []
    else match s.nowPlaying
      case None => [NowPlayingChanged(ZoneIdOf(s.id), None, None, None, None)]
      case Some(t) => [NowPlayingChanged(ZoneIdOf(s.id), Some(t.title), Some(t.artist), Some(t.album), t.imageKey)]
  }

  datatype Modes = Modes(repeatMode: Option<RepeatMode>, shuffle: Option<bool>)

  function ModesOf(track: Option<NowPlaying>): Option<Modes> {
    if track.Some? then Some(Modes(track.value.repeatMode, track.value.shuffle)) else None
  }

  function ModeEvents(previous: PlayerSnapshot, s: PlayerSnapshot): seq<BusEvent> {
    var now := ModesOf(s.nowPlaying);
    if ModesOf(previous.nowPlaying) == now then []
    else if now.Some? then [PlaybackModesChanged(ZoneIdOf(s.id), now.value.repeatMode, now.value.shuffle)]
    else [PlaybackModesChanged(ZoneIdOf(s.id), None, None)]
  }

  function SeekOf(track: Option<NowPlaying>): Option<real> {
    if track.Some? then track.value.seekPosition else None
  }

  /** `position.max(0.0) as i64`. */
  function WholeSeconds(position: real): int {
    if position < 0.0 then 0 else position.Floor
  }

  function SeekEvents(previous: PlayerSnapshot, s: PlayerSnapshot): seq<BusEvent> {
    var now := SeekOf(s.nowPlaying);
    if SeekOf(previous.nowPlaying) != now && now.Some?
    then [SeekPositionChanged(ZoneIdOf(s.id), WholeSeconds(now.value))]
    else []
  }

  function VolumeEvents(previous: PlayerSnapshot, s: PlayerSnapshot): seq<BusEvent> {
    if (previous.volume != s.volume || previous.muted != s.muted) && s.volume.Some?
    then [VolumeChanged(ZoneIdOf(s.id), s.volume.value, s.muted)]
    else []
  }

  function Difference(previous: PlayerSnapshot, s: PlayerSnapshot): seq<BusEvent> {
    [ZoneUpdated(ZoneIdOf(s.id), s.name, StateText(s.state))]
    + TrackEvents(previous, s) + ModeEvents(previous, s) + SeekEvents(previous, s) + VolumeEvents(previous, s)
  }

  /** The position is cut to whole seconds, and nothing before the start is reported. */
  lemma {:induction false} WholeSecondsExactly(position: real, n: int)
    ensures WholeSeconds(position) == n
            <==> if position < 0.0 then n == 0 else n as real <= position < (n + 1) as real
  {
  }

  /** The track without its position and details, which no difference reports as a change of track. */
  function Announced(track: Option<NowPlaying>): Option<NowPlaying> {
    if track.Some? then Some(track.value.(seekPosition := None, metadata := None)) else None
  }

  /** The track event between two snapshots: sent when anything of the track but position and details differs. */
  ghost predicate TrackSent(previous: PlayerSnapshot, s: PlayerSnapshot, e: BusEvent) {
    var id, now := Prefixed("musicassistant", s.id), s.nowPlaying;
    && Announced(previous.nowPlaying) != Announced(now)
    && e == if now.None? then NowPlayingChanged(id, None, None, None, None)
            else NowPlayingChanged(id, Some(now.value.title), Some(now.value.artist), Some(now.value.album),
                                   now.value.imageKey)
  }

  /** The mode event: sent when the modes differ, a missing track having none. */
  ghost predicate ModesSent(previous: PlayerSnapshot, s: PlayerSnapshot, e: BusEvent) {
    var id, was, now := Prefixed("musicassistant", s.id), previous.nowPlaying, s.nowPlaying;
    if now.None? then was.Some? && e == PlaybackModesChanged(id, None, None)
    else
      && (was.None? || was.value.repeatMode != now.value.repeatMode || was.value.shuffle != now.value.shuffle)
      && e == PlaybackModesChanged(id, now.value.repeatMode, now.value.shuffle)
  }

  /** The position event: sent when a reported position differs. */
  ghost predicate SeekSent(previous: PlayerSnapshot, s: PlayerSnapshot, e: BusEvent) {
    var was, now := previous.nowPlaying, s.nowPlaying;
    && now.Some? && now.value.seekPosition.Some?
    && (was.None? || was.value.seekPosition != now.value.seekPosition)
    && e == SeekPositionChanged(Prefixed("musicassistant", s.id), WholeSeconds(now.value.seekPosition.value))
  }

  /** The volume event: sent when a volume is reported, and it or the mute differs. */
  ghost predicate VolumeSent(previous: PlayerSnapshot, s: PlayerSnapshot, e: BusEvent) {
    && s.volume.Some? && (previous.volume != s.volume || previous.muted != s.muted)
    && e == VolumeChanged(Prefixed("musicassistant", s.id), s.volume.value, s.muted)
  }

  lemma {:induction false} TrackCount(previous: PlayerSnapshot, s: PlayerSnapshot, e: BusEvent)
    ensures multiset(TrackEvents(previous, s))[e] == if TrackSent(previous, s, e) then 1 else 0
  {
    hide Prefixed;
  }

  lemma {:induction false} ModesCount(previous: PlayerSnapshot, s: PlayerSnapshot, e: BusEvent)
    ensures multiset(ModeEvents(previous, s))[e] == if ModesSent(previous, s, e) then 1 else 0
  {
    hide Prefixed;
  }

  lemma {:induction false} SeekCount(previous: PlayerSnapshot, s: PlayerSnapshot, e: BusEvent)
    ensures multiset(SeekEvents(previous, s))[e] == if SeekSent(previous, s, e) then 1 else 0
  {
    hide Prefixed, WholeSeconds;
  }

  lemma {:induction false} VolumeCount(previous: PlayerSnapshot, s: PlayerSnapshot, e: BusEvent)
    ensures multiset(VolumeEvents(previous, s))[e] == if VolumeSent(previous, s, e) then 1 else 0
  {
    hide Prefixed;
  }

  /** Exactly what is published between two snapshots of a player, each event once: always the name and state,
      and the four others exactly when what they tell has changed. */
  lemma {:induction false} DifferenceExactly(previous: PlayerSnapshot, s: PlayerSnapshot, e: BusEvent)
    ensures multiset(Difference(previous, s))[e]
         == if || e == ZoneUpdated(Prefixed("musicassistant", s.id), s.name, StateText(s.state))
               || TrackSent(previous, s, e) || ModesSent(previous, s, e)
               || SeekSent(previous, s, e) || VolumeSent(previous, s, e)
            then 1 else 0
  {
    hide Prefixed, StateText, TrackEvents, ModeEvents, SeekEvents, VolumeEvents;
    TrackCount(previous, s, e);
    ModesCount(previous, s, e);
    SeekCount(previous, s, e);
    VolumeCount(previous, s, e);
  }

  /** A discovered player is shown as its snapshot says, its volume in percent under its own zone id. */
  lemma {:induction false} SnapshotIsShown(s: PlayerSnapshot)
    ensures var z := SnapshotZone(s);
      && z.zoneId == "musicassistant:" + s.id && z.source == "musicassistant"
      && z.zoneName == s.name && z.state == s.state && z.nowPlaying == s.nowPlaying
      && z.isControllable == s.available && z.isSeekable == s.seekable
      && (z.isPauseAllowed <==> s.state == Playing) && (z.isPlayAllowed <==> s.state != Playing)
      && z.isNextAllowed == s.available && z.isPreviousAllowed == s.available
      && (z.volumeControl.Some? <==> s.volume.Some?)
      && (s.volume.Some? ==>
            var vc := z.volumeControl.value;
            && vc.value == s.volume.value && vc.isMuted == s.muted && vc.outputId == Some(z.zoneId)
            && vc.min == 0.0 && vc.max == 100.0 && vc.step == 1.0 && vc.scale == Percentage)
  {
  }

  /** What one snapshot of one player publishes. */
  function EventsFor(players: Players, s: PlayerSnapshot): seq<BusEvent> {
    if s.id in players then Difference(players[s.id], s) else [ZoneDiscovered(SnapshotZone(s))]
  }

  function Published(players: Players, snapshots: seq<PlayerSnapshot>): seq<BusEvent> {
    if snapshots == [] then [] else EventsFor(players, snapshots[0]) + Published(players, snapshots[1..])
  }

  function Removals(ids: seq<string>): seq<BusEvent> {
    if ids == [] then [] else [BusEvent.ZoneRemoved(ZoneIdOf(ids[0]))] + Removals(ids[1..])
  }

  function NextPlayers(snapshots: seq<PlayerSnapshot>): Players
    decreases snapshots
  {
    if snapshots == [] then map[]
    else
      var last := snapshots[|snapshots| - 1];
      NextPlayers(snapshots[..|snapshots| - 1])[last.id := last]
  }

  ghost predicate Distinct(snapshots: seq<PlayerSnapshot>) {
    forall i, j :: 0 <= i < j < |snapshots| ==> snapshots[i].id != snapshots[j].id
  }

  /** `order` lists the players that are gone, each once: the removal order is arbitrary. */
  ghost predicate ListsGone(order: seq<string>, players: Players, next: Players) {
    forall p :: p in order <==> p in players && p !in next
  }

  class MusicAssistantAdapter {
    const bus: A.EventBus
    var players: Players

    constructor (bus: A.EventBus)
      ensures this.bus == bus && players == map[]
    {
      this.bus, players := bus, map[];
    }

    /** Publish the differences from the previous snapshot, then the removals. */
    method PublishSnapshot(snapshots: seq<PlayerSnapshot>) returns (ghost order: seq<string>)
      modifies this, bus
      ensures players == NextPlayers(snapshots)
      ensures ListsGone(order, old(players), players)
      ensures bus.log == old(bus.log) + Published(old(players), snapshots) + Removals(order)
    {
      hide EventsFor;
      var next: Players := map[];
      var i := 0;
      ghost var start := bus.log;
      while i < |snapshots|
        invariant 0 <= i <= |snapshots| && players == old(players)
        invariant next == NextPlayers(snapshots[..i])
        invariant bus.log + Published(players, snapshots[i..]) == start + Published(players, snapshots)
      {
        var snapshot := snapshots[i];
        ghost var before := bus.log;
        PublishOne(snapshot);
        next := next[snapshot.id := snapshot];
        assert snapshots[i..][0] == snapshot && snapshots[i..][1..] == snapshots[i + 1..];
        assert snapshots[..i + 1][..i] == snapshots[..i];
        assert before + (EventsFor(players, snapshot) + Published(players, snapshots[i + 1..]))
            == bus.log + Published(players, snapshots[i + 1..]);
        i := i + 1;
      }
      assert snapshots[..|snapshots|] == snapshots && snapshots[|snapshots|..] == [];
      assert bus.log == start + Published(players, snapshots);
      order := RemoveGone(next);
      players := next;
    }

    method PublishOne(s: PlayerSnapshot)
      modifies bus
      ensures bus.log == old(bus.log) + EventsFor(players, s)
    {
      hide Prefixed, StateText, TrackEvents, ModeEvents, SeekEvents, VolumeEvents;
      if s.id !in players {
        bus.Publish(ZoneDiscovered(SnapshotZone(s)));
        return;
      }
      var previous := players[s.id];
      bus.Publish(ZoneUpdated(ZoneIdOf(s.id), s.name, StateText(s.state)));
      PublishTrack(previous, s);
      PublishPosition(previous, s);
    }

    method PublishTrack(previous: PlayerSnapshot, s: PlayerSnapshot)
      modifies bus
      ensures bus.log == old(bus.log) + TrackEvents(previous, s) + ModeEvents(previous, s)
    {
      hide Prefixed, TrackChanged;
      if TrackChanged(previous.nowPlaying, s.nowPlaying) {
        match s.nowPlaying
        case None => bus.Publish(NowPlayingChanged(ZoneIdOf(s.id), None, None, None, None));
        case Some(t) =>
          bus.Publish(NowPlayingChanged(ZoneIdOf(s.id), Some(t.title), Some(t.artist), Some(t.album), t.imageKey));
      }
      var modes := ModesOf(s.nowPlaying);
      if ModesOf(previous.nowPlaying) != modes {
        var repeatMode := if modes.Some? then modes.value.repeatMode else None;
        var shuffle := if modes.Some? then modes.value.shuffle else None;
        bus.Publish(PlaybackModesChanged(ZoneIdOf(s.id), repeatMode, shuffle));
      }
    }

    method PublishPosition(previous: PlayerSnapshot, s: PlayerSnapshot)
      modifies bus
      ensures bus.log == old(bus.log) + SeekEvents(previous, s) + VolumeEvents(previous, s)
    {
      hide Prefixed, WholeSeconds;
      var seek := SeekOf(s.nowPlaying);
      if SeekOf(previous.nowPlaying) != seek && seek.Some? {
        bus.Publish(SeekPositionChanged(ZoneIdOf(s.id), WholeSeconds(seek.value)));
      }
      if (previous.volume != s.volume || previous.muted != s.muted) && s.volume.Some? {
        bus.Publish(VolumeChanged(ZoneIdOf(s.id), s.volume.value, s.muted));
      }
    }

    method RemoveGone(next: Players) returns (ghost order: seq<string>)
      modifies bus
      ensures ListsGone(order, players, next)
      ensures bus.log == old(bus.log) + Removals(order)
    {
      hide Prefixed;
      var gone := set p | p in players && p !in next;
      var left := gone;
      order := [];
      while left != {}
        invariant left <= gone && forall p :: p in order <==> p in gone && p !in left
        invariant bus.log == old(bus.log) + Removals(order)
        decreases |left|
      {
        var p :| p in left;
        bus.Publish(BusEvent.ZoneRemoved(ZoneIdOf(p)));
        RemovalsAppend(order, p);
        order, left := order + [p], left - {p};
      }
    }
  }

  lemma {:induction false} RemovalsAppend(ids: seq<string>, p: string)
    ensures Removals(ids + [p]) == Removals(ids) + [BusEvent.ZoneRemoved(ZoneIdOf(p))]
    decreases ids
  {
    hide Prefixed;
    if ids == [] {
      assert (ids + [p])[1..] == [];
    } else {
      assert (ids + [p])[1..] == ids[1..] + [p];
      RemovalsAppend(ids[1..], p);
    }
  }

  // ---------------------------------------------------------------------------
  // Agreement of one zone with one snapshot
  // ---------------------------------------------------------------------------

  /** The displayed track is the snapshot's. A reported seek position is shown exactly or in whole
      seconds. */
  predicate SameTrack(shown: Option<NowPlaying>, track: Option<NowPlaying>) {
    match (shown, track)
    case (None, None) => true
    case (Some(n), Some(t)) =>
      && n.title == t.title && n.artist == t.artist && n.album == t.album && n.imageKey == t.imageKey
      && n.repeatMode == t.repeatMode && n.shuffle == t.shuffle
      && (t.seekPosition.Some? ==>
            n.seekPosition == t.seekPosition || n.seekPosition == Some(WholeSeconds(t.seekPosition.value) as real))
    case _ => false
  }

  /** A displayed volume is the snapshot's, when the snapshot reports one. */
  predicate SameVolume(zone: Zone, s: PlayerSnapshot) {
    zone.volumeControl.Some? ==>
      && zone.volumeControl.value.outputId == Some(ZoneIdOf(s.id))
      && (s.volume.Some? ==> zone.volumeControl.value.value == s.volume.value && zone.volumeControl.value.isMuted == s.muted)
  }

  predicate Agrees(zone: Zone, s: PlayerSnapshot) {
    && zone.zoneId == ZoneIdOf(s.id) && zone.zoneName == s.name && zone.state == s.state
    && SameTrack(zone.nowPlaying, s.nowPlaying) && SameVolume(zone, s)
  }

  /** The fields no difference event can reach, as they were when the player was discovered. */
  predicate FrozenAs(zone: Zone, first: PlayerSnapshot) {
    && zone.isControllable == first.available && zone.isSeekable == first.seekable
    && zone.isNextAllowed == first.available && zone.isPreviousAllowed == first.available
    && zone.isPlayAllowed == (first.state != Playing) && zone.isPauseAllowed == (first.state == Playing)
    && (zone.volumeControl.Some? <==> first.volume.Some?)
  }

  lemma {:induction false} DiscoveryAgrees(s: PlayerSnapshot)
    ensures Agrees(SnapshotZone(s), s) && FrozenAs(SnapshotZone(s), s)
  {
  }

  lemma {:induction false} FoldAtOne(id: ZoneId, cell: Option<Zone>, e: BusEvent)
    ensures FoldAt(id, cell, [e]) == ApplyAt(id, cell, e) && FoldAt(id, cell, []) == cell
  {
    assert [e][1..] == [];
  }

  // What the three track events make of a displayed track.

  function HeardTrack(shown: Option<NowPlaying>, previous: Option<NowPlaying>,
                      now: Option<NowPlaying>): Option<NowPlaying> {
    if !TrackChanged(previous, now) then shown
    else match now
      case None => None
      case Some(t) => Heard(shown, Some(t.title), Some(t.artist), Some(t.album), t.imageKey)
  }

  function ModedTrack(shown: Option<NowPlaying>, previous: Option<NowPlaying>,
                      now: Option<NowPlaying>): Option<NowPlaying> {
    var modes := ModesOf(now);
    if ModesOf(previous) == modes || shown.None? then shown
    else if modes.Some? then Some(shown.value.(repeatMode := modes.value.repeatMode, shuffle := modes.value.shuffle))
    else Some(shown.value.(repeatMode := None, shuffle := None))
  }

  function SoughtTrack(shown: Option<NowPlaying>, previous: Option<NowPlaying>,
                       now: Option<NowPlaying>): Option<NowPlaying> {
    var seek := SeekOf(now);
    if SeekOf(previous) == seek || seek.None? || shown.None? then shown
    else Some(shown.value.(seekPosition := Some(WholeSeconds(seek.value) as real)))
  }

  lemma {:induction false} TrackEventsAt(zone: Zone, previous: PlayerSnapshot, s: PlayerSnapshot)
    requires zone.zoneId == ZoneIdOf(s.id)
    ensures FoldAt(zone.zoneId, Some(zone), TrackEvents(previous, s))
         == Some(zone.(nowPlaying := HeardTrack(zone.nowPlaying, previous.nowPlaying, s.nowPlaying)))
  {
    hide Prefixed, TrackChanged;
    var events := TrackEvents(previous, s);
    if events != [] {
      FoldAtOne(zone.zoneId, Some(zone), events[0]);
      assert events == [events[0]];
    }
  }

  lemma {:induction false} ModeEventsAt(zone: Zone, previous: PlayerSnapshot, s: PlayerSnapshot)
    requires zone.zoneId == ZoneIdOf(s.id)
    ensures FoldAt(zone.zoneId, Some(zone), ModeEvents(previous, s))
         == Some(zone.(nowPlaying := ModedTrack(zone.nowPlaying, previous.nowPlaying, s.nowPlaying)))
  {
    hide Prefixed, ModesOf;
    var events := ModeEvents(previous, s);
    if events != [] {
      FoldAtOne(zone.zoneId, Some(zone), events[0]);
      assert events == [events[0]];
    }
  }

  lemma {:induction false} SeekEventsAt(zone: Zone, previous: PlayerSnapshot, s: PlayerSnapshot)
    requires zone.zoneId == ZoneIdOf(s.id)
    ensures FoldAt(zone.zoneId, Some(zone), SeekEvents(previous, s))
         == Some(zone.(nowPlaying := SoughtTrack(zone.nowPlaying, previous.nowPlaying, s.nowPlaying)))
  {
    hide Prefixed, SeekOf, WholeSeconds;
    var events := SeekEvents(previous, s);
    if events != [] {
      FoldAtOne(zone.zoneId, Some(zone), events[0]);
      assert events == [events[0]];
    }
  }

  /** The three events together carry a track that agrees with the previous snapshot over to one
      that agrees with the next. */
  lemma {:induction false} TrackFollows(shown: Option<NowPlaying>, previous: Option<NowPlaying>,
                                        now: Option<NowPlaying>)
    requires SameTrack(shown, previous)
    ensures SameTrack(SoughtTrack(ModedTrack(HeardTrack(shown, previous, now), previous, now), previous, now), now)
  {
    hide WholeSeconds;
  }

  lemma {:induction false} TrackStep(zone: Zone, previous: PlayerSnapshot, s: PlayerSnapshot)
    requires zone.zoneId == ZoneIdOf(s.id) && SameTrack(zone.nowPlaying, previous.nowPlaying)
    ensures var cell := FoldAt(zone.zoneId, Some(zone),
                               TrackEvents(previous, s) + ModeEvents(previous, s) + SeekEvents(previous, s));
      && cell.Some? && cell.value == zone.(nowPlaying := cell.value.nowPlaying)
      && SameTrack(cell.value.nowPlaying, s.nowPlaying)
  {
    hide Prefixed, SameTrack, TrackEvents, ModeEvents, SeekEvents, HeardTrack, ModedTrack, SoughtTrack, FoldAt;
    var id, te, me, se := zone.zoneId, TrackEvents(previous, s), ModeEvents(previous, s), SeekEvents(previous, s);
    FoldAtAppend(id, Some(zone), te + me, se);
    FoldAtAppend(id, Some(zone), te, me);
    var z1 := zone.(nowPlaying := HeardTrack(zone.nowPlaying, previous.nowPlaying, s.nowPlaying));
    var z2 := z1.(nowPlaying := ModedTrack(z1.nowPlaying, previous.nowPlaying, s.nowPlaying));
    TrackEventsAt(zone, previous, s);
    ModeEventsAt(z1, previous, s);
    SeekEventsAt(z2, previous, s);
    TrackFollows(zone.nowPlaying, previous.nowPlaying, s.nowPlaying);
  }

  /** The differences turn agreement with the previous snapshot into agreement with the next, and
      leave the frozen fields alone. */
  lemma {:induction false} DifferenceAgrees(zone: Zone, previous: PlayerSnapshot, s: PlayerSnapshot,
                                            first: PlayerSnapshot)
    requires previous.id == s.id && Agrees(zone, previous) && FrozenAs(zone, first)
    ensures var cell := FoldAt(ZoneIdOf(s.id), Some(zone), Difference(previous, s));
            cell.Some? && Agrees(cell.value, s) && FrozenAs(cell.value, first)
  {
    hide Prefixed, WholeSeconds, SameTrack, TrackEvents, ModeEvents, SeekEvents, StateText, ParseState;
    var id := ZoneIdOf(s.id);
    var update := ZoneUpdated(id, s.name, StateText(s.state));
    var track := TrackEvents(previous, s) + ModeEvents(previous, s) + SeekEvents(previous, s);
    var volume := VolumeEvents(previous, s);
    assert Difference(previous, s) == [update] + track + volume;
    StateRoundTrip(s.state);
    var z1 := zone.(zoneName := s.name, state := s.state);
    FoldAtOne(id, Some(zone), update);
    FoldAtAppend(id, Some(zone), [update] + track, volume);
    FoldAtAppend(id, Some(zone), [update], track);
    TrackStep(z1, previous, s);
    var c2 := FoldAt(id, Some(z1), track);
    if volume != [] {
      FoldAtOne(id, c2, volume[0]);
      assert volume == [volume[0]];
    }
  }

  /** Differences never create a zone. */
  lemma {:induction false} DifferenceNeverDiscovers(previous: PlayerSnapshot, s: PlayerSnapshot, id: ZoneId)
    ensures FoldAt(id, None, Difference(previous, s)) == None
  {
    hide Prefixed, StateText, WholeSeconds, TrackChanged;
    FoldInert(id, None, Difference(previous, s));
  }

  // ---------------------------------------------------------------------------
  // A whole snapshot, seen from one zone
  // ---------------------------------------------------------------------------

  /** The row of a player, the last one if repeated. */
  function Row(snapshots: seq<PlayerSnapshot>, p: string): Option<PlayerSnapshot>
    decreases snapshots
  {
    if snapshots == [] then None
    else if snapshots[|snapshots| - 1].id == p then Some(snapshots[|snapshots| - 1])
    else Row(snapshots[..|snapshots| - 1], p)
  }

  lemma {:induction false} NextIsRow(snapshots: seq<PlayerSnapshot>, p: string)
    ensures p in NextPlayers(snapshots) <==> Row(snapshots, p).Some?
    ensures p in NextPlayers(snapshots) ==>
              Row(snapshots, p) == Some(NextPlayers(snapshots)[p]) && NextPlayers(snapshots)[p].id == p
    decreases snapshots
  {
    if snapshots != [] {
      NextIsRow(snapshots[..|snapshots| - 1], p);
    }
  }

  lemma {:induction false} RowIsLast(snapshots: seq<PlayerSnapshot>)
    requires snapshots != [] && Distinct(snapshots)
    ensures Row(snapshots[..|snapshots| - 1], snapshots[|snapshots| - 1].id).None?
  {
    RowMeans(snapshots[..|snapshots| - 1], snapshots[|snapshots| - 1].id);
  }

  lemma {:induction false} RowMeans(snapshots: seq<PlayerSnapshot>, p: string)
    ensures Row(snapshots, p).Some? ==> exists i :: 0 <= i < |snapshots| && snapshots[i].id == p
    decreases snapshots
  {
    if snapshots != [] {
      var init := snapshots[..|snapshots| - 1];
      RowMeans(init, p);
      if i :| 0 <= i < |init| && init[i].id == p {
        assert snapshots[i].id == p;
      }
    }
  }

  lemma {:induction false} PublishedAppend(players: Players, snapshots: seq<PlayerSnapshot>, s: PlayerSnapshot)
    ensures Published(players, snapshots + [s]) == Published(players, snapshots) + EventsFor(players, s)
    decreases snapshots
  {
    hide EventsFor;
    if snapshots == [] {
      assert (snapshots + [s])[1..] == [] && EventsFor(players, s) + [] == EventsFor(players, s);
    } else {
      assert (snapshots + [s])[1..] == snapshots[1..] + [s];
      PublishedAppend(players, snapshots[1..], s);
    }
  }

  /** The cell's volume output, if any, is named after the cell's own zone. */
  predicate OwnOutput(p: string, cell: Option<Zone>) {
    cell.Some? && cell.value.volumeControl.Some? ==> cell.value.volumeControl.value.outputId == Some(ZoneIdOf(p))
  }

  /** The event names this zone, or the output of the same name, and nothing else. */
  predicate Names(e: BusEvent, id: ZoneId) {
    match e
    case ZoneDiscovered(zone) => zone.zoneId == id
    case ZoneUpdated(target, _, _) => target == id
    case ZoneRemoved(target) => target == id
    case NowPlayingChanged(target, _, _, _, _) => target == id
    case PlaybackModesChanged(target, _, _) => target == id
    case SeekPositionChanged(target, _) => target == id
    case VolumeChanged(outputId, _, _) => outputId == id
    case AdapterStopping(_) => false
    case ZonesFlushed(_, _) => true
    case ShuttingDown => true
    case OtherEvent(_) => true
  }

  lemma {:induction false} DifferenceNames(previous: PlayerSnapshot, s: PlayerSnapshot, e: BusEvent)
    requires e in Difference(previous, s)
    ensures Names(e, ZoneIdOf(s.id)) && !e.ZoneDiscovered?
  {
    hide Prefixed, StateText, WholeSeconds, TrackChanged, ModesOf, SeekOf;
    if e in TrackEvents(previous, s) {
    } else if e in ModeEvents(previous, s) {
    } else if e in SeekEvents(previous, s) {
    } else if e in VolumeEvents(previous, s) {
    }
  }

  lemma {:induction false} NamedIsInert(e: BusEvent, id: ZoneId, p: string, cell: Option<Zone>)
    requires Names(e, id) && id != ZoneIdOf(p) && OwnOutput(p, cell)
    ensures ApplyAt(ZoneIdOf(p), cell, e) == cell
  {
    hide Prefixed, Heard, ParseState;
  }

  lemma {:induction false} OthersAreInert(players: Players, s: PlayerSnapshot, p: string, cell: Option<Zone>)
    requires s.id != p && OwnOutput(p, cell)
    ensures FoldAt(ZoneIdOf(p), cell, EventsFor(players, s)) == cell
  {
    hide Prefixed, Difference, OwnOutput, ApplyAt;
    if ZoneIdOf(s.id) == ZoneIdOf(p) {
      PrefixedInjective("musicassistant", s.id, p);
    }
    forall e | e in EventsFor(players, s) ensures ApplyAt(ZoneIdOf(p), cell, e) == cell {
      if s.id in players {
        DifferenceNames(players[s.id], s, e);
      }
      NamedIsInert(e, ZoneIdOf(s.id), p, cell);
    }
    FoldInert(ZoneIdOf(p), cell, EventsFor(players, s));
  }

  lemma {:induction false} EventsKeepOwnOutput(players: Players, s: PlayerSnapshot, cell: Option<Zone>)
    requires OwnOutput(s.id, cell)
    ensures OwnOutput(s.id, FoldAt(ZoneIdOf(s.id), cell, EventsFor(players, s)))
  {
    hide Prefixed, Difference;
    if s.id in players {
      forall e | e in EventsFor(players, s) ensures !e.ZoneDiscovered? {
        DifferenceNames(players[s.id], s, e);
      }
      KeepsOwnOutput(s.id, cell, EventsFor(players, s));
    } else {
      FoldAtOne(ZoneIdOf(s.id), cell, ZoneDiscovered(SnapshotZone(s)));
    }
  }

  lemma {:induction false} EventKeepsOwnOutput(p: string, cell: Option<Zone>, e: BusEvent)
    requires OwnOutput(p, cell) && !e.ZoneDiscovered?
    ensures OwnOutput(p, ApplyAt(ZoneIdOf(p), cell, e))
  {
    hide Prefixed, Heard, ParseState;
  }

  lemma {:induction false} KeepsOwnOutput(p: string, cell: Option<Zone>, events: seq<BusEvent>)
    requires OwnOutput(p, cell) && forall e :: e in events ==> !e.ZoneDiscovered?
    ensures OwnOutput(p, FoldAt(ZoneIdOf(p), cell, events))
    decreases events
  {
    hide ApplyAt, OwnOutput;
    if events != [] {
      assert events[0] in events && forall e :: e in events[1..] ==> e in events;
      EventKeepsOwnOutput(p, cell, events[0]);
      KeepsOwnOutput(p, ApplyAt(ZoneIdOf(p), cell, events[0]), events[1..]);
    }
  }

  /** Of all that a snapshot publishes, one zone sees exactly its own player's events. */
  lemma {:induction false} PublishedAt(players: Players, snapshots: seq<PlayerSnapshot>, p: string, cell: Option<Zone>)
    requires Distinct(snapshots) && OwnOutput(p, cell)
    ensures var row := Row(snapshots, p); var after := FoldAt(ZoneIdOf(p), cell, Published(players, snapshots));
      && OwnOutput(p, after)
      && after == if row.Some? then FoldAt(ZoneIdOf(p), cell, EventsFor(players, row.value)) else cell
    decreases snapshots
  {
    hide EventsFor, Prefixed, OwnOutput, FoldAt;
    if snapshots == [] {
      FoldAtOne(ZoneIdOf(p), cell, ShuttingDown);
    } else {
      var init, last := snapshots[..|snapshots| - 1], snapshots[|snapshots| - 1];
      assert snapshots == init + [last];
      PublishedAppend(players, init, last);
      FoldAtAppend(ZoneIdOf(p), cell, Published(players, init), EventsFor(players, last));
      PublishedAt(players, init, p, cell);
      if last.id == p {
        RowIsLast(snapshots);
        EventsKeepOwnOutput(players, last, cell);
      } else {
        OthersAreInert(players, last, p, FoldAt(ZoneIdOf(p), cell, Published(players, init)));
      }
    }
  }

  lemma {:induction false} RemovalsAt(ids: seq<string>, p: string, cell: Option<Zone>)
    ensures FoldAt(ZoneIdOf(p), cell, Removals(ids)) == if p in ids then None else cell
    decreases ids
  {
    hide Prefixed;
    if ids != [] {
      if ZoneIdOf(ids[0]) == ZoneIdOf(p) {
        PrefixedInjective("musicassistant", ids[0], p);
      }
      assert Removals(ids)[1..] == Removals(ids[1..]);
      RemovalsAt(ids[1..], p, ApplyAt(ZoneIdOf(p), cell, BusEvent.ZoneRemoved(ZoneIdOf(ids[0]))));
    }
  }

  // ---------------------------------------------------------------------------
  // The aggregate follows the snapshots
  // ---------------------------------------------------------------------------

  /** One displayed cell is right for a player: present exactly when the player is, and agreeing
      with its latest snapshot, with the unreachable fields as first discovered. */
  predicate Follows(cell: Option<Zone>, p: string, players: Players, first: Players) {
    && (cell.Some? <==> p in players)
    && (p in players ==> p in first && players[p].id == p && Agrees(cell.value, players[p]) && FrozenAs(cell.value, first[p]))
  }

  /** The discovery snapshots after a new snapshot. */
  function NextFirst(players: Players, first: Players, next: Players): Players {
    map p | p in next :: if p in players && p in first then first[p] else next[p]
  }

  /** From a right cell, everything a new snapshot publishes leads to a right cell. */
  lemma {:induction false} SnapshotFollows(players: Players, first: Players, snapshots: seq<PlayerSnapshot>,
                                           order: seq<string>,
                                           p: string, cell: Option<Zone>)
    requires Distinct(snapshots) && ListsGone(order, players, NextPlayers(snapshots))
    requires Follows(cell, p, players, first)
    ensures var next := NextPlayers(snapshots);
      Follows(FoldAt(ZoneIdOf(p), cell, Published(players, snapshots) + Removals(order)), p, next, NextFirst(players, first, next))
  {
    hide Prefixed, Agrees, FrozenAs, Difference, NextPlayers, Row, Published, FoldAt;
    var next, row := NextPlayers(snapshots), Row(snapshots, p);
    NextIsRow(snapshots, p);
    FollowsOwnOutput(cell, p, players, first);
    FoldAtAppend(ZoneIdOf(p), cell, Published(players, snapshots), Removals(order));
    PublishedAt(players, snapshots, p, cell);
    RemovalsAt(order, p, FoldAt(ZoneIdOf(p), cell, Published(players, snapshots)));
    if row.Some? {
      if p in players {
        DifferenceAgrees(cell.value, players[p], row.value, first[p]);
      } else {
        FoldAtOne(ZoneIdOf(p), cell, ZoneDiscovered(SnapshotZone(row.value)));
        DiscoveryAt(row.value, cell);
      }
    }
  }

  lemma {:induction false} DiscoveryAt(s: PlayerSnapshot, cell: Option<Zone>)
    ensures ApplyAt(ZoneIdOf(s.id), cell, ZoneDiscovered(SnapshotZone(s))) == Some(SnapshotZone(s))
    ensures Agrees(SnapshotZone(s), s) && FrozenAs(SnapshotZone(s), s)
  {
    DiscoveryAgrees(s);
  }

  lemma {:induction false} FollowsOwnOutput(cell: Option<Zone>, p: string, players: Players, first: Players)
    requires Follows(cell, p, players, first)
    ensures OwnOutput(p, cell)
  {
  }

  // ---------------------------------------------------------------------------
  // Runs
  // ---------------------------------------------------------------------------

  /** The publisher's cache, the aggregate's zones, and the events between them. */
  datatype MaSystem = MaSystem(zones: ZoneMap, queue: seq<BusEvent>, players: Players, first: Players)

  datatype MaStep =
    | TakeSnapshot(snapshots: seq<PlayerSnapshot>, order: seq<string>)
      /** Another producer publishes. */
    | Foreign(event: BusEvent)
      /** Another lane rewrites other adapters' zones. */
    | Elsewhere(zones: ZoneMap)
    | Receive

  /** The event concerns no Music Assistant zone and stops some other adapter at most. */
  predicate IsForeign(e: BusEvent) {
    match e
    case ZoneDiscovered(zone) => !OwnedBy("musicassistant", zone.zoneId)
    case ZoneUpdated(id, _, _) => !OwnedBy("musicassistant", id)
    case ZoneRemoved(id) => !OwnedBy("musicassistant", id)
    case NowPlayingChanged(id, _, _, _, _) => !OwnedBy("musicassistant", id)
    case PlaybackModesChanged(id, _, _) => !OwnedBy("musicassistant", id)
    case SeekPositionChanged(id, _) => !OwnedBy("musicassistant", id)
    case VolumeChanged(outputId, _, _) => !OwnedBy("musicassistant", outputId)
    case AdapterStopping(adapter) => adapter != "musicassistant" && ':' !in adapter
    case ZonesFlushed(_, _) => true
    case ShuttingDown => true
    case OtherEvent(_) => true
  }

  /** Music Assistant outputs are named after their zones. */
  ghost predicate NamesOutputs(owner: C.Owner) {
    forall p :: owner(ZoneIdOf(p)) == ZoneIdOf(p)
  }

  /** Other producers may do anything to other zones, as long as every output keeps to its own zone. */
  ghost predicate Legal(owner: C.Owner, s: MaSystem, step: MaStep) {
    match step
    case TakeSnapshot(snapshots, order) => Distinct(snapshots) && ListsGone(order, s.players, NextPlayers(snapshots))
    case Foreign(e) => IsForeign(e) && C.OwnedEvent(owner, e)
    case Elsewhere(zones) =>
      C.OwnedMap(owner, zones) && forall p :: Cell(zones, ZoneIdOf(p)) == Cell(s.zones, ZoneIdOf(p))
    case Receive => true
  }

  function MaNext(s: MaSystem, step: MaStep): MaSystem {
    match step
    case TakeSnapshot(snapshots, order) =>
      var next := NextPlayers(snapshots);
      MaSystem(s.zones, s.queue + (Published(s.players, snapshots) + Removals(order)), next,
               NextFirst(s.players, s.first, next))
    case Foreign(e) => s.(queue := s.queue + [e])
    case Elsewhere(zones) => s.(zones := zones)
    case Receive =>
      if s.queue == [] then s
      else
        var e := s.queue[0];
        var ack :=
          if e.AdapterStopping? then [ZonesFlushed(e.adapter, set id | id in s.zones && OwnedBy(e.adapter, id))] else [];
        s.(zones := Apply(s.zones, e), queue := s.queue[1..] + ack)
  }

  /** What a player's zone will be once everything queued is applied. */
  function Eventually(s: MaSystem, p: string): Option<Zone> {
    FoldAt(ZoneIdOf(p), Cell(s.zones, ZoneIdOf(p)), s.queue)
  }

  /** Every zone, present or pending, has its volume output to itself. */
  ghost predicate Owned(owner: C.Owner, s: MaSystem) {
    NamesOutputs(owner) && C.OwnedMap(owner, s.zones) && forall e :: e in s.queue ==> C.OwnedEvent(owner, e)
  }

  ghost predicate Tracks(owner: C.Owner, s: MaSystem) {
    Owned(owner, s) && forall p :: Follows(Eventually(s, p), p, s.players, s.first)
  }

  /** A publisher that has seen no player, and an aggregator without zones. */
  lemma {:induction false} StartTracks(owner: C.Owner)
    requires NamesOutputs(owner)
    ensures Tracks(owner, MaSystem(map[], [], map[], map[]))
  {
    hide Prefixed;
    var start := MaSystem(map[], [], map[], map[]);
    forall p ensures Follows(Eventually(start, p), p, map[], map[]) {
      FoldAtOne(ZoneIdOf(p), None, ShuttingDown);
    }
    assert forall id :: Cell(map[], id) == None;
  }

  /** A reception here is the aggregator's own. */
  lemma {:induction false} ReceptionIsTheAggregators(s: MaSystem, a: P.Aggregate)
    requires a.body.zones == s.zones
    ensures var next := MaNext(s, Receive);
            E.ReceiveOne(E.System(a, s.queue)) == E.System(a.(body := a.body.(zones := next.zones)), next.queue)
  {
  }

  /** What another producer publishes goes to the same bus. */
  lemma {:induction false} PublicationIsTheBus(s: MaSystem, a: P.Aggregate, e: BusEvent)
    ensures E.Next(E.System(a, s.queue), E.Publish(e)) == E.System(a, MaNext(s, Foreign(e)).queue)
    ensures MaNext(s, Foreign(e)).zones == s.zones
  {
  }

  lemma {:induction false} PublishedIsOwned(owner: C.Owner, players: Players, snapshots: seq<PlayerSnapshot>, e: BusEvent)
    requires NamesOutputs(owner) && e in Published(players, snapshots)
    ensures C.OwnedEvent(owner, e)
    decreases snapshots
  {
    hide Difference, Prefixed;
    if e in EventsFor(players, snapshots[0]) {
      var s := snapshots[0];
      if s.id in players {
        EventsForKnown(players, s, e);
      }
    } else {
      PublishedIsOwned(owner, players, snapshots[1..], e);
    }
  }

  lemma {:induction false} EventsForKnown(players: Players, s: PlayerSnapshot, e: BusEvent)
    requires s.id in players && e in EventsFor(players, s)
    ensures !e.ZoneDiscovered?
  {
    hide Difference, Prefixed;
    DifferenceNames(players[s.id], s, e);
  }

  lemma {:induction false} RemovalsRemove(ids: seq<string>, e: BusEvent)
    requires e in Removals(ids)
    ensures e.ZoneRemoved?
    decreases ids
  {
    hide Prefixed;
    if e in Removals(ids)[1..] {
      RemovalsRemove(ids[1..], e);
    }
  }

  lemma {:induction false} StepStaysOwned(owner: C.Owner, s: MaSystem, step: MaStep)
    requires Owned(owner, s) && Legal(owner, s, step)
    ensures Owned(owner, MaNext(s, step))
  {
    hide C.OwnedMap, C.OwnedEvent, Apply, Published, Removals, NextPlayers, NextFirst, Prefixed, NamesOutputs;
    var next := MaNext(s, step);
    match step
    case TakeSnapshot(snapshots, order) =>
      forall e | e in next.queue ensures C.OwnedEvent(owner, e) {
        if e in Published(s.players, snapshots) {
          PublishedIsOwned(owner, s.players, snapshots, e);
        } else if e in Removals(order) {
          RemovalsRemove(order, e);
          E.RemovalIsOwned(owner, e);
        }
      }
    case Foreign(e) =>
    case Elsewhere(zones) =>
    case Receive =>
      if s.queue != [] {
        assert s.queue[0] in s.queue;
        E.ApplyStaysOwned(owner, s.zones, s.queue[0]);
        AckIsOwned(owner, next.queue[|s.queue| - 1..]);
      }
  }

  lemma {:induction false} AckIsOwned(owner: C.Owner, ack: seq<BusEvent>)
    requires forall e :: e in ack ==> e.ZonesFlushed?
    ensures forall e :: e in ack ==> C.OwnedEvent(owner, e)
  {
  }

  lemma {:induction false} ForeignIsInert(e: BusEvent, p: string, cell: Option<Zone>)
    requires IsForeign(e) && OwnOutput(p, cell)
    ensures ApplyAt(ZoneIdOf(p), cell, e) == cell
  {
    PrefixedIsOwned("musicassistant", p);
    hide Prefixed, Heard, ParseState, OwnedBy;
    if e.AdapterStopping? && OwnedBy(e.adapter, ZoneIdOf(p)) {
      OwnerIsUnique(e.adapter, "musicassistant", ZoneIdOf(p));
    }
  }

  lemma {:induction false} MaStepTracks(owner: C.Owner, s: MaSystem, step: MaStep, p: string)
    requires Legal(owner, s, step) && Follows(Eventually(s, p), p, s.players, s.first)
    ensures Follows(Eventually(MaNext(s, step), p), p, MaNext(s, step).players, MaNext(s, step).first)
  {
    hide Prefixed, Follows, Apply, ApplyAt, Published, NextPlayers, NextFirst, Removals, Distinct, IsForeign;
    var id, cell := ZoneIdOf(p), Cell(s.zones, ZoneIdOf(p));
    match step
    case TakeSnapshot(snapshots, order) =>
      FoldAtAppend(id, cell, s.queue, Published(s.players, snapshots) + Removals(order));
      SnapshotFollows(s.players, s.first, snapshots, order, p, Eventually(s, p));
    case Foreign(e) =>
      FoldAtAppend(id, cell, s.queue, [e]);
      FoldAtOne(id, Eventually(s, p), e);
      FollowsOwnOutput(Eventually(s, p), p, s.players, s.first);
      ForeignIsInert(e, p, Eventually(s, p));
    case Elsewhere(zones) =>
      assert Cell(zones, ZoneIdOf(p)) == cell;
    case Receive =>
      if s.queue != [] {
        var rest := s.queue[1..];
        var ack := MaNext(s, step).queue[|rest|..];
        assert MaNext(s, step).queue == rest + ack;
        ApplyIsPointwise(s.zones, s.queue[0], id);
        FoldAtAppend(id, ApplyAt(id, cell, s.queue[0]), rest, ack);
        AckIsInert(id, FoldAt(id, ApplyAt(id, cell, s.queue[0]), rest), ack);
      }
  }

  lemma {:induction false} AckIsInert(id: ZoneId, cell: Option<Zone>, ack: seq<BusEvent>)
    requires |ack| <= 1 && forall e :: e in ack ==> e.ZonesFlushed?
    ensures FoldAt(id, cell, ack) == cell
  {
    FoldInert(id, cell, ack);
  }

  ghost predicate LegalRun(owner: C.Owner, s: MaSystem, steps: seq<MaStep>)
    decreases steps
  {
    steps == [] || (Legal(owner, s, steps[0]) && LegalRun(owner, MaNext(s, steps[0]), steps[1..]))
  }

  function MaRun(s: MaSystem, steps: seq<MaStep>): MaSystem
    decreases steps
  {
    if steps == [] then s else MaRun(MaNext(s, steps[0]), steps[1..])
  }

  /** The differences refine plain replacement: over any run of snapshots (distinct players, the
      adapter not stopped) interleaved with the event loop and other adapters' traffic, the zones
      that will be displayed are exactly the last snapshot's players and agree with it; when the
      queue is empty they are displayed. No two zones ever share an output, so a volume event has
      one zone to find. */
  lemma {:induction false} DifferencesRefineReplacement(owner: C.Owner, s: MaSystem, steps: seq<MaStep>)
    requires Tracks(owner, s) && LegalRun(owner, s, steps)
    ensures var end := MaRun(s, steps);
      && Tracks(owner, end) && UniqueOutputs(end.zones)
      && (end.queue == [] ==> forall p :: Follows(Cell(end.zones, ZoneIdOf(p)), p, end.players, end.first))
    decreases steps
  {
    hide Follows, Legal, MaNext, FoldAt, UniqueOutputs;
    if steps == [] {
      C.OwnedOutputsAreUnique(owner, s.zones);
      forall p | s.queue == [] ensures Follows(Cell(s.zones, ZoneIdOf(p)), p, s.players, s.first) {
        FoldAtOne(ZoneIdOf(p), Cell(s.zones, ZoneIdOf(p)), ShuttingDown);
        assert Follows(Eventually(s, p), p, s.players, s.first);
      }
    } else {
      var next := MaNext(s, steps[0]);
      forall p ensures Follows(Eventually(next, p), p, next.players, next.first) {
        MaStepTracks(owner, s, steps[0], p);
      }
      StepStaysOwned(owner, s, steps[0]);
      DifferencesRefineReplacement(owner, next, steps[1..]);
    }
  }

  // ---------------------------------------------------------------------------
  // After a stop
  // ---------------------------------------------------------------------------

  /** Stopping flushes the zones but not the publisher's cache. From there, the first snapshot of
      the restarted publisher brings back exactly the players it had not known before the stop:
      a known player's differences find no zone to update. */
  lemma {:induction false} RestartForgetsKnownPlayers(players: Players, snapshots: seq<PlayerSnapshot>,
                                                      order: seq<string>, p: string)
    requires Distinct(snapshots) && ListsGone(order, players, NextPlayers(snapshots))
    ensures FoldAt(ZoneIdOf(p), None, Published(players, snapshots) + Removals(order)).Some?
            <==> p in NextPlayers(snapshots) && p !in players
  {
    hide Prefixed, Difference, NextPlayers, Row, Published, FoldAt;
    var row := Row(snapshots, p);
    NextIsRow(snapshots, p);
    FoldAtAppend(ZoneIdOf(p), None, Published(players, snapshots), Removals(order));
    PublishedAt(players, snapshots, p, None);
    RemovalsAt(order, p, FoldAt(ZoneIdOf(p), None, Published(players, snapshots)));
    if row.Some? {
      if p in players {
        DifferenceNeverDiscovers(players[p], row.value, ZoneIdOf(p));
      } else {
        FoldAtOne(ZoneIdOf(p), None, ZoneDiscovered(SnapshotZone(row.value)));
        DiscoveryAt(row.value, None);
      }
    }
  }
}
