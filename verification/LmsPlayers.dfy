/** LMS membership (src/adapters/lms.rs): the poller, the CLI observer and the command readback
    all update one player cache and publish through one bridge, in a reliable composition. Each
    step runs to completion; the aggregator's event loop takes its turns whenever it likes, so it may
    lag arbitrarily far behind the echoes of what was published. */
module LmsPlayers {
  import opened Zones
  import opened ZoneEvents
  import opened Projection
  import C = EchoConvergence
  import E = EchoRuns
  import A = Aggregator
  import P = LmsPublication

  type PlayerId = string

  datatype LmsPlayer = LmsPlayer(
    playerId: PlayerId,
    name: string,
    connected: bool,
    status: PlayerStatus)

  /** What a `status` request reports about one player. */
  datatype PlayerStatus = PlayerStatus(
    state: string,
    power: bool,
    volume: int,
    muted: bool,
    time: real,
    duration: real,
    title: string,
    artist: string,
    album: string,
    coverId: Option<string>,
    artworkUrl: Option<string>)

  /** Status fields replace the inventory's, except that either source may report a mute. */
  function Refreshed(player: LmsPlayer, status: PlayerStatus): LmsPlayer {
    player.(status := status.(muted := player.status.muted || status.muted))
  }

  function ZoneIdOf(player: PlayerId): ZoneId {
    Prefixed("lms", player)
  }

  /** `lms_player_to_zone`; the update timestamp is not modelled. */
  function PlayerZone(p: LmsPlayer): Zone {
    var id, s := ZoneIdOf(p.playerId), p.status;
    Zone(
      id, p.name, ParseState(s.state),
      Some(VolumeControl(s.volume as real, 0.0, 100.0, 2.5, s.muted, Percentage, Some(id))),
      if s.title != ""
      then Some(NowPlaying(s.title, s.artist, s.album, if s.artworkUrl.Some? then s.artworkUrl else s.coverId,
                           Some(s.time), Some(s.duration), None, None, None))
      else None,
      "lms", s.power && p.connected, true, 0, s.state != "playing", s.state == "playing", true, true)
  }

  type Cache = map<PlayerId, LmsPlayer>

  ghost predicate Keyed(players: Cache) {
    forall p :: p in players ==> players[p].playerId == p
  }

  /** The `lms:` zones are exactly these players. */
  ghost predicate MembersAre(zones: ZoneMap, ids: set<PlayerId>) {
    forall id :: OwnedBy("lms", id) ==> (id in zones <==> id[|"lms:"|..] in ids)
  }

  /** These players' zones show the cached observation, up to rounding of the seek position. */
  ghost predicate Shows(zones: ZoneMap, players: Cache, ids: set<PlayerId>) {
    forall p :: p in ids && p in players ==>
      Cell(zones, ZoneIdOf(p)).Some? && Rounded(Cell(zones, ZoneIdOf(p)).value) == Rounded(PlayerZone(players[p]))
  }

  /** Zones of other adapters are as before. */
  ghost predicate OthersKept(before: ZoneMap, after: ZoneMap) {
    forall id :: !OwnedBy("lms", id) ==> Cell(after, id) == Cell(before, id)
  }

  /** LMS outputs are named after their zones. */
  ghost predicate NamesOutputs(owner: C.Owner) {
    forall p :: owner(ZoneIdOf(p)) == ZoneIdOf(p)
  }

  lemma {:induction false} RawId(p: PlayerId)
    ensures OwnedBy("lms", ZoneIdOf(p)) && ZoneIdOf(p)[|"lms:"|..] == p
    ensures Parses(ZoneIdOf(p))
  {
    assert ZoneIdOf(p) == "lms" + ":" + p;
    assert "lms" in KNOWN_ADAPTERS;
  }

  lemma {:induction false} IdFromRaw(id: ZoneId)
    requires OwnedBy("lms", id)
    ensures ZoneIdOf(id[|"lms:"|..]) == id
  {
  }

  lemma {:induction false} PlayerZoneIsAnnounceable(owner: C.Owner, p: LmsPlayer)
    requires NamesOutputs(owner)
    ensures C.OwnsOutput(owner, PlayerZone(p)) && Parses(PlayerZone(p).zoneId)
  {
    RawId(p.playerId);
  }

  // ---------------------------------------------------------------------------
  // One publication
  // ---------------------------------------------------------------------------

  /** A one-entry LMS update numbered ahead of the aggregator's cursor is committed whole. */
  lemma {:induction false} OneEntryCommit(a: Aggregate, sequence: nat, entry: Entry)
    requires P.CursorWithin(a, sequence - 1)
    ensures var u := P.LmsUpdate(sequence, entry); var c := Commit(a, u);
      && Admitted(a, u) && c.outcome.Committed? && P.CursorWithin(c.state, sequence)
      && c.state.body == ApplyEntry(Effect(a.body, [], []), entry, 0, a.revision + 1).body
  {
    hide ApplyEntry, Echoes, Retractions;
    var u, start := P.LmsUpdate(sequence, entry), Effect(a.body, [], []);
    assert u.source.Identity() == "lms";
    assert u.entries[1..] == [];
    assert ApplyEntries(ApplyEntry(start, entry, 0, a.revision + 1), [], 0, a.revision + 1)
        == ApplyEntry(start, entry, 0, a.revision + 1);
  }

  lemma {:induction false} ZoneCommitSettles(owner: C.Owner, s: E.System, seen: ZoneMap, sequence: nat, key: string,
                                             zone: Zone)
    requires E.Lagging(owner, s, seen) && P.CursorWithin(s.aggregate, sequence - 1)
    requires C.OwnsOutput(owner, zone) && Parses(zone.zoneId)
    ensures var u := P.LmsUpdate(sequence, Entry(key, ZonePayload(zone)));
      E.Lagging(owner, E.Next(s, E.CommitStep(u)), seen[zone.zoneId := Rounded(zone)])
  {
    hide E.Lagging, E.Next, E.Settles, Parses, C.OwnsOutput, Rounded;
    var u := P.LmsUpdate(sequence, Entry(key, ZonePayload(zone)));
    OneEntryCommit(s.aggregate, sequence, u.entries[0]);
    E.AdditionsSettle(s, u);
    E.StepStaysLagging(owner, s, seen, E.CommitStep(u));
    IdealOfOne(s, seen, u);
  }

  lemma {:induction false} RemovalCommitSettles(owner: C.Owner, s: E.System, seen: ZoneMap, sequence: nat,
                                                key: string, id: ZoneId)
    requires E.Lagging(owner, s, seen) && P.CursorWithin(s.aggregate, sequence - 1)
    requires id in s.aggregate.body.zones
    ensures var u := P.LmsUpdate(sequence, Entry(key, ZoneRetired(id)));
      E.Lagging(owner, E.Next(s, E.CommitStep(u)), seen - {id})
  {
    hide E.Lagging, E.Next, E.Settles;
    var u := P.LmsUpdate(sequence, Entry(key, ZoneRetired(id)));
    OneEntryCommit(s.aggregate, sequence, u.entries[0]);
    E.RemovalSettlesExactly(s, u, id);
    E.StepStaysLagging(owner, s, seen, E.CommitStep(u));
    IdealOfOne(s, seen, u);
  }

  lemma {:induction false} IdealOfOne(s: E.System, seen: ZoneMap, u: Update)
    requires |u.entries| == 1 && Admitted(s.aggregate, u)
    ensures E.Ideal(s, seen, E.CommitStep(u))
         == C.SequentialEntry(seen, Effect(s.aggregate.body, [], []), u.entries[0].payload)
  {
    hide C.SequentialEntry, ApplyEntry, Admitted;
    var start, revision := Effect(s.aggregate.body, [], []), s.aggregate.revision + 1;
    var next := C.SequentialEntry(seen, start, u.entries[0].payload);
    var once := ApplyEntry(start, u.entries[0], u.source.epoch, revision);
    assert u.entries[1..] == [];
    assert C.SequentialEntries(next, once, u.entries[1..], u.source.epoch, revision) == next;
  }

  // ---------------------------------------------------------------------------
  // The adapter
  // ---------------------------------------------------------------------------

  /** The cache after the poll's merge loop over the first `n` inventory rows: a row whose status
      request failed leaves the cache alone. */
  function Merged(players: Cache, inventory: seq<LmsPlayer>, statuses: map<PlayerId, PlayerStatus>, n: nat): Cache
    requires n <= |inventory|
  {
    if n == 0 then players
    else
      var rest, row := Merged(players, inventory, statuses, n - 1), inventory[n - 1];
      if row.playerId in statuses then rest[row.playerId := Refreshed(row, statuses[row.playerId])] else rest
  }

  predicate ReportedConnected(inventory: seq<LmsPlayer>, p: PlayerId) {
    exists i | 0 <= i < |inventory| :: inventory[i].connected && inventory[i].playerId == p
  }

  /** The cache a poll ends with: merged, then reduced to the connected inventory. */
  function Polled(players: Cache, inventory: seq<LmsPlayer>, statuses: map<PlayerId, PlayerStatus>): Cache {
    var merged := Merged(players, inventory, statuses, |inventory|);
    map p | p in merged && ReportedConnected(inventory, p) :: merged[p]
  }

  /** A CLI notification, with the outcome of the requests it triggers. */
  datatype CliEvent =
      /** A playlist change, and the status read afterwards if that succeeded. */
    | PlaylistChanged(player: PlayerId, status: Option<PlayerStatus>)
    | VolumeSet(player: PlayerId, value: real, isRelative: bool)
    | MuteSet(player: PlayerId, muted: bool)
    | PowerSet(player: PlayerId, power: bool)
      /** A client appeared: its status if readable, and the server's inventory if readable. */
    | ClientNew(player: PlayerId, status: Option<PlayerStatus>, inventory: Option<seq<LmsPlayer>>)
    | ClientDisconnect(player: PlayerId)
    | Ignored

  function Clamped(volume: real): real {
    if volume < 0.0 then 0.0 else if volume > 100.0 then 100.0 else volume
  }

  /** The first inventory row of a player. */
  function FirstRow(inventory: seq<LmsPlayer>, p: PlayerId): Option<LmsPlayer>
    decreases inventory
  {
    if inventory == [] then None
    else if inventory[0].playerId == p then Some(inventory[0])
    else FirstRow(inventory[1..], p)
  }

  lemma {:induction false} FirstRowIsFound(inventory: seq<LmsPlayer>, p: PlayerId)
    ensures FirstRow(inventory, p).Some? <==> exists i :: 0 <= i < |inventory| && inventory[i].playerId == p
    ensures FirstRow(inventory, p).Some? ==> FirstRow(inventory, p).value.playerId == p
    decreases inventory
  {
    if inventory != [] && inventory[0].playerId != p {
      FirstRowIsFound(inventory[1..], p);
      if i :| 0 <= i < |inventory| && inventory[i].playerId == p {
        assert inventory[1..][i - 1] == inventory[i];
      }
    }
  }

  /** The cached name if any, else the server's, else the id. */
  function NameFor(players: Cache, p: PlayerId, inventory: Option<seq<LmsPlayer>>): string {
    if p in players && players[p].name != "" then players[p].name
    else
      var row := if inventory.Some? then FirstRow(inventory.value, p) else None;
      var named := if row.Some? then row.value.name else "";
      if named != "" then named else p
  }

  /** The row a client announcement creates: only these status fields are copied. */
  function Announced(p: PlayerId, name: string, s: PlayerStatus): LmsPlayer {
    LmsPlayer(p, name, true, PlayerStatus(s.state, s.power, s.volume, false, 0.0, 0.0, s.title, s.artist, s.album, None, None))
  }

  function WithStatus(players: Cache, p: PlayerId, status: PlayerStatus): Cache {
    if p in players then players[p := players[p].(status := status)] else players
  }

  /** The cache after one CLI event. */
  function Notified(players: Cache, e: CliEvent): Cache {
    match e
    case PlaylistChanged(p, status) =>
      if status.None? || p !in players then players
      else WithStatus(players, p, status.value.(power := players[p].status.power, muted := players[p].status.muted))
    case VolumeSet(p, value, isRelative) =>
      if p !in players then players
      else
        var volume := if isRelative then players[p].status.volume as real + value else value;
        WithStatus(players, p, players[p].status.(volume := Round(Clamped(volume)), muted := false))
    case MuteSet(p, muted) =>
      if p !in players then players else WithStatus(players, p, players[p].status.(muted := muted))
    case PowerSet(p, power) =>
      if p !in players then players else WithStatus(players, p, players[p].status.(power := power))
    case ClientNew(p, status, inventory) =>
      if status.None? then players else players[p := Announced(p, NameFor(players, p, inventory), status.value)]
    case ClientDisconnect(p) => players - {p}
    case Ignored => players
  }

  /** The player whose zone the event republishes. */
  function Republished(e: CliEvent): Option<PlayerId> {
    match e
    case PlaylistChanged(p, status) => if status.Some? then Some(p) else None
    case VolumeSet(p, _, _) => Some(p)
    case MuteSet(p, _) => Some(p)
    case PowerSet(p, _) => Some(p)
    case ClientNew(p, status, _) => if status.Some? then Some(p) else None
    case ClientDisconnect(_) => None
    case Ignored => None
  }

  /** One step of any of the observers, or anything that happens outside: a turn of the aggregator's event
      loop, or another producer's commit or publication. A poll publishes the players it is left with and
      retires those it drops, each in whatever order its maps yield. */
  datatype Step =
    | Poll(inventory: seq<LmsPlayer>, statuses: map<PlayerId, PlayerStatus>, shown: seq<PlayerId>, gone: seq<PlayerId>)
    | Cli(event: CliEvent)
    | Readback(player: PlayerId, inventory: seq<LmsPlayer>, status: Option<PlayerStatus>)
    | Refresh(player: PlayerId, reported: PlayerStatus)
    | Outside(step: E.Step)

  function AfterStep(players: Cache, step: Step): Cache {
    match step
    case Poll(inventory, statuses, _, _) => Polled(players, inventory, statuses)
    case Cli(e) => Notified(players, e)
    case Readback(p, inventory, status) =>
      if FirstRow(inventory, p).Some? && status.Some?
      then players[p := Refreshed(FirstRow(inventory, p).value, status.value)]
      else players
    case Refresh(p, status) =>
      if p !in players then players
      else
        var s := players[p].status;
        players[p := players[p].(status := s.(state := status.state, volume := status.volume, time := status.time))]
    case Outside(_) => players
  }

  /** Right after a poll, whatever was cached before, only players that poll reported connected are left,
      and all of those whose status it could read. */
  lemma {:induction false} PollDecidesMembership(players: Cache, step: Step)
    requires step.Poll?
    ensures forall p :: p in AfterStep(players, step) ==> ReportedConnected(step.inventory, p)
    ensures forall p :: p in step.statuses && ReportedConnected(step.inventory, p) ==> p in AfterStep(players, step)
  {
    forall p | p in step.statuses && ReportedConnected(step.inventory, p) ensures p in AfterStep(players, step) {
      MergedHasRows(players, step.inventory, step.statuses, |step.inventory|, p);
    }
  }

  lemma {:induction false} MergedHasRows(players: Cache, inventory: seq<LmsPlayer>, statuses: map<PlayerId,
                                         PlayerStatus>,
                                         n: nat, p: PlayerId)
    requires n <= |inventory| && p in statuses
    requires p in players || exists i | 0 <= i < n :: inventory[i].playerId == p
    ensures p in Merged(players, inventory, statuses, n)
  {
    if n > 0 && inventory[n - 1].playerId != p {
      MergedHasRows(players, inventory, statuses, n - 1, p);
    }
  }

  // ---------------------------------------------------------------------------
  // The adapter and the aggregator together
  // ---------------------------------------------------------------------------

  /** What an observer sends through the bridge. */
  datatype Publication = Show(player: LmsPlayer) | Retire(id: PlayerId) {
    function Subject(): PlayerId {
      match this
      case Show(player) => player.playerId
      case Retire(id) => id
    }
  }

  function EntryOf(pub: Publication): Entry {
    match pub
    case Show(player) => Entry("zone:" + PlayerZone(player).zoneId, ZonePayload(PlayerZone(player)))
    case Retire(id) => Entry("zone:" + ZoneIdOf(id), ZoneRetired(ZoneIdOf(id)))
  }

  /** The aggregator with its pending events, the bridge's counter, and the cache of the observers. */
  datatype Lms = Lms(system: E.System, sequence: nat, players: Cache) {
    function Zones(): ZoneMap { system.aggregate.body.zones }

    /** The zones once every pending event has been applied. */
    function Drained(): ZoneMap { E.Eventually(system) }
  }

  function Submitted(l: Lms, entry: Entry): Lms {
    l.(system := E.Next(l.system, E.CommitStep(P.LmsUpdate(l.sequence + 1, entry))), sequence := l.sequence + 1)
  }

  function PublishedAll(l: Lms, pubs: seq<Publication>): Lms
    decreases pubs
  {
    if pubs == [] then l else PublishedAll(Submitted(l, EntryOf(pubs[0])), pubs[1..])
  }

  /** The order names each of these players once. */
  ghost predicate Lists(order: seq<PlayerId>, ids: set<PlayerId>) {
    && (forall p :: p in order <==> p in ids)
    && (forall i, j :: 0 <= i < j < |order| ==> order[i] != order[j])
  }

  ghost predicate Legal(players: Cache, step: Step) {
    match step
    case Poll(inventory, statuses, shown, gone) =>
      var next := Polled(players, inventory, statuses);
      Lists(shown, next.Keys) && Lists(gone, players.Keys - next.Keys)
    case _ => true
  }

  /** The event is not about an LMS zone, names no LMS output, and neither flushes LMS nor shuts down. */
  predicate SparesLms(owner: C.Owner, e: BusEvent) {
    match e
    case ZoneDiscovered(zone) => !OwnedBy("lms", zone.zoneId)
    case ZoneUpdated(id, _, _) => !OwnedBy("lms", id)
    case ZoneRemoved(id) => !OwnedBy("lms", id)
    case NowPlayingChanged(id, _, _, _, _) => !OwnedBy("lms", id)
    case PlaybackModesChanged(id, _, _) => !OwnedBy("lms", id)
    case SeekPositionChanged(id, _) => !OwnedBy("lms", id)
    case VolumeChanged(outputId, _, _) => !OwnedBy("lms", owner(outputId))
    case AdapterStopping(adapter) => adapter != "lms" && ':' !in adapter
    case ZonesFlushed(_, _) => true
    case ShuttingDown => false
    case OtherEvent(_) => true
  }

  predicate SparesLmsEntry(entry: Entry) {
    match entry.payload
    case ZonePayload(zone) => !OwnedBy("lms", zone.zoneId)
    case ZoneRetired(id) => !OwnedBy("lms", id)
    case _ => true
  }

  /** What happens outside leaves LMS zones and the LMS cursor to LMS, and every output to its zone. Other
      producers' commits need not settle. */
  ghost predicate Polite(owner: C.Owner, step: Step) {
    step.Outside? ==>
      match step.step
      case CommitStep(u) =>
        && !P.IsLms(u) && E.AnnounceableUpdate(owner, u)
        && forall entry :: entry in u.entries ==> SparesLmsEntry(entry)
      case Publish(e) => SparesLms(owner, e) && C.OwnedEvent(owner, e)
      case Receive => true
  }

  ghost predicate AllPolite(owner: C.Owner, steps: seq<Step>) {
    forall step :: step in steps ==> Polite(owner, step)
  }

  function Showings(players: Cache, order: seq<PlayerId>): (pubs: seq<Publication>)
    requires forall p :: p in order ==> p in players
    ensures |pubs| == |order| && forall i :: 0 <= i < |pubs| ==> pubs[i] == Show(players[order[i]])
  {
    seq(|order|, i requires 0 <= i < |order| => Show(players[order[i]]))
  }

  function Retirements(order: seq<PlayerId>): (pubs: seq<Publication>)
    ensures |pubs| == |order| && forall i :: 0 <= i < |pubs| ==> pubs[i] == Retire(order[i])
  {
    seq(|order|, i requires 0 <= i < |order| => Retire(order[i]))
  }

  function Publications(players: Cache, step: Step): seq<Publication>
    requires Legal(players, step)
  {
    match step
    case Poll(_, _, shown, gone) => Showings(AfterStep(players, step), shown) + Retirements(gone)
    case Cli(ClientDisconnect(p)) => [Retire(p)]
    case Cli(e) =>
      var next, p := Notified(players, e), Republished(e);
      if p.Some? && p.value in next then [Show(next[p.value])] else []
    case Readback(p, inventory, status) =>
      if FirstRow(inventory, p).Some? && status.Some?
      then [Show(Refreshed(FirstRow(inventory, p).value, status.value))]
      else []
    case _ => []
  }

  function LmsNext(l: Lms, step: Step): Lms
    requires Legal(l.players, step)
  {
    if step.Outside? then l.(system := E.Next(l.system, step.step))
    else PublishedAll(l.(players := AfterStep(l.players, step)), Publications(l.players, step))
  }

  // ---------------------------------------------------------------------------
  // One publication
  // ---------------------------------------------------------------------------

  /** The aggregator merely lags, every zone owns its output, and the bridge numbers ahead of the cursor. */
  ghost predicate Sound(owner: C.Owner, l: Lms) {
    && NamesOutputs(owner) && Keyed(l.players)
    && P.CursorWithin(l.system.aggregate, l.sequence)
    && C.OwnedMap(owner, l.Zones())
    && E.Lagging(owner, l.system, l.Drained())
  }

  function WordOf(pub: Publication): C.Word {
    match pub
    case Show(player) => C.Present(PlayerZone(player))
    case Retire(_) => C.Absent
  }

  /** What becomes of a zone in the drained view. A retirement takes effect there exactly if the zone is
      present when it commits: only then is it announced. */
  function Settled(word: C.Word, present: bool, cell: Option<Zone>): Option<Zone> {
    if word.Absent? && !present then cell else C.ObeyRounded(word, cell)
  }

  /** Both views of one zone id change from `l` to `m` as the word says. */
  ghost predicate Obeys(l: Lms, m: Lms, id: ZoneId, word: C.Word) {
    && Cell(m.Zones(), id) == C.Obey(word, Cell(l.Zones(), id))
    && Cell(m.Drained(), id) == Settled(word, id in l.Zones(), Cell(l.Drained(), id))
  }

  lemma {:induction false} ShowAt(owner: C.Owner, l: Lms, player: LmsPlayer)
    requires Sound(owner, l)
    ensures var m, zone := Submitted(l, EntryOf(Show(player))), PlayerZone(player);
            && Sound(owner, m)
            && m.Zones() == l.Zones()[zone.zoneId := zone]
            && m.Drained() == l.Drained()[zone.zoneId := Rounded(zone)]
  {
    hide E.Next, C.OwnsOutput, C.OwnedMap, Parses, Rounded, PlayerZone;
    var zone, m := PlayerZone(player), Submitted(l, EntryOf(Show(player)));
    PlayerZoneIsAnnounceable(owner, player);
    CommitsOne(l, EntryOf(Show(player)));
    ZoneCommitSettles(owner, l.system, l.Drained(), l.sequence + 1, EntryOf(Show(player)).key, zone);
    OwnedAfterAdd(owner, l.Zones(), zone);
  }

  lemma {:induction false} CommitsOne(l: Lms, entry: Entry)
    requires P.CursorWithin(l.system.aggregate, l.sequence)
    ensures var m := Submitted(l, entry);
            && P.CursorWithin(m.system.aggregate, m.sequence)
            && m.system.aggregate.body == ApplyEntry(Effect(l.system.aggregate.body, [], []), entry, 0,
                                                     l.system.aggregate.revision + 1).body
  {
    hide ApplyEntry, Commit;
    OneEntryCommit(l.system.aggregate, l.sequence + 1, entry);
  }

  lemma {:induction false} RetireAt(owner: C.Owner, l: Lms, p: PlayerId)
    requires Sound(owner, l)
    ensures var m, id := Submitted(l, EntryOf(Retire(p))), ZoneIdOf(p);
            && Sound(owner, m)
            && m.Zones() == l.Zones() - {id}
            && m.Drained() == if id in l.Zones() then l.Drained() - {id} else l.Drained()
  {
    hide E.Next, C.OwnedMap, Prefixed, E.Lagging;
    var id, entry := ZoneIdOf(p), EntryOf(Retire(p));
    var m := Submitted(l, entry);
    CommitsOne(l, entry);
    OwnedAfterDrop(owner, l.Zones(), id);
    if id in l.Zones() {
      RemovalCommitSettles(owner, l.system, l.Drained(), l.sequence + 1, entry.key, id);
      LaggingIsDrained(owner, m.system, l.Drained() - {id});
    } else {
      AbsentRetirementIsUnheard(l.system, l.sequence + 1, entry.key, id);
      assert l.Zones() - {id} == l.Zones();
      SameFuture(owner, l.system, m.system);
    }
  }

  lemma {:induction false} LaggingIsDrained(owner: C.Owner, s: E.System, seen: ZoneMap)
    requires E.Lagging(owner, s, seen)
    ensures E.Eventually(s) == seen
  {
  }

  lemma {:induction false} SameFuture(owner: C.Owner, s: E.System, t: E.System)
    requires E.Lagging(owner, s, E.Eventually(s))
    requires t.queue == s.queue && t.aggregate.body.zones == s.aggregate.body.zones
    ensures E.Eventually(t) == E.Eventually(s) && E.Lagging(owner, t, E.Eventually(t))
  {
  }

  lemma {:induction false} AbsentRetirementIsUnheard(s: E.System, sequence: nat, key: string, id: ZoneId)
    requires P.CursorWithin(s.aggregate, sequence - 1) && id !in s.aggregate.body.zones
    ensures E.Next(s, E.CommitStep(P.LmsUpdate(sequence, Entry(key, ZoneRetired(id))))).queue == s.queue
  {
    var u, start := P.LmsUpdate(sequence, Entry(key, ZoneRetired(id))), Effect(s.aggregate.body, [], []);
    OneEntryCommit(s.aggregate, sequence, u.entries[0]);
    assert u.entries[1..] == [];
    var once := ApplyEntry(start, u.entries[0], 0, s.aggregate.revision + 1);
    assert ApplyEntries(once, [], 0, s.aggregate.revision + 1) == once;
    assert Transact(s.aggregate.body, u, s.aggregate.revision + 1) == once;
    assert once.changed == [] && once.removed == [];
    assert s.queue + (Echoes([]) + Retractions([])) == s.queue;
  }

  /** One publication, one zone id, however far the event loop lags. */
  lemma {:induction false} PublishAt(owner: C.Owner, l: Lms, pub: Publication, id: ZoneId)
    requires Sound(owner, l)
    ensures Sound(owner, Submitted(l, EntryOf(pub)))
    ensures Obeys(l, Submitted(l, EntryOf(pub)), id,
                  if id == ZoneIdOf(pub.Subject()) then WordOf(pub) else C.Silent)
  {
    hide Sound, Submitted, Rounded;
    match pub
    case Show(player) => ShowAt(owner, l, player);
    case Retire(p) => RetireAt(owner, l, p);
  }

  // ---------------------------------------------------------------------------
  // One step
  // ---------------------------------------------------------------------------

  ghost predicate DistinctSubjects(pubs: seq<Publication>) {
    forall i, j :: 0 <= i < j < |pubs| ==> pubs[i].Subject() != pubs[j].Subject()
  }

  function WordAt(pubs: seq<Publication>, id: ZoneId): C.Word
    decreases pubs
  {
    if pubs == [] then C.Silent
    else if id == ZoneIdOf(pubs[0].Subject()) then WordOf(pubs[0])
    else WordAt(pubs[1..], id)
  }

  lemma {:induction false} SilentWithout(pubs: seq<Publication>, id: ZoneId)
    requires forall pub :: pub in pubs ==> ZoneIdOf(pub.Subject()) != id
    ensures WordAt(pubs, id) == C.Silent
    decreases pubs
  {
    if pubs != [] {
      assert pubs[0] in pubs && forall pub :: pub in pubs[1..] ==> pub in pubs;
      SilentWithout(pubs[1..], id);
    }
  }

  lemma {:induction false} WordOfOne(pubs: seq<Publication>, i: nat)
    requires DistinctSubjects(pubs) && i < |pubs|
    ensures WordAt(pubs, ZoneIdOf(pubs[i].Subject())) == WordOf(pubs[i])
    decreases pubs
  {
    if i > 0 {
      if ZoneIdOf(pubs[0].Subject()) == ZoneIdOf(pubs[i].Subject()) {
        PrefixedInjective("lms", pubs[0].Subject(), pubs[i].Subject());
      }
      assert pubs[1..][i - 1] == pubs[i];
      WordOfOne(pubs[1..], i - 1);
    }
  }

  lemma {:induction false} PublishAllAt(owner: C.Owner, l: Lms, pubs: seq<Publication>, id: ZoneId)
    requires Sound(owner, l) && DistinctSubjects(pubs)
    ensures Sound(owner, PublishedAll(l, pubs))
    ensures PublishedAll(l, pubs).players == l.players
    ensures Obeys(l, PublishedAll(l, pubs), id, WordAt(pubs, id))
    decreases pubs
  {
    hide Sound, Submitted, Rounded, WordOf, EntryOf, Prefixed;
    if pubs != [] {
      var m := Submitted(l, EntryOf(pubs[0]));
      PublishAt(owner, l, pubs[0], id);
      SubmittedKeepsPlayers(l, EntryOf(pubs[0]));
      PublishAllAt(owner, m, pubs[1..], id);
      if id == ZoneIdOf(pubs[0].Subject()) {
        forall pub | pub in pubs[1..] ensures ZoneIdOf(pub.Subject()) != id {
          if ZoneIdOf(pub.Subject()) == id {
            PrefixedInjective("lms", pub.Subject(), pubs[0].Subject());
          }
        }
        SilentWithout(pubs[1..], id);
      }
    }
  }

  lemma {:induction false} SubmittedKeepsPlayers(l: Lms, entry: Entry)
    ensures Submitted(l, entry).players == l.players
  {
  }

  lemma {:induction false} PublishedAppend(l: Lms, first: seq<Publication>, rest: seq<Publication>)
    ensures PublishedAll(l, first + rest) == PublishedAll(PublishedAll(l, first), rest)
    decreases first
  {
    hide Submitted, EntryOf;
    if first == [] {
      assert first + rest == rest;
    } else {
      assert (first + rest)[1..] == first[1..] + rest;
      PublishedAppend(Submitted(l, EntryOf(first[0])), first[1..], rest);
    }
  }

  /** What a step says about a player: shown with this zone, retired, or nothing. */
  function Told(players: Cache, step: Step, p: PlayerId): C.Word {
    var next := AfterStep(players, step);
    match step
    case Poll(_, _, _, _) =>
      if p in next then C.Present(PlayerZone(next[p])) else if p in players then C.Absent else C.Silent
    case Cli(e) =>
      if e.ClientDisconnect? && e.player == p then C.Absent
      else if Republished(e) == Some(p) && p in next then C.Present(PlayerZone(next[p]))
      else C.Silent
    case Readback(q, inventory, status) =>
      if q == p && FirstRow(inventory, q).Some? && status.Some? then C.Present(PlayerZone(next[p])) else C.Silent
    case Refresh(_, _) => C.Silent
    case Outside(_) => C.Silent
  }

  lemma {:induction false} MergedIsKeyed(players: Cache, inventory: seq<LmsPlayer>,
                                         statuses: map<PlayerId, PlayerStatus>, n: nat)
    requires Keyed(players) && n <= |inventory|
    ensures Keyed(Merged(players, inventory, statuses, n))
  {
    if n > 0 {
      MergedIsKeyed(players, inventory, statuses, n - 1);
    }
  }

  lemma {:induction false} StepIsKeyed(players: Cache, step: Step)
    requires Keyed(players)
    ensures Keyed(AfterStep(players, step))
  {
    match step
    case Poll(inventory, statuses, _, _) => MergedIsKeyed(players, inventory, statuses, |inventory|);
    case Readback(p, inventory, _) => FirstRowIsFound(inventory, p);
    case _ =>
  }

  lemma {:induction false} ShowingsAreDistinct(players: Cache, order: seq<PlayerId>)
    requires Keyed(players) && Lists(order, players.Keys)
    ensures DistinctSubjects(Showings(players, order))
    ensures forall pub :: pub in Showings(players, order) ==> pub.Subject() in players
  {
    var pubs := Showings(players, order);
    forall i | 0 <= i < |pubs| ensures pubs[i].Subject() == order[i] && order[i] in players {
      assert order[i] in order;
    }
  }

  lemma {:induction false} RetirementsAreDistinct(order: seq<PlayerId>, ids: set<PlayerId>)
    requires Lists(order, ids)
    ensures DistinctSubjects(Retirements(order))
    ensures forall pub :: pub in Retirements(order) ==> pub.Subject() in ids
  {
    var pubs := Retirements(order);
    forall i | 0 <= i < |pubs| ensures pubs[i].Subject() == order[i] && order[i] in ids {
      assert order[i] in order;
    }
  }

  lemma {:induction false} TogetherDistinct(first: seq<Publication>, rest: seq<Publication>, ids: set<PlayerId>)
    requires DistinctSubjects(first) && DistinctSubjects(rest)
    requires forall pub :: pub in first ==> pub.Subject() in ids
    requires forall pub :: pub in rest ==> pub.Subject() !in ids
    ensures DistinctSubjects(first + rest)
  {
    var pubs := first + rest;
    forall i, j | 0 <= i < j < |pubs| ensures pubs[i].Subject() != pubs[j].Subject() {
      if i < |first| <= j {
        assert first[i] in first && rest[j - |first|] in rest;
      }
    }
  }

  /** Whom a poll publishes and retires: each such player once. */
  lemma {:induction false} PollSubjects(players: Cache, step: Step)
    requires step.Poll? && Keyed(players) && Legal(players, step)
    ensures DistinctSubjects(Publications(players, step))
    ensures forall pub :: pub in Publications(players, step) ==>
              pub.Subject() in AfterStep(players, step) || pub.Subject() in players
  {
    hide Polled, Keyed, DistinctSubjects;
    var next := AfterStep(players, step);
    StepIsKeyed(players, step);
    ShowingsAreDistinct(next, step.shown);
    RetirementsAreDistinct(step.gone, players.Keys - next.Keys);
    TogetherDistinct(Showings(next, step.shown), Retirements(step.gone), next.Keys);
  }

  lemma {:induction false} PollPublishes(players: Cache, step: Step, p: PlayerId)
    requires step.Poll? && Keyed(players) && Legal(players, step)
    ensures WordAt(Publications(players, step), ZoneIdOf(p)) == Told(players, step, p)
  {
    var next, pubs := AfterStep(players, step), Publications(players, step);
    PollSubjects(players, step);
    StepIsKeyed(players, step);
    hide Polled, PlayerZone, Prefixed, DistinctSubjects, Keyed;
    if p in next {
      assert p in step.shown;
      var k :| 0 <= k < |step.shown| && step.shown[k] == p;
      KeyOf(next, p);
      assert pubs[k] == Show(next[p]);
      WordOfOne(pubs, k);
    } else if p in players {
      assert p in step.gone;
      var k :| 0 <= k < |step.gone| && step.gone[k] == p;
      assert pubs[|step.shown| + k] == Retire(p);
      WordOfOne(pubs, |step.shown| + k);
    } else {
      forall pub | pub in pubs ensures ZoneIdOf(pub.Subject()) != ZoneIdOf(p) {
        if ZoneIdOf(pub.Subject()) == ZoneIdOf(p) {
          PrefixedInjective("lms", pub.Subject(), p);
        }
      }
      SilentWithout(pubs, ZoneIdOf(p));
    }
  }

  lemma {:induction false} KeyOf(players: Cache, p: PlayerId)
    requires Keyed(players) && p in players
    ensures players[p].playerId == p
  {
  }

  lemma {:induction false} OneIsDistinct(pubs: seq<Publication>)
    requires |pubs| <= 1
    ensures DistinctSubjects(pubs)
  {
  }

  lemma {:induction false} OtherPublishes(players: Cache, step: Step, p: PlayerId)
    requires !step.Poll? && !step.Outside? && Keyed(players)
    ensures DistinctSubjects(Publications(players, step))
    ensures WordAt(Publications(players, step), ZoneIdOf(p)) == Told(players, step, p)
  {
    hide PlayerZone, Prefixed, DistinctSubjects;
    var pubs := Publications(players, step);
    StepIsKeyed(players, step);
    OneIsDistinct(pubs);
    if step.Readback? {
      FirstRowIsFound(step.inventory, step.player);
    }
    if pubs != [] {
      assert pubs[1..] == [];
      if ZoneIdOf(pubs[0].Subject()) == ZoneIdOf(p) {
        PrefixedInjective("lms", pubs[0].Subject(), p);
      }
    }
  }

  lemma {:induction false} StepPublishes(players: Cache, step: Step, p: PlayerId)
    requires !step.Outside? && Keyed(players) && Legal(players, step)
    ensures DistinctSubjects(Publications(players, step))
    ensures WordAt(Publications(players, step), ZoneIdOf(p)) == Told(players, step, p)
  {
    if step.Poll? {
      PollSubjects(players, step);
      PollPublishes(players, step, p);
    } else {
      OtherPublishes(players, step, p);
    }
  }

  lemma {:induction false} ReceiveIsSound(owner: C.Owner, l: Lms)
    requires Sound(owner, l)
    ensures var m := l.(system := E.ReceiveOne(l.system));
            Sound(owner, m) && m.Drained() == l.Drained()
  {
    hide C.OwnedMap, C.OwnedEvent, Apply, NamesOutputs;
    E.StepStaysLagging(owner, l.system, l.Drained(), E.Receive);
    E.ReceiveKeepsEventually(l.system);
    if l.system.queue != [] {
      assert l.system.queue[0] in l.system.queue;
      E.ApplyStaysOwned(owner, l.Zones(), l.system.queue[0]);
    }
  }

  lemma {:induction false} OwnedIsLagging(owner: C.Owner, s: E.System)
    requires C.OwnedMap(owner, s.aggregate.body.zones) && forall e :: e in s.queue ==> C.OwnedEvent(owner, e)
    ensures E.Lagging(owner, s, E.Eventually(s))
  {
    hide C.OwnedCell, C.OwnedEvent;
    forall id ensures C.OwnedCell(owner, id, Cell(E.Eventually(s), id)) {
      assert C.OwnedCell(owner, id, Cell(s.aggregate.body.zones, id));
      FoldIsPointwise(s.aggregate.body.zones, s.queue, id);
      E.FoldAtKeepsOwned(owner, id, Cell(s.aggregate.body.zones, id), s.queue);
    }
  }

  lemma {:induction false} SparedEvent(owner: C.Owner, e: BusEvent, p: PlayerId, cell: Option<Zone>)
    requires SparesLms(owner, e) && C.OwnedCell(owner, ZoneIdOf(p), cell)
    ensures ApplyAt(ZoneIdOf(p), cell, e) == cell
  {
    RawId(p);
    hide Heard, ParseState, Prefixed, OwnedBy;
    if e.AdapterStopping? && OwnedBy(e.adapter, ZoneIdOf(p)) {
      OwnerIsUnique(e.adapter, "lms", ZoneIdOf(p));
    }
  }

  lemma {:induction false} SparedPublication(owner: C.Owner, l: Lms, e: BusEvent, p: PlayerId)
    requires Sound(owner, l) && Polite(owner, Outside(E.Publish(e)))
    ensures var m := l.(system := E.Next(l.system, E.Publish(e)));
            Sound(owner, m) && Cell(m.Drained(), ZoneIdOf(p)) == Cell(l.Drained(), ZoneIdOf(p))
  {
    hide C.OwnedEvent, Apply, Prefixed, SparesLms, C.OwnedCell;
    E.PublishAppends(l.system, e);
    ApplyIsPointwise(l.Drained(), e, ZoneIdOf(p));
    assert C.OwnedCell(owner, ZoneIdOf(p), Cell(l.Drained(), ZoneIdOf(p)));
    SparedEvent(owner, e, p, Cell(l.Drained(), ZoneIdOf(p)));
    OwnedIsLagging(owner, E.Next(l.system, E.Publish(e)));
  }

  lemma {:induction false} SparedWord(w: C.Word, e: Effect, entries: seq<Entry>, epoch: nat, revision: nat, p: PlayerId)
    requires forall entry :: entry in entries ==> SparesLmsEntry(entry)
    ensures C.LastWord(w, e, entries, epoch, revision, ZoneIdOf(p)) == w
    decreases entries
  {
    if entries != [] {
      assert entries[0] in entries && forall entry :: entry in entries[1..] ==> entry in entries;
      SparedEntry(w, e, entries[0], p);
      SparedWord(w, ApplyEntry(e, entries[0], epoch, revision), entries[1..], epoch, revision, p);
    }
  }

  lemma {:induction false} SparedEntry(w: C.Word, e: Effect, entry: Entry, p: PlayerId)
    requires SparesLmsEntry(entry)
    ensures C.Speak(w, e, entry.payload, ZoneIdOf(p)) == w
  {
    RawId(p);
    if entry.payload.HqpRemoved? {
      PrefixedIsOwned("hqplayer", entry.payload.instanceName);
    }
    if OwnedBy("hqplayer", ZoneIdOf(p)) {
      OwnerIsUnique("hqplayer", "lms", ZoneIdOf(p));
    }
  }

  lemma {:induction false} EntryKeepsOwned(owner: C.Owner, e: Effect, entry: Entry, epoch: nat, revision: nat)
    requires C.OwnedMap(owner, e.body.zones) && E.AnnounceableEntry(owner, entry)
    ensures C.OwnedMap(owner, ApplyEntry(e, entry, epoch, revision).body.zones)
  {
    hide C.OwnsOutput, Prefixed, Observe, Attach, WithProfiles, Retained, AdmitsOutputs, Stamped, Withdrawn, Parses, OwnedBy;
    var after := ApplyEntry(e, entry, epoch, revision).body.zones;
    forall id ensures C.OwnedCell(owner, id, Cell(after, id)) {
      assert C.OwnedCell(owner, id, Cell(e.body.zones, id));
    }
  }

  lemma {:induction false} EntriesKeepOwned(owner: C.Owner, e: Effect, entries: seq<Entry>, epoch: nat, revision: nat)
    requires C.OwnedMap(owner, e.body.zones)
    requires forall entry :: entry in entries ==> E.AnnounceableEntry(owner, entry)
    ensures C.OwnedMap(owner, ApplyEntries(e, entries, epoch, revision).body.zones)
    decreases entries
  {
    hide C.OwnedMap, E.AnnounceableEntry, ApplyEntry;
    if entries != [] {
      assert entries[0] in entries && forall entry :: entry in entries[1..] ==> entry in entries;
      EntryKeepsOwned(owner, e, entries[0], epoch, revision);
      EntriesKeepOwned(owner, ApplyEntry(e, entries[0], epoch, revision), entries[1..], epoch, revision);
    }
  }

  /** Another producer's admitted commit, settling or not. */
  lemma {:induction false} SparedCommit(owner: C.Owner, l: Lms, u: Update, p: PlayerId)
    requires Sound(owner, l) && Polite(owner, Outside(E.CommitStep(u))) && Admitted(l.system.aggregate, u)
    ensures var m := l.(system := E.Next(l.system, E.CommitStep(u)));
            Sound(owner, m) && Cell(m.Drained(), ZoneIdOf(p)) == Cell(l.Drained(), ZoneIdOf(p))
  {
    hide C.OwnedEvent, C.OwnedCell, Apply, Prefixed, SparesLmsEntry, ApplyEntries, C.LastWord, C.SequentialEntries,
         E.AnnounceableEntry, Echoes, Retractions, Fold, Admitted, C.Latest, E.Rediscovers;
    var a, id := l.system.aggregate, ZoneIdOf(p);
    var start, revision := Effect(a.body, [], []), a.revision + 1;
    var end := Transact(a.body, u, revision);
    P.LmsCommit(a, u);
    SparedWord(C.Silent, start, u.entries, u.source.epoch, revision, p);
    E.CommitAt(owner, l.system, l.Drained(), u, id);
    E.LatestOfNone(start, id);
    C.EntriesAt(C.Silent, start, u.entries, u.source.epoch, revision, id, a.body.zones, l.Drained(), l.Drained());
    EntriesKeepOwned(owner, start, u.entries, u.source.epoch, revision);
    E.ChangedAreAnnounceable(owner, start, u.entries, u.source.epoch, revision);
    CommittedQueueIsOwned(owner, l.system, u);
    OwnedIsLagging(owner, E.Next(l.system, E.CommitStep(u)));
  }

  lemma {:induction false} CommittedQueueIsOwned(owner: C.Owner, s: E.System, u: Update)
    requires Admitted(s.aggregate, u) && forall e :: e in s.queue ==> C.OwnedEvent(owner, e)
    requires C.Announceable(owner, Transact(s.aggregate.body, u, s.aggregate.revision + 1).changed)
    ensures forall e :: e in E.Next(s, E.CommitStep(u)).queue ==> C.OwnedEvent(owner, e)
  {
    hide C.OwnedEvent, Transact, Echoes, Retractions, C.Announceable;
    forall e | e in E.Next(s, E.CommitStep(u)).queue ensures C.OwnedEvent(owner, e) {
      E.AnnouncementIsOwned(owner, Transact(s.aggregate.body, u, s.aggregate.revision + 1), e);
    }
  }

  /** Nothing that happens outside changes what an LMS zone drains to. */
  lemma {:induction false} OutsideAt(owner: C.Owner, l: Lms, step: E.Step, p: PlayerId)
    requires Sound(owner, l) && Polite(owner, Outside(step))
    ensures var m := l.(system := E.Next(l.system, step));
            Sound(owner, m) && Cell(m.Drained(), ZoneIdOf(p)) == Cell(l.Drained(), ZoneIdOf(p))
  {
    match step
    case Receive => ReceiveIsSound(owner, l);
    case Publish(e) => SparedPublication(owner, l, e, p);
    case CommitStep(u) =>
      if Admitted(l.system.aggregate, u) {
        SparedCommit(owner, l, u, p);
      } else {
        E.RefusedCommitIsIdle(l.system, u);
        P.LmsCommit(l.system.aggregate, u);
        SameFuture(owner, l.system, E.Next(l.system, step));
      }
  }

  /** The law of one step for one player, however far the event loop lags: the aggregator's zone follows
      what the step says at once, and the drained zone follows it too, except for a retirement that finds
      no zone. */
  lemma {:induction false} StepAt(owner: C.Owner, l: Lms, step: Step, p: PlayerId)
    requires Polite(owner, step)
    requires Sound(owner, l) && Legal(l.players, step)
    ensures Sound(owner, LmsNext(l, step))
    ensures LmsNext(l, step).players == AfterStep(l.players, step)
    ensures Cell(LmsNext(l, step).Drained(), ZoneIdOf(p))
            == Settled(Told(l.players, step, p), ZoneIdOf(p) in l.Zones(), Cell(l.Drained(), ZoneIdOf(p)))
    ensures !step.Outside? ==>
              Cell(LmsNext(l, step).Zones(), ZoneIdOf(p))
              == C.Obey(Told(l.players, step, p), Cell(l.Zones(), ZoneIdOf(p)))
  {
    hide AfterStep, Publications, Submitted, WordAt, Prefixed, PublishedAll;
    if step.Outside? {
      hide Sound, Polite;
      OutsideAt(owner, l, step.step, p);
      OutsideTellsNothing(l.players, step, p);
    } else {
      var start := l.(players := AfterStep(l.players, step));
      StepIsKeyed(l.players, step);
      StepPublishes(l.players, step, p);
      hide Told;
      PublishAllAt(owner, start, Publications(l.players, step), ZoneIdOf(p));
    }
  }

  lemma {:induction false} OutsideTellsNothing(players: Cache, step: Step, p: PlayerId)
    requires step.Outside?
    ensures AfterStep(players, step) == players && Told(players, step, p) == C.Silent
  {
  }

  /** An observer's step leaves the zones of other adapters alone. */
  lemma {:induction false} StepElsewhere(owner: C.Owner, l: Lms, step: Step)
    requires Sound(owner, l) && Legal(l.players, step) && !step.Outside?
    ensures OthersKept(l.Drained(), LmsNext(l, step).Drained())
    ensures OthersKept(l.Zones(), LmsNext(l, step).Zones())
  {
    hide AfterStep, Publications, Submitted, Prefixed, PublishedAll;
    var start, pubs := l.(players := AfterStep(l.players, step)), Publications(l.players, step);
    StepIsKeyed(l.players, step);
    forall id | !OwnedBy("lms", id)
      ensures Cell(PublishedAll(start, pubs).Zones(), id) == Cell(l.Zones(), id)
           && Cell(PublishedAll(start, pubs).Drained(), id) == Cell(l.Drained(), id)
    {
      StepPublishes(l.players, step, id);
      forall pub | pub in pubs ensures ZoneIdOf(pub.Subject()) != id {
        RawId(pub.Subject());
      }
      SilentWithout(pubs, id);
      PublishAllAt(owner, start, pubs, id);
    }
  }

  /** A step's word about a player decides who is cached. */
  lemma {:induction false} ToldIsCached(players: Cache, step: Step, p: PlayerId)
    ensures p in AfterStep(players, step)
            <==> Told(players, step, p).Present? || (Told(players, step, p).Silent? && p in players)
  {
    hide PlayerZone, Polled;
  }

  // ---------------------------------------------------------------------------
  // Membership after one step
  // ---------------------------------------------------------------------------

  /** Every cached player the step retires has its zone present. */
  ghost predicate Finds(l: Lms, step: Step) {
    forall p :: p in l.players && Told(l.players, step, p).Absent? ==> ZoneIdOf(p) in l.Zones()
  }

  lemma {:induction false} MemberAt(zones: ZoneMap, ids: set<PlayerId>, p: PlayerId)
    requires MembersAre(zones, ids)
    ensures Cell(zones, ZoneIdOf(p)).Some? <==> p in ids
  {
    RawId(p);
  }

  lemma {:induction false} MembersFromCells(zones: ZoneMap, ids: set<PlayerId>)
    requires forall p :: Cell(zones, ZoneIdOf(p)).Some? <==> p in ids
    ensures MembersAre(zones, ids)
  {
    forall id | OwnedBy("lms", id) ensures id in zones <==> id[|"lms:"|..] in ids {
      IdFromRaw(id);
      assert Cell(zones, ZoneIdOf(id[|"lms:"|..])).Some? <==> id[|"lms:"|..] in ids;
    }
  }

  /** One step keeps the drained `lms:` zones equal to the cached players if and only if every cached
      player it retires has its zone present. */
  lemma {:induction false} StepFollowsExactly(owner: C.Owner, l: Lms, step: Step)
    requires Polite(owner, step)
    requires Sound(owner, l) && Legal(l.players, step)
    requires MembersAre(l.Drained(), l.players.Keys)
    ensures MembersAre(LmsNext(l, step).Drained(), LmsNext(l, step).players.Keys) <==> Finds(l, step)
  {
    hide LmsNext, Sound, Finds, Lingers, MembersAre;
    assert l.players.Keys + {} == l.players.Keys;
    StepLingers(owner, l, step, {});
    FindsExactly(l, step);
    NothingLeft(LmsNext(l, step).Drained(), LmsNext(l, step).players.Keys, Lingers(l, step, {}));
  }

  lemma {:induction false} FindsExactly(l: Lms, step: Step)
    ensures Finds(l, step) <==> Lingers(l, step, {}) == {}
  {
    hide Told, AfterStep;
    forall p ensures p in Lingers(l, step, {})
                     <==> p in l.players && Told(l.players, step, p).Absent? && ZoneIdOf(p) !in l.Zones() {
      ToldIsCached(l.players, step, p);
    }
    if Finds(l, step) {
      assert forall p :: p !in Lingers(l, step, {});
    }
  }

  lemma {:induction false} NothingLeft(zones: ZoneMap, ids: set<PlayerId>, left: set<PlayerId>)
    requires MembersAre(zones, ids + left) && ids !! left
    ensures MembersAre(zones, ids) <==> left == {}
  {
    hide MembersAre;
    if left == {} {
      assert ids + left == ids;
    } else if MembersAre(zones, ids) {
      var p :| p in left;
      MemberAt(zones, ids + left, p);
      MemberAt(zones, ids, p);
      assert false;
    }
  }

  /** With the zones in step at the start of an observer's step they are in step right after it, before
      any event is handled. */
  lemma {:induction false} StepShowsMembers(owner: C.Owner, l: Lms, step: Step)
    requires Polite(owner, step)
    requires Sound(owner, l) && Legal(l.players, step) && !step.Outside?
    requires MembersAre(l.Zones(), l.players.Keys)
    ensures MembersAre(LmsNext(l, step).Zones(), LmsNext(l, step).players.Keys)
    ensures Finds(l, step)
  {
    hide Told, LmsNext, Sound, AfterStep;
    forall p ensures Cell(LmsNext(l, step).Zones(), ZoneIdOf(p)).Some? <==> p in LmsNext(l, step).players.Keys {
      StepAt(owner, l, step, p);
      ToldIsCached(l.players, step, p);
      MemberAt(l.Zones(), l.players.Keys, p);
    }
    MembersFromCells(LmsNext(l, step).Zones(), LmsNext(l, step).players.Keys);
    forall p | p in l.players ensures ZoneIdOf(p) in l.Zones() {
      MemberAt(l.Zones(), l.players.Keys, p);
    }
  }

  /** A player a step publishes is shown as cached, at once and in the drained view. */
  lemma {:induction false} PublishedIsShown(owner: C.Owner, l: Lms, step: Step, p: PlayerId)
    requires Polite(owner, step)
    requires Sound(owner, l) && Legal(l.players, step) && Told(l.players, step, p).Present?
    ensures var m := LmsNext(l, step);
            && p in m.players
            && Cell(m.Zones(), ZoneIdOf(p)) == Some(PlayerZone(m.players[p]))
            && Cell(m.Drained(), ZoneIdOf(p)) == Some(Rounded(PlayerZone(m.players[p])))
  {
    hide LmsNext, PlayerZone, Polled, Rounded;
    StepAt(owner, l, step, p);
    ToldIsCached(l.players, step, p);
  }

  /** When a poll finds the zones it retires. */
  lemma {:induction false} PollFinds(l: Lms, step: Step)
    requires step.Poll? && Legal(l.players, step)
    ensures Finds(l, step) <==> forall p :: p in step.gone ==> ZoneIdOf(p) in l.Zones()
  {
    hide Polled, PlayerZone, Prefixed;
    forall p ensures p in step.gone <==> p in l.players && Told(l.players, step, p).Absent? {
    }
  }

  /** After a poll every cached player is shown as cached, at once and in the drained view. */
  lemma {:induction false} PollShowsAll(owner: C.Owner, l: Lms, step: Step)
    requires Sound(owner, l) && step.Poll? && Legal(l.players, step)
    ensures var m := LmsNext(l, step);
            Shows(m.Zones(), m.players, m.players.Keys) && Shows(m.Drained(), m.players, m.players.Keys)
  {
    hide LmsNext, Polled, PlayerZone, Rounded, Sound;
    var m := LmsNext(l, step);
    StepAt(owner, l, step, "");
    forall p | p in m.players
      ensures Cell(m.Zones(), ZoneIdOf(p)) == Some(PlayerZone(m.players[p]))
      ensures Cell(m.Drained(), ZoneIdOf(p)) == Some(Rounded(PlayerZone(m.players[p])))
      ensures Rounded(Rounded(PlayerZone(m.players[p]))) == Rounded(PlayerZone(m.players[p]))
    {
      PublishedIsShown(owner, l, step, p);
      RoundedTwice(PlayerZone(m.players[p]));
    }
  }

  /** The zones right after a poll: in the drained view, every player's zone is that of a player the poll
      reported connected, unless the poll retired it without its zone being present. */
  lemma {:induction false} PollDecidesZones(owner: C.Owner, l: Lms, step: Step, p: PlayerId)
    requires Sound(owner, l) && step.Poll? && Legal(l.players, step)
    requires MembersAre(l.Drained(), l.players.Keys)
    ensures ZoneIdOf(p) in LmsNext(l, step).Drained()
            <==> p in AfterStep(l.players, step) || (p in step.gone && ZoneIdOf(p) !in l.Zones())
    ensures p in AfterStep(l.players, step) ==> ReportedConnected(step.inventory, p)
  {
    hide LmsNext, Polled, PlayerZone, Rounded, Sound, Prefixed;
    StepAt(owner, l, step, p);
    MemberAt(l.Drained(), l.players.Keys, p);
    PollDecidesMembership(l.players, step);
  }

  // ---------------------------------------------------------------------------
  // Whole runs
  // ---------------------------------------------------------------------------

  ghost predicate LegalRun(l: Lms, steps: seq<Step>)
    decreases steps
  {
    steps == [] || (Legal(l.players, steps[0]) && LegalRun(LmsNext(l, steps[0]), steps[1..]))
  }

  function LmsRun(l: Lms, steps: seq<Step>): Lms
    requires LegalRun(l, steps)
    decreases steps
  {
    if steps == [] then l else LmsRun(LmsNext(l, steps[0]), steps[1..])
  }

  /** The uncached players whose zones linger in the drained view after a step: those just retired without
      their zone being present, and those that lingered before and were neither shown again nor retired
      with their zone present. */
  ghost function Lingers(l: Lms, step: Step, before: set<PlayerId>): set<PlayerId> {
    set p | p in l.players.Keys + before
            && (if p in AfterStep(l.players, step) then false
                else Told(l.players, step, p).Silent? || ZoneIdOf(p) !in l.Zones())
  }

  ghost function Lingering(l: Lms, steps: seq<Step>, before: set<PlayerId>): set<PlayerId>
    requires LegalRun(l, steps)
    decreases steps
  {
    if steps == [] then before else Lingering(LmsNext(l, steps[0]), steps[1..], Lingers(l, steps[0], before))
  }

  lemma {:induction false} StepLingers(owner: C.Owner, l: Lms, step: Step, before: set<PlayerId>)
    requires Polite(owner, step)
    requires Sound(owner, l) && Legal(l.players, step)
    requires MembersAre(l.Drained(), l.players.Keys + before)
    ensures Sound(owner, LmsNext(l, step))
    ensures MembersAre(LmsNext(l, step).Drained(), LmsNext(l, step).players.Keys + Lingers(l, step, before))
    ensures LmsNext(l, step).players.Keys !! Lingers(l, step, before)
  {
    hide Told, LmsNext, Sound, AfterStep;
    var m, ids := LmsNext(l, step), LmsNext(l, step).players.Keys + Lingers(l, step, before);
    StepAt(owner, l, step, "");
    forall p ensures Cell(m.Drained(), ZoneIdOf(p)).Some? <==> p in ids {
      StepAt(owner, l, step, p);
      ToldIsCached(l.players, step, p);
      MemberAt(l.Drained(), l.players.Keys + before, p);
    }
    MembersFromCells(m.Drained(), ids);
  }

  /** Over any run of polls, CLI events, readbacks, refreshes and turns of the event loop, the drained
      `lms:` zones are exactly the cached players and those that linger. */
  lemma {:induction false} RunMembersExactly(owner: C.Owner, l: Lms, steps: seq<Step>, before: set<PlayerId>)
    requires AllPolite(owner, steps)
    requires Sound(owner, l) && LegalRun(l, steps)
    requires MembersAre(l.Drained(), l.players.Keys + before) && l.players.Keys !! before
    ensures var end := LmsRun(l, steps);
            && Sound(owner, end)
            && MembersAre(end.Drained(), end.players.Keys + Lingering(l, steps, before))
            && end.players.Keys !! Lingering(l, steps, before)
    decreases steps
  {
    hide Sound, LmsNext, Lingers, MembersAre;
    if steps != [] {
      StepLingers(owner, l, steps[0], before);
      RunMembersExactly(owner, LmsNext(l, steps[0]), steps[1..], Lingers(l, steps[0], before));
    }
  }

  /** Every retirement of a cached player finds its zone. */
  ghost predicate AlwaysFinds(l: Lms, steps: seq<Step>)
    requires LegalRun(l, steps)
    decreases steps
  {
    steps == [] || (Finds(l, steps[0]) && AlwaysFinds(LmsNext(l, steps[0]), steps[1..]))
  }

  lemma {:induction false} FindingLeavesNothing(l: Lms, steps: seq<Step>)
    requires LegalRun(l, steps) && AlwaysFinds(l, steps)
    ensures Lingering(l, steps, {}) == {}
    decreases steps
  {
    hide LmsNext, Finds, Lingers;
    if steps != [] {
      FindsExactly(l, steps[0]);
      FindingLeavesNothing(LmsNext(l, steps[0]), steps[1..]);
    }
  }

  /** Over any run in which every retirement of a cached player finds its zone, the drained `lms:` zones
      are exactly the cached players; whenever nothing is pending they are the aggregator's. */
  lemma {:induction false} RunFollows(owner: C.Owner, l: Lms, steps: seq<Step>)
    requires AllPolite(owner, steps)
    requires Sound(owner, l) && LegalRun(l, steps)
    requires MembersAre(l.Drained(), l.players.Keys)
    requires AlwaysFinds(l, steps)
    ensures var end := LmsRun(l, steps);
            && MembersAre(end.Drained(), end.players.Keys)
            && (end.system.queue == [] ==> MembersAre(end.Zones(), end.players.Keys))
  {
    hide Sound, LegalRun, LmsRun, AlwaysFinds, Lingering, MembersAre;
    assert l.players.Keys + {} == l.players.Keys;
    RunMembersExactly(owner, l, steps, {});
    FindingLeavesNothing(l, steps);
    var end := LmsRun(l, steps);
    assert end.players.Keys + {} == end.players.Keys;
    A.DrainedIsEventual(end.system);
  }

  /** A run is in step at its end exactly when no zone lingers. */
  lemma {:induction false} RunFollowsExactly(owner: C.Owner, l: Lms, steps: seq<Step>)
    requires AllPolite(owner, steps)
    requires Sound(owner, l) && LegalRun(l, steps)
    requires MembersAre(l.Drained(), l.players.Keys)
    ensures MembersAre(LmsRun(l, steps).Drained(), LmsRun(l, steps).players.Keys) <==> Lingering(l, steps, {}) == {}
  {
    hide Sound, LegalRun, LmsRun, Lingering, MembersAre;
    assert l.players.Keys + {} == l.players.Keys;
    RunMembersExactly(owner, l, steps, {});
    NothingLeft(LmsRun(l, steps).Drained(), LmsRun(l, steps).players.Keys, Lingering(l, steps, {}));
  }

  // ---------------------------------------------------------------------------
  // A disconnect can be lost
  // ---------------------------------------------------------------------------

  /** A new aggregator and observers that know no player. */
  const START := Lms(E.System(EMPTY_AGGREGATE, []), 0, map[])

  lemma {:induction false} StartIsSound(owner: C.Owner)
    requires NamesOutputs(owner)
    ensures Sound(owner, START) && MembersAre(START.Drained(), START.players.Keys)
  {
    E.StartsLagging(owner);
  }

  function Turns(n: nat): seq<Step> {
    seq(n, _ => Outside(E.Receive))
  }

  function Appears(p: PlayerId, status: PlayerStatus): Step {
    Cli(ClientNew(p, Some(status), None))
  }

  function Leaves(p: PlayerId): Step {
    Cli(ClientDisconnect(p))
  }

  lemma {:induction false} LmsRunAppend(l: Lms, first: seq<Step>, rest: seq<Step>)
    requires LegalRun(l, first) && LegalRun(LmsRun(l, first), rest)
    ensures LegalRun(l, first + rest) && LmsRun(l, first + rest) == LmsRun(LmsRun(l, first), rest)
    decreases first
  {
    hide LmsNext, Legal;
    if first == [] {
      assert first + rest == rest;
    } else {
      assert (first + rest)[1..] == first[1..] + rest;
      LmsRunAppend(LmsNext(l, first[0]), first[1..], rest);
    }
  }

  lemma {:induction false} TurnsReceive(l: Lms, n: nat)
    ensures LegalRun(l, Turns(n)) && AlwaysFinds(l, Turns(n))
    ensures LmsRun(l, Turns(n)) == l.(system := E.RunSystem(l.system, E.Receives(n)))
    decreases n
  {
    hide E.ReceiveOne;
    if n > 0 {
      assert Turns(n)[1..] == Turns(n - 1) && E.Receives(n)[1..] == E.Receives(n - 1);
      TurnsReceive(LmsNext(l, Outside(E.Receive)), n - 1);
      OutsideTellsNothing(l.players, Outside(E.Receive), "");
    }
  }

  /** What a publication adds to the pending events. */
  lemma {:induction false} SubmittedEchoes(l: Lms, pub: Publication)
    requires P.CursorWithin(l.system.aggregate, l.sequence)
    ensures Submitted(l, EntryOf(pub)).system.queue
            == l.system.queue + match pub
                                case Show(player) => Echo(PlayerZone(player))
                                case Retire(p) => if ZoneIdOf(p) in l.Zones() then [BusEvent.ZoneRemoved(ZoneIdOf(p))] else []
  {
    hide Echo, PlayerZone;
    var entry, start := EntryOf(pub), Effect(l.system.aggregate.body, [], []);
    var u := P.LmsUpdate(l.sequence + 1, entry);
    OneEntryCommit(l.system.aggregate, l.sequence + 1, entry);
    assert u.entries[1..] == [];
    var once := ApplyEntry(start, entry, 0, l.system.aggregate.revision + 1);
    assert ApplyEntries(once, [], 0, l.system.aggregate.revision + 1) == once;
    assert Transact(l.system.aggregate.body, u, l.system.aggregate.revision + 1) == once;
    match pub
    case Show(player) =>
      assert once.changed == [PlayerZone(player)] && once.changed[1..] == [] && once.removed == [];
      assert Echoes(once.changed) == Echo(PlayerZone(player)) + [] == Echo(PlayerZone(player));
    case Retire(p) =>
      assert once.changed == [];
      if ZoneIdOf(p) in l.Zones() {
        assert once.removed == [ZoneIdOf(p)] && once.removed[1..] == [];
        assert Retractions(once.removed) == [BusEvent.ZoneRemoved(ZoneIdOf(p))];
      }
      assert Echoes(once.changed) + Retractions(once.removed) == Retractions(once.removed);
  }

  lemma {:induction false} OneAppears(l: Lms, p: PlayerId, status: PlayerStatus)
    requires p !in l.players
    ensures var player := Announced(p, p, status);
            LmsNext(l, Appears(p, status)) == Submitted(l.(players := l.players[p := player]), EntryOf(Show(player)))
  {
    hide Submitted, EntryOf, Announced;
    var player := Announced(p, p, status);
    var start := l.(players := l.players[p := player]);
    assert player.playerId == p by { AnnouncedIsKeyed(p, p, status); }
    assert Publications(l.players, Appears(p, status)) == [Show(player)];
    assert PublishedAll(Submitted(start, EntryOf(Show(player))), [])
        == Submitted(start, EntryOf(Show(player)));
    assert [Show(player)][1..] == [];
  }

  lemma {:induction false} AnnouncedIsKeyed(p: PlayerId, name: string, status: PlayerStatus)
    ensures Announced(p, name, status).playerId == p
  {
  }

  lemma {:induction false} OneLeaves(l: Lms, p: PlayerId)
    ensures LmsNext(l, Leaves(p)) == Submitted(l.(players := l.players - {p}), EntryOf(Retire(p)))
  {
    hide Submitted, EntryOf;
    var start := l.(players := l.players - {p});
    assert Publications(l.players, Leaves(p)) == [Retire(p)] && [Retire(p)][1..] == [];
    assert PublishedAll(Submitted(start, EntryOf(Retire(p))), []) == Submitted(start, EntryOf(Retire(p)));
  }

  /** A player appears where nobody is cached and no zone of the player is present. */
  lemma {:induction false} AppearsAt(owner: C.Owner, l: Lms, p: PlayerId, status: PlayerStatus)
    requires Sound(owner, l) && l.players == map[]
    ensures var m, player := LmsNext(l, Appears(p, status)), Announced(p, p, status);
            && Sound(owner, m) && m.players == map[p := player]
            && m.system.queue == l.system.queue + Echo(PlayerZone(player))
            && Cell(m.Zones(), ZoneIdOf(p)) == Some(PlayerZone(player))
            && Cell(m.Drained(), ZoneIdOf(p)).Some?
  {
    hide Submitted, EntryOf, Announced, Echo, PlayerZone, LmsNext, Prefixed;
    var player := Announced(p, p, status);
    AnnouncedIsKeyed(p, p, status);
    OneAppears(l, p, status);
    SubmittedEchoes(l.(players := l.players[p := player]), Show(player));
    StepAt(owner, l, Appears(p, status), p);
  }

  lemma {:induction false} LeavesAt(owner: C.Owner, l: Lms, p: PlayerId)
    requires Sound(owner, l) && l.players.Keys == {p} && ZoneIdOf(p) in l.Zones()
    ensures var m := LmsNext(l, Leaves(p));
            && Sound(owner, m) && m.players == map[]
            && m.system.queue == l.system.queue + [BusEvent.ZoneRemoved(ZoneIdOf(p))]
  {
    hide Submitted, EntryOf, LmsNext, Prefixed;
    OneLeaves(l, p);
    SubmittedEchoes(l.(players := l.players - {p}), Retire(p));
    StepAt(owner, l, Leaves(p), p);
  }

  /** After these events, and before the echo that follows them, the zone is away. */
  lemma {:induction false} AwayAfter(zones: ZoneMap, zone: Zone)
    ensures Cell(Fold(zones, Echo(zone) + [BusEvent.ZoneRemoved(zone.zoneId)]), zone.zoneId) == None
  {
    hide Echo;
    var id, removal := zone.zoneId, [BusEvent.ZoneRemoved(zone.zoneId)];
    FoldIsPointwise(zones, Echo(zone) + removal, id);
    FoldAtAppend(id, Cell(zones, id), Echo(zone), removal);
    assert removal[1..] == [];
  }

  lemma {:induction false} ThreeSteps(l: Lms, a: Step, b: Step, c: Step)
    requires !a.Poll? && !b.Poll? && !c.Poll?
    ensures LegalRun(l, [a, b, c])
    ensures LmsRun(l, [a, b, c]) == LmsNext(LmsNext(LmsNext(l, a), b), c)
  {
    hide LmsNext;
    assert [a, b, c][1..] == [b, c] && [b, c][1..] == [c] && [c][1..] == [];
    OneStep(LmsNext(LmsNext(l, a), b), c);
  }

  lemma {:induction false} OneStep(l: Lms, step: Step)
    requires !step.Poll?
    ensures LegalRun(l, [step]) && LmsRun(l, [step]) == LmsNext(l, step)
  {
    hide LmsNext;
    assert [step][1..] == [];
  }

  /** A player appears, leaves and appears again while the event loop lags; the loop catches up with the
      leaving. */
  function AwayRun(p: PlayerId, status: PlayerStatus): seq<Step> {
    BackAndForth(p, status) + Turns(|Echo(PlayerZone(Announced(p, p, status)))| + 1)
  }

  function BackAndForth(p: PlayerId, status: PlayerStatus): seq<Step> {
    [Appears(p, status), Leaves(p), Appears(p, status)]
  }

  lemma {:induction false} BackAgain(owner: C.Owner, p: PlayerId, status: PlayerStatus)
    requires NamesOutputs(owner)
    ensures LegalRun(START, BackAndForth(p, status))
    ensures var l, zone := LmsRun(START, BackAndForth(p, status)), PlayerZone(Announced(p, p, status));
            && Sound(owner, l) && l.players.Keys == {p} && Cell(l.Drained(), ZoneIdOf(p)).Some?
            && Echo(zone) + [BusEvent.ZoneRemoved(ZoneIdOf(p))] <= l.system.queue
  {
    hide LmsNext, MembersAre, Sound, PlayerZone, Echo, Announced, Prefixed, LmsRun, LegalRun, E.Eventually;
    var l1 := LmsNext(START, Appears(p, status));
    var l2 := LmsNext(l1, Leaves(p));
    StartIsSound(owner);
    AppearsAt(owner, START, p, status);
    LeavesAt(owner, l1, p);
    AppearsAt(owner, l2, p, status);
    ThreeSteps(START, Appears(p, status), Leaves(p), Appears(p, status));
  }

  lemma {:induction false} AwayRunIs(owner: C.Owner, p: PlayerId, status: PlayerStatus)
    requires NamesOutputs(owner)
    ensures LegalRun(START, AwayRun(p, status))
    ensures var l := LmsRun(START, AwayRun(p, status));
            && Sound(owner, l) && l.players.Keys == {p}
            && ZoneIdOf(p) !in l.Zones() && Cell(l.Drained(), ZoneIdOf(p)).Some?
  {
    hide MembersAre, Sound, PlayerZone, Echo, Prefixed, LmsRun, LegalRun, BackAndForth, Turns;
    var player := Announced(p, p, status);
    var n := |Echo(PlayerZone(player))| + 1;
    BackAgain(owner, p, status);
    var l := LmsRun(START, BackAndForth(p, status));
    TurnsKeepDrained(owner, l, n);
    TurnsAreAway(l, p, player);
    LmsRunAppend(START, BackAndForth(p, status), Turns(n));
  }

  lemma {:induction false} TurnsKeepDrained(owner: C.Owner, l: Lms, n: nat)
    requires Sound(owner, l)
    ensures LegalRun(l, Turns(n))
    ensures Sound(owner, LmsRun(l, Turns(n)))
    ensures LmsRun(l, Turns(n)).Drained() == l.Drained() && LmsRun(l, Turns(n)).players == l.players
    decreases n
  {
    hide Sound, E.ReceiveOne;
    if n > 0 {
      assert Turns(n)[1..] == Turns(n - 1);
      ReceiveIsSound(owner, l);
      TurnsKeepDrained(owner, LmsNext(l, Outside(E.Receive)), n - 1);
    }
  }

  lemma {:induction false} TurnsAreAway(l: Lms, p: PlayerId, player: LmsPlayer)
    requires player.playerId == p
    requires Echo(PlayerZone(player)) + [BusEvent.ZoneRemoved(ZoneIdOf(p))] <= l.system.queue
    ensures var n := |Echo(PlayerZone(player))| + 1;
            LegalRun(l, Turns(n)) && ZoneIdOf(p) !in LmsRun(l, Turns(n)).Zones()
  {
    hide Echo, E.RunSystem, E.Receives, LmsRun, LegalRun, Fold, Prefixed;
    var zone := PlayerZone(player);
    hide PlayerZone;
    var head := Echo(zone) + [BusEvent.ZoneRemoved(ZoneIdOf(p))];
    ZoneOfPlayer(player);
    E.EchoNeverStops(zone);
    forall i | 0 <= i < |head| ensures !l.system.queue[i].AdapterStopping? {
      assert l.system.queue[i] == head[i];
      assert i < |Echo(zone)| ==> head[i] in Echo(zone);
    }
    TurnsReceive(l, |head|);
    E.ReceiveMany(l.system, |head|);
    assert l.system.queue[..|head|] == head;
    AwayAfter(l.Zones(), zone);
  }

  lemma {:induction false} ZoneOfPlayer(player: LmsPlayer)
    ensures PlayerZone(player).zoneId == ZoneIdOf(player.playerId)
  {
  }

  /** A run from a new aggregator that ends with no player cached, and with a zone of the player that
      remains once everything pending is handled: the last disconnect found no zone and was not
      announced. */
  lemma {:induction false} DisconnectCanBeLost(owner: C.Owner, p: PlayerId, status: PlayerStatus)
    requires NamesOutputs(owner)
    ensures var run := AwayRun(p, status) + [Leaves(p)];
            && LegalRun(START, run) && LmsRun(START, run).players == map[]
            && ZoneIdOf(p) in LmsRun(START, run).Drained()
  {
    hide LmsNext, Sound, AwayRun, LmsRun, LegalRun, Prefixed;
    AwayRunIs(owner, p, status);
    var l := LmsRun(START, AwayRun(p, status));
    OneStep(l, Leaves(p));
    LmsRunAppend(START, AwayRun(p, status), [Leaves(p)]);
    StepAt(owner, l, Leaves(p), p);
  }

  lemma {:induction false} OwnedAfterAdd(owner: C.Owner, zones: ZoneMap, zone: Zone)
    requires C.OwnedMap(owner, zones) && C.OwnsOutput(owner, zone)
    ensures C.OwnedMap(owner, zones[zone.zoneId := zone])
  {
    hide C.OwnsOutput;
    var after := zones[zone.zoneId := zone];
    forall id ensures C.OwnedCell(owner, id, Cell(after, id)) {
      assert C.OwnedCell(owner, id, Cell(zones, id));
    }
  }

  lemma {:induction false} OwnedAfterDrop(owner: C.Owner, zones: ZoneMap, id: ZoneId)
    requires C.OwnedMap(owner, zones)
    ensures C.OwnedMap(owner, zones - {id})
  {
    hide C.OwnsOutput;
    forall other ensures C.OwnedCell(owner, other, Cell(zones - {id}, other)) {
      assert C.OwnedCell(owner, other, Cell(zones, other));
    }
  }

  /** A commit appends its echo to what is pending. */
  lemma {:induction false} CommitAppends(s: E.System, log: seq<BusEvent>, position: nat, u: Update)
    requires position <= |log| && s.queue == log[position..]
    ensures E.Next(s, E.CommitStep(u)).queue == (log + Commit(s.aggregate, u).echo)[position..]
  {
  }

  lemma {:induction false} EchoesNeverShutDown(zones: seq<Zone>)
    ensures ShuttingDown !in Echoes(zones)
    decreases zones
  {
    hide Parses;
    if zones != [] {
      EchoesNeverShutDown(zones[1..]);
    }
  }

  lemma {:induction false} NoShutdown(a: Aggregate, u: Update)
    ensures ShuttingDown !in Commit(a, u).echo
  {
    hide ApplyEntries, Echoes, Retractions;
    if Admitted(a, u) {
      var e := Transact(a.body, u, a.revision + 1);
      EchoesNeverShutDown(e.changed);
      if ShuttingDown in Retractions(e.removed) {
        E.RetractionsAreRemovals(e.removed, ShuttingDown);
      }
    }
  }
}
