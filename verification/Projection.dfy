/** The reliable commit lane: projection updates (src/bus/runtime.rs) and what
    `commit_reliable_projection` (src/aggregator.rs) does with one of them, as a function. */
module Projection {
  import opened Zones
  import opened ZoneEvents

  /** A payload part that is stored and copied but never inspected. */
  type Document = string

  // ---------------------------------------------------------------------------
  // HQPlayer payloads
  // ---------------------------------------------------------------------------

  datatype ExecutionTarget = ExecutionTarget(
    instanceName: string,
    producerEpoch: nat,
    endpointGeneration: nat,
    transportGeneration: nat)

  datatype Observation = Observation(
    instanceName: string,
    producerEpoch: nat,
    target: ExecutionTarget,
    zone: Zone,
    pipeline: Document,
    details: Document)

  datatype Advanced = Advanced(target: ExecutionTarget, pipeline: Document, options: Document)

  datatype ProfileResult = Profiles(names: seq<string>) | ProfilesFailed(error: string)

  datatype Presence = Live | LastKnown

  datatype HqpSnapshot = HqpSnapshot(
    observation: Observation,
    advanced: Option<Advanced>,
    profiles: Option<seq<string>>,
    profilesError: Option<string>,
    presence: Presence,
    revision: nat,
    lastFailureAt: Option<nat>)

  datatype Availability = Available(details: Document) | Unavailable(reason: string, since: nat)

  datatype OutputDoc = OutputDoc(
    sourceEpoch: nat,
    aggregateRevision: nat,
    outputRevision: nat,
    availability: Availability,
    session: Option<Document>,
    forwardingDestination: Option<Document>,
    routes: Document)

  // ---------------------------------------------------------------------------
  // Updates
  // ---------------------------------------------------------------------------

  datatype Payload =
    | ZonePayload(zone: Zone)
    | ZoneRetired(zoneId: ZoneId)
    | HqpObserved(observation: Observation)
    | HqpAdvanced(instanceName: string, advanced: Advanced)
    | HqpProfiles(instanceName: string, result: ProfileResult)
    | HqpTransientFailure(instanceName: string, observedAt: nat)
    | HqpRemoved(instanceName: string, producerEpoch: nat)
    | HqpOutputs(instanceName: string, doc: OutputDoc)
    | HqpManagerStopped(at: nat)
    | Marker(text: string)

  datatype Entry = Entry(key: string, payload: Payload)

  datatype Source = Source(adapter: string, instance: Option<string>, epoch: nat) {
    function Identity(): string {
      if instance.Some? then adapter + "/" + instance.value else adapter
    }
  }

  datatype Kind = Snapshot | Delta

  datatype Update = Update(source: Source, sequence: nat, kind: Kind, entries: seq<Entry>)

  datatype Freshness = Fresh | Reconciling

  datatype Cursor = Cursor(epoch: nat, sequence: nat, freshness: Freshness)

  datatype Outcome =
    | Committed(revision: nat)
    | StaleIgnored(currentEpoch: nat, currentSequence: nat)
    | GapDetected(expected: nat, received: nat)

  /** The projected values, which payloads write. */
  datatype Body = Body(
    zones: ZoneMap,
    hqp: map<string, HqpSnapshot>,
    outputs: map<string, OutputDoc>,
    entries: map<string, (nat, Payload)>)

  /** Everything behind the aggregator's one lock. */
  datatype Aggregate = Aggregate(body: Body, revision: nat, cursors: map<string, Cursor>)

  const EMPTY_AGGREGATE := Aggregate(Body(map[], map[], map[], map[]), 0, map[])

  // ---------------------------------------------------------------------------
  // Payload effects
  // ---------------------------------------------------------------------------

  function HqpZoneId(instanceName: string): ZoneId {
    Prefixed("hqplayer", instanceName)
  }

  /** The snapshot an admitted observation leaves: options survive only for the same execution
      target, profiles only for the same endpoint. */
  function Observe(previous: Option<HqpSnapshot>, observation: Observation): HqpSnapshot {
    match previous
    case None => HqpSnapshot(observation, None, None, None, Live, 1, None)
    case Some(current) =>
      var was := current.observation.target;
      var sameSession := was == observation.target;
      var sameEndpoint := was.instanceName == observation.target.instanceName
                          && was.endpointGeneration == observation.target.endpointGeneration;
      HqpSnapshot(
        observation,
        if sameSession then current.advanced else None,
        if sameEndpoint then current.profiles else None,
        if sameEndpoint then current.profilesError else None,
        Live, current.revision + 1, None)
  }

  function HqpCell(hqp: map<string, HqpSnapshot>, name: string): Option<HqpSnapshot> {
    if name in hqp then Some(hqp[name]) else None
  }

  function Attach(current: HqpSnapshot, advanced: Advanced): HqpSnapshot {
    current.(observation := current.observation.(pipeline := advanced.pipeline),
             advanced := Some(advanced),
             revision := current.revision + 1)
  }

  function WithProfiles(current: HqpSnapshot, result: ProfileResult): HqpSnapshot {
    match result
    case Profiles(names) => current.(profiles := Some(names), profilesError := None, revision := current.revision + 1)
    case ProfilesFailed(error) => current.(profilesError := Some(error), revision := current.revision + 1)
  }

  function Retained(current: HqpSnapshot): HqpSnapshot {
    current.(presence := LastKnown, revision := current.revision + 1)
  }

  /** The output document an update offers, stamped by the aggregator. */
  function Stamped(doc: OutputDoc, epoch: nat, revision: nat): OutputDoc {
    doc.(sourceEpoch := epoch, aggregateRevision := revision)
  }

  predicate AdmitsOutputs(outputs: map<string, OutputDoc>, name: string, offered: OutputDoc) {
    name in outputs ==>
      || offered.sourceEpoch > outputs[name].sourceEpoch
      || (offered.sourceEpoch == outputs[name].sourceEpoch && outputs[name].outputRevision <= offered.outputRevision)
  }

  function Withdrawn(doc: OutputDoc, revision: nat, at: nat): OutputDoc {
    doc.(availability := Unavailable("HQPlayer lifecycle stopped", at), session := None,
         forwardingDestination := None, aggregateRevision := revision)
  }

  /** The body under construction, with the zones to announce and the removals to announce. */
  datatype Effect = Effect(body: Body, changed: seq<Zone>, removed: seq<ZoneId>)

  function ApplyPayload(e: Effect, payload: Payload, epoch: nat, revision: nat): Effect {
    var a := e.body;
    match payload
    case ZonePayload(zone) =>
      e.(body := a.(zones := a.zones[zone.zoneId := zone]), changed := e.changed + [zone])
    case ZoneRetired(id) =>
      if id in a.zones then e.(body := a.(zones := a.zones - {id}), removed := e.removed + [id]) else e
    case HqpObserved(o) =>
      if o.instanceName in a.hqp && a.hqp[o.instanceName].observation.producerEpoch > o.producerEpoch then e
      else e.(body := a.(hqp := a.hqp[o.instanceName := Observe(HqpCell(a.hqp, o.instanceName), o)]))
    case HqpAdvanced(name, advanced) =>
      if name in a.hqp && a.hqp[name].observation.target == advanced.target
      then e.(body := a.(hqp := a.hqp[name := Attach(a.hqp[name], advanced)]))
      else e
    case HqpProfiles(name, result) =>
      if name in a.hqp then e.(body := a.(hqp := a.hqp[name := WithProfiles(a.hqp[name], result)])) else e
    case HqpTransientFailure(name, at) =>
      if name in a.hqp
      then e.(body := a.(hqp := a.hqp[name := Retained(a.hqp[name]).(lastFailureAt := Some(at))]))
      else e
    case HqpRemoved(name, producerEpoch) =>
      var dropped := a.(outputs := a.outputs - {name});
      if name in a.hqp && a.hqp[name].observation.producerEpoch == producerEpoch then
        var id := HqpZoneId(name);
        Effect(dropped.(hqp := a.hqp - {name}, zones := a.zones - {id}),
               e.changed,
               if id in a.zones then e.removed + [id] else e.removed)
      else e.(body := dropped)
    case HqpOutputs(name, doc) =>
      var offered := Stamped(doc, epoch, revision);
      if AdmitsOutputs(a.outputs, name, offered) then e.(body := a.(outputs := a.outputs[name := offered])) else e
    case HqpManagerStopped(at) =>
      e.(body := a.(hqp := map name | name in a.hqp :: Retained(a.hqp[name]),
                     outputs := map name | name in a.outputs :: Withdrawn(a.outputs[name], revision, at),
                     zones := map id | id in a.zones && !OwnedBy("hqplayer", id) :: a.zones[id]))
    case Marker(_) => e
  }

  function ApplyEntry(e: Effect, entry: Entry, epoch: nat, revision: nat): Effect {
    var next := ApplyPayload(e, entry.payload, epoch, revision);
    next.(body := next.body.(entries := next.body.entries[entry.key := (revision, entry.payload)]))
  }

  function ApplyEntries(e: Effect, entries: seq<Entry>, epoch: nat, revision: nat): Effect
    decreases entries
  {
    if entries == [] then e
    else ApplyEntries(ApplyEntry(e, entries[0], epoch, revision), entries[1..], epoch, revision)
  }

  // ---------------------------------------------------------------------------
  // Notifications
  // ---------------------------------------------------------------------------

  function EchoOutput(zone: Zone): string
    requires zone.volumeControl.Some?
  {
    zone.volumeControl.value.outputId.GetOr(zone.zoneId)
  }

  function TrackEcho(zone: Zone): seq<BusEvent> {
    match zone.nowPlaying
    case None => []
    case Some(np) =>
      [NowPlayingChanged(zone.zoneId, Some(np.title), Some(np.artist), Some(np.album), np.imageKey)]
      + if np.seekPosition.Some? then [SeekPositionChanged(zone.zoneId, Round(np.seekPosition.value))] else []
  }

  function VolumeEcho(zone: Zone): seq<BusEvent> {
    match zone.volumeControl
    case None => []
    case Some(vc) => [VolumeChanged(EchoOutput(zone), vc.value, vc.isMuted)]
  }

  /** The compatibility notifications for one committed zone; none for an id no adapter owns. */
  function Echo(zone: Zone): seq<BusEvent> {
    if !Parses(zone.zoneId) then []
    else
      [ZoneDiscovered(zone), ZoneUpdated(zone.zoneId, zone.zoneName, StateText(zone.state))]
      + TrackEcho(zone) + VolumeEcho(zone)
  }

  function Echoes(zones: seq<Zone>): seq<BusEvent> {
    if zones == [] then [] else Echo(zones[0]) + Echoes(zones[1..])
  }

  function Retractions(ids: seq<ZoneId>): seq<BusEvent> {
    if ids == [] then [] else [BusEvent.ZoneRemoved(ids[0])] + Retractions(ids[1..])
  }

  // ---------------------------------------------------------------------------
  // Admission and commit
  // ---------------------------------------------------------------------------

  predicate IsStale(c: Cursor, u: Update) {
    u.source.epoch < c.epoch || (u.source.epoch == c.epoch && u.sequence <= c.sequence)
  }

  predicate IsGap(c: Cursor, u: Update) {
    u.source.epoch == c.epoch && u.sequence > c.sequence + 1 && u.kind == Delta
  }

  datatype CommitResult = CommitResult(state: Aggregate, outcome: Outcome, echo: seq<BusEvent>)

  predicate Admitted(a: Aggregate, u: Update) {
    var id := u.source.Identity();
    id in a.cursors ==> !IsStale(a.cursors[id], u) && !IsGap(a.cursors[id], u)
  }

  /** An admitted update's effect on the body, with the zones and removals it will announce. */
  function Transact(body: Body, u: Update, revision: nat): Effect {
    ApplyEntries(Effect(body, [], []), u.entries, u.source.epoch, revision)
  }

  function Commit(a: Aggregate, u: Update): CommitResult {
    var id := u.source.Identity();
    if id in a.cursors && IsStale(a.cursors[id], u) then
      CommitResult(a, StaleIgnored(a.cursors[id].epoch, a.cursors[id].sequence), [])
    else if id in a.cursors && IsGap(a.cursors[id], u) then
      CommitResult(a.(cursors := a.cursors[id := a.cursors[id].(freshness := Reconciling)]),
                   GapDetected(a.cursors[id].sequence + 1, u.sequence), [])
    else
      var revision := a.revision + 1;
      var e := Transact(a.body, u, revision);
      CommitResult(
        Aggregate(e.body, revision, a.cursors[id := Cursor(u.source.epoch, u.sequence, Fresh)]),
        Committed(revision), Echoes(e.changed) + Retractions(e.removed))
  }
}
