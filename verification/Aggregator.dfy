/** The zone aggregator itself (src/aggregator.rs): one mutable state, written by the reliable
    commit lane, by the HQPlayer observation sink and by its own event loop. */
module Aggregator {
  import opened Zones
  import opened ZoneEvents
  import opened Projection
  import H = HqpLanes
  import C = EchoConvergence
  import E = EchoRuns

  /** The broadcast bus: every subscriber reads the same log from its own position. */
  class EventBus {
    var log: seq<BusEvent>

    constructor ()
      ensures log == []
    {
      log := [];
    }

    method Publish(e: BusEvent)
      modifies this
      ensures log == old(log) + [e]
    {
      log := log + [e];
    }
  }

  class ZoneAggregator {
    const bus: EventBus
    /** Where this aggregator's own subscription stands in the bus log. */
    var position: nat
    var stopped: bool

    var zones: ZoneMap
    var hqplayerSnapshots: map<string, HqpSnapshot>
    var hqplayerOutputs: map<string, OutputDoc>
    var projectionRevision: nat
    var sourceCursors: map<string, Cursor>
    var projectionEntries: map<string, (nat, Payload)>

    ghost predicate Valid()
      reads this, bus
    {
      position <= |bus.log|
    }

    ghost function Values(): Body
      reads this
    {
      Body(zones, hqplayerSnapshots, hqplayerOutputs, projectionEntries)
    }

    ghost function Contents(): Aggregate
      reads this
    {
      Aggregate(Values(), projectionRevision, sourceCursors)
    }

    /** The events published but not yet handled here. */
    ghost function Pending(): seq<BusEvent>
      requires Valid()
      reads this, bus
    {
      bus.log[position..]
    }

    constructor (bus: EventBus)
      ensures this.bus == bus && Valid() && Pending() == [] && !stopped
      ensures Contents() == EMPTY_AGGREGATE
    {
      this.bus := bus;
      position := |bus.log|;
      stopped := false;
      zones, hqplayerSnapshots, hqplayerOutputs, projectionEntries := map[], map[], map[], map[];
      projectionRevision, sourceCursors := 0, map[];
    }

    // -------------------------------------------------------------------------
    // The reliable commit lane
    // -------------------------------------------------------------------------

    /** Apply one payload of an admitted update. */
    method ApplyToState(payload: Payload, epoch: nat, revision: nat)
      returns (changed: seq<Zone>, removed: seq<ZoneId>)
      modifies this`zones, this`hqplayerSnapshots, this`hqplayerOutputs
      ensures Effect(Values(), changed, removed)
           == ApplyPayload(Effect(old(Values()), [], []), payload, epoch, revision)
    {
      changed, removed := [], [];
      match payload
      case ZonePayload(zone) =>
        zones := zones[zone.zoneId := zone];
        changed := [zone];
      case ZoneRetired(id) =>
        if id in zones {
          zones := zones - {id};
          removed := [id];
        }
      case HqpObserved(o) =>
        if o.instanceName !in hqplayerSnapshots
           || hqplayerSnapshots[o.instanceName].observation.producerEpoch <= o.producerEpoch {
          hqplayerSnapshots := hqplayerSnapshots[o.instanceName := Observe(HqpCell(hqplayerSnapshots, o.instanceName), o)];
        }
      case HqpAdvanced(name, advanced) =>
        var _ := PublishHqplayerAdvanced(name, advanced);
      case HqpProfiles(name, result) =>
        var _ := PublishHqplayerProfiles(name, result);
      case HqpTransientFailure(name, at) =>
        TransientFailure(name, at);
      case HqpRemoved(name, producerEpoch) =>
        if name in hqplayerSnapshots && hqplayerSnapshots[name].observation.producerEpoch == producerEpoch {
          hqplayerSnapshots := hqplayerSnapshots - {name};
          var id := HqpZoneId(name);
          if id in zones {
            zones := zones - {id};
            removed := [id];
          }
        }
        hqplayerOutputs := hqplayerOutputs - {name};
      case HqpOutputs(name, doc) =>
        var offered := Stamped(doc, epoch, revision);
        if AdmitsOutputs(hqplayerOutputs, name, offered) {
          hqplayerOutputs := hqplayerOutputs[name := offered];
        }
      case HqpManagerStopped(at) =>
        ManagerStopped();
        hqplayerOutputs := map name | name in hqplayerOutputs :: Withdrawn(hqplayerOutputs[name], revision, at);
        zones := map id | id in zones && !OwnedBy("hqplayer", id) :: zones[id];
      case Marker(_) =>
    }

    /** Commit one update, then announce it. The announcements reach the log only after the whole
        update is in place. */
    method CommitReliableProjection(update: Update) returns (outcome: Outcome)
      requires Valid()
      modifies this, bus
      ensures Valid() && position == old(position) && stopped == old(stopped)
      ensures Contents() == Commit(old(Contents()), update).state
      ensures outcome == Commit(old(Contents()), update).outcome
      ensures bus.log == old(bus.log) + Commit(old(Contents()), update).echo
    {
      hide Transact, Echoes, Retractions;
      var source := update.source.Identity();
      if source in sourceCursors {
        var cursor := sourceCursors[source];
        if IsStale(cursor, update) {
          return StaleIgnored(cursor.epoch, cursor.sequence);
        }
        if IsGap(cursor, update) {
          sourceCursors := sourceCursors[source := cursor.(freshness := Reconciling)];
          return GapDetected(cursor.sequence + 1, update.sequence);
        }
      }
      projectionRevision := projectionRevision + 1;
      sourceCursors := sourceCursors[source := Cursor(update.source.epoch, update.sequence, Fresh)];
      var changed, removed := ApplyAll(update);
      AnnounceChanged(changed);
      AnnounceRemoved(removed);
      outcome := Committed(projectionRevision);
    }

    method ApplyAll(update: Update) returns (changed: seq<Zone>, removed: seq<ZoneId>)
      modifies this`zones, this`hqplayerSnapshots, this`hqplayerOutputs, this`projectionEntries
      ensures Effect(Values(), changed, removed) == Transact(old(Values()), update, projectionRevision)
    {
      hide ApplyPayload;
      var entries, i := update.entries, 0;
      changed, removed := [], [];
      while i < |entries|
        invariant 0 <= i <= |entries|
        invariant ApplyEntries(Effect(Values(), changed, removed), entries[i..], update.source.epoch, projectionRevision)
               == Transact(old(Values()), update, projectionRevision)
      {
        var entry := entries[i];
        ghost var before := Effect(Values(), changed, removed);
        var moreChanged, moreRemoved := ApplyToState(entry.payload, update.source.epoch, projectionRevision);
        ApplyPayloadExtends(before, entry.payload, update.source.epoch, projectionRevision);
        changed, removed := changed + moreChanged, removed + moreRemoved;
        projectionEntries := projectionEntries[entry.key := (projectionRevision, entry.payload)];
        assert entries[i..][0] == entry && entries[i..][1..] == entries[i + 1..];
        i := i + 1;
      }
    }

    method AnnounceChanged(changed: seq<Zone>)
      modifies bus
      ensures bus.log == old(bus.log) + Echoes(changed)
    {
      hide Echo;
      var i := 0;
      while i < |changed|
        invariant 0 <= i <= |changed|
        invariant bus.log + Echoes(changed[i..]) == old(bus.log) + Echoes(changed)
      {
        assert changed[i..][0] == changed[i] && changed[i..][1..] == changed[i + 1..];
        ghost var before := bus.log;
        Announce(changed[i]);
        assert before + (Echo(changed[i]) + Echoes(changed[i + 1..])) == bus.log + Echoes(changed[i + 1..]);
        i := i + 1;
      }
    }

    /** The lifecycle hint, then the granular hints of one zone. */
    method Announce(zone: Zone)
      modifies bus
      ensures bus.log == old(bus.log) + Echo(zone)
    {
      hide Parses, StateText, Round;
      if !Parses(zone.zoneId) {
        return;
      }
      bus.Publish(ZoneDiscovered(zone));
      bus.Publish(ZoneUpdated(zone.zoneId, zone.zoneName, StateText(zone.state)));
      if zone.nowPlaying.Some? {
        var np := zone.nowPlaying.value;
        bus.Publish(NowPlayingChanged(zone.zoneId, Some(np.title), Some(np.artist), Some(np.album), np.imageKey));
        if np.seekPosition.Some? {
          bus.Publish(SeekPositionChanged(zone.zoneId, Round(np.seekPosition.value)));
        }
      }
      if zone.volumeControl.Some? {
        var vc := zone.volumeControl.value;
        bus.Publish(VolumeChanged(vc.outputId.GetOr(zone.zoneId), vc.value, vc.isMuted));
      }
    }

    method AnnounceRemoved(removed: seq<ZoneId>)
      modifies bus
      ensures bus.log == old(bus.log) + Retractions(removed)
    {
      var i := 0;
      while i < |removed|
        invariant 0 <= i <= |removed|
        invariant bus.log + Retractions(removed[i..]) == old(bus.log) + Retractions(removed)
      {
        assert removed[i..][0] == removed[i] && removed[i..][1..] == removed[i + 1..];
        ghost var before := bus.log;
        bus.Publish(BusEvent.ZoneRemoved(removed[i]));
        assert before + ([BusEvent.ZoneRemoved(removed[i])] + Retractions(removed[i + 1..]))
            == bus.log + Retractions(removed[i + 1..]);
        i := i + 1;
      }
    }

    // -------------------------------------------------------------------------
    // The HQPlayer observation sink
    // -------------------------------------------------------------------------

    method PublishHqplayerAdvanced(name: string, advanced: Advanced) returns (attached: bool)
      modifies this`hqplayerSnapshots
      ensures Values() == H.Sink(old(Values()), projectionRevision, H.AdvancedObserved(name, advanced))
      ensures attached <==> name in old(hqplayerSnapshots)
                            && old(hqplayerSnapshots)[name].observation.target == advanced.target
    {
      if name !in hqplayerSnapshots || hqplayerSnapshots[name].observation.target != advanced.target {
        return false;
      }
      hqplayerSnapshots := hqplayerSnapshots[name := Attach(hqplayerSnapshots[name], advanced)];
      attached := true;
    }

    method PublishHqplayerProfiles(name: string, result: ProfileResult) returns (published: bool)
      modifies this`hqplayerSnapshots
      ensures Values() == H.Sink(old(Values()), projectionRevision, H.ProfilesObserved(name, result))
      ensures published <==> name in old(hqplayerSnapshots)
    {
      if name !in hqplayerSnapshots {
        return false;
      }
      hqplayerSnapshots := hqplayerSnapshots[name := WithProfiles(hqplayerSnapshots[name], result)];
      published := true;
    }

    method Observed(o: Observation)
      modifies this`hqplayerSnapshots, this`zones
      ensures Values() == H.Sink(old(Values()), projectionRevision, H.Observed(o))
    {
      if o.instanceName in hqplayerSnapshots
         && hqplayerSnapshots[o.instanceName].observation.producerEpoch > o.producerEpoch {
        return;
      }
      zones := zones[o.zone.zoneId := o.zone];
      hqplayerSnapshots := hqplayerSnapshots[o.instanceName := Observe(HqpCell(hqplayerSnapshots, o.instanceName), o)];
    }

    method TransientFailure(name: string, observedAt: nat)
      modifies this`hqplayerSnapshots
      ensures Values() == H.Sink(old(Values()), projectionRevision, H.TransientFailure(name, observedAt))
    {
      if name in hqplayerSnapshots {
        hqplayerSnapshots :=
          hqplayerSnapshots[name := Retained(hqplayerSnapshots[name]).(lastFailureAt := Some(observedAt))];
      }
    }

    method OutputsObserved(name: string, doc: OutputDoc)
      modifies this`hqplayerOutputs
      ensures Values() == H.Sink(old(Values()), projectionRevision, H.OutputsObserved(name, doc))
    {
      var offered := doc.(aggregateRevision := projectionRevision);
      if name !in hqplayerOutputs || hqplayerOutputs[name].outputRevision <= offered.outputRevision {
        hqplayerOutputs := hqplayerOutputs[name := offered];
      }
    }

    method InstanceRemoved(name: string, producerEpoch: nat)
      modifies this`hqplayerSnapshots, this`hqplayerOutputs
      ensures Values() == H.Sink(old(Values()), projectionRevision, H.InstanceRemoved(name, producerEpoch))
    {
      if name in hqplayerSnapshots && hqplayerSnapshots[name].observation.producerEpoch == producerEpoch {
        hqplayerSnapshots := hqplayerSnapshots - {name};
      }
      hqplayerOutputs := hqplayerOutputs - {name};
    }

    method ManagerStopped()
      modifies this`hqplayerSnapshots
      ensures Values() == H.Sink(old(Values()), projectionRevision, H.ManagerStopped)
    {
      hqplayerSnapshots := map name | name in hqplayerSnapshots :: Retained(hqplayerSnapshots[name]);
    }

    // -------------------------------------------------------------------------
    // The event loop
    // -------------------------------------------------------------------------

    /** Update the first zone found whose volume control is this output; the order in which zones
        are searched is arbitrary. */
    method HandleVolume(outputId: string, volume: real, isMuted: bool)
      modifies this`zones
      ensures (forall id :: id in old(zones) ==> !Controls(old(zones)[id], outputId)) ==> zones == old(zones)
      ensures (exists id :: id in old(zones) && Controls(old(zones)[id], outputId)) ==>
                exists id :: id in old(zones) && Controls(old(zones)[id], outputId)
                          && zones == old(zones)[id := WithVolume(old(zones)[id], volume, isMuted)]
      ensures OneHeard(old(zones), zones, outputId, volume, isMuted)
      ensures UniqueOutputs(old(zones)) ==> zones == Apply(old(zones), VolumeChanged(outputId, volume, isMuted))
    {
      if id :| id in zones && Controls(zones[id], outputId) {
        zones := zones[id := WithVolume(zones[id], volume, isMuted)];
      }
    }

    method HandleStopping(adapter: string)
      requires Valid()
      modifies this`zones, bus
      ensures Valid()
      ensures zones == Apply(old(zones), AdapterStopping(adapter))
      ensures bus.log == old(bus.log)
                         + [ZonesFlushed(adapter, set id | id in old(zones) && OwnedBy(adapter, id))]
    {
      var zoneIds := set id | id in zones && OwnedBy(adapter, id);
      zones := zones - zoneIds;
      bus.Publish(ZonesFlushed(adapter, zoneIds));
    }

    /** Apply one event to the zones. */
    method HandleEvent(e: BusEvent)
      requires Valid()
      modifies this`zones, bus
      ensures Valid()
      ensures !e.VolumeChanged? || UniqueOutputs(old(zones)) ==> zones == Apply(old(zones), e)
      ensures e.VolumeChanged? ==> OneHeard(old(zones), zones, e.outputId, e.volume, e.isMuted)
      ensures bus.log == old(bus.log)
                         + if e.AdapterStopping?
                           then [ZonesFlushed(e.adapter, set id | id in old(zones) && OwnedBy(e.adapter, id))] else []
    {
      match e
      case ZoneDiscovered(zone) =>
        zones := zones[zone.zoneId := zone];
      case ZoneUpdated(id, name, text) =>
        if id in zones {
          zones := zones[id := zones[id].(zoneName := name, state := ParseState(text))];
        }
      case ZoneRemoved(id) =>
        zones := zones - {id};
      case NowPlayingChanged(id, title, artist, album, imageKey) =>
        if id in zones {
          zones := zones[id := zones[id].(nowPlaying := Heard(zones[id].nowPlaying, title, artist, album, imageKey))];
        }
      case PlaybackModesChanged(id, repeatMode, shuffle) =>
        if id in zones {
          zones := zones[id := WithModes(zones[id], repeatMode, shuffle)];
        }
      case SeekPositionChanged(id, seekTo) =>
        if id in zones {
          zones := zones[id := WithSeek(zones[id], seekTo)];
        }
      case VolumeChanged(outputId, volume, isMuted) =>
        HandleVolume(outputId, volume, isMuted);
      case AdapterStopping(adapter) =>
        HandleStopping(adapter);
      case ZonesFlushed(_, _) =>
      case ShuttingDown =>
      case OtherEvent(_) =>
    }

    /** Receive and handle the oldest pending event: one turn of the loop. Whatever is pending afterwards
        is what the protocol's reception leaves; the zones are too, unless a volume event names an output
        that several zones share, in which case exactly one of those zones takes it. */
    method Receive()
      requires Valid() && Pending() != []
      modifies this`zones, this`position, bus
      ensures Valid() && position == old(position) + 1
      ensures old(bus.log) <= bus.log
      ensures Pending() == E.ReceiveOne(E.System(old(Contents()), old(Pending()))).queue
      ensures var e := old(Pending())[0];
              if e.VolumeChanged? && !UniqueOutputs(old(zones))
              then OneHeard(old(zones), zones, e.outputId, e.volume, e.isMuted)
              else E.System(Contents(), Pending()) == E.ReceiveOne(E.System(old(Contents()), old(Pending())))
    {
      var e := bus.log[position];
      position := position + 1;
      HandleEvent(e);
    }

    /** The event loop over everything pending, including what it publishes itself, up to a
        shutdown. Without one it ends drained; and if every output belongs to one zone, with every
        event applied in order. */
    method RunInner(ghost owner: C.Owner)
      requires Valid() && !stopped
      modifies this`zones, this`position, this`stopped, bus
      ensures Valid() && old(bus.log) <= bus.log
      ensures stopped <==> ShuttingDown in old(Pending())
      ensures !stopped ==> Pending() == []
      ensures old(Owned(owner)) ==> Owned(owner)
      ensures !stopped && old(Owned(owner)) ==>
                zones == E.Eventually(E.System(old(Contents()), old(Pending())))
    {
      hide Apply, C.OwnedMap, C.OwnedEvent, Fold;
      ghost var start := E.System(Contents(), Pending());
      while !stopped && position < |bus.log|
        invariant Valid() && old(bus.log) <= bus.log
        invariant old(Owned(owner)) ==> Owned(owner)
        invariant stopped ==> ShuttingDown in start.queue
        invariant !stopped ==> (ShuttingDown in Pending() <==> ShuttingDown in start.queue)
        invariant !stopped && old(Owned(owner)) ==> E.Eventually(E.System(Contents(), Pending())) == E.Eventually(start)
        decreases if stopped then 0 else 1, Work(Pending())
      {
        assert Pending()[0] == bus.log[position];
        ghost var s := E.System(Contents(), Pending());
        if bus.log[position] == ShuttingDown {
          assert bus.log[position] in Pending();
          assert Pending()[1..] == bus.log[position + 1..];
          position, stopped := position + 1, true;
        } else {
          assert bus.log[position] in Pending();
          ReceiveShrinks(s);
          if Owned(owner) {
            C.OwnedOutputsAreUnique(owner, zones);
            E.ReceiveKeepsEventually(s);
            E.ApplyStaysOwned(owner, zones, bus.log[position]);
            ReceiveStaysOwned(owner, s);
          }
          Receive();
        }
      }
      DrainedIsEventual(E.System(Contents(), Pending()));
    }

    /** Every zone, present or pending, has its volume output to itself. */
    ghost predicate Owned(owner: C.Owner)
      requires Valid()
      reads this, bus
    {
      C.OwnedMap(owner, zones) && forall e :: e in Pending() ==> C.OwnedEvent(owner, e)
    }
  }

  /** A volume event reaches exactly one of the zones that name its output, and nothing if none does. */
  ghost predicate OneHeard(before: ZoneMap, after: ZoneMap, outputId: string, volume: real, isMuted: bool) {
    if exists id :: id in before && Controls(before[id], outputId)
    then exists id :: id in before && Controls(before[id], outputId)
                   && after == before[id := WithVolume(before[id], volume, isMuted)]
    else after == before
  }

  /** Events still to handle, counting for each stop the acknowledgement it will add. */
  ghost function Work(queue: seq<BusEvent>): nat
    decreases queue
  {
    if queue == [] then 0 else (if queue[0].AdapterStopping? then 2 else 1) + Work(queue[1..])
  }

  lemma {:induction false} WorkAppend(p: seq<BusEvent>, q: seq<BusEvent>)
    ensures Work(p + q) == Work(p) + Work(q)
    decreases p
  {
    if p == [] {
      assert p + q == q;
    } else {
      assert (p + q)[1..] == p[1..] + q;
      WorkAppend(p[1..], q);
    }
  }

  lemma {:induction false} ReceiveShrinks(s: E.System)
    requires s.queue != []
    ensures Work(E.ReceiveOne(s).queue) < Work(s.queue)
    ensures s.queue[0] != ShuttingDown ==> (ShuttingDown in E.ReceiveOne(s).queue <==> ShuttingDown in s.queue)
  {
    hide Apply;
    var rest := s.queue[1..];
    var ack := E.ReceiveOne(s).queue[|rest|..];
    assert E.ReceiveOne(s).queue == rest + ack && s.queue == [s.queue[0]] + rest;
    WorkAppend(rest, ack);
    if ack != [] {
      assert ack[1..] == [] && Work(ack) == 1;
    }
  }

  lemma {:induction false} ReceiveStaysOwned(owner: C.Owner, s: E.System)
    requires s.queue != [] && forall e :: e in s.queue ==> C.OwnedEvent(owner, e)
    ensures forall e :: e in E.ReceiveOne(s).queue ==> C.OwnedEvent(owner, e)
  {
    hide Apply, C.OwnsOutput;
  }

  lemma {:induction false} DrainedIsEventual(s: E.System)
    ensures s.queue == [] ==> E.Eventually(s) == s.aggregate.body.zones
  {
  }

  /** The announcements of a payload do not depend on what was announced before. */
  lemma {:induction false} ApplyPayloadExtends(e: Effect, payload: Payload, epoch: nat, revision: nat)
    ensures var alone := ApplyPayload(Effect(e.body, [], []), payload, epoch, revision);
      ApplyPayload(e, payload, epoch, revision)
      == Effect(alone.body, e.changed + alone.changed, e.removed + alone.removed)
  {
    assert e.changed + [] == e.changed && e.removed + [] == e.removed;
  }
}
