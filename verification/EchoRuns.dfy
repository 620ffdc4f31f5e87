/** Runs in which commits, broadcast publications and the aggregator's own event loop interleave. */
module EchoRuns {
  import opened Zones
  import opened ZoneEvents
  import opened Projection
  import opened EchoConvergence

  // ---------------------------------------------------------------------------
  // Pending rediscovery
  // ---------------------------------------------------------------------------

  /** The last lifecycle event the queue holds about `id` is a discovery. */
  predicate Rediscovers(queue: seq<BusEvent>, id: ZoneId)
    decreases queue
  {
    queue != [] &&
    var init, e := queue[..|queue| - 1], queue[|queue| - 1];
    match e
    case ZoneDiscovered(zone) => zone.zoneId == id || Rediscovers(init, id)
    case ZoneRemoved(target) => target != id && Rediscovers(init, id)
    case AdapterStopping(adapter) => !OwnedBy(adapter, id) && Rediscovers(init, id)
    case _ => Rediscovers(init, id)
  }

  lemma {:induction false} RediscoveryExact(queue: seq<BusEvent>, id: ZoneId)
    ensures FoldAt(id, None, queue).Some? <==> Rediscovers(queue, id)
    decreases queue
  {
    if queue != [] {
      var init, e := queue[..|queue| - 1], queue[|queue| - 1];
      assert queue == init + [e] && [e][1..] == [];
      FoldAtAppend(id, None, init, [e]);
      RediscoveryExact(init, id);
    }
  }

  lemma {:induction false} FoldAtKeepsOwned(owner: Owner, id: ZoneId, cell: Option<Zone>, queue: seq<BusEvent>)
    requires OwnedCell(owner, id, cell) && forall e :: e in queue ==> OwnedEvent(owner, e)
    ensures OwnedCell(owner, id, FoldAt(id, cell, queue))
    decreases queue
  {
    hide ApplyAt, OwnedCell, OwnedEvent;
    if queue != [] {
      assert queue[0] in queue && forall e :: e in queue[1..] ==> e in queue;
      ApplyAtKeepsOwned(owner, id, cell, queue[0]);
      FoldAtKeepsOwned(owner, id, ApplyAt(id, cell, queue[0]), queue[1..]);
    }
  }

  // ---------------------------------------------------------------------------
  // The system
  // ---------------------------------------------------------------------------

  /** The aggregate, and the events its own subscription has still to deliver. */
  datatype System = System(aggregate: Aggregate, queue: seq<BusEvent>)

  datatype Step =
    | CommitStep(update: Update)
    | Publish(event: BusEvent)
    | Receive

  /** The event loop applies the oldest event; a flush is acknowledged on the bus. */
  function ReceiveOne(s: System): System {
    if s.queue == [] then s
    else
      var zones, e := s.aggregate.body.zones, s.queue[0];
      var ack :=
        if e.AdapterStopping? then [ZonesFlushed(e.adapter, set id | id in zones && OwnedBy(e.adapter, id))] else [];
      System(s.aggregate.(body := s.aggregate.body.(zones := Apply(zones, e))), s.queue[1..] + ack)
  }

  function Next(s: System, step: Step): System {
    match step
    case CommitStep(u) => var c := Commit(s.aggregate, u); System(c.state, s.queue + c.echo)
    case Publish(e) => s.(queue := s.queue + [e])
    case Receive => ReceiveOne(s)
  }

  /** The zones once every queued event has been applied. */
  function Eventually(s: System): ZoneMap {
    Fold(s.aggregate.body.zones, s.queue)
  }

  /** The zones of an ideal aggregator without lag: every commit and every publication takes
      effect when it is issued; a committed zone shows its seek position in whole seconds. */
  function Ideal(s: System, seen: ZoneMap, step: Step): ZoneMap {
    match step
    case CommitStep(u) =>
      if Admitted(s.aggregate, u)
      then SequentialEntries(seen, Effect(s.aggregate.body, [], []), u.entries, u.source.epoch, s.aggregate.revision + 1)
      else seen
    case Publish(e) => Apply(seen, e)
    case Receive => seen
  }

  // ---------------------------------------------------------------------------
  // When a commit settles
  // ---------------------------------------------------------------------------

  predicate SettlesAt(s: System, u: Update, id: ZoneId) {
    var start, revision := Effect(s.aggregate.body, [], []), s.aggregate.revision + 1;
    var end := Transact(s.aggregate.body, u, revision);
    match LastWord(Silent, start, u.entries, u.source.epoch, revision, id)
    case Silent => true
    case Present(_) => id !in end.removed
    case Absent => id in end.removed || (Latest(end.changed, id).None? && !Rediscovers(s.queue, id))
  }

  /** Every zone the update ends with was not announced as removed by the same update, and every
      zone it ends without was announced as removed, or no pending event would bring it back. */
  ghost predicate Settles(s: System, u: Update) {
    forall id :: SettlesAt(s, u, id)
  }

  predicate AnnounceableEntry(owner: Owner, entry: Entry) {
    entry.payload.ZonePayload? ==> Parses(entry.payload.zone.zoneId) && OwnsOutput(owner, entry.payload.zone)
  }

  ghost predicate AnnounceableUpdate(owner: Owner, u: Update) {
    forall entry :: entry in u.entries ==> AnnounceableEntry(owner, entry)
  }

  ghost predicate Lagging(owner: Owner, s: System, seen: ZoneMap) {
    && Eventually(s) == seen
    && OwnedMap(owner, seen)
    && (forall e :: e in s.queue ==> OwnedEvent(owner, e))
  }

  lemma {:induction false} ChangedAreAnnounceable(owner: Owner, e: Effect, entries: seq<Entry>, epoch: nat,
                                                  revision: nat)
    requires Announceable(owner, e.changed)
    requires forall entry :: entry in entries ==> AnnounceableEntry(owner, entry)
    ensures Announceable(owner, ApplyEntries(e, entries, epoch, revision).changed)
    decreases entries
  {
    hide Parses, OwnsOutput;
    if entries != [] {
      assert entries[0] in entries && forall entry :: entry in entries[1..] ==> entry in entries;
      ChangedAreAnnounceable(owner, ApplyEntry(e, entries[0], epoch, revision), entries[1..], epoch, revision);
    }
  }

  /** One commit, one zone id: the drained view is the ideal one exactly when the commit settles there. */
  lemma {:induction false} CommitAt(owner: Owner, s: System, seen: ZoneMap, u: Update, id: ZoneId)
    requires Lagging(owner, s, seen) && Admitted(s.aggregate, u) && AnnounceableUpdate(owner, u)
    ensures Cell(Eventually(Next(s, CommitStep(u))), id) == Cell(Ideal(s, seen, CommitStep(u)), id)
            <==> SettlesAt(s, u, id)
  {
    hide ApplyEntries, SequentialEntries, LastWord, Echoes, Retractions, Fold, FoldAt, Rediscovers, Latest,
         OwnedCell, OwnedEvent, Cell, Gathered;
    var body, revision := s.aggregate.body, s.aggregate.revision + 1;
    var start, end := Effect(body, [], []), Transact(body, u, revision);
    var now := Next(s, CommitStep(u));
    var word := LastWord(Silent, start, u.entries, u.source.epoch, revision, id);
    var cell := Cell(end.body.zones, id);
    LatestOfNone(start, id);
    EntriesAt(Silent, start, u.entries, u.source.epoch, revision, id, body.zones, seen, seen);
    ChangedAreAnnounceable(owner, start, u.entries, u.source.epoch, revision);
    FoldIsPointwise(now.aggregate.body.zones, now.queue, id);
    FoldIsPointwise(body.zones, s.queue, id);
    FoldAtAppend(id, cell, s.queue, Echoes(end.changed) + Retractions(end.removed));
    FoldAtAppend(id, FoldAt(id, cell, s.queue), Echoes(end.changed), Retractions(end.removed));
    var settled := FoldAt(id, cell, s.queue);
    CellAfterQueueIsOwned(owner, s, seen, u, id, word, end, cell);
    EchoesAt(owner, end.changed, id, settled);
    RetractionsAt(end.removed, id, FoldAt(id, settled, Echoes(end.changed)));
    RediscoveryExact(s.queue, id);
    GatheredMeans(word, end, id);
  }

  lemma {:induction false} LatestOfNone(e: Effect, id: ZoneId)
    requires e.changed == [] && e.removed == []
    ensures Gathered(Silent, e, id)
  {
  }

  lemma {:induction false} GatheredMeans(w: Word, e: Effect, id: ZoneId)
    requires Gathered(w, e, id)
    ensures w.Silent? ==> Latest(e.changed, id).None? && id !in e.removed
    ensures w.Present? ==> Latest(e.changed, id) == Some(w.zone)
  {
  }

  lemma {:induction false} CellAfterQueueIsOwned(owner: Owner, s: System, seen: ZoneMap, u: Update, id: ZoneId,
                                                 word: Word, end: Effect,
                              cell: Option<Zone>)
    requires Lagging(owner, s, seen)
    requires Announceable(owner, end.changed) && Gathered(word, end, id)
    requires cell == Obey(word, Cell(s.aggregate.body.zones, id))
    ensures OwnedCell(owner, id, FoldAt(id, cell, s.queue))
  {
    hide Fold, FoldAt, OwnedEvent;
    match word
    case Silent =>
      FoldIsPointwise(s.aggregate.body.zones, s.queue, id);
    case Present(zone) =>
      LatestIsMember(end.changed, id);
      FoldAtKeepsOwned(owner, id, cell, s.queue);
    case Absent =>
      FoldAtKeepsOwned(owner, id, cell, s.queue);
  }

  /** The exact law of one commit: from a state that merely lags, the state after the commit
      merely lags if and only if the commit settles. */
  lemma {:induction false} CommitSettlesExactly(owner: Owner, s: System, seen: ZoneMap, u: Update)
    requires Lagging(owner, s, seen) && Admitted(s.aggregate, u) && AnnounceableUpdate(owner, u)
    ensures Eventually(Next(s, CommitStep(u))) == Ideal(s, seen, CommitStep(u)) <==> Settles(s, u)
  {
    hide SettlesAt, Next, Ideal, Eventually, Lagging, Cell, Admitted;
    var after, ideal := Eventually(Next(s, CommitStep(u))), Ideal(s, seen, CommitStep(u));
    forall id ensures Cell(after, id) == Cell(ideal, id) <==> SettlesAt(s, u, id) {
      CommitAt(owner, s, seen, u, id);
    }
    if Settles(s, u) {
      SameCells(after, ideal);
    }
  }

  // ---------------------------------------------------------------------------
  // Whole runs
  // ---------------------------------------------------------------------------

  function RunSystem(s: System, steps: seq<Step>): System
    decreases steps
  {
    if steps == [] then s else RunSystem(Next(s, steps[0]), steps[1..])
  }

  function RunIdeal(s: System, seen: ZoneMap, steps: seq<Step>): ZoneMap
    decreases steps
  {
    if steps == [] then seen else RunIdeal(Next(s, steps[0]), Ideal(s, seen, steps[0]), steps[1..])
  }

  /** Every step is legal where it happens, and every commit settles. Receiving is always legal. */
  ghost predicate Orderly(owner: Owner, s: System, steps: seq<Step>)
    decreases steps
  {
    steps == [] || (OrderlyStep(owner, s, steps[0]) && Orderly(owner, Next(s, steps[0]), steps[1..]))
  }

  ghost predicate OrderlyStep(owner: Owner, s: System, step: Step) {
    match step
    case CommitStep(u) => Admitted(s.aggregate, u) ==> AnnounceableUpdate(owner, u) && Settles(s, u)
    case Publish(e) => OwnedEvent(owner, e)
    case Receive => true
  }

  lemma {:induction false} ReceiveKeepsEventually(s: System)
    ensures Eventually(ReceiveOne(s)) == Eventually(s)
  {
    if s.queue != [] {
      var rest := s.queue[1..];
      var ack := ReceiveOne(s).queue[|rest|..];
      assert ReceiveOne(s).queue == rest + ack;
      FoldAppend(Apply(s.aggregate.body.zones, s.queue[0]), rest, ack);
      assert ack != [] ==> ack[1..] == [] && ack[0].ZonesFlushed?;
    }
  }

  lemma {:induction false} PublishAppends(s: System, e: BusEvent)
    ensures Eventually(Next(s, Publish(e))) == Apply(Eventually(s), e)
  {
    FoldAppend(s.aggregate.body.zones, s.queue, [e]);
    assert [e][1..] == [];
  }

  lemma {:induction false} RefusedCommitIsIdle(s: System, u: Update)
    requires !Admitted(s.aggregate, u)
    ensures Next(s, CommitStep(u)).queue == s.queue
    ensures Next(s, CommitStep(u)).aggregate.body == s.aggregate.body
  {
    assert s.queue + [] == s.queue;
  }

  lemma {:induction false} EchoesAreOwned(owner: Owner, zones: seq<Zone>, e: BusEvent)
    requires forall z :: z in zones ==> OwnsOutput(owner, z)
    requires e in Echoes(zones)
    ensures OwnedEvent(owner, e)
    decreases zones
  {
    hide Parses, OwnsOutput;
    var head := Echo(zones[0]);
    if e in head {
      assert zones[0] in zones;
      assert e.ZoneDiscovered? ==> e.zone == zones[0];
    } else {
      assert forall z :: z in zones[1..] ==> z in zones;
      EchoesAreOwned(owner, zones[1..], e);
    }
  }

  lemma {:induction false} RetractionsAreRemovals(ids: seq<ZoneId>, e: BusEvent)
    requires e in Retractions(ids)
    ensures e.ZoneRemoved?
    decreases ids
  {
    if e != Retractions(ids)[0] {
      RetractionsAreRemovals(ids[1..], e);
    }
  }

  lemma {:induction false} RemovalIsOwned(owner: Owner, e: BusEvent)
    requires e.ZoneRemoved?
    ensures OwnedEvent(owner, e)
  {
  }

  lemma {:induction false} IdealStaysOwned(owner: Owner, seen: ZoneMap, e: Effect, entries: seq<Entry>, epoch: nat,
                                           revision: nat)
    requires OwnedMap(owner, seen)
    requires forall entry :: entry in entries ==> AnnounceableEntry(owner, entry)
    ensures OwnedMap(owner, SequentialEntries(seen, e, entries, epoch, revision))
    decreases entries
  {
    hide ApplyEntry, Parses, OwnedBy, HqpZoneId;
    if entries != [] {
      assert entries[0] in entries && forall entry :: entry in entries[1..] ==> entry in entries;
      var next := SequentialEntry(seen, e, entries[0].payload);
      forall id ensures OwnedCell(owner, id, Cell(next, id)) {
        assert OwnedCell(owner, id, Cell(seen, id));
      }
      IdealStaysOwned(owner, next, ApplyEntry(e, entries[0], epoch, revision), entries[1..], epoch, revision);
    }
  }

  lemma {:induction false} CommitStaysLagging(owner: Owner, s: System, seen: ZoneMap, u: Update)
    requires Lagging(owner, s, seen) && Admitted(s.aggregate, u) && AnnounceableUpdate(owner, u) && Settles(s, u)
    ensures Lagging(owner, Next(s, CommitStep(u)), Ideal(s, seen, CommitStep(u)))
  {
    hide ApplyEntries, SequentialEntries, Settles, Eventually, OwnedMap, OwnedEvent, OwnsOutput, Echoes, Retractions;
    var start, end := Effect(s.aggregate.body, [], []), Transact(s.aggregate.body, u, s.aggregate.revision + 1);
    CommitSettlesExactly(owner, s, seen, u);
    IdealStaysOwned(owner, seen, start, u.entries, u.source.epoch, s.aggregate.revision + 1);
    ChangedAreAnnounceable(owner, start, u.entries, u.source.epoch, s.aggregate.revision + 1);
    forall e | e in Next(s, CommitStep(u)).queue ensures OwnedEvent(owner, e) {
      AnnouncementIsOwned(owner, end, e);
    }
  }

  lemma {:induction false} AnnouncementIsOwned(owner: Owner, end: Effect, e: BusEvent)
    requires Announceable(owner, end.changed)
    ensures e in Echoes(end.changed) + Retractions(end.removed) ==> OwnedEvent(owner, e)
  {
    hide OwnedEvent, OwnsOutput, Echoes, Retractions;
    if e in Echoes(end.changed) {
      EchoesAreOwned(owner, end.changed, e);
    } else if e in Retractions(end.removed) {
      RetractionsAreRemovals(end.removed, e);
      RemovalIsOwned(owner, e);
    }
  }

  lemma {:induction false} StepStaysLagging(owner: Owner, s: System, seen: ZoneMap, step: Step)
    requires Lagging(owner, s, seen) && OrderlyStep(owner, s, step)
    ensures Lagging(owner, Next(s, step), Ideal(s, seen, step))
  {
    hide Eventually, Apply, Commit, Settles, AnnounceableUpdate, Admitted, OwnedMap;
    match step
    case CommitStep(u) =>
      if Admitted(s.aggregate, u) {
        CommitStaysLagging(owner, s, seen, u);
      } else {
        RefusedCommitIsIdle(s, u);
        SameBodySameFuture(s, Next(s, step));
      }
    case Publish(e) =>
      PublishAppends(s, e);
      ApplyStaysOwned(owner, seen, e);
    case Receive =>
      ReceiveKeepsEventually(s);
  }

  lemma {:induction false} SameBodySameFuture(s: System, t: System)
    requires s.aggregate.body == t.aggregate.body && s.queue == t.queue
    ensures Eventually(s) == Eventually(t)
  {
  }

  lemma {:induction false} ApplyStaysOwned(owner: Owner, zones: ZoneMap, e: BusEvent)
    requires OwnedMap(owner, zones) && OwnedEvent(owner, e)
    ensures OwnedMap(owner, Apply(zones, e))
  {
    hide Apply, ApplyAt, OwnedCell, OwnedEvent;
    forall id ensures OwnedCell(owner, id, Cell(Apply(zones, e), id)) {
      ApplyIsPointwise(zones, e, id);
      ApplyAtKeepsOwned(owner, id, Cell(zones, id), e);
    }
  }

  /** Over any interleaving of commits, publications and receptions in which the commits settle, the
      aggregator merely lags: what it will show once the queue is handled is what the ideal one shows. */
  lemma {:induction false} RunsStayLagging(owner: Owner, s: System, seen: ZoneMap, steps: seq<Step>)
    requires Lagging(owner, s, seen) && Orderly(owner, s, steps)
    ensures Lagging(owner, RunSystem(s, steps), RunIdeal(s, seen, steps))
    decreases steps
  {
    if steps != [] {
      hide Lagging, OrderlyStep, Next, Ideal;
      StepStaysLagging(owner, s, seen, steps[0]);
      RunsStayLagging(owner, Next(s, steps[0]), Ideal(s, seen, steps[0]), steps[1..]);
    }
  }

  /** Echo convergence: whenever the queue is empty every zone is its last committed value, rounded, with
      later events applied, and removed zones stay removed. */
  lemma {:induction false} RunsConverge(owner: Owner, s: System, seen: ZoneMap, steps: seq<Step>)
    requires Lagging(owner, s, seen) && Orderly(owner, s, steps)
    ensures RunSystem(s, steps).queue == [] ==>
              RunSystem(s, steps).aggregate.body.zones == RunIdeal(s, seen, steps)
  {
    hide RunSystem, RunIdeal, Orderly;
    RunsStayLagging(owner, s, seen, steps);
  }

  /** A fresh aggregator qualifies as the start of a run. */
  lemma {:induction false} StartsLagging(owner: Owner)
    ensures Lagging(owner, System(EMPTY_AGGREGATE, []), map[])
  {
    assert forall id :: Cell(map[], id) == None;
  }

  // ---------------------------------------------------------------------------
  // Which commits settle
  // ---------------------------------------------------------------------------

  predicate OnlyAdds(entries: seq<Entry>) {
    forall i | 0 <= i < |entries| ::
      var p := entries[i].payload;
      !p.ZoneRetired? && !p.HqpRemoved? && !p.HqpManagerStopped?
  }

  /** An update that removes nothing always settles, however far behind the event loop is. */
  lemma {:induction false} AdditionsSettle(s: System, u: Update)
    requires OnlyAdds(u.entries)
    ensures Settles(s, u)
  {
    forall id ensures SettlesAt(s, u, id) {
      AdditionsAt(Silent, Effect(s.aggregate.body, [], []), u.entries, u.source.epoch, s.aggregate.revision + 1, id);
    }
  }

  lemma {:induction false} AdditionsAt(w: Word, e: Effect, entries: seq<Entry>, epoch: nat, revision: nat, id: ZoneId)
    requires OnlyAdds(entries) && !w.Absent? && e.removed == []
    ensures !LastWord(w, e, entries, epoch, revision, id).Absent?
    ensures ApplyEntries(e, entries, epoch, revision).removed == []
    decreases entries
  {
    if entries != [] {
      var p := entries[0].payload;
      assert !p.ZoneRetired? && !p.HqpRemoved? && !p.HqpManagerStopped?;
      AdditionsAt(Speak(w, e, p, id), ApplyEntry(e, entries[0], epoch, revision), entries[1..], epoch, revision, id);
    }
  }

  predicate Retires(u: Update, id: ZoneId) {
    |u.entries| == 1 && u.entries[0].payload == ZoneRetired(id)
  }

  /** An update of one entry, whatever it is. It settles at a zone id exactly if the entry does not remove
      that zone, or announces the removal, or nothing pending would bring the zone back. A manager stop
      announces nothing; the other removals announce a zone that is present. */
  lemma {:induction false} OneEntrySettlesAt(s: System, u: Update, id: ZoneId)
    requires |u.entries| == 1
    ensures var start, payload := Effect(s.aggregate.body, [], []), u.entries[0].payload;
            SettlesAt(s, u, id)
            <==> (Speak(Silent, start, payload, id).Absent? ==>
                    || (!payload.HqpManagerStopped? && id in s.aggregate.body.zones)
                    || !Rediscovers(s.queue, id))
  {
    hide Prefixed, Observe, Attach, WithProfiles, Retained, AdmitsOutputs, Stamped, Withdrawn, Rediscovers, OwnedBy;
    var start, revision := Effect(s.aggregate.body, [], []), s.aggregate.revision + 1;
    var entry := u.entries[0];
    var once := ApplyEntry(start, entry, u.source.epoch, revision);
    assert u.entries[1..] == [];
    assert ApplyEntries(once, u.entries[1..], u.source.epoch, revision) == once;
    assert Transact(s.aggregate.body, u, revision) == once;
    var w := Speak(Silent, start, entry.payload, id);
    assert LastWord(w, once, [], u.source.epoch, revision, id) == w;
    assert LastWord(Silent, start, u.entries, u.source.epoch, revision, id) == w;
  }

  /** A single removal settles exactly when the zone is present, so that the removal is announced,
      or no queued event would bring the zone back. */
  lemma {:induction false} RemovalSettlesExactly(s: System, u: Update, id: ZoneId)
    requires Retires(u, id)
    ensures Settles(s, u) <==> id in s.aggregate.body.zones || !Rediscovers(s.queue, id)
  {
    hide SettlesAt, Rediscovers;
    forall other ensures SettlesAt(s, u, other) <==>
                         (other == id ==> id in s.aggregate.body.zones || !Rediscovers(s.queue, id)) {
      OneEntrySettlesAt(s, u, other);
    }
    if Settles(s, u) {
      assert SettlesAt(s, u, id);
    }
  }

  predicate StopsManager(u: Update) {
    |u.entries| == 1 && u.entries[0].payload.HqpManagerStopped?
  }

  /** A manager stop drops every HQPlayer zone and announces none of them, so it settles exactly when no
      queued event would bring any HQPlayer zone back, whether or not such a zone is present. */
  lemma {:induction false} ManagerStopSettlesExactly(s: System, u: Update)
    requires StopsManager(u)
    ensures Settles(s, u) <==> forall id :: OwnedBy("hqplayer", id) ==> !Rediscovers(s.queue, id)
  {
    hide SettlesAt, Rediscovers, OwnedBy;
    forall id ensures SettlesAt(s, u, id) <==> (OwnedBy("hqplayer", id) ==> !Rediscovers(s.queue, id)) {
      OneEntrySettlesAt(s, u, id);
    }
    if Settles(s, u) {
      forall id | OwnedBy("hqplayer", id) ensures !Rediscovers(s.queue, id) {
        assert SettlesAt(s, u, id);
      }
    }
  }

  predicate RemovesInstance(u: Update, name: string, producerEpoch: nat) {
    |u.entries| == 1 && u.entries[0].payload == HqpRemoved(name, producerEpoch)
  }

  /** The removal of an HQPlayer instance settles exactly when it is of another epoch than the one on
      display, or the instance's zone is present, or no queued event would bring that zone back. */
  lemma {:induction false} InstanceRemovalSettlesExactly(s: System, u: Update, name: string, producerEpoch: nat)
    requires RemovesInstance(u, name, producerEpoch)
    ensures var id := HqpZoneId(name);
            Settles(s, u)
            <==> || !(name in s.aggregate.body.hqp
                      && s.aggregate.body.hqp[name].observation.producerEpoch == producerEpoch)
                 || id in s.aggregate.body.zones || !Rediscovers(s.queue, id)
  {
    hide SettlesAt, Rediscovers, HqpZoneId;
    var id := HqpZoneId(name);
    var displayed := name in s.aggregate.body.hqp
                     && s.aggregate.body.hqp[name].observation.producerEpoch == producerEpoch;
    forall other ensures SettlesAt(s, u, other) <==>
                         (displayed && other == id ==> id in s.aggregate.body.zones || !Rediscovers(s.queue, id)) {
      OneEntrySettlesAt(s, u, other);
    }
    if Settles(s, u) {
      assert SettlesAt(s, u, id);
    }
  }

  /** The update retires a zone and adds it again. */
  predicate Replaces(u: Update, zone: Zone) {
    && |u.entries| == 2
    && u.entries[0].payload == ZoneRetired(zone.zoneId) && u.entries[1].payload == ZonePayload(zone)
  }

  lemma {:induction false} ReplacementEffect(s: System, u: Update, zone: Zone)
    requires Replaces(u, zone)
    ensures var end := Transact(s.aggregate.body, u, s.aggregate.revision + 1);
            && end.changed == [zone]
            && end.removed == (if zone.zoneId in s.aggregate.body.zones then [zone.zoneId] else [])
            && end.body.zones == s.aggregate.body.zones[zone.zoneId := zone]
  {
    var start, epoch, revision := Effect(s.aggregate.body, [], []), u.source.epoch, s.aggregate.revision + 1;
    var once := ApplyEntry(start, u.entries[0], epoch, revision);
    var twice := ApplyEntry(once, u.entries[1], epoch, revision);
    var rest := u.entries[1..];
    assert rest[0] == u.entries[1] && rest[1..] == [];
    assert ApplyEntries(once, rest, epoch, revision) == ApplyEntries(twice, [], epoch, revision) == twice;
    assert Transact(s.aggregate.body, u, revision) == twice;
    assert twice.body.zones == (s.aggregate.body.zones - {zone.zoneId})[zone.zoneId := zone];
  }

  lemma {:induction false} ReplacementWord(s: System, u: Update, zone: Zone, id: ZoneId)
    requires Replaces(u, zone)
    ensures LastWord(Silent, Effect(s.aggregate.body, [], []), u.entries, u.source.epoch, s.aggregate.revision + 1, id)
            == if id == zone.zoneId then Present(zone) else Silent
  {
    hide ApplyEntry;
    var start, epoch, revision := Effect(s.aggregate.body, [], []), u.source.epoch, s.aggregate.revision + 1;
    var once := ApplyEntry(start, u.entries[0], epoch, revision);
    var twice := ApplyEntry(once, u.entries[1], epoch, revision);
    var rest := u.entries[1..];
    assert rest[0] == u.entries[1] && rest[1..] == [];
    var w := Speak(Silent, start, u.entries[0].payload, id);
    var v := Speak(w, once, u.entries[1].payload, id);
    assert LastWord(v, twice, [], epoch, revision, id) == v;
    assert LastWord(w, once, rest, epoch, revision, id) == v;
  }

  /** An update that retires a zone and adds it again settles exactly when the zone was absent: removals
      are announced after additions, so the removal of a zone that was present is heard last. */
  lemma {:induction false} ReplacementSettlesExactly(s: System, u: Update, zone: Zone)
    requires Replaces(u, zone)
    ensures Settles(s, u) <==> zone.zoneId !in s.aggregate.body.zones
  {
    ReplacementEffect(s, u, zone);
    hide LastWord, Transact, Rediscovers;
    forall id ensures SettlesAt(s, u, id) <==> (id == zone.zoneId ==> id !in s.aggregate.body.zones) {
      ReplacementWord(s, u, zone, id);
    }
    if Settles(s, u) {
      assert SettlesAt(s, u, zone.zoneId);
    }
  }

  /** Even on a drained queue, replacing a zone that is present in one update loses it: it is committed,
      and gone once its own echo has been handled. */
  lemma {:induction false} ReplacementLosesTheZone(s: System, u: Update, zone: Zone)
    requires Replaces(u, zone) && Admitted(s.aggregate, u) && zone.zoneId in s.aggregate.body.zones
    ensures var next := Next(s, CommitStep(u));
            && Cell(next.aggregate.body.zones, zone.zoneId) == Some(zone)
            && Cell(Eventually(next), zone.zoneId) == None
  {
    ReplacementEffect(s, u, zone);
    hide Transact, Echoes, Admitted, Fold;
    var id, next := zone.zoneId, Next(s, CommitStep(u));
    assert Retractions([id]) == [BusEvent.ZoneRemoved(id)] by {
      assert [id][1..] == [];
    }
    var head := s.queue + Echoes([zone]);
    var removal := [BusEvent.ZoneRemoved(id)];
    assert next.queue == head + removal;
    FoldIsPointwise(next.aggregate.body.zones, next.queue, id);
    FoldAtAppend(id, Cell(next.aggregate.body.zones, id), head, removal);
    assert removal[1..] == [];
  }

  /** On a drained queue every update of one entry settles. */
  lemma {:induction false} DrainedEntrySettles(s: System, u: Update)
    requires |u.entries| == 1 && s.queue == []
    ensures Settles(s, u)
  {
    hide SettlesAt;
    forall id ensures SettlesAt(s, u, id) {
      OneEntrySettlesAt(s, u, id);
    }
  }

  /** On a drained queue every single removal settles. */
  lemma {:induction false} DrainedRemovalSettles(s: System, u: Update, id: ZoneId)
    requires Retires(u, id) && s.queue == []
    ensures Settles(s, u)
  {
    RemovalSettlesExactly(s, u, id);
  }

  // ---------------------------------------------------------------------------
  // A removal that is lost
  // ---------------------------------------------------------------------------

  /** A commit that only adds, or that is of one entry and made on a drained queue. */
  ghost predicate PlainStep(owner: Owner, s: System, step: Step) {
    match step
    case CommitStep(u) =>
      Admitted(s.aggregate, u) ==>
        && AnnounceableUpdate(owner, u)
        && (OnlyAdds(u.entries) || (s.queue == [] && |u.entries| == 1))
    case Publish(e) => OwnedEvent(owner, e)
    case Receive => true
  }

  ghost predicate Plain(owner: Owner, s: System, steps: seq<Step>)
    decreases steps
  {
    steps == [] || (PlainStep(owner, s, steps[0]) && Plain(owner, Next(s, steps[0]), steps[1..]))
  }

  lemma {:induction false} PlainIsOrderly(owner: Owner, s: System, steps: seq<Step>)
    requires Plain(owner, s, steps)
    ensures Orderly(owner, s, steps)
    decreases steps
  {
    hide Next, Settles, Admitted, AnnounceableUpdate, OwnedEvent, OnlyAdds;
    if steps != [] {
      PlainIsOrderly(owner, Next(s, steps[0]), steps[1..]);
      if steps[0].CommitStep? && Admitted(s.aggregate, steps[0].update) {
        var u := steps[0].update;
        if OnlyAdds(u.entries) {
          AdditionsSettle(s, u);
        } else {
          DrainedEntrySettles(s, u);
        }
      }
    }
  }

  /** However commits that add zones, removals of any kind on a drained queue, other publications and the
      event loop interleave, from the empty aggregator or any that merely lags: the drained zones are the ideal ones. */
  lemma {:induction false} PlainRunsConverge(owner: Owner, s: System, seen: ZoneMap, steps: seq<Step>)
    requires Lagging(owner, s, seen) && Plain(owner, s, steps)
    ensures RunSystem(s, steps).queue == [] ==>
              RunSystem(s, steps).aggregate.body.zones == RunIdeal(s, seen, steps)
  {
    hide RunSystem, RunIdeal, Plain, Orderly, Lagging;
    PlainIsOrderly(owner, s, steps);
    RunsConverge(owner, s, seen, steps);
  }

  function Receives(n: nat): seq<Step> {
    seq(n, (i: nat) => Receive)
  }

  lemma {:induction false} RunAppend(s: System, p: seq<Step>, q: seq<Step>)
    ensures RunSystem(s, p + q) == RunSystem(RunSystem(s, p), q)
    decreases p
  {
    hide Next;
    if p == [] {
      assert p + q == q;
    } else {
      assert (p + q)[1..] == p[1..] + q;
      RunAppend(Next(s, p[0]), p[1..], q);
    }
  }

  lemma {:induction false} ReceiveMany(s: System, n: nat)
    requires n <= |s.queue| && forall i | 0 <= i < n :: !s.queue[i].AdapterStopping?
    ensures RunSystem(s, Receives(n))
         == System(s.aggregate.(body := s.aggregate.body.(zones := Fold(s.aggregate.body.zones, s.queue[..n]))), s.queue[n..])
    decreases n
  {
    if n == 0 {
      assert s.queue[..0] == [] && s.queue[0..] == s.queue && Receives(0) == [];
    } else {
      var next := Next(s, Receive);
      assert next.queue == s.queue[1..];
      assert Receives(n)[0] == Receive && Receives(n)[1..] == Receives(n - 1);
      ReceiveMany(next, n - 1);
      assert s.queue[..n][1..] == next.queue[..n - 1] && next.queue[n - 1..] == s.queue[n..];
    }
  }

  function Upsert(zone: Zone, sequence: nat): Update {
    Update(Source("producer", None, 0), sequence, Kind.Snapshot, [Entry("zone:" + zone.zoneId, ZonePayload(zone))])
  }

  function Retirement(id: ZoneId, sequence: nat): Update {
    Update(Source("producer", None, 0), sequence, Kind.Snapshot, [Entry("zone:" + id, ZoneRetired(id))])
  }

  /** A one-entry update from a source whose cursor is behind it. */
  lemma {:induction false} CommitUpsert(s: System, zone: Zone, sequence: nat)
    requires "producer" in s.aggregate.cursors ==>
               s.aggregate.cursors["producer"].epoch == 0 && s.aggregate.cursors["producer"].sequence < sequence
    ensures var t := Next(s, CommitStep(Upsert(zone, sequence)));
      && t.aggregate.body.zones == s.aggregate.body.zones[zone.zoneId := zone]
      && t.queue == s.queue + Echo(zone)
      && "producer" in t.aggregate.cursors
      && t.aggregate.cursors["producer"].epoch == 0 && t.aggregate.cursors["producer"].sequence == sequence
  {
    hide Echo;
    var u := Upsert(zone, sequence);
    assert u.source.Identity() == "producer";
    var once := ApplyEntry(Effect(s.aggregate.body, [], []), u.entries[0], 0, s.aggregate.revision + 1);
    assert u.entries[1..] == [] && ApplyEntries(once, u.entries[1..], 0, s.aggregate.revision + 1) == once;
    assert once.changed == [zone] && once.removed == [];
    assert Echoes([zone]) == Echo(zone) by {
      assert [zone][1..] == [] && Echo(zone) + [] == Echo(zone);
    }
    assert Echoes(once.changed) + Retractions(once.removed) == Echo(zone);
  }

  lemma {:induction false} CommitRetirement(s: System, id: ZoneId, sequence: nat)
    requires "producer" in s.aggregate.cursors ==>
               s.aggregate.cursors["producer"].epoch == 0 && s.aggregate.cursors["producer"].sequence < sequence
    ensures var t := Next(s, CommitStep(Retirement(id, sequence)));
      && t.aggregate.body.zones == s.aggregate.body.zones - {id}
      && t.queue == s.queue + (if id in s.aggregate.body.zones then [BusEvent.ZoneRemoved(id)] else [])
      && "producer" in t.aggregate.cursors
      && t.aggregate.cursors["producer"].epoch == 0 && t.aggregate.cursors["producer"].sequence == sequence
  {
    var u := Retirement(id, sequence);
    assert u.source.Identity() == "producer";
    var once := ApplyEntry(Effect(s.aggregate.body, [], []), u.entries[0], 0, s.aggregate.revision + 1);
    assert u.entries[1..] == [] && ApplyEntries(once, u.entries[1..], 0, s.aggregate.revision + 1) == once;
    assert once.changed == [] && once.removed == if id in s.aggregate.body.zones then [id] else [];
    assert [id][1..] == [] && Retractions([id]) == [BusEvent.ZoneRemoved(id)];
    assert Echoes([]) + Retractions(once.removed) == if id in s.aggregate.body.zones then [BusEvent.ZoneRemoved(id)] else [];
  }

  function LosingPrefix(zone: Zone): seq<Step> {
    [CommitStep(Upsert(zone, 1)), CommitStep(Retirement(zone.zoneId, 2)), CommitStep(Upsert(zone, 3))]
    + Receives(|Echo(zone)| + 1)
  }

  /** Add, remove and re-add a zone while the event loop lags; let the loop catch up with the
      first removal only; then remove the zone for good. The last removal commits, but the zone
      is momentarily absent, so nothing is announced, and the pending re-discovery brings the
      zone back for good. */
  lemma {:induction false} RemovalCanBeLost(zone: Zone)
    requires Parses(zone.zoneId)
    ensures var id := zone.zoneId;
            var s := RunSystem(System(EMPTY_AGGREGATE, []), LosingPrefix(zone));
            var steps := LosingPrefix(zone) + [CommitStep(Retirement(id, 4))] + Receives(|Echo(zone)|);
            var end := RunSystem(System(EMPTY_AGGREGATE, []), steps);
      && Admitted(s.aggregate, Retirement(id, 4)) && !Settles(s, Retirement(id, 4))
      && end.queue == [] && Cell(end.aggregate.body.zones, id) == Some(Rounded(zone))
  {
    hide Echo, Fold, Receives, Next, Cell, Parses, Rounded, Rediscovers, Settles;
    var id, echo, n := zone.zoneId, Echo(zone), |Echo(zone)|;
    EchoNeverStops(zone);
    var s0 := System(EMPTY_AGGREGATE, []);
    CommitUpsert(s0, zone, 1);
    var s1 := Next(s0, CommitStep(Upsert(zone, 1)));
    CommitRetirement(s1, id, 2);
    var s2 := Next(s1, CommitStep(Retirement(id, 2)));
    CommitUpsert(s2, zone, 3);
    var s3 := Next(s2, CommitStep(Upsert(zone, 3)));
    var first := echo + [BusEvent.ZoneRemoved(id)];
    assert s3.queue == first + echo;
    var commits := [CommitStep(Upsert(zone, 1)), CommitStep(Retirement(id, 2)), CommitStep(Upsert(zone, 3))];
    ThreeSteps(s0, commits);
    assert s3.queue[..n + 1] == first && s3.queue[n + 1..] == echo;
    ReceiveMany(s3, n + 1);
    var s4 := RunSystem(s3, Receives(n + 1));
    RunAppend(s0, commits, Receives(n + 1));
    assert s4 == RunSystem(s0, LosingPrefix(zone));
    FoldIsPointwise(s3.aggregate.body.zones, first, id);
    FoldAtAppend(id, Cell(s3.aggregate.body.zones, id), echo, [BusEvent.ZoneRemoved(id)]);
    RetractionsAt([id], id, FoldAt(id, Cell(s3.aggregate.body.zones, id), echo));
    assert Retractions([id]) == [BusEvent.ZoneRemoved(id)];
    AbsentCell(s4.aggregate.body.zones, id);
    EchoReproduces(zone, None);
    RediscoveryExact(s4.queue, id);
    RemovalSettlesExactly(s4, Retirement(id, 4), id);
    CommitRetirement(s4, id, 4);
    var s5 := Next(s4, CommitStep(Retirement(id, 4)));
    assert s5.queue == echo && s5.queue[..n] == echo && s5.queue[n..] == [];
    ReceiveMany(s5, n);
    FoldIsPointwise(s5.aggregate.body.zones, echo, id);
    AbsentCell(s5.aggregate.body.zones, id);
    RunAppend(s0, LosingPrefix(zone), [CommitStep(Retirement(id, 4))]);
    RunAppend(s0, LosingPrefix(zone) + [CommitStep(Retirement(id, 4))], Receives(n));
    OneStep(s4, CommitStep(Retirement(id, 4)));
  }

  function ManagerStop(at: nat): Update {
    Update(Source("manager", None, 0), 0, Kind.Snapshot, [Entry("manager", HqpManagerStopped(at))])
  }

  /** A zone that is committed and dropped by a manager stop before its echo is handled comes back. */
  lemma {:induction false} ManagerStopCanBeUndone(zone: Zone, at: nat)
    requires OwnedBy("hqplayer", zone.zoneId) && Parses(zone.zoneId)
    ensures var s := Next(System(EMPTY_AGGREGATE, []), CommitStep(Upsert(zone, 1)));
            var next := Next(s, CommitStep(ManagerStop(at)));
            && Admitted(s.aggregate, ManagerStop(at)) && !Settles(s, ManagerStop(at))
            && Cell(next.aggregate.body.zones, zone.zoneId) == None
            && Cell(Eventually(next), zone.zoneId) == Some(Rounded(zone))
  {
    hide Echo, Rediscovers, Settles, Rounded, OwnedBy, Parses;
    var id, start := zone.zoneId, System(EMPTY_AGGREGATE, []);
    var s := Next(start, CommitStep(Upsert(zone, 1)));
    CommitUpsert(start, zone, 1);
    assert [] + Echo(zone) == Echo(zone);
    assert s.aggregate.cursors.Keys == {"producer"};
    EchoReproduces(zone, None);
    RediscoveryExact(s.queue, id);
    ManagerStopSettlesExactly(s, ManagerStop(at));
    ManagerStopEffect(s, at);
    var next := Next(s, CommitStep(ManagerStop(at)));
    FoldIsPointwise(next.aggregate.body.zones, next.queue, id);
  }

  lemma {:induction false} ManagerStopEffect(s: System, at: nat)
    requires Admitted(s.aggregate, ManagerStop(at))
    ensures var next := Next(s, CommitStep(ManagerStop(at)));
            && next.queue == s.queue
            && forall id :: OwnedBy("hqplayer", id) ==> id !in next.aggregate.body.zones
  {
    hide OwnedBy;
    var u, start := ManagerStop(at), Effect(s.aggregate.body, [], []);
    var once := ApplyEntry(start, u.entries[0], 0, s.aggregate.revision + 1);
    assert u.entries[1..] == [] && ApplyEntries(once, [], 0, s.aggregate.revision + 1) == once;
    assert Transact(s.aggregate.body, u, s.aggregate.revision + 1) == once;
    assert once.changed == [] && once.removed == [];
    assert s.queue + (Echoes([]) + Retractions([])) == s.queue;
  }

  lemma {:induction false} AbsentCell(zones: ZoneMap, id: ZoneId)
    ensures Cell(zones, id).None? <==> id !in zones
  {
  }

  lemma {:induction false} EchoNeverStops(zone: Zone)
    ensures forall e :: e in Echo(zone) ==> !e.AdapterStopping?
  {
    hide Parses;
  }

  lemma {:induction false} OneStep(s: System, step: Step)
    ensures RunSystem(s, [step]) == Next(s, step)
  {
    hide Next;
    assert [step][1..] == [] && RunSystem(Next(s, step), []) == Next(s, step);
  }

  lemma {:induction false} ThreeSteps(s: System, steps: seq<Step>)
    requires |steps| == 3
    ensures RunSystem(s, steps) == Next(Next(Next(s, steps[0]), steps[1]), steps[2])
  {
    hide Next;
    var a, b := Next(s, steps[0]), Next(Next(s, steps[0]), steps[1]);
    assert steps[1..][1..] == [steps[2]] && steps[1..][0] == steps[1];
    OneStep(b, steps[2]);
    assert RunSystem(a, steps[1..]) == RunSystem(b, steps[1..][1..]);
  }
}
