/** Reconfiguring an adapter (src/coordinator.rs, `stop_adapter_and_companions_then_await_flush`,
    and the restart that follows): the coordinator subscribes to the bus, stops the observers,
    publishes `AdapterStopping`, and waits for the aggregator's `ZonesFlushed`. All parties read
    one log, each from its own position. */
module FlushProtocol {
  import opened Zones
  import opened ZoneEvents
  import P = Projection
  import E = EchoRuns

  datatype Phase =
      /** Waiting for the acknowledgement, reading the log from `cursor`. */
    | Waiting(cursor: nat)
    | Acknowledged
    | TimedOut
    | Restarted

  /** `ingress` holds zones submitted to the reliable lane and not yet committed. */
  datatype Sys = Sys(
    adapter: string,
    log: seq<BusEvent>,
    position: nat,
    zones: ZoneMap,
    ingress: seq<Zone>,
    phase: Phase)

  datatype Step =
      /** The aggregator handles its oldest unread event. */
    | Receive
      /** The projection actor commits the oldest submitted zone and echoes it. */
    | CommitNext
      /** The coordinator reads one event. */
    | Await
    | GiveUp
    | Restart
      /** Some other adapter submits a zone, or publishes. */
    | OtherSubmits(zone: Zone)
    | OtherPublishes(event: BusEvent)
      /** An observer of this adapter, once restarted, submits a zone, or publishes. */
    | ObserverSubmits(zone: Zone)
    | ObserverPublishes(event: BusEvent)

  predicate StopsOrAcks(adapter: string, e: BusEvent) {
    (e.AdapterStopping? || e.ZonesFlushed?) && e.adapter == adapter
  }

  predicate Brings(adapter: string, e: BusEvent) {
    e.ZoneDiscovered? && OwnedBy(adapter, e.zone.zoneId)
  }

  predicate Enabled(s: Sys, step: Step) {
    match step
    case Receive => s.position < |s.log|
    case CommitNext => s.ingress != []
    case Await => s.phase.Waiting? && s.phase.cursor < |s.log|
    case GiveUp => s.phase.Waiting?
    case Restart => s.phase.Acknowledged? || s.phase.TimedOut?
    case OtherSubmits(zone) => !OwnedBy(s.adapter, zone.zoneId)
    case OtherPublishes(e) => !StopsOrAcks(s.adapter, e) && !Brings(s.adapter, e)
    case ObserverSubmits(zone) => s.phase.Restarted? && OwnedBy(s.adapter, zone.zoneId)
    case ObserverPublishes(e) => s.phase.Restarted? && !StopsOrAcks(s.adapter, e)
  }

  function Flushed(zones: ZoneMap, e: BusEvent): seq<BusEvent> {
    if e.AdapterStopping? then [ZonesFlushed(e.adapter, set id | id in zones && OwnedBy(e.adapter, id))] else []
  }

  function Next(s: Sys, step: Step): Sys
    requires Enabled(s, step)
  {
    match step
    case Receive =>
      var e := s.log[s.position];
      s.(zones := Apply(s.zones, e), position := s.position + 1, log := s.log + Flushed(s.zones, e))
    case CommitNext =>
      var zone := s.ingress[0];
      s.(zones := s.zones[zone.zoneId := zone], ingress := s.ingress[1..], log := s.log + P.Echo(zone))
    case Await =>
      var e := s.log[s.phase.cursor];
      s.(phase := if e.ZonesFlushed? && e.adapter == s.adapter then Acknowledged else Waiting(s.phase.cursor + 1))
    case GiveUp => s.(phase := TimedOut)
    case Restart => s.(phase := Restarted)
    case OtherSubmits(zone) => s.(ingress := s.ingress + [zone])
    case OtherPublishes(e) => s.(log := s.log + [e])
    case ObserverSubmits(zone) => s.(ingress := s.ingress + [zone])
    case ObserverPublishes(e) => s.(log := s.log + [e])
  }

  /** A reception here is the aggregator's own, with the events beyond its position as its queue. */
  lemma {:induction false} ReceptionIsTheAggregators(s: Sys, a: P.Aggregate)
    requires s.position < |s.log| && a.body.zones == s.zones
    ensures var next := Next(s, Receive);
            E.ReceiveOne(E.System(a, s.log[s.position..]))
            == E.System(a.(body := a.body.(zones := next.zones)), next.log[next.position..])
  {
    hide Apply, OwnedBy;
    assert (s.log + Flushed(s.zones, s.log[s.position]))[s.position + 1..]
        == s.log[s.position..][1..] + Flushed(s.zones, s.log[s.position]);
  }

  /** A commit here is the aggregator's own commit of that one zone, echo included; and what anyone publishes
      goes to the same bus. */
  lemma {:induction false} CommitIsTheAggregators(s: Sys, a: P.Aggregate, u: P.Update, key: string)
    requires s.position <= |s.log| && a.body.zones == s.zones && s.ingress != []
    requires P.Admitted(a, u) && u.entries == [P.Entry(key, P.ZonePayload(s.ingress[0]))]
    ensures var next, system := Next(s, CommitNext), E.Next(E.System(a, s.log[s.position..]), E.CommitStep(u));
            system.aggregate.body.zones == next.zones && system.queue == next.log[next.position..]
  {
    hide P.Echo, P.Admitted;
    var start, zone, revision := P.Effect(a.body, [], []), s.ingress[0], a.revision + 1;
    var once := P.ApplyEntry(start, u.entries[0], u.source.epoch, revision);
    assert u.entries[1..] == [];
    assert P.ApplyEntries(once, [], u.source.epoch, revision) == once;
    assert once.changed == [zone] && once.removed == [];
    assert P.Echoes([zone]) == P.Echo(zone) by {
      assert [zone][1..] == [] && P.Echo(zone) + [] == P.Echo(zone);
    }
    OneZoneCommit(a, u, once);
    assert P.Echo(zone) + [] == P.Echo(zone);
    assert (s.log + P.Echo(zone))[s.position..] == s.log[s.position..] + P.Echo(zone);
  }

  lemma {:induction false} OneZoneCommit(a: P.Aggregate, u: P.Update, e: P.Effect)
    requires P.Admitted(a, u) && P.Transact(a.body, u, a.revision + 1) == e
    ensures var c := P.Commit(a, u); c.state.body == e.body && c.echo == P.Echoes(e.changed) + P.Retractions(e.removed)
  {
    hide P.Transact, P.Echoes, P.Retractions;
  }

  lemma {:induction false} PublicationIsTheBus(s: Sys, a: P.Aggregate, step: Step)
    requires s.position <= |s.log| && (step.OtherPublishes? || step.ObserverPublishes?) && Enabled(s, step)
    ensures var next := Next(s, step);
            E.Next(E.System(a, s.log[s.position..]), E.Publish(step.event))
            == E.System(a, next.log[next.position..])
  {
    assert (s.log + [step.event])[s.position..] == s.log[s.position..] + [step.event];
  }

  predicate Schedule(s: Sys, steps: seq<Step>)
    decreases steps
  {
    steps == [] || (Enabled(s, steps[0]) && Schedule(Next(s, steps[0]), steps[1..]))
  }

  function Run(s: Sys, steps: seq<Step>): Sys
    requires Schedule(s, steps)
    decreases steps
  {
    if steps == [] then s else Run(Next(s, steps[0]), steps[1..])
  }

  function SubmittedIn(step: Step): seq<Zone> {
    if step.OtherSubmits? || step.ObserverSubmits? then [step.zone] else []
  }

  /** The zones the steps submit, in order, and how many of those submitted they commit. */
  function SubmittedBy(steps: seq<Step>): seq<Zone> {
    if steps == [] then [] else SubmittedIn(steps[0]) + SubmittedBy(steps[1..])
  }

  function CommitsIn(steps: seq<Step>): nat {
    if steps == [] then 0 else (if steps[0].CommitNext? then 1 else 0) + CommitsIn(steps[1..])
  }

  lemma {:induction false} IngressAfter(s: Sys, step: Step)
    requires Enabled(s, step)
    ensures step.CommitNext? ==> s.ingress != [] && Next(s, step).ingress == s.ingress[1..] && SubmittedIn(step) == []
    ensures !step.CommitNext? ==> Next(s, step).ingress == s.ingress + SubmittedIn(step)
  {
  }

  lemma {:induction false} QueueAfter(queue: seq<Zone>, now: seq<Zone>, later: seq<Zone>, drop: bool, commits: nat)
    requires drop ==> queue != [] && now == []
    requires commits <= |if drop then queue[1..] + later else (queue + now) + later|
    ensures var all, taken := queue + (now + later), if drop then commits + 1 else commits;
            taken <= |all|
            && all[taken..] == (if drop then queue[1..] + later else (queue + now) + later)[commits..]
  {
    var all := queue + (now + later);
    if drop {
      assert all[1..] == queue[1..] + later;
    } else {
      assert all == (queue + now) + later;
    }
  }

  /** In every schedule the lane commits what was submitted, once and in order of submission; the rest waits. */
  lemma {:induction false} LaneIsFirstInFirstOut(s: Sys, steps: seq<Step>)
    requires Schedule(s, steps)
    ensures var all := s.ingress + SubmittedBy(steps);
            CommitsIn(steps) <= |all| && Run(s, steps).ingress == all[CommitsIn(steps)..]
    decreases steps
  {
    hide Next, Enabled, SubmittedIn;
    if steps != [] {
      var step, later := steps[0], SubmittedBy(steps[1..]);
      LaneIsFirstInFirstOut(Next(s, step), steps[1..]);
      IngressAfter(s, step);
      QueueAfter(s.ingress, SubmittedIn(step), later, step.CommitNext?, CommitsIn(steps[1..]));
    }
  }

  // ---------------------------------------------------------------------------
  // The claim
  // ---------------------------------------------------------------------------

  /** The moment `AdapterStopping` has just been published: it is the last event, still unread by
      the aggregator, and the coordinator has read nothing since it subscribed. */
  predicate JustStopped(s: Sys) {
    && s.phase.Waiting? && s.phase.cursor <= |s.log| - 1
    && s.position <= |s.log| - 1
    && s.log[|s.log| - 1] == AdapterStopping(s.adapter)
  }

  /** No earlier stop of the adapter is still pending or was acknowledged since the subscription,
      and nothing its stopped observers submitted is still on its way to a commit. */
  predicate Quiet(s: Sys)
    requires JustStopped(s)
  {
    && (forall i | s.position <= i < |s.log| - 1 :: s.log[i] != AdapterStopping(s.adapter))
    && (forall i | s.phase.cursor <= i < |s.log| :: !(s.log[i].ZonesFlushed? && s.log[i].adapter == s.adapter))
    && (forall zone | zone in s.ingress :: !OwnedBy(s.adapter, zone.zoneId))
  }

  predicate NoStopPending(s: Sys) {
    s.position <= |s.log| && forall i | s.position <= i < |s.log| :: s.log[i] != AdapterStopping(s.adapter)
  }

  /** No zone of the adapter is present or on its way, and no flush of it is queued. */
  ghost predicate Clean(s: Sys) {
    && NoStopPending(s)
    && (forall id :: OwnedBy(s.adapter, id) ==> id !in s.zones)
    && (forall i | s.position <= i < |s.log| :: !Brings(s.adapter, s.log[i]))
    && (forall zone | zone in s.ingress :: !OwnedBy(s.adapter, zone.zoneId))
  }

  // ---------------------------------------------------------------------------
  // A quiet stop is safe
  // ---------------------------------------------------------------------------

  /** While the coordinator waits: `stop` is the index of its `AdapterStopping`. */
  ghost predicate Progress(s: Sys, stop: nat) {
    && s.position <= |s.log| && stop < |s.log| && s.log[stop] == AdapterStopping(s.adapter)
    && (s.phase.Waiting? ==> s.phase.cursor <= |s.log|)
    && (forall i | s.position <= i < |s.log| && i != stop :: s.log[i] != AdapterStopping(s.adapter))
    && (forall i | stop < i < |s.log| :: !Brings(s.adapter, s.log[i]))
    && (forall zone | zone in s.ingress :: !OwnedBy(s.adapter, zone.zoneId))
    && (s.position <= stop && s.phase.Waiting? ==>
          forall i | s.phase.cursor <= i < |s.log| :: !(s.log[i].ZonesFlushed? && s.log[i].adapter == s.adapter))
    && (s.phase.Acknowledged? ==> stop < s.position)
    && (stop < s.position ==> forall id :: OwnedBy(s.adapter, id) ==> id !in s.zones)
  }

  lemma {:induction false} EchoIsForeign(adapter: string, zone: Zone, e: BusEvent)
    requires !OwnedBy(adapter, zone.zoneId) && e in P.Echo(zone)
    ensures !StopsOrAcks(adapter, e) && !Brings(adapter, e)
  {
    hide Parses, OwnedBy;
  }

  lemma {:induction false} ReceiveProgress(s: Sys, stop: nat)
    requires Progress(s, stop) && Enabled(s, Receive) && !s.phase.Restarted? && !s.phase.TimedOut?
    ensures Progress(Next(s, Receive), stop)
  {
    hide OwnedBy;
    var e, next := s.log[s.position], Next(s, Receive);
    if stop < next.position {
      forall id | OwnedBy(s.adapter, id) ensures id !in next.zones {
        ApplyIsPointwise(s.zones, e, id);
        if s.position == stop {
          StopEmpties(s.zones, s.adapter, id);
        } else {
          assert !Brings(s.adapter, e);
          AbsentStaysAbsent(s.zones, e, id);
        }
      }
    }
  }

  lemma {:induction false} StopEmpties(zones: ZoneMap, adapter: string, id: ZoneId)
    requires OwnedBy(adapter, id)
    ensures id !in Apply(zones, AdapterStopping(adapter))
  {
  }

  lemma {:induction false} AbsentStaysAbsent(zones: ZoneMap, e: BusEvent, id: ZoneId)
    requires id !in zones && !(e.ZoneDiscovered? && e.zone.zoneId == id)
    ensures id !in Apply(zones, e)
  {
  }

  lemma {:induction false} StepProgress(s: Sys, stop: nat, step: Step)
    requires Progress(s, stop) && Enabled(s, step) && !s.phase.Restarted? && !s.phase.TimedOut?
    requires !step.Restart? && !step.GiveUp?
    ensures Progress(Next(s, step), stop)
  {
    hide OwnedBy, Apply, P.Echo;
    if step.Receive? {
      ReceiveProgress(s, stop);
    } else if step.CommitNext? {
      var zone, next := s.ingress[0], Next(s, step);
      assert zone in s.ingress;
      forall e | e in P.Echo(zone) ensures !StopsOrAcks(s.adapter, e) && !Brings(s.adapter, e) {
        EchoIsForeign(s.adapter, zone, e);
      }
      forall i | |s.log| <= i < |next.log| ensures next.log[i] in P.Echo(zone) {
      }
    }
  }

  /** After an acknowledgement, or after the restart that follows it. */
  ghost predicate Settled(s: Sys, stop: nat) {
    if s.phase.Restarted? then NoStopPending(s) else s.phase.TimedOut? || Progress(s, stop)
  }

  lemma {:induction false} StepSettled(s: Sys, stop: nat, step: Step)
    requires Settled(s, stop) && !s.phase.TimedOut? && Enabled(s, step) && !step.GiveUp?
    ensures Settled(Next(s, step), stop) && !Next(s, step).phase.TimedOut?
  {
    if s.phase.Restarted? {
      hide OwnedBy, Apply, P.Echo;
      if step.CommitNext? {
        EchoNeverStops(s.ingress[0]);
      }
    } else if step.Restart? {
    } else {
      hide Progress, Enabled;
      PhaseOfNext(s, step);
      StepProgress(s, stop, step);
    }
  }

  lemma {:induction false} PhaseOfNext(s: Sys, step: Step)
    requires Enabled(s, step) && !step.GiveUp? && !step.Restart? && !s.phase.TimedOut? && !s.phase.Restarted?
    ensures !Next(s, step).phase.TimedOut? && !Next(s, step).phase.Restarted?
  {
  }

  lemma {:induction false} EchoNeverStops(zone: Zone)
    ensures forall e :: e in P.Echo(zone) ==> !e.AdapterStopping?
  {
    E.EchoNeverStops(zone);
  }

  /** The coordinator does not time out in this run. */
  predicate Patient(steps: seq<Step>) {
    forall i | 0 <= i < |steps| :: !steps[i].GiveUp?
  }

  lemma {:induction false} RunSettled(s: Sys, stop: nat, steps: seq<Step>)
    requires Settled(s, stop) && !s.phase.TimedOut? && Schedule(s, steps) && Patient(steps)
    ensures Settled(Run(s, steps), stop) && !Run(s, steps).phase.TimedOut?
    decreases steps
  {
    hide Settled, Enabled, Next;
    if steps != [] {
      assert !steps[0].GiveUp?;
      StepSettled(s, stop, steps[0]);
      RunSettled(Next(s, steps[0]), stop, steps[1..]);
    }
  }

  /** From a quiet stop, however the aggregator, the projection actor and other adapters
      interleave: when the wait ends by acknowledgement no zone of the adapter remains or is on
      its way and no flush is queued; and after the restart no flush is ever queued again. */
  lemma {:induction false} QuietStopIsSafe(s: Sys, steps: seq<Step>)
    requires JustStopped(s) && Quiet(s) && Schedule(s, steps) && Patient(steps)
    ensures Run(s, steps).phase.Acknowledged? ==> Clean(Run(s, steps))
    ensures Run(s, steps).phase.Restarted? ==> NoStopPending(Run(s, steps))
  {
    assert Progress(s, |s.log| - 1);
    RunSettled(s, |s.log| - 1, steps);
  }

  /** With no stop pending, handling an event removes a zone of the adapter only when the event
      retires that very zone. */
  lemma {:induction false} NoFlushAfterRestart(s: Sys, id: ZoneId)
    requires NoStopPending(s) && Enabled(s, Receive) && ':' !in s.adapter
    requires s.log[s.position].AdapterStopping? ==> ':' !in s.log[s.position].adapter
    requires OwnedBy(s.adapter, id) && id in s.zones
    ensures id in Next(s, Receive).zones || s.log[s.position] == BusEvent.ZoneRemoved(id)
  {
    var e := s.log[s.position];
    if e.AdapterStopping? && OwnedBy(e.adapter, id) {
      OwnerIsUnique(e.adapter, s.adapter, id);
    }
  }

  /** A flush leaves every other adapter's zones exactly as they were. */
  lemma {:induction false} FlushSparesOthers(s: Sys, id: ZoneId, other: string)
    requires Enabled(s, Receive) && s.log[s.position] == AdapterStopping(s.adapter)
    requires ':' !in s.adapter && ':' !in other && other != s.adapter && OwnedBy(other, id)
    ensures Cell(Next(s, Receive).zones, id) == Cell(s.zones, id)
  {
    if OwnedBy(s.adapter, id) {
      OwnerIsUnique(s.adapter, other, id);
    }
  }

  // ---------------------------------------------------------------------------
  // An unquiet stop is not safe
  // ---------------------------------------------------------------------------

  lemma {:induction false} RunAppend(s: Sys, p: seq<Step>, q: seq<Step>)
    requires Schedule(s, p) && Schedule(Run(s, p), q) && Patient(p) && Patient(q)
    ensures Schedule(s, p + q) && Run(s, p + q) == Run(Run(s, p), q) && Patient(p + q)
    decreases p
  {
    hide Enabled, Next;
    if p == [] {
      assert p + q == q;
    } else {
      assert (p + q)[1..] == p[1..] + q;
      RunAppend(Next(s, p[0]), p[1..], q);
      assert (p + q)[0] == p[0] && !p[0].GiveUp?;
    }
  }

  predicate HasFlush(s: Sys, from: nat) {
    exists i | from <= i < |s.log| :: s.log[i].ZonesFlushed? && s.log[i].adapter == s.adapter
  }

  /** `t` has only grown the log and moved the aggregator. */
  predicate Later(s: Sys, t: Sys) {
    t.adapter == s.adapter && t.phase == s.phase && |s.log| <= |t.log| && t.log[..|s.log|] == s.log
  }

  /** The aggregator can read up to any point of the log; a stop it passes is acknowledged. */
  lemma {:induction false} ReceiveTo(s: Sys, target: nat) returns (steps: seq<Step>)
    requires s.position <= target <= |s.log|
    ensures Schedule(s, steps) && Patient(steps)
    ensures var t := Run(s, steps);
      && Later(s, t) && t.position == target && t.ingress == s.ingress
      && ((exists i | s.position <= i < target :: s.log[i] == AdapterStopping(s.adapter)) ==> HasFlush(t, |s.log|))
    decreases target - s.position
  {
    hide Apply;
    if s.position == target {
      steps := [];
    } else {
      var next := Next(s, Receive);
      var rest := ReceiveTo(next, target);
      steps := [Receive] + rest;
      assert steps[1..] == rest;
      var t := Run(s, steps);
      assert t == Run(next, rest);
      assert next.log[..|s.log|] == s.log && t.log[..|s.log|] == next.log[..|s.log|];
      if s.log[s.position] == AdapterStopping(s.adapter) {
        assert next.log[|s.log|].ZonesFlushed? && t.log[|s.log|] == t.log[..|next.log|][|s.log|];
      } else {
        assert forall i | next.position <= i < target :: next.log[i] == s.log[i];
      }
    }
  }

  /** The coordinator can read up to the first acknowledgement, touching nothing else. */
  lemma {:induction false} AwaitAck(s: Sys) returns (steps: seq<Step>)
    requires s.phase.Waiting? && HasFlush(s, s.phase.cursor)
    ensures Schedule(s, steps) && Patient(steps) && Run(s, steps) == s.(phase := Acknowledged)
    decreases |s.log| - s.phase.cursor
  {
    var next := Next(s, Await);
    if next.phase.Acknowledged? {
      steps := [Await];
      assert steps[1..] == [];
    } else {
      var rest := AwaitAck(next);
      steps := [Await] + rest;
      assert steps[1..] == rest;
    }
  }

  /** The projection actor can commit up to the first submitted zone of the adapter. */
  lemma {:induction false} CommitOwn(s: Sys, zone: Zone) returns (steps: seq<Step>, id: ZoneId)
    requires zone in s.ingress && OwnedBy(s.adapter, zone.zoneId)
    ensures Schedule(s, steps) && Patient(steps)
    ensures Later(s, Run(s, steps)) && OwnedBy(s.adapter, id) && id in Run(s, steps).zones
    decreases |s.ingress|
  {
    hide OwnedBy, P.Echo;
    var first, next := s.ingress[0], Next(s, CommitNext);
    if OwnedBy(s.adapter, first.zoneId) {
      steps, id := [CommitNext], first.zoneId;
      assert steps[1..] == [] && Run(s, steps) == Run(next, []) == next;
    } else {
      assert zone in s.ingress[1..];
      var rest;
      rest, id := CommitOwn(next, zone);
      steps := [CommitNext] + rest;
      assert steps[1..] == rest;
      assert Run(s, steps).log[..|s.log|] == next.log[..|s.log|] == s.log;
    }
  }

  lemma {:induction false} FlushPersists(s: Sys, t: Sys, from: nat, later: nat)
    requires Later(s, t) && HasFlush(s, later) && from <= later
    ensures HasFlush(t, from)
  {
    var i :| later <= i < |s.log| && s.log[i].ZonesFlushed? && s.log[i].adapter == s.adapter;
    assert t.log[i] == t.log[..|s.log|][i];
  }

  /** If the stop is not quiet, some interleaving ends the wait by acknowledgement with a zone of
      the adapter present, or with its flush still queued behind the acknowledgement. */
  lemma {:induction false} UnquietStopCanFail(s: Sys) returns (steps: seq<Step>)
    requires JustStopped(s) && !Quiet(s)
    ensures Schedule(s, steps) && Patient(steps)
    ensures Run(s, steps).phase.Acknowledged? && !Clean(Run(s, steps))
  {
    hide OwnedBy, Enabled, Next;
    var last := |s.log| - 1;
    if HasFlush(s, s.phase.cursor) {
      steps := AwaitAck(s);
      assert Run(s, steps).log[last] == AdapterStopping(s.adapter);
    } else if k :| s.position <= k < last && s.log[k] == AdapterStopping(s.adapter) {
      var read := ReceiveTo(s, k + 1);
      var t := Run(s, read);
      FlushPersists(t, t, s.phase.cursor, |s.log|);
      var wait := AwaitAck(t);
      RunAppend(s, read, wait);
      steps := read + wait;
      assert t.log[last] == t.log[..|s.log|][last] == AdapterStopping(s.adapter);
      assert Run(s, steps).log[last] == AdapterStopping(s.adapter) && Run(s, steps).position <= last;
    } else {
      var zone :| zone in s.ingress && OwnedBy(s.adapter, zone.zoneId);
      assert s.log[last] == AdapterStopping(s.adapter);
      var read := ReceiveTo(s, |s.log|);
      var t := Run(s, read);
      var commit, id := CommitOwn(t, zone);
      var u := Run(t, commit);
      FlushPersists(t, u, s.phase.cursor, |s.log|);
      var wait := AwaitAck(u);
      RunAppend(s, read, commit);
      RunAppend(s, read + commit, wait);
      steps := read + commit + wait;
      assert id in Run(s, steps).zones;
    }
  }

  /** The exact law: acknowledgement implies a clean projection in every interleaving if and only
      if the stop was quiet. */
  lemma {:induction false} SafeExactlyWhenQuiet(s: Sys)
    requires JustStopped(s)
    ensures (forall steps :: Schedule(s, steps) && Patient(steps) && Run(s, steps).phase.Acknowledged?
               ==> Clean(Run(s, steps)))
            <==> Quiet(s)
  {
    hide Clean, Next, Enabled, JustStopped, Quiet;
    if Quiet(s) {
      forall steps | Schedule(s, steps) && Patient(steps) && Run(s, steps).phase.Acknowledged?
        ensures Clean(Run(s, steps))
      {
        QuietStopIsSafe(s, steps);
      }
    } else {
      var steps := UnquietStopCanFail(s);
    }
  }
}
