/** What an HQPlayer snapshot says, told from what happened to its instance: each field is read back from the
    log of admitted happenings, over every run of the commit lane, the observation sink and the broadcast loop. */
module HqpHistory {
  import opened Zones
  import opened ZoneEvents
  import opened Projection
  import opened HqpLanes

  // ---------------------------------------------------------------------------
  // Happenings
  // ---------------------------------------------------------------------------

  datatype Happening =
    | Seen(observation: Observation)
    | Optioned(advanced: Advanced)
    | Listed(result: ProfileResult)
    | Failed(at: nat)
    | Halted
    | Retiring(producerEpoch: nat)

  function Only(about: bool, h: Happening): seq<Happening> {
    if about then [h] else []
  }

  /** What a payload reports of the instance. */
  function OfPayload(payload: Payload, name: string): seq<Happening> {
    match payload
    case HqpObserved(o) => Only(o.instanceName == name, Seen(o))
    case HqpAdvanced(n, advanced) => Only(n == name, Optioned(advanced))
    case HqpProfiles(n, result) => Only(n == name, Listed(result))
    case HqpTransientFailure(n, at) => Only(n == name, Failed(at))
    case HqpRemoved(n, epoch) => Only(n == name, Retiring(epoch))
    case HqpManagerStopped(_) => [Halted]
    case _ => []
  }

  /** What a sink call reports of the instance. */
  function OfCall(call: SinkCall, name: string): seq<Happening> {
    match call
    case Observed(o) => Only(o.instanceName == name, Seen(o))
    case AdvancedObserved(n, advanced) => Only(n == name, Optioned(advanced))
    case ProfilesObserved(n, result) => Only(n == name, Listed(result))
    case TransientFailure(n, at) => Only(n == name, Failed(at))
    case InstanceRemoved(n, epoch) => Only(n == name, Retiring(epoch))
    case ManagerStopped => [Halted]
    case OutputsObserved(_, _) => []
  }

  function OfEntries(entries: seq<Entry>, name: string): seq<Happening> {
    if entries == [] then [] else OfPayload(entries[0].payload, name) + OfEntries(entries[1..], name)
  }

  /** A refused update reports nothing, and no compatibility event concerns a snapshot. */
  function OfStep(a: Aggregate, step: LaneStep, name: string): seq<Happening> {
    match step
    case CommitLane(u) => if Commit(a, u).outcome.Committed? then OfEntries(u.entries, name) else []
    case SinkLane(call) => OfCall(call, name)
    case BroadcastLane(_) => []
  }

  // ---------------------------------------------------------------------------
  // The log: what was admitted since the instance was last retired
  // ---------------------------------------------------------------------------

  /** The last place at which something of the kind happened, or -1. */
  function Latest(log: seq<Happening>, kind: Happening -> bool): (k: int)
    ensures -1 <= k < |log|
    ensures 0 <= k ==> kind(log[k])
    ensures forall i :: k < i < |log| ==> !kind(log[i])
  {
    if log == [] then -1
    else if kind(log[|log| - 1]) then |log| - 1
    else Latest(log[..|log| - 1], kind)
  }

  predicate IsSeen(h: Happening) { h.Seen? }

  predicate IsOptioned(h: Happening) { h.Optioned? }

  predicate IsListed(h: Happening) { h.Listed? }

  predicate IsList(h: Happening) { h.Listed? && h.result.Profiles? }

  predicate SetsPipeline(h: Happening) { h.Seen? || h.Optioned? }

  predicate SetsPresence(h: Happening) { h.Seen? || h.Failed? || h.Halted? }

  predicate SetsFailure(h: Happening) { h.Seen? || h.Failed? }

  /** A log begins with the observation that made the instance known, and tells of no retirement. */
  ghost predicate IsLog(log: seq<Happening>) {
    && (log != [] ==> log[0].Seen?)
    && forall i :: 0 <= i < |log| ==> !log[i].Retiring?
  }

  /** The observation in force after the log's first `n` happenings. */
  function SeenBy(log: seq<Happening>, n: nat): Observation
    requires IsLog(log) && 0 < n <= |log|
  {
    assert log[..n][0].Seen?;
    log[Latest(log[..n], IsSeen)].observation
  }

  /** The log after one more happening. An observation of an older producer epoch, options for another
      execution target, and reports on an unknown instance are refused; a removal counts only for the
      observed epoch. */
  function Logged(log: seq<Happening>, h: Happening): (after: seq<Happening>)
    requires IsLog(log)
    ensures IsLog(after)
  {
    if log == [] then if h.Seen? then [h] else []
    else
      var now := SeenBy(log, |log|);
      match h
      case Seen(o) => if now.producerEpoch <= o.producerEpoch then log + [h] else log
      case Optioned(advanced) => if now.target == advanced.target then log + [h] else log
      case Retiring(epoch) => if now.producerEpoch == epoch then [] else log
      case _ => log + [h]
  }

  function LoggedAll(log: seq<Happening>, hs: seq<Happening>): (after: seq<Happening>)
    requires IsLog(log)
    ensures IsLog(after)
    decreases hs
  {
    if hs == [] then log else LoggedAll(Logged(log, hs[0]), hs[1..])
  }

  /** The instance's log at the end of a run. */
  function LogAfter(log: seq<Happening>, a: Aggregate, steps: seq<LaneStep>, name: string): (after: seq<Happening>)
    requires IsLog(log)
    ensures IsLog(after)
    decreases steps
  {
    if steps == [] then log
    else LogAfter(LoggedAll(log, OfStep(a, steps[0], name)), LaneNext(a, steps[0]), steps[1..], name)
  }

  // ---------------------------------------------------------------------------
  // What the log tells of the snapshot
  // ---------------------------------------------------------------------------

  function TargetOf(o: Observation): ExecutionTarget { o.target }

  function EndpointOf(o: Observation): (string, nat) { (o.target.instanceName, o.target.endpointGeneration) }

  /** Every observation after place `j` agrees in this part with the one in force there. */
  ghost predicate Kept<T>(log: seq<Happening>, j: nat, part: Observation -> T)
    requires IsLog(log) && j < |log|
  {
    forall i :: j < i < |log| && log[i].Seen? ==> part(log[i].observation) == part(SeenBy(log, j + 1))
  }

  /** The last observation, whose pipeline a later reading of the options replaces. */
  ghost predicate TellsObservation(log: seq<Happening>, s: HqpSnapshot)
    requires IsLog(log) && log != []
  {
    var p := Latest(log, SetsPipeline);
    && p >= 0
    && s.observation == SeenBy(log, |log|).(pipeline := if log[p].Seen? then log[p].observation.pipeline
                                                        else log[p].advanced.pipeline)
  }

  /** The last options read, for as long as the execution target stays. */
  ghost predicate TellsOptions(log: seq<Happening>, s: HqpSnapshot)
    requires IsLog(log)
  {
    var j := Latest(log, IsOptioned);
    s.advanced == if j >= 0 && Kept(log, j, TargetOf) then Some(log[j].advanced) else None
  }

  /** The last list of profiles, and the error of the last attempt at one, for as long as the endpoint stays. */
  ghost predicate TellsProfiles(log: seq<Happening>, s: HqpSnapshot)
    requires IsLog(log)
  {
    var j, k := Latest(log, IsList), Latest(log, IsListed);
    && s.profiles == (if j >= 0 && Kept(log, j, EndpointOf) then Some(log[j].result.names) else None)
    && s.profilesError == (if k >= 0 && log[k].result.ProfilesFailed? && Kept(log, k, EndpointOf)
                           then Some(log[k].result.error) else None)
  }

  /** Last known exactly if the latest of observation, failure and manager stop was not an observation; the
      failure time is that of the last failure since the last observation. */
  ghost predicate TellsPresence(log: seq<Happening>, s: HqpSnapshot) {
    var k, f := Latest(log, SetsPresence), Latest(log, SetsFailure);
    && k >= 0 && f >= 0
    && (s.presence == LastKnown <==> !log[k].Seen?)
    && s.lastFailureAt == if log[f].Failed? then Some(log[f].at) else None
  }

  /** The log tells the whole cell: unknown without a happening, otherwise every field, and the revision
      counts the happenings. */
  ghost predicate Tells(log: seq<Happening>, cell: Option<HqpSnapshot>) {
    && IsLog(log)
    && (log == [] <==> cell.None?)
    && (log != [] ==>
          && TellsObservation(log, cell.value) && TellsOptions(log, cell.value)
          && TellsProfiles(log, cell.value) && TellsPresence(log, cell.value)
          && cell.value.revision == |log|)
  }

  /** A log tells of one cell only. */
  lemma {:induction false} TellsOne(log: seq<Happening>, x: Option<HqpSnapshot>, y: Option<HqpSnapshot>)
    requires Tells(log, x) && Tells(log, y)
    ensures x == y
  {
    if log != [] {
      assert x.value.presence == y.value.presence;
    }
  }

  // ---------------------------------------------------------------------------
  // One happening
  // ---------------------------------------------------------------------------

  lemma {:induction false} LatestOfMore(log: seq<Happening>, h: Happening, kind: Happening -> bool)
    ensures Latest(log + [h], kind) == if kind(h) then |log| else Latest(log, kind)
  {
    assert (log + [h])[..|log|] == log;
  }

  lemma {:induction false} SeenOfMore(log: seq<Happening>, h: Happening, n: nat)
    requires IsLog(log) && IsLog(log + [h]) && 0 < n <= |log|
    ensures SeenBy(log + [h], n) == SeenBy(log, n)
    ensures SeenBy(log + [h], |log| + 1) == if h.Seen? then h.observation else SeenBy(log, |log|)
  {
    assert (log + [h])[..n] == log[..n] && log[..|log|] == log;
    assert (log + [h])[..|log| + 1] == log + [h];
    LatestOfMore(log, h, IsSeen);
  }

  /** A part that was kept since place `j` is that of the observation in force. */
  lemma {:induction false} KeptIsInForce<T>(log: seq<Happening>, j: nat, part: Observation -> T)
    requires IsLog(log) && j < |log| && Kept(log, j, part)
    ensures part(SeenBy(log, |log|)) == part(SeenBy(log, j + 1))
  {
    assert log[..|log|] == log;
    var k, b := Latest(log, IsSeen), Latest(log[..j + 1], IsSeen);
    assert IsSeen(log[0]) && log[..j + 1][0] == log[0];
    assert log[..j + 1][b] == log[b];
    if k <= j {
      assert log[..j + 1][k] == log[k];
      assert b == k;
    }
  }

  lemma {:induction false} KeptOfMore<T>(log: seq<Happening>, h: Happening, j: nat, part: Observation -> T)
    requires IsLog(log) && IsLog(log + [h]) && j < |log|
    ensures Kept(log + [h], j, part)
            <==> Kept(log, j, part) && (h.Seen? ==> part(h.observation) == part(SeenBy(log, |log|)))
  {
    hide SeenBy;
    var more := log + [h];
    SeenOfMore(log, h, j + 1);
    if Kept(log, j, part) {
      KeptIsInForce(log, j, part);
    }
    if Kept(more, j, part) {
      forall i | j < i < |log| && log[i].Seen? ensures part(log[i].observation) == part(SeenBy(log, j + 1)) {
        assert more[i].Seen?;
      }
      assert Kept(log, j, part);
      assert h.Seen? ==> more[|log|].Seen?;
    }
  }

  lemma {:induction false} KeptAtOnce<T>(log: seq<Happening>, h: Happening, part: Observation -> T)
    requires IsLog(log + [h])
    ensures Kept(log + [h], |log|, part)
  {
  }

  /** The cell after a happening, as the two lanes compute it. */
  function After(cell: Option<HqpSnapshot>, h: Happening): Option<HqpSnapshot> {
    match h
    case Seen(o) =>
      if cell.Some? && cell.value.observation.producerEpoch > o.producerEpoch then cell else Some(Observe(cell, o))
    case Optioned(advanced) =>
      if cell.Some? && cell.value.observation.target == advanced.target then Some(Attach(cell.value, advanced)) else cell
    case Listed(result) => if cell.Some? then Some(WithProfiles(cell.value, result)) else None
    case Failed(at) => if cell.Some? then Some(Retained(cell.value).(lastFailureAt := Some(at))) else None
    case Halted => if cell.Some? then Some(Retained(cell.value)) else None
    case Retiring(epoch) => if cell.Some? && cell.value.observation.producerEpoch == epoch then None else cell
  }

  lemma {:induction false} InForce(log: seq<Happening>, s: HqpSnapshot)
    requires IsLog(log) && log != [] && TellsObservation(log, s)
    ensures SeenBy(log, |log|).producerEpoch == s.observation.producerEpoch
    ensures SeenBy(log, |log|).target == s.observation.target
  {
    hide SeenBy, Latest;
  }

  /** The log goes on telling the cell. */
  lemma {:induction false} OneIsTold(log: seq<Happening>, cell: Option<HqpSnapshot>, h: Happening)
    requires Tells(log, cell)
    ensures Tells(Logged(log, h), After(cell, h))
  {
    hide SeenBy, Latest, TellsObservation, TellsOptions, TellsProfiles, TellsPresence;
    if log == [] {
      if h.Seen? {
        FirstIsTold(h);
      }
    } else {
      InForce(log, cell.value);
      if Logged(log, h) == log + [h] {
        MoreIsTold(log, cell, h);
      } else if Logged(log, h) != log {
        EmptyIsTold();
      }
    }
  }

  lemma {:induction false} EmptyIsTold()
    ensures Tells([], None)
  {
  }

  lemma {:induction false} MoreIsTold(log: seq<Happening>, cell: Option<HqpSnapshot>, h: Happening)
    requires Tells(log, cell) && log != [] && Logged(log, h) == log + [h]
    ensures Tells(log + [h], After(cell, h))
  {
    hide SeenBy, Latest, TellsObservation, TellsOptions, TellsProfiles, TellsPresence;
    InForce(log, cell.value);
    ObservationIsTold(log, cell.value, h);
    OptionsAreTold(log, cell.value, h);
    ProfilesAreTold(log, cell.value, h);
    PresenceIsTold(log, cell.value, h);
  }

  lemma {:induction false} FirstIsTold(h: Happening)
    requires h.Seen?
    ensures Tells([h], Some(Observe(None, h.observation)))
  {
    var log := [h];
    assert log[..1] == log;
    assert IsSeen(log[0]) && SetsPipeline(log[0]) && SetsPresence(log[0]) && SetsFailure(log[0]);
  }

  lemma {:induction false} ObservationIsTold(log: seq<Happening>, s: HqpSnapshot, h: Happening)
    requires IsLog(log) && log != [] && IsLog(log + [h]) && TellsObservation(log, s) && After(Some(s), h).Some?
    requires Logged(log, h) == log + [h]
    ensures TellsObservation(log + [h], After(Some(s), h).value)
  {
    hide SeenBy;
    SeenOfMore(log, h, |log|);
    LatestOfMore(log, h, SetsPipeline);
  }

  lemma {:induction false} OptionsAreTold(log: seq<Happening>, s: HqpSnapshot, h: Happening)
    requires IsLog(log) && log != [] && IsLog(log + [h]) && TellsObservation(log, s) && After(Some(s), h).Some?
    requires Logged(log, h) == log + [h] && TellsOptions(log, s)
    ensures TellsOptions(log + [h], After(Some(s), h).value)
  {
    hide SeenBy, Kept;
    LatestOfMore(log, h, IsOptioned);
    var j := Latest(log, IsOptioned);
    if h.Optioned? {
      KeptAtOnce(log, h, TargetOf);
    } else if j >= 0 {
      KeptOfMore(log, h, j, TargetOf);
    }
  }

  lemma {:induction false} ProfilesAreTold(log: seq<Happening>, s: HqpSnapshot, h: Happening)
    requires IsLog(log) && log != [] && IsLog(log + [h]) && TellsObservation(log, s) && After(Some(s), h).Some?
    requires Logged(log, h) == log + [h] && TellsProfiles(log, s)
    ensures TellsProfiles(log + [h], After(Some(s), h).value)
  {
    hide SeenBy, Kept;
    LatestOfMore(log, h, IsList);
    LatestOfMore(log, h, IsListed);
    var j, k := Latest(log, IsList), Latest(log, IsListed);
    KeptAtOnce(log, h, EndpointOf);
    if j >= 0 {
      KeptOfMore(log, h, j, EndpointOf);
    }
    if k >= 0 {
      KeptOfMore(log, h, k, EndpointOf);
    }
  }

  lemma {:induction false} PresenceIsTold(log: seq<Happening>, s: HqpSnapshot, h: Happening)
    requires IsLog(log) && log != [] && IsLog(log + [h]) && TellsObservation(log, s) && After(Some(s), h).Some?
    requires Logged(log, h) == log + [h] && TellsPresence(log, s)
    ensures TellsPresence(log + [h], After(Some(s), h).value)
  {
    hide SeenBy;
    LatestOfMore(log, h, SetsPresence);
    LatestOfMore(log, h, SetsFailure);
  }

  // ---------------------------------------------------------------------------
  // Documents
  // ---------------------------------------------------------------------------

  function DocumentOf(outputs: map<string, OutputDoc>, name: string): Option<OutputDoc> {
    if name in outputs then Some(outputs[name]) else None
  }

  /** The offered document, under the stamps of its lane. */
  ghost predicate IsOffer(y: OutputDoc, doc: OutputDoc, sourceEpoch: nat, revision: nat) {
    && y.sourceEpoch == sourceEpoch && y.aggregateRevision == revision && y.outputRevision == doc.outputRevision
    && y.availability == doc.availability && y.session == doc.session && y.routes == doc.routes
    && y.forwardingDestination == doc.forwardingDestination
  }

  /** The commit lane shows an offered document exactly if there was none or it is not older by (source epoch,
      output revision); a manager stop makes every document unavailable and ends its session; a removal drops
      the instance's document whatever the epoch; nothing else changes one. */
  lemma {:induction false} DocumentsExactly(e: Effect, p: Payload, epoch: nat, revision: nat, name: string)
    ensures var before := DocumentOf(e.body.outputs, name);
      var after := DocumentOf(ApplyPayload(e, p, epoch, revision).body.outputs, name);
      if p.HqpOutputs? && p.instanceName == name then
        if before.None? || before.value.sourceEpoch < epoch
           || (before.value.sourceEpoch == epoch && before.value.outputRevision <= p.doc.outputRevision)
        then after.Some? && IsOffer(after.value, p.doc, epoch, revision)
        else after == before
      else if p.HqpRemoved? && p.instanceName == name then after.None?
      else if p.HqpManagerStopped? && before.Some? then
        && after.Some?
        && after.value.availability == Unavailable("HQPlayer lifecycle stopped", p.at)
        && after.value.session == None && after.value.forwardingDestination == None
        && after.value.aggregateRevision == revision
        && after.value.sourceEpoch == before.value.sourceEpoch
        && after.value.outputRevision == before.value.outputRevision && after.value.routes == before.value.routes
      else after == before
  {
    hide Observe, Attach, WithProfiles, Retained, OwnedBy, Prefixed;
  }

  /** The sink compares output revisions alone and keeps the document's own epoch; its manager stop leaves
      documents alone. */
  lemma {:induction false} SinkDocumentsExactly(body: Body, revision: nat, call: SinkCall, name: string)
    ensures var before := DocumentOf(body.outputs, name);
      var after := DocumentOf(Sink(body, revision, call).outputs, name);
      if call.OutputsObserved? && call.instanceName == name then
        if before.None? || before.value.outputRevision <= call.doc.outputRevision
        then after.Some? && IsOffer(after.value, call.doc, call.doc.sourceEpoch, revision)
        else after == before
      else if call.InstanceRemoved? && call.instanceName == name then after.None?
      else after == before
  {
    hide Observe, Attach, WithProfiles, Retained;
  }

  // ---------------------------------------------------------------------------
  // Zones
  // ---------------------------------------------------------------------------

  /** A sink call changes at most the zone its observation brings, and that exactly if the instance is not
      displayed under a later producer epoch. */
  lemma {:induction false} SinkZonesExactly(body: Body, revision: nat, call: SinkCall, id: ZoneId)
    ensures var before, after := Cell(body.zones, id), Cell(Sink(body, revision, call).zones, id);
      if && call.Observed? && call.observation.zone.zoneId == id
         && (forall s :: HqpCell(body.hqp, call.observation.instanceName) == Some(s) ==>
               s.observation.producerEpoch <= call.observation.producerEpoch)
      then after == Some(call.observation.zone)
      else after == before
  {
    hide Observe, Attach, WithProfiles, Retained;
    if call.Observed? && call.observation.instanceName in body.hqp {
      assert HqpCell(body.hqp, call.observation.instanceName) == Some(body.hqp[call.observation.instanceName]);
    }
  }

  // ---------------------------------------------------------------------------
  // Steps and runs
  // ---------------------------------------------------------------------------

  lemma {:induction false} PayloadIsTold(log: seq<Happening>, e: Effect, p: Payload, epoch: nat, revision: nat,
                                         name: string)
    requires Tells(log, HqpCell(e.body.hqp, name))
    ensures Tells(LoggedAll(log, OfPayload(p, name)), HqpCell(ApplyPayload(e, p, epoch, revision).body.hqp, name))
  {
    hide Tells, Logged, Observe, Attach, WithProfiles, Retained, AdmitsOutputs, Stamped, Withdrawn, OwnedBy, Prefixed;
    var hs := OfPayload(p, name);
    if hs != [] {
      assert hs[1..] == [];
      OneIsTold(log, HqpCell(e.body.hqp, name), hs[0]);
    }
  }

  lemma {:induction false} LoggedTwice(log: seq<Happening>, xs: seq<Happening>, ys: seq<Happening>)
    requires IsLog(log)
    ensures LoggedAll(log, xs + ys) == LoggedAll(LoggedAll(log, xs), ys)
    decreases xs
  {
    hide Logged, IsLog;
    if xs == [] {
      assert xs + ys == ys;
    } else {
      assert (xs + ys)[1..] == xs[1..] + ys;
      LoggedTwice(Logged(log, xs[0]), xs[1..], ys);
    }
  }

  lemma {:induction false} EntriesAreTold(log: seq<Happening>, e: Effect, entries: seq<Entry>, epoch: nat,
                                          revision: nat, name: string)
    requires Tells(log, HqpCell(e.body.hqp, name))
    ensures Tells(LoggedAll(log, OfEntries(entries, name)),
                  HqpCell(ApplyEntries(e, entries, epoch, revision).body.hqp, name))
    decreases entries
  {
    hide ApplyPayload, OfPayload, Logged, TellsObservation, TellsOptions, TellsProfiles, TellsPresence;
    if entries != [] {
      var hs := OfPayload(entries[0].payload, name);
      PayloadIsTold(log, e, entries[0].payload, epoch, revision, name);
      LoggedTwice(log, hs, OfEntries(entries[1..], name));
      EntriesAreTold(LoggedAll(log, hs), ApplyEntry(e, entries[0], epoch, revision), entries[1..], epoch, revision,
                     name);
    }
  }

  lemma {:induction false} CallIsTold(log: seq<Happening>, body: Body, revision: nat, call: SinkCall, name: string)
    requires Tells(log, HqpCell(body.hqp, name))
    ensures Tells(LoggedAll(log, OfCall(call, name)), HqpCell(Sink(body, revision, call).hqp, name))
  {
    hide Tells, Logged, Observe, Attach, WithProfiles, Retained, SinkAdmits;
    var hs := OfCall(call, name);
    if hs != [] {
      assert hs[1..] == [];
      OneIsTold(log, HqpCell(body.hqp, name), hs[0]);
    }
  }

  lemma {:induction false} StepIsTold(log: seq<Happening>, a: Aggregate, step: LaneStep, name: string)
    requires Tells(log, HqpCell(a.body.hqp, name))
    ensures Tells(LoggedAll(log, OfStep(a, step, name)), HqpCell(LaneNext(a, step).body.hqp, name))
  {
    hide ApplyEntries, OfEntries, Sink, OfCall, Logged, Apply;
    hide TellsObservation, TellsOptions, TellsProfiles, TellsPresence;
    match step
    case CommitLane(u) =>
      if Commit(a, u).outcome.Committed? {
        EntriesAreTold(log, Effect(a.body, [], []), u.entries, u.source.epoch, a.revision + 1, name);
      }
    case SinkLane(call) => CallIsTold(log, a.body, a.revision, call, name);
    case BroadcastLane(_) =>
  }

  /** Over every run of both lanes and the broadcast loop, the log of what was admitted tells every field of
      the instance's snapshot, or that there is none. */
  lemma {:induction false} SnapshotIsItsHistory(log: seq<Happening>, a: Aggregate, steps: seq<LaneStep>, name: string)
    requires Tells(log, HqpCell(a.body.hqp, name))
    ensures Tells(LogAfter(log, a, steps, name), HqpCell(LaneRun(a, steps).body.hqp, name))
    decreases steps
  {
    hide LaneNext, OfStep, HqpCell, TellsObservation, TellsOptions, TellsProfiles, TellsPresence;
    if steps != [] {
      StepIsTold(log, a, steps[0], name);
      SnapshotIsItsHistory(LoggedAll(log, OfStep(a, steps[0], name)), LaneNext(a, steps[0]), steps[1..], name);
    }
  }

  /** From the empty aggregator: a snapshot is last known exactly if the latest admitted observation, failure
      or manager stop of its instance was not an observation. */
  lemma {:induction false} LastKnownExactly(steps: seq<LaneStep>, name: string)
    ensures var log, hqp := LogAfter([], EMPTY_AGGREGATE, steps, name), LaneRun(EMPTY_AGGREGATE, steps).body.hqp;
      var k, f := Latest(log, SetsPresence), Latest(log, SetsFailure);
      && (name in hqp <==> log != [])
      && (name in hqp ==>
            && k >= 0 && f >= 0
            && (hqp[name].presence == LastKnown <==> log[k].Failed? || log[k].Halted?)
            && hqp[name].lastFailureAt == (if log[f].Failed? then Some(log[f].at) else None)
            && hqp[name].revision == |log|)
  {
    hide LogAfter, LaneRun;
    SnapshotIsItsHistory([], EMPTY_AGGREGATE, steps, name);
    var log := LogAfter([], EMPTY_AGGREGATE, steps, name);
    assert Latest(log, SetsPresence) >= 0 ==> SetsPresence(log[Latest(log, SetsPresence)]);
  }

  /** A failure and a manager stop, on either lane, leave the observation, its options and its profiles alone,
      and say nothing of instances nobody has observed. */
  lemma {:induction false} FailureKeepsValues(e: Effect, name: string, at: nat, epoch: nat, revision: nat)
    ensures forall p, n | p in {HqpTransientFailure(name, at), HqpManagerStopped(at)} ::
      var cell, after := HqpCell(e.body.hqp, n), HqpCell(ApplyPayload(e, p, epoch, revision).body.hqp, n);
      if cell.None? || (p.HqpTransientFailure? && n != name) then after == cell
      else after.Some? && after.value.presence == LastKnown && SameValues(cell.value, after.value)
    ensures forall c, n | c in {TransientFailure(name, at), ManagerStopped} ::
      var cell, after := HqpCell(e.body.hqp, n), HqpCell(Sink(e.body, revision, c).hqp, n);
      if cell.None? || (c.TransientFailure? && n != name) then after == cell
      else after.Some? && after.value.presence == LastKnown && SameValues(cell.value, after.value)
  {
  }

  ghost predicate SameValues(x: HqpSnapshot, y: HqpSnapshot) {
    && x.observation == y.observation && x.advanced == y.advanced
    && x.profiles == y.profiles && x.profilesError == y.profilesError
  }
}
