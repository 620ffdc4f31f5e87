/** HQPlayer state written from two lanes: reliable commits, and the direct observation sink
    (`HqpNativeObservationSink for ZoneAggregator`, src/aggregator.rs). */
module HqpLanes {
  import opened Zones
  import opened ZoneEvents
  import opened Projection

  // ---------------------------------------------------------------------------
  // The observation sink
  // ---------------------------------------------------------------------------

  datatype SinkCall =
    | Observed(observation: Observation)
    | AdvancedObserved(instanceName: string, advanced: Advanced)
    | ProfilesObserved(instanceName: string, result: ProfileResult)
    | TransientFailure(instanceName: string, observedAt: nat)
    | OutputsObserved(instanceName: string, doc: OutputDoc)
    | InstanceRemoved(instanceName: string, producerEpoch: nat)
    | ManagerStopped

  /** The sink admits an output document by its own revision alone, and does not stamp its epoch. */
  predicate SinkAdmits(outputs: map<string, OutputDoc>, name: string, offered: OutputDoc) {
    name in outputs ==> outputs[name].outputRevision <= offered.outputRevision
  }

  /** The body after one sink call; the projection revision and cursors are never touched. */
  function Sink(body: Body, revision: nat, call: SinkCall): Body {
    match call
    case Observed(o) =>
      if o.instanceName in body.hqp && body.hqp[o.instanceName].observation.producerEpoch > o.producerEpoch then body
      else body.(zones := body.zones[o.zone.zoneId := o.zone],
                 hqp := body.hqp[o.instanceName := Observe(HqpCell(body.hqp, o.instanceName), o)])
    case AdvancedObserved(name, advanced) =>
      if name in body.hqp && body.hqp[name].observation.target == advanced.target
      then body.(hqp := body.hqp[name := Attach(body.hqp[name], advanced)])
      else body
    case ProfilesObserved(name, result) =>
      if name in body.hqp then body.(hqp := body.hqp[name := WithProfiles(body.hqp[name], result)]) else body
    case TransientFailure(name, at) =>
      if name in body.hqp
      then body.(hqp := body.hqp[name := Retained(body.hqp[name]).(lastFailureAt := Some(at))])
      else body
    case OutputsObserved(name, doc) =>
      if SinkAdmits(body.outputs, name, doc)
      then body.(outputs := body.outputs[name := doc.(aggregateRevision := revision)])
      else body
    case InstanceRemoved(name, producerEpoch) =>
      body.(hqp := if name in body.hqp && body.hqp[name].observation.producerEpoch == producerEpoch
                   then body.hqp - {name} else body.hqp,
            outputs := body.outputs - {name})
    case ManagerStopped => body.(hqp := map name | name in body.hqp :: Retained(body.hqp[name]))
  }

  // ---------------------------------------------------------------------------
  // Runs over both lanes
  // ---------------------------------------------------------------------------

  datatype LaneStep =
    | CommitLane(update: Update)
    | SinkLane(call: SinkCall)
    | BroadcastLane(event: BusEvent)

  function LaneNext(a: Aggregate, step: LaneStep): Aggregate {
    match step
    case CommitLane(u) => Commit(a, u).state
    case SinkLane(call) => a.(body := Sink(a.body, a.revision, call))
    case BroadcastLane(e) => a.(body := a.body.(zones := Apply(a.body.zones, e)))
  }

  function LaneRun(a: Aggregate, steps: seq<LaneStep>): Aggregate
    decreases steps
  {
    if steps == [] then a else LaneRun(LaneNext(a, steps[0]), steps[1..])
  }

  predicate RetiresInstance(payload: Payload, name: string) {
    payload.HqpRemoved? && payload.instanceName == name
  }

  // ---------------------------------------------------------------------------
  // Snapshots
  // ---------------------------------------------------------------------------

  /** Attached options always belong to the very execution target that is on display. */
  ghost predicate Coherent(hqp: map<string, HqpSnapshot>) {
    forall name :: CoherentAt(hqp, name)
  }

  /** `y` may replace `x`: the producer epoch does not fall, and any change raises the revision. */
  predicate Successor(x: HqpSnapshot, y: HqpSnapshot) {
    && x.observation.producerEpoch <= y.observation.producerEpoch
    && (x == y || x.revision < y.revision)
  }

  ghost predicate SnapshotsAdvance(before: map<string, HqpSnapshot>, after: map<string, HqpSnapshot>, name: string) {
    name in before ==> name in after && Successor(before[name], after[name])
  }

  ghost predicate CoherentAt(hqp: map<string, HqpSnapshot>, name: string) {
    name in hqp ==>
      && hqp[name].observation.instanceName == name
      && (hqp[name].advanced.Some? ==> hqp[name].advanced.value.target == hqp[name].observation.target)
  }

  /** The payload retires the snapshot on display: it names the instance and its displayed epoch. */
  predicate Retires(hqp: map<string, HqpSnapshot>, payload: Payload, name: string) {
    && RetiresInstance(payload, name) && name in hqp
    && hqp[name].observation.producerEpoch == payload.producerEpoch
  }

  predicate EntriesRetire(e: Effect, entries: seq<Entry>, epoch: nat, revision: nat, name: string)
    decreases entries
  {
    entries != [] &&
    (|| Retires(e.body.hqp, entries[0].payload, name)
     || EntriesRetire(ApplyEntry(e, entries[0], epoch, revision), entries[1..], epoch, revision, name))
  }

  predicate SinkRetires(hqp: map<string, HqpSnapshot>, call: SinkCall, name: string) {
    && call.InstanceRemoved? && call.instanceName == name && name in hqp
    && hqp[name].observation.producerEpoch == call.producerEpoch
  }

  /** The step retires the snapshot on display. A removal of another epoch does not, nor does one inside an
      update that is not admitted. */
  predicate StepRetires(a: Aggregate, step: LaneStep, name: string) {
    match step
    case CommitLane(u) =>
      && Admitted(a, u)
      && EntriesRetire(Effect(a.body, [], []), u.entries, u.source.epoch, a.revision + 1, name)
    case SinkLane(call) => SinkRetires(a.body.hqp, call, name)
    case BroadcastLane(_) => false
  }

  predicate RunRetires(a: Aggregate, steps: seq<LaneStep>, name: string)
    decreases steps
  {
    steps != [] && (StepRetires(a, steps[0], name) || RunRetires(LaneNext(a, steps[0]), steps[1..], name))
  }

  lemma {:induction false} PayloadCoherentAt(e: Effect, payload: Payload, epoch: nat, revision: nat, name: string)
    requires CoherentAt(e.body.hqp, name)
    ensures CoherentAt(ApplyPayload(e, payload, epoch, revision).body.hqp, name)
  {
    hide Prefixed, AdmitsOutputs, Stamped, Withdrawn, OwnedBy;
  }

  lemma {:induction false} PayloadAdvancesAt(e: Effect, payload: Payload, epoch: nat, revision: nat, name: string)
    ensures SnapshotsAdvance(e.body.hqp, ApplyPayload(e, payload, epoch, revision).body.hqp, name)
            <==> !Retires(e.body.hqp, payload, name)
  {
    hide Prefixed, AdmitsOutputs, Stamped, Withdrawn, OwnedBy;
  }

  /** One payload: the snapshot stays and advances if and only if it is not retired. */
  lemma {:induction false} PayloadAtInstance(e: Effect, payload: Payload, epoch: nat, revision: nat, name: string)
    requires CoherentAt(e.body.hqp, name)
    ensures CoherentAt(ApplyPayload(e, payload, epoch, revision).body.hqp, name)
    ensures SnapshotsAdvance(e.body.hqp, ApplyPayload(e, payload, epoch, revision).body.hqp, name)
            <==> !Retires(e.body.hqp, payload, name)
  {
    hide ApplyPayload, CoherentAt, SnapshotsAdvance, Retires;
    PayloadCoherentAt(e, payload, epoch, revision, name);
    PayloadAdvancesAt(e, payload, epoch, revision, name);
  }

  lemma {:induction false} PayloadKeepsCoherent(e: Effect, payload: Payload, epoch: nat, revision: nat)
    requires Coherent(e.body.hqp)
    ensures Coherent(ApplyPayload(e, payload, epoch, revision).body.hqp)
  {
    hide ApplyPayload, SnapshotsAdvance, Retires, CoherentAt;
    forall name ensures CoherentAt(ApplyPayload(e, payload, epoch, revision).body.hqp, name) {
      PayloadAtInstance(e, payload, epoch, revision, name);
    }
  }

  lemma {:induction false} EntriesKeepCoherent(e: Effect, entries: seq<Entry>, epoch: nat, revision: nat, name: string)
    requires Coherent(e.body.hqp)
    ensures Coherent(ApplyEntries(e, entries, epoch, revision).body.hqp)
    ensures !EntriesRetire(e, entries, epoch, revision, name) ==>
              SnapshotsAdvance(e.body.hqp, ApplyEntries(e, entries, epoch, revision).body.hqp, name)
    decreases entries
  {
    hide ApplyPayload, CoherentAt, Retires;
    if entries != [] {
      PayloadKeepsCoherent(e, entries[0].payload, epoch, revision);
      assert CoherentAt(e.body.hqp, name);
      PayloadAtInstance(e, entries[0].payload, epoch, revision, name);
      EntriesKeepCoherent(ApplyEntry(e, entries[0], epoch, revision), entries[1..], epoch, revision, name);
    }
  }

  /** One sink call: the snapshot stays and advances if and only if it is not retired. */
  lemma {:induction false} SinkAtInstance(body: Body, revision: nat, call: SinkCall, name: string)
    requires CoherentAt(body.hqp, name)
    ensures CoherentAt(Sink(body, revision, call).hqp, name)
    ensures SnapshotsAdvance(body.hqp, Sink(body, revision, call).hqp, name) <==> !SinkRetires(body.hqp, call, name)
  {
    hide SinkAdmits;
  }

  lemma {:induction false} SinkKeepsCoherent(body: Body, revision: nat, call: SinkCall)
    requires Coherent(body.hqp)
    ensures Coherent(Sink(body, revision, call).hqp)
  {
    hide Sink, SnapshotsAdvance, SinkRetires, CoherentAt;
    forall any ensures CoherentAt(Sink(body, revision, call).hqp, any) {
      SinkAtInstance(body, revision, call, any);
    }
  }

  lemma {:induction false} StepKeepsCoherent(a: Aggregate, step: LaneStep, name: string)
    requires Coherent(a.body.hqp)
    ensures Coherent(LaneNext(a, step).body.hqp)
    ensures !StepRetires(a, step, name) ==> SnapshotsAdvance(a.body.hqp, LaneNext(a, step).body.hqp, name)
  {
    hide ApplyEntries, EntriesRetire, Sink, SinkRetires, Apply, CoherentAt, SnapshotsAdvance;
    SnapshotsStand(a.body.hqp, name);
    assert CoherentAt(a.body.hqp, name);
    match step
    case CommitLane(u) =>
      EntriesKeepCoherent(Effect(a.body, [], []), u.entries, u.source.epoch, a.revision + 1, name);
    case SinkLane(call) =>
      SinkKeepsCoherent(a.body, a.revision, call);
      SinkAtInstance(a.body, a.revision, call, name);
    case BroadcastLane(_) =>
  }

  lemma {:induction false} SnapshotsStand(hqp: map<string, HqpSnapshot>, name: string)
    ensures SnapshotsAdvance(hqp, hqp, name)
  {
  }

  /** Over every run of both lanes and the broadcast loop: displayed options always match the
      displayed execution target, and while an instance's displayed epoch is not retired its snapshot
      stays, its producer epoch never falls and every change raises its revision. Late removals of
      earlier epochs, and removals in refused updates, may occur anywhere. */
  lemma {:induction false} SnapshotsOverRuns(a: Aggregate, steps: seq<LaneStep>, name: string)
    requires Coherent(a.body.hqp)
    ensures Coherent(LaneRun(a, steps).body.hqp)
    ensures !RunRetires(a, steps, name) ==> SnapshotsAdvance(a.body.hqp, LaneRun(a, steps).body.hqp, name)
    decreases steps
  {
    hide LaneNext, Coherent, StepRetires;
    if steps != [] {
      StepKeepsCoherent(a, steps[0], name);
      SnapshotsOverRuns(LaneNext(a, steps[0]), steps[1..], name);
    }
  }

  // ---------------------------------------------------------------------------
  // Output documents
  // ---------------------------------------------------------------------------

  /** Lexicographic order on (source epoch, output revision). */
  predicate NotOlder(x: OutputDoc, y: OutputDoc) {
    x.sourceEpoch < y.sourceEpoch || (x.sourceEpoch == y.sourceEpoch && x.outputRevision <= y.outputRevision)
  }

  ghost predicate Bounded(outputs: map<string, OutputDoc>, revision: nat) {
    forall name :: name in outputs ==> outputs[name].aggregateRevision <= revision
  }

  ghost predicate OutputsAdvance(before: map<string, OutputDoc>, after: map<string, OutputDoc>, name: string) {
    name in before ==>
      && name in after
      && NotOlder(before[name], after[name])
      && before[name].aggregateRevision <= after[name].aggregateRevision
  }

  /** The payload drops the instance's document: any removal naming the instance does, whatever its epoch. */
  predicate DropsOutputs(outputs: map<string, OutputDoc>, payload: Payload, name: string) {
    RetiresInstance(payload, name) && name in outputs
  }

  predicate EntriesDrop(e: Effect, entries: seq<Entry>, epoch: nat, revision: nat, name: string)
    decreases entries
  {
    entries != [] &&
    (|| DropsOutputs(e.body.outputs, entries[0].payload, name)
     || EntriesDrop(ApplyEntry(e, entries[0], epoch, revision), entries[1..], epoch, revision, name))
  }

  predicate SinkDrops(outputs: map<string, OutputDoc>, call: SinkCall, name: string) {
    call.InstanceRemoved? && call.instanceName == name && name in outputs
  }

  /** The step drops the instance's document. A removal inside an update that is not admitted does not. */
  predicate StepDrops(a: Aggregate, step: LaneStep, name: string) {
    match step
    case CommitLane(u) =>
      && Admitted(a, u)
      && EntriesDrop(Effect(a.body, [], []), u.entries, u.source.epoch, a.revision + 1, name)
    case SinkLane(call) => SinkDrops(a.body.outputs, call, name)
    case BroadcastLane(_) => false
  }

  predicate RunDrops(a: Aggregate, steps: seq<LaneStep>, name: string)
    decreases steps
  {
    steps != [] && (StepDrops(a, steps[0], name) || RunDrops(LaneNext(a, steps[0]), steps[1..], name))
  }

  /** One payload: the document stays and advances if and only if it is not dropped. */
  lemma {:induction false} PayloadKeepsOutputs(e: Effect, payload: Payload, epoch: nat, revision: nat, name: string)
    requires Bounded(e.body.outputs, revision)
    ensures Bounded(ApplyPayload(e, payload, epoch, revision).body.outputs, revision)
    ensures OutputsAdvance(e.body.outputs, ApplyPayload(e, payload, epoch, revision).body.outputs, name)
            <==> !DropsOutputs(e.body.outputs, payload, name)
  {
    hide Prefixed, Observe, Attach, WithProfiles, Retained, OwnedBy;
  }

  lemma {:induction false} EntriesKeepOutputs(e: Effect, entries: seq<Entry>, epoch: nat, revision: nat, name: string)
    requires Bounded(e.body.outputs, revision)
    ensures Bounded(ApplyEntries(e, entries, epoch, revision).body.outputs, revision)
    ensures !EntriesDrop(e, entries, epoch, revision, name) ==>
              OutputsAdvance(e.body.outputs, ApplyEntries(e, entries, epoch, revision).body.outputs, name)
    decreases entries
  {
    hide ApplyPayload, Bounded, DropsOutputs;
    if entries != [] {
      PayloadKeepsOutputs(e, entries[0].payload, epoch, revision, name);
      EntriesKeepOutputs(ApplyEntry(e, entries[0], epoch, revision), entries[1..], epoch, revision, name);
    }
  }

  /** A sink call keeps every bound and every aggregate revision of a document it keeps, and it keeps a
      document and its (epoch, revision) order exactly when it neither removes the instance nor
      replaces the document by an admitted one of an older epoch: the sink, unlike the commit lane,
      never compares epochs. */
  lemma {:induction false} SinkKeepsOutputsExactly(body: Body, revision: nat, call: SinkCall, name: string)
    requires Bounded(body.outputs, revision)
    ensures var after := Sink(body, revision, call).outputs;
      && Bounded(after, revision)
      && (name in body.outputs && name in after ==>
            body.outputs[name].aggregateRevision <= after[name].aggregateRevision)
      && (OutputsAdvance(body.outputs, after, name)
          <==> !Regresses(body.outputs, call, name) && !SinkDrops(body.outputs, call, name))
  {
    hide Observe, Attach, WithProfiles, Retained;
  }

  /** The sink call replaces `name`'s document by one of an older source epoch. */
  predicate Regresses(outputs: map<string, OutputDoc>, call: SinkCall, name: string) {
    && call.OutputsObserved? && call.instanceName == name && name in outputs
    && SinkAdmits(outputs, name, call.doc)
    && call.doc.sourceEpoch < outputs[name].sourceEpoch
  }

  /** No step of the run offers the sink an older epoch for `name` that it would admit. */
  predicate NeverRegresses(a: Aggregate, steps: seq<LaneStep>, name: string)
    decreases steps
  {
    steps == [] ||
    (&& (steps[0].SinkLane? ==> !Regresses(a.body.outputs, steps[0].call, name))
     && NeverRegresses(LaneNext(a, steps[0]), steps[1..], name))
  }

  lemma {:induction false} StepKeepsOutputs(a: Aggregate, step: LaneStep, name: string)
    requires Bounded(a.body.outputs, a.revision)
    ensures Bounded(LaneNext(a, step).body.outputs, LaneNext(a, step).revision)
    ensures !StepDrops(a, step, name) && (step.SinkLane? ==> !Regresses(a.body.outputs, step.call, name)) ==>
              OutputsAdvance(a.body.outputs, LaneNext(a, step).body.outputs, name)
  {
    hide ApplyEntries, EntriesDrop, Sink, SinkDrops, Apply, Regresses, NotOlder;
    match step
    case CommitLane(u) =>
      EntriesKeepOutputs(Effect(a.body, [], []), u.entries, u.source.epoch, a.revision + 1, name);
      OutputsStand(a.body.outputs, name);
    case SinkLane(call) =>
      SinkKeepsOutputsExactly(a.body, a.revision, call, name);
    case BroadcastLane(_) =>
      OutputsStand(a.body.outputs, name);
  }

  lemma {:induction false} OutputsStand(outputs: map<string, OutputDoc>, name: string)
    ensures OutputsAdvance(outputs, outputs, name)
  {
  }

  /** Over every run: no output document claims a revision beyond the projection's; and while an
      instance's document is not dropped by an admitted removal and the sink offers it no older epoch
      (in particular on the commit lane alone, manager stops included), the document stays, its
      (source epoch, output revision) pair never falls lexicographically and its aggregate revision
      never falls. */
  lemma {:induction false} OutputsOverRuns(a: Aggregate, steps: seq<LaneStep>, name: string)
    requires Bounded(a.body.outputs, a.revision)
    ensures Bounded(LaneRun(a, steps).body.outputs, LaneRun(a, steps).revision)
    ensures !RunDrops(a, steps, name) && NeverRegresses(a, steps, name) ==>
              OutputsAdvance(a.body.outputs, LaneRun(a, steps).body.outputs, name)
    decreases steps
  {
    hide LaneNext, Bounded, StepDrops, Regresses;
    if steps == [] {
      OutputsStand(a.body.outputs, name);
    } else {
      StepKeepsOutputs(a, steps[0], name);
      OutputsOverRuns(LaneNext(a, steps[0]), steps[1..], name);
    }
  }

  // ---------------------------------------------------------------------------
  // The sink can go back to an older epoch
  // ---------------------------------------------------------------------------

  function OutputsUpdate(name: string, doc: OutputDoc, epoch: nat): Update {
    Update(Source("hqplayer", Some(name), epoch), 1, Snapshot, [Entry("outputs:" + name, HqpOutputs(name, doc))])
  }

  /** From the empty aggregator: the commit lane stores a document of source epoch 1, and the sink then
      replaces it by a document of epoch 0, merely because that one's own revision is no lower. No
      removal is involved. The commit lane would have refused it. */
  lemma {:induction false} SinkCanRegress(name: string, doc: OutputDoc, late: OutputDoc)
    requires late.sourceEpoch == 0 && doc.outputRevision <= late.outputRevision
    ensures var commit, call := CommitLane(OutputsUpdate(name, doc, 1)), OutputsObserved(name, late);
            var before := LaneRun(EMPTY_AGGREGATE, [commit]).body.outputs;
            var after := LaneRun(EMPTY_AGGREGATE, [commit, SinkLane(call)]).body.outputs;
            && before == map[name := Stamped(doc, 1, 1)]
            && after == map[name := late.(aggregateRevision := 1)]
            && !NotOlder(before[name], after[name])
            && !RunDrops(EMPTY_AGGREGATE, [commit, SinkLane(call)], name)
            && !AdmitsOutputs(before, name, Stamped(late, 0, 2))
  {
    var commit, call := CommitLane(OutputsUpdate(name, doc, 1)), OutputsObserved(name, late);
    var a := LaneNext(EMPTY_AGGREGATE, commit);
    assert [commit][1..] == [];
    assert [commit, SinkLane(call)][1..] == [SinkLane(call)] && [SinkLane(call)][1..] == [];
    OutputsCommit(name, doc);
    assert LaneRun(a, [SinkLane(call)]) == LaneNext(a, SinkLane(call));
    assert !RunDrops(LaneNext(a, SinkLane(call)), [], name);
    assert !RunDrops(a, [SinkLane(call)], name);
  }

  lemma {:induction false} OutputsCommit(name: string, doc: OutputDoc)
    ensures var a := LaneNext(EMPTY_AGGREGATE, CommitLane(OutputsUpdate(name, doc, 1)));
            a.body.outputs == map[name := Stamped(doc, 1, 1)] && a.revision == 1
    ensures !StepDrops(EMPTY_AGGREGATE, CommitLane(OutputsUpdate(name, doc, 1)), name)
  {
    var u, start := OutputsUpdate(name, doc, 1), Effect(EMPTY_AGGREGATE.body, [], []);
    assert u.entries[1..] == [];
    var once := ApplyEntry(start, u.entries[0], 1, 1);
    assert ApplyEntries(once, [], 1, 1) == once;
    assert once.body.outputs == map[name := Stamped(doc, 1, 1)];
    assert !EntriesDrop(once, [], 1, 1, name);
  }
}
