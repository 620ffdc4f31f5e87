/** The LMS publication gate (`LmsRuntimeBridge::publish`, src/adapters/lms.rs) as a protocol:
    any number of publishers share one permit and one sequence counter, and feed an ingress
    they share with every other adapter. */
module LmsPublication {
  import opened Zones
  import opened Projection

  type PublisherId = nat

  /** How far a publisher holding the permit has come. */
  datatype Phase =
    | Holding(entry: Entry)
    | Numbered(sequence: nat, entry: Entry)
    | Waiting(sequence: nat)

  datatype Submission = Submission(update: Update, reply: Option<PublisherId>)

  datatype Verdict = Verdict(update: Update, outcome: Outcome)

  datatype Lane = Lane(
    permits: nat,
    cursor: nat,
    publishers: map<PublisherId, Phase>,
    ingress: seq<Submission>,
    aggregate: Aggregate,
    verdicts: seq<Verdict>)

  datatype Step =
    | Acquire(publisher: PublisherId, entry: Entry)
    | Allocate(publisher: PublisherId)
    | Submit(publisher: PublisherId)
      /** The publishing future is dropped, wherever it stands; its permit is released. */
    | Cancel(publisher: PublisherId)
      /** Another adapter's update enters the shared ingress. */
    | Foreign(update: Update)
      /** The projection actor commits the oldest submission and replies. */
    | Actor

  const LMS := Source("lms", None, 0)

  function LmsUpdate(sequence: nat, entry: Entry): Update {
    Update(LMS, sequence, Kind.Snapshot, [entry])
  }

  predicate IsLms(u: Update) {
    u.source.Identity() == "lms"
  }

  predicate Enabled(l: Lane, step: Step) {
    match step
    case Acquire(p, _) => p !in l.publishers && l.permits > 0
    case Allocate(p) => p in l.publishers && l.publishers[p].Holding?
    case Submit(p) => p in l.publishers && l.publishers[p].Numbered?
    case Cancel(p) => p in l.publishers
    case Foreign(u) => !IsLms(u)
    case Actor => l.ingress != []
  }

  function Release(l: Lane, p: PublisherId): Lane {
    l.(publishers := l.publishers - {p}, permits := l.permits + 1)
  }

  function Next(l: Lane, step: Step): Lane
    requires Enabled(l, step)
  {
    match step
    case Acquire(p, entry) => l.(permits := l.permits - 1, publishers := l.publishers[p := Holding(entry)])
    case Allocate(p) =>
      l.(cursor := l.cursor + 1, publishers := l.publishers[p := Numbered(l.cursor + 1, l.publishers[p].entry)])
    case Submit(p) =>
      var numbered := l.publishers[p];
      l.(ingress := l.ingress + [Submission(LmsUpdate(numbered.sequence, numbered.entry), Some(p))],
         publishers := l.publishers[p := Waiting(numbered.sequence)])
    case Cancel(p) => Release(l, p)
    case Foreign(u) => l.(ingress := l.ingress + [Submission(u, None)])
    case Actor =>
      var s, c := l.ingress[0], Commit(l.aggregate, l.ingress[0].update);
      var done := l.(ingress := l.ingress[1..], aggregate := c.state,
                     verdicts := l.verdicts + [Verdict(s.update, c.outcome)]);
      if s.reply.Some? && s.reply.value in l.publishers && l.publishers[s.reply.value] == Waiting(s.update.sequence)
      then Release(done, s.reply.value)
      else done
  }

  // ---------------------------------------------------------------------------
  // The invariant
  // ---------------------------------------------------------------------------

  /** Everything delivered or still queued, oldest first. */
  function Trail(l: Lane): seq<Update> {
    seq(|l.verdicts|, i requires 0 <= i < |l.verdicts| => l.verdicts[i].update)
    + seq(|l.ingress|, i requires 0 <= i < |l.ingress| => l.ingress[i].update)
  }

  /** The LMS updates of a trail are snapshots of epoch 0 with strictly increasing sequences
      in (low, high]. */
  ghost predicate Rising(trail: seq<Update>, low: int, high: int) {
    && (forall i :: 0 <= i < |trail| && IsLms(trail[i]) ==>
          trail[i].source.epoch == 0 && trail[i].kind == Kind.Snapshot && low < trail[i].sequence <= high)
    && (forall i, j :: 0 <= i < j < |trail| && IsLms(trail[i]) && IsLms(trail[j]) ==>
          trail[i].sequence < trail[j].sequence)
  }

  predicate CursorWithin(a: Aggregate, high: int) {
    "lms" in a.cursors ==> a.cursors["lms"].epoch == 0 && a.cursors["lms"].sequence <= high
  }

  /** The highest LMS sequence delivered so far, or -1. */
  function Delivered(a: Aggregate): int {
    if "lms" in a.cursors then a.cursors["lms"].sequence else -1
  }

  ghost predicate Inv(l: Lane) {
    && |l.publishers| + l.permits == 1
    && CursorWithin(l.aggregate, l.cursor)
    && Rising(Trail(l), -1, l.cursor)
    && Rising(Queued(l), Delivered(l.aggregate), l.cursor)
    && (forall p :: p in l.publishers && l.publishers[p].Numbered? ==>
          && l.publishers[p].sequence == l.cursor
          && Delivered(l.aggregate) < l.cursor
          && Rising(Trail(l), -1, l.cursor - 1) && Rising(Queued(l), Delivered(l.aggregate), l.cursor - 1))
    && (forall i :: 0 <= i < |l.verdicts| && IsLms(l.verdicts[i].update) ==> l.verdicts[i].outcome.Committed?)
  }

  function Queued(l: Lane): seq<Update> {
    seq(|l.ingress|, i requires 0 <= i < |l.ingress| => l.ingress[i].update)
  }

  lemma {:induction false} RisingWider(trail: seq<Update>, low: int, high: int, higher: int)
    requires Rising(trail, low, high) && high <= higher
    ensures Rising(trail, low, higher)
  {
  }

  lemma {:induction false} RisingAppend(trail: seq<Update>, low: int, high: int, u: Update)
    requires Rising(trail, low, high)
    requires IsLms(u) ==> u.source.epoch == 0 && u.kind == Kind.Snapshot && low < u.sequence && high < u.sequence
    ensures Rising(trail + [u], low, if IsLms(u) then u.sequence else high)
  {
  }

  lemma {:induction false} RisingTail(trail: seq<Update>, low: int, high: int)
    requires trail != [] && Rising(trail, low, high)
    ensures Rising(trail[1..], if IsLms(trail[0]) then trail[0].sequence else low, high)
  {
  }

  /** At most one publisher holds the permit. */
  lemma {:induction false} OnlyHolder(l: Lane, p: PublisherId, q: PublisherId)
    requires |l.publishers| + l.permits == 1 && p in l.publishers && q in l.publishers
    ensures p == q
  {
    assert |l.publishers.Keys - {p}| == |l.publishers.Keys| - 1;
  }

  lemma {:induction false} AcquireKeeps(l: Lane, step: Step)
    requires Inv(l) && Enabled(l, step) && (step.Acquire? || step.Allocate? || step.Cancel?)
    ensures Inv(Next(l, step))
  {
    hide Rising;
    var next := Next(l, step);
    var p := step.publisher;
    assert Trail(next) == Trail(l) && Queued(next) == Queued(l);
    if step.Allocate? {
      assert next.publishers.Keys == l.publishers.Keys;
      RisingWider(Trail(l), -1, l.cursor, next.cursor);
      RisingWider(Queued(l), Delivered(l.aggregate), l.cursor, next.cursor);
      forall q | q in next.publishers ensures q == p {
        OnlyHolder(l, p, q);
      }
    } else if step.Acquire? {
      assert next.publishers.Keys == l.publishers.Keys + {p};
    } else {
      assert next.publishers.Keys == l.publishers.Keys - {p};
    }
  }

  lemma {:induction false} SubmitKeeps(l: Lane, step: Step)
    requires Inv(l) && Enabled(l, step) && (step.Submit? || step.Foreign?)
    ensures Inv(Next(l, step))
  {
    hide Rising;
    var next := Next(l, step);
    var u := next.ingress[|l.ingress|].update;
    assert Trail(next) == Trail(l) + [u] && Queued(next) == Queued(l) + [u];
    if step.Submit? {
      var p := step.publisher;
      assert IsLms(u) by {
        assert u.source == LMS;
      }
      assert next.publishers.Keys == l.publishers.Keys;
      forall q | q in next.publishers ensures q == p {
        OnlyHolder(l, p, q);
      }
      RisingAppend(Trail(l), -1, l.cursor - 1, u);
      RisingAppend(Queued(l), Delivered(l.aggregate), l.cursor - 1, u);
    } else {
      RisingAppend(Trail(l), -1, l.cursor, u);
      RisingAppend(Queued(l), Delivered(l.aggregate), l.cursor, u);
      forall p | p in l.publishers && l.publishers[p].Numbered?
        ensures Rising(Trail(next), -1, l.cursor - 1) && Rising(Queued(next), Delivered(l.aggregate), l.cursor - 1)
      {
        RisingAppend(Trail(l), -1, l.cursor - 1, u);
        RisingAppend(Queued(l), Delivered(l.aggregate), l.cursor - 1, u);
      }
    }
  }

  /** The actor's commit of the oldest submission: an LMS one is always committed. */
  lemma {:induction false} DeliveryCommits(a: Aggregate, trail: seq<Update>, high: int)
    requires trail != [] && CursorWithin(a, high) && Rising(trail, Delivered(a), high)
    ensures var c := Commit(a, trail[0]);
      && CursorWithin(c.state, high) && Rising(trail[1..], Delivered(c.state), high)
      && (IsLms(trail[0]) ==> c.outcome.Committed? && Delivered(c.state) == trail[0].sequence)
      && (!IsLms(trail[0]) ==> Delivered(c.state) == Delivered(a))
  {
    RisingTail(trail, Delivered(a), high);
    if IsLms(trail[0]) {
      assert trail[0].source.epoch == 0 && Delivered(a) < trail[0].sequence <= high;
    }
    LmsCommit(a, trail[0]);
    hide Rising, Commit;
  }

  lemma {:induction false} LmsCommit(a: Aggregate, u: Update)
    requires IsLms(u) ==> u.source.epoch == 0 && u.kind == Kind.Snapshot && Delivered(a) < u.sequence
    requires CursorWithin(a, u.sequence) || !IsLms(u)
    ensures var c := Commit(a, u);
      && (IsLms(u) ==> c.outcome.Committed? && "lms" in c.state.cursors
                       && c.state.cursors["lms"] == Cursor(0, u.sequence, Fresh))
      && (!IsLms(u) ==> ("lms" in c.state.cursors <==> "lms" in a.cursors)
                        && ("lms" in a.cursors ==> c.state.cursors["lms"] == a.cursors["lms"]))
  {
    hide ApplyEntries, Echoes, Retractions;
  }

  lemma {:induction false} ActorKeeps(l: Lane)
    requires Inv(l) && Enabled(l, Actor)
    ensures Inv(Next(l, Actor))
  {
    hide Rising, Commit, Delivered, CursorWithin;
    var next, u := Next(l, Actor), l.ingress[0].update;
    assert Queued(l)[0] == u && Queued(next) == Queued(l)[1..];
    assert Trail(next) == Trail(l);
    DeliveryCommits(l.aggregate, Queued(l), l.cursor);
    forall p | p in l.publishers && l.publishers[p].Numbered?
      ensures Delivered(next.aggregate) < l.cursor && Rising(Queued(next), Delivered(next.aggregate), l.cursor - 1)
    {
      NumberedStaysAhead(l.aggregate, Queued(l), l.cursor);
    }
    if next.publishers != l.publishers {
      assert next.publishers.Keys == l.publishers.Keys - {l.ingress[0].reply.value};
    }
  }

  lemma {:induction false} NumberedStaysAhead(a: Aggregate, trail: seq<Update>, high: int)
    requires trail != [] && CursorWithin(a, high) && Delivered(a) < high && Rising(trail, Delivered(a), high - 1)
    ensures Delivered(Commit(a, trail[0]).state) < high
    ensures Rising(trail[1..], Delivered(Commit(a, trail[0]).state), high - 1)
  {
    assert IsLms(trail[0]) ==> trail[0].sequence <= high - 1;
    hide Commit;
    DeliveryCommits(a, trail, high - 1);
  }

  lemma {:induction false} StepKeeps(l: Lane, step: Step)
    requires Inv(l) && Enabled(l, step)
    ensures Inv(Next(l, step))
  {
    hide Inv, Next;
    match step
    case Acquire(_, _) => AcquireKeeps(l, step);
    case Allocate(_) => AcquireKeeps(l, step);
    case Cancel(_) => AcquireKeeps(l, step);
    case Submit(_) => SubmitKeeps(l, step);
    case Foreign(_) => SubmitKeeps(l, step);
    case Actor => ActorKeeps(l);
  }

  // ---------------------------------------------------------------------------
  // Every schedule
  // ---------------------------------------------------------------------------

  predicate Schedule(l: Lane, steps: seq<Step>)
    decreases steps
  {
    steps == [] || (Enabled(l, steps[0]) && Schedule(Next(l, steps[0]), steps[1..]))
  }

  function Run(l: Lane, steps: seq<Step>): Lane
    requires Schedule(l, steps)
    decreases steps
  {
    if steps == [] then l else Run(Next(l, steps[0]), steps[1..])
  }

  lemma {:induction false} RunKeeps(l: Lane, steps: seq<Step>)
    requires Inv(l) && Schedule(l, steps)
    ensures Inv(Run(l, steps))
    decreases steps
  {
    hide Inv, Next, Enabled;
    if steps != [] {
      StepKeeps(l, steps[0]);
      RunKeeps(Next(l, steps[0]), steps[1..]);
    }
  }

  /** A freshly composed bridge over any aggregate that has not heard from LMS yet. */
  function Composed(a: Aggregate): Lane {
    Lane(1, 0, map[], [], a, [])
  }

  /** Under every schedule of any number of publishers, with cancellations and other adapters'
      traffic in the same ingress: LMS updates arrive with strictly increasing sequence numbers,
      and the aggregator commits every one of them. */
  lemma {:induction false} EveryPublicationCommits(a: Aggregate, steps: seq<Step>)
    requires "lms" !in a.cursors && Schedule(Composed(a), steps)
    ensures var vs := Run(Composed(a), steps).verdicts;
      && (forall i :: 0 <= i < |vs| && IsLms(vs[i].update) ==> vs[i].outcome.Committed?)
      && (forall i, j :: 0 <= i < j < |vs| && IsLms(vs[i].update) && IsLms(vs[j].update) ==>
            vs[i].update.sequence < vs[j].update.sequence)
  {
    assert Trail(Composed(a)) == [] && Queued(Composed(a)) == [];
    RunKeeps(Composed(a), steps);
    var end := Run(Composed(a), steps);
    hide Run, Schedule;
    assert forall i :: 0 <= i < |end.verdicts| ==> Trail(end)[i] == end.verdicts[i].update;
  }

  // ---------------------------------------------------------------------------
  // What is sent, and that the gate opens again
  // ---------------------------------------------------------------------------

  /** How many numbers the steps hand out. */
  function Allocations(steps: seq<Step>): nat {
    if steps == [] then 0
    else Allocations(steps[..|steps| - 1]) + if steps[|steps| - 1].Allocate? then 1 else 0
  }

  /** The entry with which this publisher last took the permit. */
  function Brought(steps: seq<Step>, p: PublisherId): Option<Entry> {
    if steps == [] then None
    else match steps[|steps| - 1]
         case Acquire(q, entry) => if q == p then Some(entry) else Brought(steps[..|steps| - 1], p)
         case _ => Brought(steps[..|steps| - 1], p)
  }

  /** What the steps send, in order: other adapters' updates as they are, and each publisher's own entry under
      the number of allocations so far. */
  function Sent(steps: seq<Step>): seq<Update> {
    if steps == [] then []
    else
      var before := steps[..|steps| - 1];
      Sent(before) + match steps[|steps| - 1]
                     case Submit(p) => if Brought(before, p).Some?
                                       then [LmsUpdate(Allocations(before), Brought(before, p).value)] else []
                     case Foreign(u) => [u]
                     case _ => []
  }

  lemma {:induction false} LastStep(l: Lane, steps: seq<Step>)
    requires Schedule(l, steps) && steps != []
    ensures var before, last := steps[..|steps| - 1], steps[|steps| - 1];
      Schedule(l, before) && Enabled(Run(l, before), last) && Run(l, steps) == Next(Run(l, before), last)
    decreases steps
  {
    hide Next, Enabled;
    if |steps| > 1 {
      LastStep(Next(l, steps[0]), steps[1..]);
      assert steps[..|steps| - 1][1..] == steps[1..][..|steps| - 2];
    }
  }

  /** What a publisher in the lane carries, and that one who waits has its submission queued. */
  ghost predicate Carries(l: Lane, steps: seq<Step>, p: PublisherId) {
    p in l.publishers ==>
      match l.publishers[p]
      case Holding(entry) => Brought(steps, p) == Some(entry)
      case Numbered(_, entry) => Brought(steps, p) == Some(entry)
      case Waiting(n) => exists i :: 0 <= i < |l.ingress| && l.ingress[i].reply == Some(p)
                                     && l.ingress[i].update.sequence == n
  }

  ghost predicate Accounted(l: Lane, steps: seq<Step>) {
    && Inv(l)
    && l.cursor == Allocations(steps)
    && Trail(l) == Sent(steps)
    && forall p :: Carries(l, steps, p)
  }

  lemma {:induction false} StepIsAccounted(l: Lane, steps: seq<Step>, step: Step)
    requires Accounted(l, steps) && Enabled(l, step)
    ensures Accounted(Next(l, step), steps + [step])
  {
    hide Inv, Commit, Carries;
    var next, more := Next(l, step), steps + [step];
    assert more[..|steps|] == steps;
    StepKeeps(l, step);
    forall p ensures Carries(next, more, p) {
      assert Carries(l, steps, p);
      StepCarries(l, steps, step, p);
    }
    if step.Submit? {
      assert Carries(l, steps, step.publisher);
      NumberedIsLatest(l, step.publisher);
    }
    TrailAfter(l, steps, step);
  }

  lemma {:induction false} NumberedIsLatest(l: Lane, p: PublisherId)
    requires Inv(l) && p in l.publishers && l.publishers[p].Numbered?
    ensures l.publishers[p].sequence == l.cursor
  {
  }

  lemma {:induction false} StepCarries(l: Lane, steps: seq<Step>, step: Step, p: PublisherId)
    requires Carries(l, steps, p) && Enabled(l, step)
    ensures Carries(Next(l, step), steps + [step], p)
  {
    hide Commit;
    var next := Next(l, step);
    assert (steps + [step])[..|steps|] == steps;
    if p in next.publishers && next.publishers[p].Waiting? {
      if step.Submit? && step.publisher == p {
        assert next.ingress[|l.ingress|].reply == Some(p);
      } else {
        var i :| 0 <= i < |l.ingress| && l.ingress[i].reply == Some(p)
                 && l.ingress[i].update.sequence == l.publishers[p].sequence;
        assert l.ingress[i] == next.ingress[if step.Actor? then i - 1 else i];
      }
    }
  }

  lemma {:induction false} TrailAfter(l: Lane, steps: seq<Step>, step: Step)
    requires Trail(l) == Sent(steps) && l.cursor == Allocations(steps) && Enabled(l, step)
    requires step.Submit? ==> l.publishers[step.publisher].sequence == l.cursor && Carries(l, steps, step.publisher)
    ensures Trail(Next(l, step)) == Sent(steps + [step])
  {
    hide Commit, Brought, Allocations, IsLms, Trail;
    var next, more := Next(l, step), steps + [step];
    assert more[..|steps|] == steps;
    match step
    case Submit(p) =>
      TrailGrows(l, next, LmsUpdate(l.publishers[p].sequence, l.publishers[p].entry));
    case Foreign(u) => TrailGrows(l, next, u);
    case _ => TrailStands(l, step);
  }

  lemma {:induction false} TrailStands(l: Lane, step: Step)
    requires Enabled(l, step) && !step.Submit? && !step.Foreign?
    ensures Trail(Next(l, step)) == Trail(l)
  {
    hide Commit;
    assert Trail(Next(l, step)) == Trail(l);
  }

  lemma {:induction false} TrailGrows(l: Lane, next: Lane, u: Update)
    requires next.verdicts == l.verdicts && |next.ingress| == |l.ingress| + 1
    requires next.ingress[..|l.ingress|] == l.ingress && next.ingress[|l.ingress|].update == u
    ensures Trail(next) == Trail(l) + [u]
  {
    assert forall i :: 0 <= i < |l.ingress| ==> next.ingress[i] == next.ingress[..|l.ingress|][i];
  }

  lemma {:induction false} RunIsAccounted(a: Aggregate, steps: seq<Step>)
    requires "lms" !in a.cursors && Schedule(Composed(a), steps)
    ensures Accounted(Run(Composed(a), steps), steps)
    decreases |steps|
  {
    hide Next, Enabled, Carries, Inv;
    if steps == [] {
      ComposedIsAccounted(a);
    } else {
      var before := steps[..|steps| - 1];
      LastStep(Composed(a), steps);
      RunIsAccounted(a, before);
      StepIsAccounted(Run(Composed(a), before), before, steps[|steps| - 1]);
      assert steps == before + [steps[|steps| - 1]];
    }
  }

  lemma {:induction false} ComposedIsAccounted(a: Aggregate)
    requires "lms" !in a.cursors
    ensures Accounted(Composed(a), [])
  {
    assert Trail(Composed(a)) == [] && Queued(Composed(a)) == [];
  }

  /** Under every schedule, what has been delivered and what is still queued are together exactly what was
      sent, in order: nothing is lost, repeated or renumbered, and every LMS update carries the entry its
      publisher came with. */
  lemma {:induction false} NothingIsLost(a: Aggregate, steps: seq<Step>)
    requires "lms" !in a.cursors && Schedule(Composed(a), steps)
    ensures var end := Run(Composed(a), steps);
      && |end.verdicts| + |end.ingress| == |Sent(steps)|
      && (forall i :: 0 <= i < |end.verdicts| ==> end.verdicts[i].update == Sent(steps)[i])
      && (forall i :: 0 <= i < |end.ingress| ==> end.ingress[i].update == Sent(steps)[|end.verdicts| + i])
  {
    hide Run, Schedule, Sent, Inv, Carries, Trail;
    RunIsAccounted(a, steps);
    TrailAt(Run(Composed(a), steps));
  }

  lemma {:induction false} TrailAt(l: Lane)
    ensures |Trail(l)| == |l.verdicts| + |l.ingress|
    ensures forall i :: 0 <= i < |l.verdicts| ==> l.verdicts[i].update == Trail(l)[i]
    ensures forall i :: 0 <= i < |l.ingress| ==> l.ingress[i].update == Trail(l)[|l.verdicts| + i]
  {
  }

  /** Under every schedule, the permit is out exactly while one publisher has it; and a publisher waiting for
      its reply has a submission queued, so that once the actor has emptied the ingress nobody waits. */
  lemma {:induction false} GateOpensAgain(a: Aggregate, steps: seq<Step>)
    requires "lms" !in a.cursors && Schedule(Composed(a), steps)
    ensures var end := Run(Composed(a), steps);
      && (end.permits == 1 <==> end.publishers == map[])
      && (end.permits == 0 <==> exists p :: end.publishers.Keys == {p})
      && (end.ingress == [] ==> forall p :: p in end.publishers ==> !end.publishers[p].Waiting?)
      && (end.ingress != [] ==> Enabled(end, Actor) && |Next(end, Actor).ingress| < |end.ingress|)
  {
    RunIsAccounted(a, steps);
    var end := Run(Composed(a), steps);
    hide Run, Schedule, Sent, Commit, Rising, CursorWithin;
    if end.ingress == [] {
      forall p | p in end.publishers ensures !end.publishers[p].Waiting? {
        assert Carries(end, steps, p);
      }
    }
    if end.permits == 0 {
      var p :| p in end.publishers;
      forall q | q in end.publishers ensures q == p {
        OnlyHolder(end, p, q);
      }
      assert end.publishers.Keys == {p};
    }
    if p :| end.publishers.Keys == {p} {
      assert |end.publishers.Keys| == 1;
    }
  }
}
