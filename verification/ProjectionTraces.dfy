/** Whole delivery traces through the commit lane: duplicates, reorderings and gaps included. */
module ProjectionTraces {
  import opened Zones
  import opened ZoneEvents
  import opened Projection

  // ---------------------------------------------------------------------------
  // Traces
  // ---------------------------------------------------------------------------

  function Run(a: Aggregate, us: seq<Update>): Aggregate
    decreases us
  {
    if us == [] then a else Run(Commit(a, us[0]).state, us[1..])
  }

  function Outcomes(a: Aggregate, us: seq<Update>): seq<Outcome>
    decreases us
  {
    if us == [] then [] else [Commit(a, us[0]).outcome] + Outcomes(Commit(a, us[0]).state, us[1..])
  }

  function Announced(a: Aggregate, us: seq<Update>): seq<BusEvent>
    decreases us
  {
    if us == [] then [] else Commit(a, us[0]).echo + Announced(Commit(a, us[0]).state, us[1..])
  }

  /** The updates of the trace that were committed, in order. */
  function CommittedOf(a: Aggregate, us: seq<Update>): seq<Update>
    decreases us
  {
    if us == [] then []
    else
      var c := Commit(a, us[0]);
      (if c.outcome.Committed? then [us[0]] else []) + CommittedOf(c.state, us[1..])
  }

  // ---------------------------------------------------------------------------
  // Freshness is bookkeeping only
  // ---------------------------------------------------------------------------

  function Normal(cursors: map<string, Cursor>): map<string, Cursor> {
    map id | id in cursors :: cursors[id].(freshness := Fresh)
  }

  /** The two states differ at most in cursor freshness. */
  ghost predicate Alike(a: Aggregate, b: Aggregate) {
    a == b.(cursors := a.cursors) && Normal(a.cursors) == Normal(b.cursors)
  }

  /** What a commit decides and does is independent of freshness. */
  lemma {:induction false} CommitIgnoresFreshness(a: Aggregate, b: Aggregate, u: Update)
    requires Alike(a, b)
    ensures Commit(a, u).outcome == Commit(b, u).outcome
    ensures Commit(a, u).echo == Commit(b, u).echo
    ensures Alike(Commit(a, u).state, Commit(b, u).state)
  {
    var id := u.source.Identity();
    assert Normal(a.cursors).Keys == a.cursors.Keys && Normal(b.cursors).Keys == b.cursors.Keys;
    assert id in a.cursors <==> id in b.cursors;
    if id in a.cursors {
      assert Normal(a.cursors)[id] == Normal(b.cursors)[id];
    }
    if Commit(a, u).outcome.Committed? {
      NormalUpdate(a.cursors, b.cursors, id, Cursor(u.source.epoch, u.sequence, Fresh));
    } else if Commit(a, u).outcome.GapDetected? {
      NormalUpdate(a.cursors, b.cursors, id, a.cursors[id].(freshness := Reconciling));
      NormalUpdate(b.cursors, b.cursors, id, b.cursors[id].(freshness := Reconciling));
    }
  }

  lemma {:induction false} NormalUpdate(a: map<string, Cursor>, b: map<string, Cursor>, id: string, c: Cursor)
    requires Normal(a) == Normal(b)
    ensures Normal(a[id := c]) == Normal(b[id := c])
  {
    assert Normal(a[id := c]) == Normal(a)[id := c.(freshness := Fresh)];
    assert Normal(b[id := c]) == Normal(b)[id := c.(freshness := Fresh)];
  }

  /** A refused update changes freshness at most, and announces nothing. */
  lemma {:induction false} RefusedChangesNothing(a: Aggregate, u: Update)
    requires !Commit(a, u).outcome.Committed?
    ensures Alike(Commit(a, u).state, a) && Commit(a, u).echo == []
  {
    var id := u.source.Identity();
    if Commit(a, u).outcome.GapDetected? {
      var c := a.cursors[id].(freshness := Reconciling);
      assert Normal(a.cursors[id := c]) == Normal(a.cursors);
    }
  }

  /** Only a commit moves the revision, and by exactly one. */
  lemma {:induction false} CommitRevision(a: Aggregate, u: Update)
    ensures Commit(a, u).outcome.Committed? ==>
              Commit(a, u).outcome.revision == a.revision + 1 == Commit(a, u).state.revision
    ensures !Commit(a, u).outcome.Committed? ==> Commit(a, u).state.revision == a.revision
  {
  }

  // ---------------------------------------------------------------------------
  // A trace is worth exactly its committed updates
  // ---------------------------------------------------------------------------

  /** Any delivery trace, however duplicated, reordered or gapped, leaves the state (freshness
      aside) and the announcements of its committed updates alone; replaying those commits every
      one of them, under consecutive revisions, and the revision counts them. */
  lemma {:induction false} TraceIsItsCommits(a: Aggregate, us: seq<Update>)
    ensures var cs := CommittedOf(a, us);
      && Alike(Run(a, us), Run(a, cs))
      && Announced(a, us) == Announced(a, cs)
      && CommittedOf(a, cs) == cs
      && Run(a, us).revision == a.revision + |cs|
      && |Outcomes(a, cs)| == |cs|
      && forall i :: 0 <= i < |cs| ==> Outcomes(a, cs)[i] == Committed(a.revision + i + 1)
  {
    ReplayAlike(a, a, us);
  }

  lemma {:induction false} ReplayAlike(a: Aggregate, b: Aggregate, us: seq<Update>)
    requires Alike(a, b)
    ensures var cs := CommittedOf(a, us);
      && Alike(Run(a, us), Run(b, cs))
      && Announced(a, us) == Announced(b, cs)
      && CommittedOf(b, cs) == cs
      && Run(a, us).revision == a.revision + |cs|
      && |Outcomes(b, cs)| == |cs|
      && forall i :: 0 <= i < |cs| ==> Outcomes(b, cs)[i] == Committed(a.revision + i + 1)
    decreases us
  {
    hide Commit;
    if us != [] {
      var u, c := us[0], Commit(a, us[0]);
      var cs, rest := CommittedOf(a, us), CommittedOf(c.state, us[1..]);
      CommitRevision(a, u);
      if c.outcome.Committed? {
        CommitIgnoresFreshness(a, b, u);
        assert cs[0] == u && cs[1..] == rest;
        ReplayAlike(c.state, Commit(b, u).state, us[1..]);
        assert Outcomes(b, cs) == [Committed(a.revision + 1)] + Outcomes(Commit(b, u).state, rest);
      } else {
        RefusedChangesNothing(a, u);
        assert cs == rest;
        ReplayAlike(c.state, b, us[1..]);
      }
    }
  }

  // ---------------------------------------------------------------------------
  // Sources
  // ---------------------------------------------------------------------------

  /** Two updates share a cursor exactly if they come from the same instance of the same adapter, whatever
      their epochs, as long as adapter names have no slash. */
  lemma {:induction false} IdentitiesTell(x: Source, y: Source)
    requires '/' !in x.adapter && '/' !in y.adapter
    ensures x.Identity() == y.Identity() <==> x.adapter == y.adapter && x.instance == y.instance
  {
    SplitsAtSlash(x);
    SplitsAtSlash(y);
  }

  lemma {:induction false} SplitsAtSlash(x: Source)
    requires '/' !in x.adapter
    ensures var s, n := x.Identity(), |x.adapter|;
      && |s| >= n && s[..n] == x.adapter && (forall i :: 0 <= i < n ==> s[i] != '/')
      && (x.instance.None? ==> |s| == n)
      && (x.instance.Some? ==> |s| > n && s[n] == '/' && s[n + 1..] == x.instance.value)
  {
  }

  // ---------------------------------------------------------------------------
  // Per-source order
  // ---------------------------------------------------------------------------

  datatype Mark = Mark(epoch: nat, sequence: nat)

  datatype Stamp = Stamp(mark: Mark, kind: Kind)

  predicate Before(x: Mark, y: Mark) {
    x.epoch < y.epoch || (x.epoch == y.epoch && x.sequence < y.sequence)
  }

  /** `y` continues `x`: a delta of the same epoch does so without a gap. */
  predicate Follows(x: Mark, y: Stamp) {
    Before(x, y.mark) && (y.kind == Delta && y.mark.epoch == x.epoch ==> y.mark.sequence == x.sequence + 1)
  }

  function StampOf(u: Update): Stamp {
    Stamp(Mark(u.source.epoch, u.sequence), u.kind)
  }

  /** The stamps one source committed over a trace. */
  function History(a: Aggregate, us: seq<Update>, id: string): seq<Stamp>
    decreases us
  {
    if us == [] then []
    else
      var c := Commit(a, us[0]);
      (if us[0].source.Identity() == id && c.outcome.Committed? then [StampOf(us[0])] else [])
      + History(c.state, us[1..], id)
  }

  /** What a source's latest non-stale outcome says about it: a gap, or a commit. */
  function Verdict(a: Aggregate, us: seq<Update>, id: string, before: Option<Freshness>): Option<Freshness>
    decreases us
  {
    if us == [] then before
    else
      var c := Commit(a, us[0]);
      var now :=
        if us[0].source.Identity() != id then before
        else match c.outcome
          case Committed(_) => Some(Fresh)
          case StaleIgnored(_, _) => before
          case GapDetected(_, _) => Some(Reconciling);
      Verdict(c.state, us[1..], id, now)
  }

  function CursorMark(a: Aggregate, id: string): Option<Mark> {
    if id in a.cursors then Some(Mark(a.cursors[id].epoch, a.cursors[id].sequence)) else None
  }

  function CursorFreshness(a: Aggregate, id: string): Option<Freshness> {
    if id in a.cursors then Some(a.cursors[id].freshness) else None
  }

  /** Every stamp continues the one before it, starting from `prev`. */
  predicate ChainFrom(prev: Option<Mark>, h: seq<Stamp>)
    decreases h
  {
    h == [] || ((prev.Some? ==> Follows(prev.value, h[0])) && ChainFrom(Some(h[0].mark), h[1..]))
  }

  function LastMark(prev: Option<Mark>, h: seq<Stamp>): Option<Mark> {
    if h == [] then prev else Some(h[|h| - 1].mark)
  }

  /** One commit step on one source's cursor. */
  lemma {:induction false} CommitMovesCursor(a: Aggregate, u: Update, id: string)
    ensures var b := Commit(a, u).state; var mine := u.source.Identity() == id;
      match Commit(a, u).outcome
      case Committed(_) =>
        if mine then
          && CursorMark(b, id) == Some(StampOf(u).mark) && CursorFreshness(b, id) == Some(Fresh)
          && (id in a.cursors ==> Follows(CursorMark(a, id).value, StampOf(u)))
        else CursorMark(b, id) == CursorMark(a, id) && CursorFreshness(b, id) == CursorFreshness(a, id)
      case StaleIgnored(_, _) =>
        CursorMark(b, id) == CursorMark(a, id) && CursorFreshness(b, id) == CursorFreshness(a, id)
      case GapDetected(_, _) =>
        && CursorMark(b, id) == CursorMark(a, id)
        && CursorFreshness(b, id) == if mine then Some(Reconciling) else CursorFreshness(a, id)
  {
  }

  lemma {:induction false} HistoryChains(a: Aggregate, us: seq<Update>, id: string)
    ensures ChainFrom(CursorMark(a, id), History(a, us, id))
    ensures CursorMark(Run(a, us), id) == LastMark(CursorMark(a, id), History(a, us, id))
    ensures CursorFreshness(Run(a, us), id) == Verdict(a, us, id, CursorFreshness(a, id))
    decreases us
  {
    hide Commit, Follows;
    if us != [] {
      var u, c := us[0], Commit(a, us[0]);
      var rest := History(c.state, us[1..], id);
      CommitMovesCursor(a, u, id);
      HistoryChains(c.state, us[1..], id);
      if u.source.Identity() == id && c.outcome.Committed? {
        var h := [StampOf(u)] + rest;
        assert h[0] == StampOf(u) && h[1..] == rest;
      } else {
        assert History(a, us, id) == rest;
      }
    }
  }

  lemma {:induction false} ChainOrders(prev: Option<Mark>, h: seq<Stamp>, i: nat, j: nat)
    requires ChainFrom(prev, h) && i < j < |h|
    ensures Before(h[i].mark, h[j].mark)
    ensures j == i + 1 ==> Follows(h[i].mark, h[j])
    decreases h
  {
    if i > 0 {
      ChainOrders(Some(h[0].mark), h[1..], i - 1, j - 1);
    } else if j > 1 {
      ChainOrders(Some(h[0].mark), h[1..], 0, j - 1);
    }
  }

  // ---------------------------------------------------------------------------
  // What is committed
  // ---------------------------------------------------------------------------

  /** The whole decision, in both directions: an update is stale exactly when it does not come after its
      source's last commit, and then names that commit; it is a gap exactly when it comes after it but
      does not continue it, and then names the sequence that would have; every other update commits,
      under the next revision. A source's first update always commits. */
  lemma {:induction false} OutcomeExactly(a: Aggregate, u: Update)
    ensures Commit(a, u).outcome
            == match CursorMark(a, u.source.Identity())
               case None => Committed(a.revision + 1)
               case Some(last) =>
                 if !Before(last, StampOf(u).mark) then StaleIgnored(last.epoch, last.sequence)
                 else if !Follows(last, StampOf(u)) then GapDetected(last.sequence + 1, u.sequence)
                 else Committed(a.revision + 1)
  {
  }

  lemma {:induction false} CommitsExactly(a: Aggregate, u: Update)
    ensures var last := CursorMark(a, u.source.Identity());
            Commit(a, u).outcome.Committed? <==> (last.Some? ==> Follows(last.value, StampOf(u)))
  {
    OutcomeExactly(a, u);
  }

  /** The stamps a source offers over a trace. */
  function OfferedBy(us: seq<Update>, id: string): seq<Stamp>
    decreases us
  {
    if us == [] then []
    else (if us[0].source.Identity() == id then [StampOf(us[0])] else []) + OfferedBy(us[1..], id)
  }

  /** Of a list of stamps, those that follow the last one taken, from the first on. */
  function Chained(prev: Option<Mark>, offered: seq<Stamp>): seq<Stamp>
    decreases offered
  {
    if offered == [] then []
    else if prev.Some? && !Follows(prev.value, offered[0]) then Chained(prev, offered[1..])
    else [offered[0]] + Chained(Some(offered[0].mark), offered[1..])
  }

  /** Over any trace, each source commits exactly those of its updates whose stamp follows its last
      committed stamp, whatever other sources do in between. */
  lemma {:induction false} HistoryIsChained(a: Aggregate, us: seq<Update>, id: string)
    ensures History(a, us, id) == Chained(CursorMark(a, id), OfferedBy(us, id))
    decreases us
  {
    hide Commit, Follows, Before;
    if us != [] {
      var u, c := us[0], Commit(a, us[0]);
      CommitMovesCursor(a, u, id);
      CommitsExactly(a, u);
      HistoryIsChained(c.state, us[1..], id);
      if u.source.Identity() == id {
        var offered := OfferedBy(us, id);
        assert offered[0] == StampOf(u) && offered[1..] == OfferedBy(us[1..], id);
      } else {
        assert OfferedBy(us, id) == OfferedBy(us[1..], id);
      }
    }
  }

  /** The same for one update of a trace: it commits exactly if its stamp follows the last its source
      committed before it. */
  lemma {:induction false} TraceCommitsExactly(a: Aggregate, us: seq<Update>, i: nat)
    requires i < |us|
    ensures |Outcomes(a, us)| == |us|
    ensures var id := us[i].source.Identity();
            var last := LastMark(CursorMark(a, id), History(a, us[..i], id));
            Outcomes(a, us)[i].Committed? <==> (last.Some? ==> Follows(last.value, StampOf(us[i])))
  {
    hide Commit, Follows;
    OutcomeAt(a, us, i);
    HistoryChains(a, us[..i], us[i].source.Identity());
    CommitsExactly(Run(a, us[..i]), us[i]);
  }

  lemma {:induction false} OutcomeAt(a: Aggregate, us: seq<Update>, i: nat)
    requires i < |us|
    ensures |Outcomes(a, us)| == |us| && Outcomes(a, us)[i] == Commit(Run(a, us[..i]), us[i]).outcome
    decreases us
  {
    hide Commit;
    var next := Commit(a, us[0]).state;
    OutcomesLength(next, us[1..]);
    if i > 0 {
      assert us[..i][1..] == us[1..][..i - 1];
      OutcomeAt(next, us[1..], i - 1);
    }
  }

  lemma {:induction false} OutcomesLength(a: Aggregate, us: seq<Update>)
    ensures |Outcomes(a, us)| == |us|
    decreases us
  {
    hide Commit;
    if us != [] {
      OutcomesLength(Commit(a, us[0]).state, us[1..]);
    }
  }

  // ---------------------------------------------------------------------------
  // What is recorded
  // ---------------------------------------------------------------------------

  /** The last entry of an update under this key. */
  function LastUnder(entries: seq<Entry>, key: string): Option<Payload>
    decreases entries
  {
    if entries == [] then None
    else
      var last := entries[|entries| - 1];
      if last.key == key then Some(last.payload) else LastUnder(entries[..|entries| - 1], key)
  }

  lemma {:induction false} EntriesAreRecorded(e: Effect, entries: seq<Entry>, epoch: nat, revision: nat, key: string)
    ensures var recorded := ApplyEntries(e, entries, epoch, revision).body.entries;
            match LastUnder(entries, key)
            case Some(payload) => key in recorded && recorded[key] == (revision, payload)
            case None => (key in recorded <==> key in e.body.entries)
                         && (key in recorded ==> recorded[key] == e.body.entries[key])
    decreases |entries|
  {
    hide ApplyPayload;
    if entries != [] {
      var init, last := entries[..|entries| - 1], entries[|entries| - 1];
      EntriesAreRecorded(e, init, epoch, revision, key);
      ApplyLast(e, entries, epoch, revision);
      PayloadRecordsNothing(ApplyEntries(e, init, epoch, revision), last.payload, epoch, revision);
    }
  }

  lemma {:induction false} PayloadRecordsNothing(e: Effect, payload: Payload, epoch: nat, revision: nat)
    ensures ApplyPayload(e, payload, epoch, revision).body.entries == e.body.entries
  {
  }

  lemma {:induction false} ApplyLast(e: Effect, entries: seq<Entry>, epoch: nat, revision: nat)
    requires entries != []
    ensures ApplyEntries(e, entries, epoch, revision)
            == ApplyEntry(ApplyEntries(e, entries[..|entries| - 1], epoch, revision), entries[|entries| - 1],
                          epoch, revision)
    decreases |entries|
  {
    hide ApplyEntry;
    var n := |entries|;
    if n == 1 {
      assert entries[1..] == [] && entries[..0] == [];
    } else {
      var next := ApplyEntry(e, entries[0], epoch, revision);
      ApplyLast(next, entries[1..], epoch, revision);
      assert entries[1..][..n - 2] == entries[..n - 1][1..];
    }
  }

  /** A committed update records, under each of its keys, its last payload with the revision of the
      commit, and leaves every other key alone. */
  lemma {:induction false} CommitRecords(a: Aggregate, u: Update, key: string)
    requires Commit(a, u).outcome.Committed?
    ensures var recorded := Commit(a, u).state.body.entries;
            match LastUnder(u.entries, key)
            case Some(payload) => key in recorded && recorded[key] == (a.revision + 1, payload)
            case None => (key in recorded <==> key in a.body.entries)
                         && (key in recorded ==> recorded[key] == a.body.entries[key])
  {
    hide ApplyEntries, Echoes, Retractions;
    EntriesAreRecorded(Effect(a.body, [], []), u.entries, u.source.epoch, a.revision + 1, key);
  }

  // ---------------------------------------------------------------------------
  // From the start
  // ---------------------------------------------------------------------------

  /** From an empty aggregator, over any trace: one source's committed stamps strictly increase,
      a committed delta directly continues its epoch, the cursor is the last stamp, and the
      source is reconciling exactly when its latest non-stale outcome was a gap. */
  lemma {:induction false} SourceOrder(us: seq<Update>, id: string)
    ensures var h := History(EMPTY_AGGREGATE, us, id); var end := Run(EMPTY_AGGREGATE, us);
      && (forall i, j | 0 <= i < j < |h| :: Before(h[i].mark, h[j].mark))
      && (forall i | 0 < i < |h| :: h[i].kind == Delta && h[i].mark.epoch == h[i - 1].mark.epoch
                                   ==> h[i].mark.sequence == h[i - 1].mark.sequence + 1)
      && CursorMark(end, id) == (if h == [] then None else Some(h[|h| - 1].mark))
      && (CursorFreshness(end, id) == Some(Reconciling)
          <==> Verdict(EMPTY_AGGREGATE, us, id, None) == Some(Reconciling))
  {
    hide Commit, Run, Verdict, History;
    var h := History(EMPTY_AGGREGATE, us, id);
    HistoryChains(EMPTY_AGGREGATE, us, id);
    forall i, j | 0 <= i < j < |h| ensures Before(h[i].mark, h[j].mark) {
      ChainOrders(None, h, i, j);
    }
    forall i | 0 < i < |h|
      ensures h[i].kind == Delta && h[i].mark.epoch == h[i - 1].mark.epoch
              ==> h[i].mark.sequence == h[i - 1].mark.sequence + 1
    {
      ChainOrders(None, h, i - 1, i);
    }
  }
}
