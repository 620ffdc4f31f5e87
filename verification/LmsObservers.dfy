/** The LMS adapter itself (src/adapters/lms.rs) in a reliable composition: the poller, the CLI observer
    and the command readback update one player cache and publish through one bridge, while the
    aggregator's event loop takes its turns whenever it likes. */
module LmsObservers {
  import opened Zones
  import opened ZoneEvents
  import opened Projection
  import opened LmsPlayers
  import V = LmsValues
  import C = EchoConvergence
  import E = EchoRuns
  import A = Aggregator
  import P = LmsPublication

  class LmsAdapter {
    const aggregator: A.ZoneAggregator
    ghost const owner: C.Owner
    /** The bridge's publication counter. */
    var sequence: nat
    /** The cache shared by all three observers. */
    var players: Cache

    /** The aggregator is running and will not be shut down by anything pending. */
    ghost predicate Open()
      reads this, aggregator, aggregator.bus
    {
      aggregator.Valid() && !aggregator.stopped && ShuttingDown !in aggregator.Pending()
    }

    ghost function Value(): Lms
      requires aggregator.Valid()
      reads this, aggregator, aggregator.bus
    {
      Lms(E.System(aggregator.Contents(), aggregator.Pending()), sequence, players)
    }

    ghost predicate Valid()
      reads this, aggregator, aggregator.bus
    {
      Open() && Sound(owner, Value())
    }

    constructor (aggregator: A.ZoneAggregator, ghost owner: C.Owner)
      requires aggregator.Valid() && !aggregator.stopped && ShuttingDown !in aggregator.Pending()
      requires NamesOutputs(owner) && C.OwnedMap(owner, aggregator.zones)
      requires forall e :: e in aggregator.Pending() ==> C.OwnedEvent(owner, e)
      requires "lms" !in aggregator.sourceCursors
      ensures Valid() && this.aggregator == aggregator && this.owner == owner
      ensures Value() == Lms(E.System(aggregator.Contents(), aggregator.Pending()), 0, map[])
    {
      this.aggregator := aggregator;
      this.owner := owner;
      sequence, players := 0, map[];
      new;
      OwnedIsLagging(owner, Value().system);
    }

    // -------------------------------------------------------------------------
    // The bridge
    // -------------------------------------------------------------------------

    method Publish(entry: Entry)
      requires Open()
      modifies this`sequence, aggregator, aggregator.bus
      ensures Open() && Value() == Submitted(old(Value()), entry)
    {
      hide Commit;
      sequence := sequence + 1;
      NoShutdown(aggregator.Contents(), P.LmsUpdate(sequence, entry));
      CommitAppends(Value().system, aggregator.bus.log, aggregator.position, P.LmsUpdate(sequence, entry));
      var outcome := aggregator.CommitReliableProjection(P.LmsUpdate(sequence, entry));
    }

    /** `publish_zone`: the player's zone is committed, now and once everything pending is handled. */
    method PublishZone(player: LmsPlayer)
      requires Open()
      modifies this`sequence, aggregator, aggregator.bus
      ensures Open() && Value() == Submitted(old(Value()), EntryOf(Show(player)))
      ensures old(Valid()) ==>
                && Valid()
                && aggregator.zones == old(aggregator.zones)[ZoneIdOf(player.playerId) := PlayerZone(player)]
                && Value().Drained() == old(Value()).Drained()[ZoneIdOf(player.playerId) := Rounded(PlayerZone(player))]
    {
      hide Submitted, Sound, PlayerZone, Rounded;
      ghost var before := Value();
      if Valid() {
        ShowAt(owner, before, player);
      }
      ZoneOfPlayer(player);
      Publish(EntryOf(Show(player)));
    }

    /** `publish_removed`: the zone is gone now; it is gone once everything pending is handled exactly if
        it was present, or was not about to come back anyway. */
    method PublishRemoved(p: PlayerId)
      requires Open()
      modifies this`sequence, aggregator, aggregator.bus
      ensures Open() && Value() == Submitted(old(Value()), EntryOf(Retire(p)))
      ensures old(Valid()) ==>
                && Valid()
                && aggregator.zones == old(aggregator.zones) - {ZoneIdOf(p)}
                && Value().Drained() == if ZoneIdOf(p) in old(aggregator.zones)
                                        then old(Value()).Drained() - {ZoneIdOf(p)} else old(Value()).Drained()
    {
      hide Submitted, Sound, Prefixed;
      ghost var before := Value();
      if Valid() {
        RetireAt(owner, before, p);
      }
      Publish(EntryOf(Retire(p)));
    }

    // -------------------------------------------------------------------------
    // The poller
    // -------------------------------------------------------------------------

    /** One poll: merge the statuses that could be read, keep the connected inventory, publish every
        remaining player and retire every player that was cached before and is not now. `shown` and `gone`
        are the orders in which the maps happen to yield them. */
    method UpdatePlayers(inventory: seq<LmsPlayer>, statuses: map<PlayerId, PlayerStatus>,
                         shown: seq<PlayerId>, gone: seq<PlayerId>)
      requires Valid() && Legal(players, Poll(inventory, statuses, shown, gone))
      modifies this, aggregator, aggregator.bus
      ensures Valid() && Value() == LmsNext(old(Value()), Poll(inventory, statuses, shown, gone))
      ensures players == Polled(old(players), inventory, statuses)
      ensures forall p :: p in players
                <==> ReportedConnected(inventory, p) && (p in old(players) || p in statuses)
      ensures MembersAre(old(Value()).Drained(), old(players).Keys) ==>
                (MembersAre(Value().Drained(), players.Keys)
                 <==> forall p :: p in gone ==> ZoneIdOf(p) in old(aggregator.zones))
      ensures Shows(aggregator.zones, players, players.Keys) && Shows(Value().Drained(), players, players.Keys)
      ensures OthersKept(old(aggregator.zones), aggregator.zones)
      ensures OthersKept(old(Value()).Drained(), Value().Drained())
    {
      hide Sound, LmsNext, MembersAre, Shows, OthersKept, Prefixed, Merged, Refreshed;
      ghost var before, step := Value(), Poll(inventory, statuses, shown, gone);
      ghost var was := players;
      PollLaw(owner, before, step);
      ReadStatuses(inventory, statuses);
      players := map p | p in players && ReportedConnected(inventory, p) :: players[p];
      forall p ensures p in players <==> ReportedConnected(inventory, p) && (p in was || p in statuses) {
        V.PollMembersExactly(was, step, p);
      }
      PollPublishesInOrder(before, step);
      PublishAll(shown);
      RetireAll(gone);
    }

    method ReadStatuses(inventory: seq<LmsPlayer>, statuses: map<PlayerId, PlayerStatus>)
      modifies this`players
      ensures players == Merged(old(players), inventory, statuses, |inventory|)
    {
      for i := 0 to |inventory|
        invariant players == Merged(old(players), inventory, statuses, i)
      {
        var row := inventory[i];
        if row.playerId in statuses {
          players := players[row.playerId := Refreshed(row, statuses[row.playerId])];
        }
      }
    }

    method PublishAll(order: seq<PlayerId>)
      requires Open() && forall p :: p in order ==> p in players
      modifies this`sequence, aggregator, aggregator.bus
      ensures Open() && Value() == PublishedAll(old(Value()), Showings(players, order))
    {
      hide Submitted, EntryOf, Sound, PlayerZone, Rounded;
      ghost var pubs := Showings(players, order);
      for i := 0 to |order|
        invariant Open() && PublishedAll(Value(), pubs[i..]) == PublishedAll(old(Value()), pubs)
      {
        assert order[i] in order;
        assert pubs[i..][0] == pubs[i] && pubs[i..][1..] == pubs[i + 1..];
        PublishZone(players[order[i]]);
      }
    }

    method RetireAll(order: seq<PlayerId>)
      requires Open()
      modifies this`sequence, aggregator, aggregator.bus
      ensures Open() && Value() == PublishedAll(old(Value()), Retirements(order))
    {
      hide Submitted, EntryOf, Sound, Prefixed;
      ghost var pubs := Retirements(order);
      for i := 0 to |order|
        invariant Open() && PublishedAll(Value(), pubs[i..]) == PublishedAll(old(Value()), pubs)
      {
        assert pubs[i..][0] == pubs[i] && pubs[i..][1..] == pubs[i + 1..];
        PublishRemoved(order[i]);
      }
    }

    // -------------------------------------------------------------------------
    // The CLI observer
    // -------------------------------------------------------------------------

    /** One CLI notification: update the cache, then publish the affected player. */
    method HandleCliEvent(e: CliEvent)
      requires Valid()
      modifies this, aggregator, aggregator.bus
      ensures Valid() && Value() == LmsNext(old(Value()), Cli(e))
      ensures players == Notified(old(players), e)
      ensures MembersAre(old(Value()).Drained(), old(players).Keys) ==>
                (MembersAre(Value().Drained(), players.Keys)
                 <==> (e.ClientDisconnect? && e.player in old(players) ==> ZoneIdOf(e.player) in old(aggregator.zones)))
      ensures OthersKept(old(aggregator.zones), aggregator.zones)
      ensures OthersKept(old(Value()).Drained(), Value().Drained())
    {
      hide Sound, LmsNext, MembersAre, OthersKept, Prefixed, Submitted, EntryOf, Round, Clamped, NameFor;
      ghost var before := Value();
      CliLaw(owner, before, e);
      CliPublishes(before, e);
      match e
      case PlaylistChanged(p, status) =>
        if status.Some? {
          if p in players {
            SetStatus(p, status.value.(power := players[p].status.power, muted := players[p].status.muted));
          }
          PublishCached(p);
        }
      case VolumeSet(p, value, isRelative) =>
        var volume := value;
        if isRelative {
          volume := (if p in players then players[p].status.volume as real else 50.0) + value;
        }
        if p in players {
          SetStatus(p, players[p].status.(volume := Round(Clamped(volume)), muted := false));
        }
        PublishCached(p);
      case MuteSet(p, muted) =>
        if p in players {
          SetStatus(p, players[p].status.(muted := muted));
        }
        PublishCached(p);
      case PowerSet(p, power) =>
        if p in players {
          SetStatus(p, players[p].status.(power := power));
        }
        PublishCached(p);
      case ClientNew(p, status, inventory) =>
        if status.Some? {
          players := players[p := Announced(p, NameFor(players, p, inventory), status.value)];
          PublishCached(p);
        }
      case ClientDisconnect(p) =>
        players := players - {p};
        PublishRemoved(p);
      case Ignored =>
    }

    /** Replace the cached status of a player. */
    method SetStatus(p: PlayerId, status: PlayerStatus)
      requires p in players
      modifies this`players
      ensures players == WithStatus(old(players), p, status)
    {
      players := players[p := players[p].(status := status)];
    }

    /** Publish a player's zone if the player is cached. */
    method PublishCached(p: PlayerId)
      requires Open()
      modifies this`sequence, aggregator, aggregator.bus
      ensures Open()
      ensures Value() == if p in players then Submitted(old(Value()), EntryOf(Show(players[p]))) else old(Value())
    {
      if p in players {
        PublishZone(players[p]);
      }
    }

    // -------------------------------------------------------------------------
    // Commands
    // -------------------------------------------------------------------------

    /** The readback after a native command: one player's inventory row and status, if both can be
        read, replace the cached observation and are published. */
    method CommandReadback(p: PlayerId, inventory: seq<LmsPlayer>, status: Option<PlayerStatus>) returns (ok: bool)
      requires Valid()
      modifies this, aggregator, aggregator.bus
      ensures Valid() && Value() == LmsNext(old(Value()), Readback(p, inventory, status))
      ensures ok <==> FirstRow(inventory, p).Some? && status.Some?
      ensures players == if ok then old(players)[p := Refreshed(FirstRow(inventory, p).value, status.value)]
                         else old(players)
      ensures !ok ==> aggregator.zones == old(aggregator.zones)
      ensures MembersAre(old(Value()).Drained(), old(players).Keys) ==> MembersAre(Value().Drained(), players.Keys)
      ensures OthersKept(old(aggregator.zones), aggregator.zones)
      ensures OthersKept(old(Value()).Drained(), Value().Drained())
    {
      hide Sound, LmsNext, MembersAre, OthersKept, Prefixed, Submitted, EntryOf, Refreshed;
      ghost var before := Value();
      ReadbackLaw(owner, before, Readback(p, inventory, status));
      ReadbackPublishes(before, p, inventory, status);
      var i := 0;
      while i < |inventory| && inventory[i].playerId != p
        invariant 0 <= i <= |inventory| && FirstRow(inventory, p) == FirstRow(inventory[i..], p)
      {
        i := i + 1;
      }
      FirstRowIsFound(inventory[i..], p);
      if i == |inventory| || status.None? {
        return false;
      }
      players := players[p := Refreshed(inventory[i], status.value)];
      PublishCached(p);
      ok := true;
    }

    /** The compatibility refresh after a direct command changes the cache without publishing. */
    method RefreshCache(p: PlayerId, status: PlayerStatus)
      requires Valid()
      modifies this`players
      ensures Valid() && Value() == LmsNext(old(Value()), Refresh(p, status))
      ensures players.Keys == old(players.Keys)
    {
      hide Sound;
      ghost var before := Value();
      StepAt(owner, before, Refresh(p, status), "");
      if p in players {
        var s := players[p].status;
        var next := s.(state := status.state, volume := status.volume, time := status.time);
        players := players[p := players[p].(status := next)];
        assert players.Keys == old(players.Keys);
      }
    }

    // -------------------------------------------------------------------------
    // Runs
    // -------------------------------------------------------------------------

    /** Another producer's commit or publication, or one turn of the aggregator's event loop if anything is
        pending. */
    method HappenOutside(step: E.Step)
      requires Valid() && Polite(owner, Outside(step))
      modifies aggregator, aggregator.bus
      ensures Valid() && Value() == LmsNext(old(Value()), Outside(step))
    {
      hide Sound, Polite, Commit;
      ghost var before := Value();
      StepAt(owner, before, Outside(step), "");
      OutsideTellsNothing(players, Outside(step), "");
      match step
      case CommitStep(u) =>
        NoShutdown(aggregator.Contents(), u);
        CommitAppends(before.system, aggregator.bus.log, aggregator.position, u);
        var outcome := aggregator.CommitReliableProjection(u);
      case Publish(e) =>
        PoliteIsNoShutdown(owner, e);
        aggregator.bus.Publish(e);
        assert aggregator.Pending() == before.system.queue + [e];
      case Receive =>
        TakeTurn();
    }

    method TakeTurn()
      requires Valid()
      modifies aggregator, aggregator.bus
      ensures Open() && Value() == old(Value()).(system := E.ReceiveOne(old(Value()).system))
    {
      hide Sound;
      ghost var before := Value();
      if aggregator.position < |aggregator.bus.log| {
        assert aggregator.Pending() != [] && aggregator.Pending()[0] in aggregator.Pending();
        A.ReceiveShrinks(before.system);
        SoundIsOwned(owner, before);
        aggregator.Receive();
      }
    }

    /** Any run of steps, the event loop taking turns and other producers working wherever the run says
        so: the drained `lms:` zones are the players and those whose retirement found no zone and was
        not made good since. */
    method Drive(steps: seq<Step>)
      requires Valid() && LegalRun(Value(), steps) && AllPolite(owner, steps)
      modifies this, aggregator, aggregator.bus
      ensures Valid() && Value() == LmsRun(old(Value()), steps)
      ensures MembersAre(old(Value()).Drained(), old(players).Keys) ==>
                && MembersAre(Value().Drained(), players.Keys + Lingering(old(Value()), steps, {}))
                && (MembersAre(Value().Drained(), players.Keys) <==> Lingering(old(Value()), steps, {}) == {})
    {
      hide Sound, LmsNext, MembersAre, OthersKept, Prefixed, Legal, Polite, Lingering, Polled, Notified, Refreshed;
      ghost var start := Value();
      DriveLaw(owner, start, steps);
      assert steps[0..] == steps;
      for i := 0 to |steps|
        invariant Valid()
        invariant LegalRun(Value(), steps[i..]) && LmsRun(Value(), steps[i..]) == LmsRun(start, steps)
      {
        assert steps[i..][0] == steps[i] && steps[i..][1..] == steps[i + 1..];
        assert Polite(owner, steps[i]);
        TakeStep(steps[i]);
      }
    }

    method TakeStep(step: Step)
      requires Valid() && Legal(players, step) && Polite(owner, step)
      modifies this, aggregator, aggregator.bus
      ensures Valid() && Value() == LmsNext(old(Value()), step)
    {
      hide Sound, LmsNext, MembersAre, OthersKept, Prefixed, Legal, Polite, Polled, Notified, Refreshed, Shows;
      match step
      case Poll(inventory, statuses, shown, gone) => UpdatePlayers(inventory, statuses, shown, gone);
      case Cli(e) => HandleCliEvent(e);
      case Readback(p, inventory, status) => var ok := CommandReadback(p, inventory, status);
      case Refresh(p, status) => RefreshCache(p, status);
      case Outside(outside) => HappenOutside(outside);
    }

    /** Let the aggregator's event loop handle everything pending. */
    method CatchUp()
      requires Valid()
      modifies aggregator, aggregator.bus
      ensures Valid() && players == old(players) && aggregator.Pending() == []
      ensures aggregator.zones == Value().Drained() == old(Value()).Drained()
    {
      hide C.OwnedMap, NamesOutputs, C.OwnedEvent;
      aggregator.RunInner(owner);
      A.DrainedIsEventual(Value().system);
    }
  }

  // ---------------------------------------------------------------------------
  // What the methods use
  // ---------------------------------------------------------------------------

  lemma {:induction false} SoundIsOwned(owner: C.Owner, l: Lms)
    requires Sound(owner, l)
    ensures UniqueOutputs(l.Zones())
  {
    C.OwnedOutputsAreUnique(owner, l.Zones());
  }

  lemma {:induction false} PoliteIsNoShutdown(owner: C.Owner, e: BusEvent)
    requires Polite(owner, Outside(E.Publish(e)))
    ensures e != ShuttingDown
  {
  }

  lemma {:induction false} PollLaw(owner: C.Owner, l: Lms, step: Step)
    requires Sound(owner, l) && step.Poll? && Legal(l.players, step)
    ensures var m := LmsNext(l, step);
            && Sound(owner, m) && m.players == AfterStep(l.players, step)
            && Shows(m.Zones(), m.players, m.players.Keys) && Shows(m.Drained(), m.players, m.players.Keys)
            && OthersKept(l.Zones(), m.Zones()) && OthersKept(l.Drained(), m.Drained())
            && (MembersAre(l.Drained(), l.players.Keys) ==>
                  (MembersAre(m.Drained(), m.players.Keys) <==> forall p :: p in step.gone ==> ZoneIdOf(p) in l.Zones()))
  {
    hide Sound, LmsNext, MembersAre, Shows, OthersKept, Prefixed, Finds, Polled;
    StepAt(owner, l, step, "");
    PollShowsAll(owner, l, step);
    StepElsewhere(owner, l, step);
    PollFinds(l, step);
    if MembersAre(l.Drained(), l.players.Keys) {
      StepFollowsExactly(owner, l, step);
    }
  }

  lemma {:induction false} PollPublishesInOrder(l: Lms, step: Step)
    requires step.Poll? && Legal(l.players, step)
    ensures var next := AfterStep(l.players, step);
            && (forall p :: p in step.shown ==> p in next)
            && LmsNext(l, step) == PublishedAll(PublishedAll(l.(players := next), Showings(next, step.shown)),
                                                Retirements(step.gone))
  {
    hide Polled, PublishedAll;
    var next := AfterStep(l.players, step);
    PublishedAppend(l.(players := next), Showings(next, step.shown), Retirements(step.gone));
  }

  lemma {:induction false} CliLaw(owner: C.Owner, l: Lms, e: CliEvent)
    requires Sound(owner, l)
    ensures var m := LmsNext(l, Cli(e));
            && Sound(owner, m) && m.players == Notified(l.players, e)
            && OthersKept(l.Zones(), m.Zones()) && OthersKept(l.Drained(), m.Drained())
            && (MembersAre(l.Drained(), l.players.Keys) ==>
                  (MembersAre(m.Drained(), m.players.Keys)
                   <==> (e.ClientDisconnect? && e.player in l.players ==> ZoneIdOf(e.player) in l.Zones())))
  {
    hide Sound, LmsNext, MembersAre, OthersKept, Prefixed, Notified, PlayerZone;
    StepAt(owner, l, Cli(e), "");
    StepElsewhere(owner, l, Cli(e));
    if MembersAre(l.Drained(), l.players.Keys) {
      StepFollowsExactly(owner, l, Cli(e));
      if e.ClientDisconnect? {
        assert Told(l.players, Cli(e), e.player).Absent?;
      }
    }
  }

  lemma {:induction false} PublishedFew(l: Lms, pubs: seq<Publication>)
    requires |pubs| <= 1
    ensures PublishedAll(l, pubs) == if pubs == [] then l else Submitted(l, EntryOf(pubs[0]))
  {
    hide Submitted, EntryOf;
    if pubs != [] {
      assert pubs[1..] == [];
      assert PublishedAll(Submitted(l, EntryOf(pubs[0])), []) == Submitted(l, EntryOf(pubs[0]));
    }
  }

  lemma {:induction false} CliPublishes(l: Lms, e: CliEvent)
    ensures var next := l.(players := Notified(l.players, e));
            LmsNext(l, Cli(e))
            == if e.ClientDisconnect? then Submitted(next, EntryOf(Retire(e.player)))
               else if Republished(e).Some? && Republished(e).value in next.players
               then Submitted(next, EntryOf(Show(next.players[Republished(e).value])))
               else next
  {
    hide Submitted, EntryOf, Notified;
    var pubs := Publications(l.players, Cli(e));
    PublishedFew(l.(players := Notified(l.players, e)), pubs);
  }

  lemma {:induction false} ReadbackLaw(owner: C.Owner, l: Lms, step: Step)
    requires Sound(owner, l) && step.Readback?
    ensures var m := LmsNext(l, step);
            && Sound(owner, m) && m.players == AfterStep(l.players, step)
            && OthersKept(l.Zones(), m.Zones()) && OthersKept(l.Drained(), m.Drained())
            && (MembersAre(l.Drained(), l.players.Keys) ==> MembersAre(m.Drained(), m.players.Keys))
  {
    hide Sound, LmsNext, MembersAre, OthersKept, Prefixed, PlayerZone;
    StepAt(owner, l, step, "");
    StepElsewhere(owner, l, step);
    if MembersAre(l.Drained(), l.players.Keys) {
      StepFollowsExactly(owner, l, step);
    }
  }

  lemma {:induction false} ReadbackPublishes(l: Lms, p: PlayerId, inventory: seq<LmsPlayer>,
                                             status: Option<PlayerStatus>)
    ensures var row := FirstRow(inventory, p);
            LmsNext(l, Readback(p, inventory, status))
            == if row.Some? && status.Some?
               then var player := Refreshed(row.value, status.value);
                    Submitted(l.(players := l.players[p := player]), EntryOf(Show(player)))
               else l
  {
    hide Submitted, EntryOf, Refreshed;
    var pubs := Publications(l.players, Readback(p, inventory, status));
    PublishedFew(l.(players := AfterStep(l.players, Readback(p, inventory, status))), pubs);
  }

  lemma {:induction false} DriveLaw(owner: C.Owner, l: Lms, steps: seq<Step>)
    requires Sound(owner, l) && LegalRun(l, steps) && AllPolite(owner, steps)
    ensures MembersAre(l.Drained(), l.players.Keys) ==>
              var end := LmsRun(l, steps);
              && MembersAre(end.Drained(), end.players.Keys + Lingering(l, steps, {}))
              && (MembersAre(end.Drained(), end.players.Keys) <==> Lingering(l, steps, {}) == {})
  {
    hide Sound, LegalRun, LmsRun, Lingering, MembersAre, AllPolite;
    assert l.players.Keys + {} == l.players.Keys;
    if MembersAre(l.Drained(), l.players.Keys) {
      RunMembersExactly(owner, l, steps, {});
      RunFollowsExactly(owner, l, steps);
    }
  }
}
