/** What the LMS cache holds and what its zones show (src/adapters/lms.rs), value by value: after a poll,
    after each CLI notification, and in the zone published for a player. */
module LmsValues {
  import opened Zones
  import opened Projection
  import T = ProjectionTraces
  import opened LmsPlayers
  import C = EchoConvergence
  import P = LmsPublication

  // ---------------------------------------------------------------------------
  // Inventory rows
  // ---------------------------------------------------------------------------

  /** Row `i` is this player's, and no later one is. */
  ghost predicate IsLastRow(inventory: seq<LmsPlayer>, p: PlayerId, i: int) {
    && 0 <= i < |inventory| && inventory[i].playerId == p
    && forall j :: i < j < |inventory| ==> inventory[j].playerId != p
  }

  /** Row `i` is this player's, and no earlier one is. */
  ghost predicate IsFirstRow(inventory: seq<LmsPlayer>, p: PlayerId, i: int) {
    && 0 <= i < |inventory| && inventory[i].playerId == p
    && forall j :: 0 <= j < i ==> inventory[j].playerId != p
  }

  lemma {:induction false} FirstRowIsFirst(inventory: seq<LmsPlayer>, p: PlayerId, i: int)
    requires IsFirstRow(inventory, p, i)
    ensures FirstRow(inventory, p) == Some(inventory[i])
    decreases i
  {
    if i > 0 {
      assert inventory[0].playerId != p;
      forall j | 0 <= j < i - 1 ensures inventory[1..][j].playerId != p {
        assert inventory[1..][j] == inventory[j + 1];
      }
      FirstRowIsFirst(inventory[1..], p, i - 1);
    }
  }

  // ---------------------------------------------------------------------------
  // After a poll
  // ---------------------------------------------------------------------------

  lemma {:induction false} MergedMembers(players: Cache, inventory: seq<LmsPlayer>,
                                         statuses: map<PlayerId, PlayerStatus>, n: nat, p: PlayerId)
    requires n <= |inventory|
    ensures p in Merged(players, inventory, statuses, n)
            <==> p in players || (p in statuses && exists i :: 0 <= i < n && inventory[i].playerId == p)
  {
    if n > 0 {
      MergedMembers(players, inventory, statuses, n - 1, p);
    }
  }

  lemma {:induction false} MergedWithout(players: Cache, inventory: seq<LmsPlayer>,
                                         statuses: map<PlayerId, PlayerStatus>, n: nat, p: PlayerId)
    requires n <= |inventory| && p in players
    requires p !in statuses || forall i :: 0 <= i < n ==> inventory[i].playerId != p
    ensures p in Merged(players, inventory, statuses, n) && Merged(players, inventory, statuses, n)[p] == players[p]
  {
    if n > 0 {
      MergedWithout(players, inventory, statuses, n - 1, p);
    }
  }

  lemma {:induction false} MergedWith(players: Cache, inventory: seq<LmsPlayer>,
                                      statuses: map<PlayerId, PlayerStatus>, n: nat, p: PlayerId, i: nat)
    requires i < n <= |inventory| && p in statuses && inventory[i].playerId == p
    requires forall j :: i < j < n ==> inventory[j].playerId != p
    ensures p in Merged(players, inventory, statuses, n)
    ensures Merged(players, inventory, statuses, n)[p] == Refreshed(inventory[i], statuses[p])
  {
    if n > i + 1 {
      assert inventory[n - 1].playerId != p;
      MergedWith(players, inventory, statuses, n - 1, p, i);
    }
  }

  /** Exactly who is cached after a poll: the players with a connected inventory row that were cached before
      or whose status could be read. A failed status request drops nobody. */
  lemma {:induction false} PollMembersExactly(players: Cache, step: Step, p: PlayerId)
    requires step.Poll?
    ensures p in AfterStep(players, step)
            <==> && (exists i :: 0 <= i < |step.inventory| && step.inventory[i].playerId == p && step.inventory[i].connected)
                 && (p in players || p in step.statuses)
  {
    MergedMembers(players, step.inventory, step.statuses, |step.inventory|, p);
  }

  /** Without a readable status, the cached observation of a player that stays is unchanged. */
  lemma {:induction false} PollKeepsUnread(players: Cache, step: Step, p: PlayerId)
    requires step.Poll? && p in AfterStep(players, step) && p !in step.statuses
    ensures p in players && AfterStep(players, step)[p] == players[p]
  {
    PollMembersExactly(players, step, p);
    MergedWithout(players, step.inventory, step.statuses, |step.inventory|, p);
  }

  /** With a readable status, it is the player's last inventory row with the status fields, muted if
      either reports so. */
  lemma {:induction false} PollTakesStatus(players: Cache, step: Step, p: PlayerId, i: int)
    requires step.Poll? && p in AfterStep(players, step) && p in step.statuses
    requires IsLastRow(step.inventory, p, i)
    ensures var cached, row, s := AfterStep(players, step)[p], step.inventory[i], step.statuses[p];
            && cached.playerId == p && cached.name == row.name && cached.connected == row.connected
            && cached.status.muted == (row.status.muted || s.muted)
            && cached.status.(muted := s.muted) == s
  {
    MergedWith(players, step.inventory, step.statuses, |step.inventory|, p, i);
  }

  // ---------------------------------------------------------------------------
  // After a CLI notification
  // ---------------------------------------------------------------------------

  /** The player a notification is about. */
  function Subject(e: CliEvent): Option<PlayerId> {
    match e
    case Ignored => None
    case _ => Some(e.player)
  }

  /** A notification leaves every other player alone. */
  lemma {:induction false} NotificationSparesOthers(players: Cache, e: CliEvent, q: PlayerId)
    requires Subject(e) != Some(q)
    ensures q in Notified(players, e) <==> q in players
    ensures q in players ==> Notified(players, e)[q] == players[q]
  {
    hide Round, Clamped, NameFor, Announced;
  }

  /** Only an announcement with a readable status adds a player, and only a disconnect drops one. */
  lemma {:induction false} NotificationMembers(players: Cache, e: CliEvent, p: PlayerId)
    ensures p in Notified(players, e)
            <==> || (p in players && e != ClientDisconnect(p))
                 || (e.ClientNew? && e.player == p && e.status.Some?)
  {
    hide Round, Clamped, NameFor, Announced;
  }

  /** The volume a notification caches: the reported one, or the cached one moved by it, kept between 0
      and 100 and rounded to the nearest whole number; the player counts as unmuted. Nothing else
      changes. */
  lemma {:induction false} VolumeIsCached(players: Cache, p: PlayerId, value: real, isRelative: bool)
    requires p in players
    ensures var was, now := players[p], Notified(players, VolumeSet(p, value, isRelative))[p];
            var target := (if isRelative then was.status.volume as real else 0.0) + value;
            && !now.status.muted
            && now == was.(status := was.status.(volume := now.status.volume, muted := false))
            && (target <= 0.0 ==> now.status.volume == 0)
            && (target >= 100.0 ==> now.status.volume == 100)
            && (0.0 <= target <= 100.0 ==>
                  now.status.volume as real - 0.5 <= target < now.status.volume as real + 0.5)
  {
    var target := (if isRelative then players[p].status.volume as real else 0.0) + value;
    RoundIsNearest(Clamped(target), Round(Clamped(target)));
  }

  /** A mute or power notification changes just that. */
  lemma {:induction false} SwitchIsCached(players: Cache, p: PlayerId, on: bool)
    requires p in players
    ensures var was := players[p];
            && Notified(players, MuteSet(p, on))[p] == was.(status := was.status.(muted := on))
            && Notified(players, PowerSet(p, on))[p] == was.(status := was.status.(power := on))
  {
  }

  /** A playlist notification caches the status read after it, but neither its power nor its mute; when
      it could not be read, nothing changes. */
  lemma {:induction false} PlaylistIsCached(players: Cache, p: PlayerId, status: Option<PlayerStatus>)
    requires p in players
    ensures var was, now := players[p], Notified(players, PlaylistChanged(p, status))[p];
            && (status.None? ==> now == was)
            && now.playerId == was.playerId && now.name == was.name && now.connected == was.connected
            && now.status.power == was.status.power && now.status.muted == was.status.muted
            && (status.Some? ==>
                  now.status.(power := status.value.power, muted := status.value.muted) == status.value)
  {
  }

  /** A client that appears is cached as connected and unmuted, with what its status says of playback and
      volume and without position, length or artwork. It keeps the name it had; else it takes the one of its
      first inventory row; else its id. */
  lemma {:induction false} ClientIsCached(players: Cache, p: PlayerId, s: PlayerStatus,
                                          inventory: Option<seq<LmsPlayer>>)
    ensures var now := Notified(players, ClientNew(p, Some(s), inventory))[p];
            && now.playerId == p && now.connected && !now.status.muted
            && now.status.state == s.state && now.status.power == s.power && now.status.volume == s.volume
            && now.status.title == s.title && now.status.artist == s.artist && now.status.album == s.album
            && now.status.time == 0.0 && now.status.duration == 0.0
            && now.status.coverId.None? && now.status.artworkUrl.None?
    ensures var now := Notified(players, ClientNew(p, Some(s), inventory))[p];
            && (p in players && players[p].name != "" ==> now.name == players[p].name)
            && (!(p in players && players[p].name != "") ==>
                  && (inventory.None? ==> now.name == p)
                  && (inventory.Some? ==>
                        && (forall i :: IsFirstRow(inventory.value, p, i) ==>
                              now.name == if inventory.value[i].name != "" then inventory.value[i].name else p)
                        && ((forall row :: row in inventory.value ==> row.playerId != p) ==> now.name == p)))
  {
    if inventory.Some? {
      forall i | IsFirstRow(inventory.value, p, i) ensures FirstRow(inventory.value, p) == Some(inventory.value[i]) {
        FirstRowIsFirst(inventory.value, p, i);
      }
      FirstRowIsFound(inventory.value, p);
    }
  }

  // ---------------------------------------------------------------------------
  // After a command
  // ---------------------------------------------------------------------------

  /** A readback that finds the player and reads its status caches the first inventory row with the status
      fields, muted if either says so; otherwise nothing is cached. It leaves every other player alone. */
  lemma {:induction false} ReadbackIsCached(players: Cache, p: PlayerId, inventory: seq<LmsPlayer>,
                                            status: Option<PlayerStatus>, q: PlayerId)
    ensures var next := AfterStep(players, Readback(p, inventory, status));
      && (status.None? || (forall row :: row in inventory ==> row.playerId != p) ==> next == players)
      && (q != p ==> (q in next <==> q in players) && (q in players ==> next[q] == players[q]))
      && (status.Some? ==> forall i :: IsFirstRow(inventory, p, i) ==>
            && p in next && next[p].playerId == p
            && next[p].name == inventory[i].name && next[p].connected == inventory[i].connected
            && next[p].status.muted == (inventory[i].status.muted || status.value.muted)
            && next[p].status.(muted := status.value.muted) == status.value)
  {
    FirstRowIsFound(inventory, p);
    forall i | IsFirstRow(inventory, p, i) ensures FirstRow(inventory, p) == Some(inventory[i]) {
      FirstRowIsFirst(inventory, p, i);
    }
  }

  /** The compatibility refresh caches the playback state, volume and position it read, of a cached player,
      and changes nothing else. */
  lemma {:induction false} RefreshIsCached(players: Cache, p: PlayerId, reported: PlayerStatus, q: PlayerId)
    ensures var next := AfterStep(players, Refresh(p, reported));
      && (q in next <==> q in players)
      && (q in players && q != p ==> next[q] == players[q])
      && (p in players ==>
            var was, now := players[p], next[p];
            && now.status.state == reported.state && now.status.volume == reported.volume
            && now.status.time == reported.time
            && now == was.(status := was.status.(state := now.status.state, volume := now.status.volume,
                                                 time := now.status.time)))
  {
  }

  // ---------------------------------------------------------------------------
  // What is published
  // ---------------------------------------------------------------------------

  /** Whatever a step changes of a player is published, except by the compatibility refresh: a player
      newly cached or cached differently is shown as now cached, and a player no longer cached is retired. */
  lemma {:induction false} ChangesArePublished(players: Cache, step: Step, p: PlayerId)
    requires !step.Refresh?
    ensures var next := AfterStep(players, step);
            && (p in next && !(p in players && players[p] == next[p]) ==>
                  Told(players, step, p) == C.Present(PlayerZone(next[p])))
            && (p in players && p !in next ==> Told(players, step, p) == C.Absent)
  {
    hide PlayerZone, Polled, Round, Clamped, NameFor, Announced, Refreshed;
  }

  /** A notification about a cached player publishes the player even if nothing changed, unless the status
      it needed could not be read; a poll publishes everyone it leaves cached. */
  lemma {:induction false} UnchangedIsPublishedToo(players: Cache, step: Step, p: PlayerId)
    requires p in AfterStep(players, step)
    requires || step.Poll?
             || (step.Cli? && Subject(step.event) == Some(p)
                 && !(step.event.PlaylistChanged? && step.event.status.None?)
                 && !(step.event.ClientNew? && step.event.status.None?))
    ensures Told(players, step, p) == C.Present(PlayerZone(AfterStep(players, step)[p]))
  {
    hide PlayerZone, Polled, Round, Clamped, NameFor, Announced, Refreshed;
  }

  /** A publication is recorded under one key for each player, whether it shows or retires it, with the new
      revision: the later replaces the earlier, and no other record changes. */
  lemma {:induction false} PublicationIsRecorded(l: Lms, pub: Publication, key: string)
    requires P.CursorWithin(l.system.aggregate, l.sequence)
    ensures var before, after := l.system.aggregate, Submitted(l, EntryOf(pub)).system.aggregate;
      if key == "zone:lms:" + pub.Subject() then
        key in after.body.entries
        && after.body.entries[key] == (before.revision + 1, match pub
                                                            case Show(player) => ZonePayload(PlayerZone(player))
                                                            case Retire(id) => ZoneRetired("lms:" + id))
      else
        (key in after.body.entries <==> key in before.body.entries)
        && (key in after.body.entries ==> after.body.entries[key] == before.body.entries[key])
  {
    hide Submitted, ApplyPayload;
    CommitsOne(l, EntryOf(pub));
    T.PayloadRecordsNothing(Effect(l.system.aggregate.body, [], []), EntryOf(pub).payload, 0,
                            l.system.aggregate.revision + 1);
    assert "zone:lms:" + pub.Subject() == "zone:" + ZoneIdOf(pub.Subject());
    assert ZoneIdOf(pub.Subject()) == "lms:" + pub.Subject();
  }

  /** What the zone published for a player shows. The track is there exactly when it has a title; artwork
      comes from the url if there is one and else from the cover. Playing can be paused, anything else
      can be played, and the player can be controlled exactly when it is on and connected. */
  lemma {:induction false} ZoneShowsPlayer(p: LmsPlayer)
    ensures var z, s := PlayerZone(p), p.status;
            && z.zoneId == "lms:" + p.playerId && z.zoneName == p.name && z.source == "lms"
            && z.state == ParseState(s.state)
            && (z.nowPlaying.Some? <==> s.title != "")
            && (z.isPauseAllowed <==> s.state == "playing") && (z.isPlayAllowed <==> s.state != "playing")
            && (z.isControllable <==> s.power && p.connected)
            && z.isSeekable && z.isNextAllowed && z.isPreviousAllowed
    ensures var z, s := PlayerZone(p), p.status;
            && z.volumeControl.Some?
            && var vc := z.volumeControl.value;
               && vc.value == s.volume as real && vc.isMuted == s.muted && vc.outputId == Some(z.zoneId)
               && vc.min == 0.0 && vc.max == 100.0 && vc.step == 2.5 && vc.scale == Percentage
    ensures var z, s := PlayerZone(p), p.status;
            z.nowPlaying.Some? ==>
              var np := z.nowPlaying.value;
              && np.title == s.title && np.artist == s.artist && np.album == s.album
              && np.seekPosition == Some(s.time) && np.duration == Some(s.duration)
              && (s.artworkUrl.Some? ==> np.imageKey == s.artworkUrl)
              && (s.artworkUrl.None? ==> np.imageKey == s.coverId)
              && np.metadata.None? && np.repeatMode.None? && np.shuffle.None?
  {
    assert "lms:" + p.playerId == "lms" + ":" + p.playerId;
  }
}
