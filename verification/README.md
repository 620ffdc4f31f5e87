# A verified model of the zone projection

The server shows music zones that several adapters observe. This project models how those
observations become one zone list, and proves what the parts promise together.

**The projection.** Adapters number their observations and commit them through `ZoneAggregator`, which
keeps a cursor for each source, one revision, the zone map and the HQPlayer state
(`Projection.dfy`, `ProjectionTraces.dfy`, `HqpLanes.dfy`, `HqpHistory.dfy`, `Aggregator.dfy`). Every commit is echoed on
the broadcast bus, and the aggregator reads that bus itself. `ZoneEvents.dfy` reduces event handling to
what one zone sees; `EchoConvergence.dfy` and `EchoRuns.dfy` prove when an aggregator that lags behind
its own echoes still ends where one without lag would.

**Producers.** `LmsPublication.dfy` is the gate shared by the LMS poller, the CLI observer and the command
readback; `LmsPlayers.dfy` is what those three do to the player cache and the zones, however far the event
loop lags, `LmsValues.dfy` is what is cached and shown value by value, and `LmsObservers.dfy` is the
adapter whose methods do it. `MusicAssistant.dfy` is a publisher
of differences and the zones they rebuild. `Coordinator.dfy` and `FlushProtocol.dfy` stop an adapter, wait
for its zones to be flushed and start it again.

**Zone lists.** `ZoneOrder.dfy` sorts and filters, `ZoneListing.dfy` says which zones are listed and how
they compare, `ZoneMoves.dfy` rearranges.

**Text and bytes.** `Didl.dfy` and `DidlElements.dfy` read DIDL-Lite, `RoonMatch.dfy` tolerates one typing
error, `LmsDiscovery.dfy` reads discovery responses and `LmsPaging.dfy` walks a collection page by page.

Code that updates fields is a class whose methods are proved against a function of the old state, and
the theorems are about those functions. Protocols with several parties are state machines over their
steps.

## Assumptions

- The bus and the ingress deliver everything in order. The bus is one log that every subscriber reads
  from its own position.
- Counters are natural numbers. Floating-point values are reals; rounding is to the nearest whole number.
- An output id belongs to one zone (an `Owner` function says to which). LMS and Music Assistant name an
  output after its zone.
- One Music Assistant snapshot does not repeat a player id.
- Lower-casing of names, white space and lossy UTF-8 decoding are parameters.

## What the proofs found

- **A removal can be lost.** A removal is announced only if the zone is present when it commits
  (src/aggregator.rs:581-587). If the zone is momentarily absent because the event loop has handled an
  earlier removal but not yet the re-discovery after it, the pending re-discovery brings the zone back for
  good. `EchoRuns.RemovalSettlesExactly` gives the exact condition and `EchoRuns.RemovalCanBeLost` a run
  from the empty aggregator. For LMS that means a disconnect can be lost: `LmsPlayers.StepFollowsExactly`
  says exactly when a step keeps zones and players equal, `LmsPlayers.RunMembersExactly` which zones are
  left over after any run, and `LmsPlayers.DisconnectCanBeLost` gives a run. The comment at src/aggregator.rs:743-744 calls the echoes idempotent partial
  updates and says canonical state is never rebuilt from them; the event loop applies them like any other
  event.
- **A manager stop announces nothing** (src/aggregator.rs:715-734). It drops the HQPlayer zones silently, so a
  discovery still pending brings its zone back: `EchoRuns.ManagerStopSettlesExactly`,
  `EchoRuns.ManagerStopCanBeUndone`.
- **One update cannot replace a zone.** Removals are announced after additions
  (src/aggregator.rs:747-788), so an update that retires a present zone and adds it again ends with the zone
  lost, even on a drained queue: `EchoRuns.ReplacementSettlesExactly`, `EchoRuns.ReplacementLosesTheZone`.
- **An acknowledgement need not be one's own.** The wait for the flush (src/coordinator.rs:333-361) accepts
  any `ZonesFlushed` of the adapter, and a zone submitted before the stop may still be committed after the
  flush. `FlushProtocol.SafeExactlyWhenQuiet` gives the exact condition.
- **Restarting Music Assistant hides its known players.** Stopping flushes the zones but keeps the player
  cache (src/adapters/musicassistant.rs:375-382), so after a restart a known player only yields
  differences, which find no zone. `MusicAssistant.RestartForgetsKnownPlayers` says which players come back.
- **The observation sink does not compare source epochs** of output documents, unlike the commit lane.
  `HqpLanes.SinkKeepsOutputsExactly` says when a document goes back to an older epoch, and
  `HqpLanes.SinkCanRegress` shows it from the empty aggregator.
- **A changed track keeps the earlier duration** (src/aggregator.rs:236-262). Only a discovery carries a
  duration, so a track learnt from a `NowPlayingChanged` shows the previous one's; Music Assistant even
  sends that event when only the duration changed (`ZoneEvents.DurationsComeFromDiscoveries`,
  `MusicAssistant.DifferenceExactly`).
- **A move forgets absent zones.** A stored move lists only the zones present at that moment, so a zone
  that was away, or whose adapter was disabled, loses its place (`ZoneMoves.MoveForgetsAbsentZones`);
  only hidden zones keep theirs.
- **Paging without totals can stop early.** The length compared with the limit is that of the mapped items,
  so a page that drops a row ends the walk (`LmsPaging.WalkIsCompleteExactly`).
- **An end tag with white space is not seen** (src/adapters/didl.rs:60), so the text read runs on to a later
  end tag or is lost (`DidlElements.SearchFindsTheElement`).
- **A failed companion start leaves earlier companions running** (`Coordinator.AdapterCoordinator.StartWithCompanions`).

## Model

| member | source | states |
|---|---|---|
| Zones.StateRoundTrip | src/bus/events.rs:206-231 | a playback state written as text is read back as the same state |
| Zones.OwnerIsUnique | src/aggregator.rs:353-366 | a zone id has at most one adapter prefix, so a flush by prefix concerns one adapter |
| Zones.ParsesExactly | src/bus/events.rs:76-95 | a prefixed id is accepted exactly if its prefix is one of the known adapters, and an id without a colon never |
| Zones.StatesAreRead | src/bus/events.rs:206-231 | which texts are read as which state, whatever their letter case, with every other text unknown |
| Zones.RoundIsNearest | src/aggregator.rs:768-771 | positions are rounded to the nearest whole second, halves away from zero |
| ZoneEvents.FoldIsPointwise | src/aggregator.rs:158-381 | handling a whole queue of events does to each zone id exactly what those events do to that id alone, volume events taken to reach every zone that names their output |
| ZoneEvents.TrackEventShows | src/aggregator.rs:212-268 | field by field what a track event leaves shown: position, duration and modes carry over, details exactly for the same title, artist and album, and all fields absent clear the track |
| ZoneEvents.DetailsStayWithTheirTrack | src/aggregator.rs:236-250 | over every queue, details on display are shown with the track they came with, at the start or in a discovery of that zone |
| ZoneEvents.DurationsComeFromDiscoveries | src/aggregator.rs:212-268 | over every queue, a duration on display was there at the start or came with a discovery, so no track event refreshes it |
| Aggregator.ZoneAggregator.CommitReliableProjection | src/aggregator.rs:537-791 | one commit leaves the state, outcome and announcements of the transaction function, with the announcements after all state changes |
| Aggregator.ZoneAggregator.ApplyToState | src/aggregator.rs:574-735 | each payload's effect on zones, HQPlayer snapshots and output documents, and what it will announce |
| Aggregator.ZoneAggregator.HandleVolume | src/aggregator.rs:297-327 | exactly one zone whose output this is takes the new volume, any one if several share the output, none otherwise |
| Aggregator.ZoneAggregator.HandleStopping | src/aggregator.rs:347-381 | the zones of the prefix and no others are dropped, and acknowledged by id |
| Aggregator.ZoneAggregator.Receive | src/aggregator.rs:129-393 | one turn of the loop is one reception step of the protocol the run theorems are about; a volume event for an output several zones share reaches exactly one of them |
| Aggregator.ZoneAggregator.RunInner | src/aggregator.rs:129-393 | the loop stops exactly on a pending shutdown and otherwise ends drained; if every output belongs to one zone, every pending event has then been applied in order |
| Aggregator.ZoneAggregator.PublishHqplayerAdvanced | src/aggregator.rs:493-509 | options are attached exactly when their target is the one on display |
| Aggregator.ZoneAggregator.PublishHqplayerProfiles | src/aggregator.rs:512-532 | profiles or their error are attached exactly to a known instance |
| Aggregator.ZoneAggregator.Observed | src/aggregator.rs:826-872 | an observation older than the displayed producer epoch changes nothing, any other replaces zone and snapshot |
| Aggregator.ZoneAggregator.TransientFailure | src/aggregator.rs:901-918 | a failure keeps the last known snapshot and marks it |
| Aggregator.ZoneAggregator.OutputsObserved | src/aggregator.rs:920-938 | a document is admitted by its own revision and stamped with the projection revision |
| Aggregator.ZoneAggregator.InstanceRemoved | src/aggregator.rs:940-955 | the snapshot goes only with its own epoch, the output document always |
| Aggregator.ZoneAggregator.ManagerStopped | src/aggregator.rs:957-963 | every snapshot is kept as last known |
| ProjectionTraces.CommitIgnoresFreshness | src/aggregator.rs:541-561 | what a commit decides, does and announces never depends on freshness |
| ProjectionTraces.RefusedChangesNothing | src/aggregator.rs:541-561 | a refused update changes freshness at most and announces nothing |
| ProjectionTraces.IdentitiesTell | src/bus/runtime.rs:515-529 | two updates share a cursor exactly if they are of the same adapter and instance, whatever their epochs |
| ProjectionTraces.CommitsExactly | src/aggregator.rs:541-561 | an update commits if and only if its source has no cursor yet or its stamp follows the cursor |
| ProjectionTraces.OutcomeExactly | src/aggregator.rs:541-572 | which outcome every update has, and the numbers it carries: the current epoch and sequence of a stale one, the expected and received sequence of a gap, the new revision of a commit |
| ProjectionTraces.TraceCommitsExactly | src/aggregator.rs:541-572 | over every trace exactly those updates commit whose stamp follows the last committed one of their source, and each has the outcome its history gives it |
| ProjectionTraces.TraceIsItsCommits | src/aggregator.rs:537-791 | any delivery trace over any sources, with duplicates, reorderings and gaps, has the state and announcements of its committed updates alone; replaying those commits every one again, and the revision counts them |
| ProjectionTraces.CommitMovesCursor | src/aggregator.rs:541-572 | what one commit, stale or gap outcome does to each source's cursor |
| ProjectionTraces.HistoryChains | src/aggregator.rs:541-572 | each source's commits chain from wherever its cursor stood, and its freshness is its latest verdict |
| ProjectionTraces.SourceOrder | src/aggregator.rs:541-572 | over every run each source's committed (epoch, sequence) pairs strictly increase, a same-epoch delta is the previous sequence plus one, and a source is reconciling exactly when its latest non-stale outcome was a gap |
| ProjectionTraces.EntriesAreRecorded | src/aggregator.rs:736-740 | a committed update records every entry under its key and the new revision, the later of two under one key, and leaves the other keys alone |
| EchoConvergence.EchoReproduces | src/aggregator.rs:741-783 | the echo of a zone, handled by the event loop, leaves that very zone with its seek position in whole seconds, whatever was there |
| EchoConvergence.EchoSparesOthers | src/aggregator.rs:741-783 | the echo of a zone leaves every other zone alone |
| EchoConvergence.SilentExactly | src/aggregator.rs:747-751 | nothing is announced exactly for a zone whose id has no known adapter's prefix |
| EchoConvergence.HintsBringUpToDate | src/aggregator.rs:741-783 | the echo without its discovery brings any earlier version of the zone up to date in name, state, track identity and image, whole-second position, volume and mute, and in nothing else |
| EchoRuns.RediscoveryExact | src/aggregator.rs:158-191 | an absent zone is present after a queue exactly when the last discovery or removal of it in the queue is a discovery |
| EchoRuns.CommitSettlesExactly | src/aggregator.rs:573-587 | after a commit the drained aggregator is the one without lag if and only if the commit settles |
| EchoRuns.AdditionsSettle | src/aggregator.rs:575-580 | an update that removes nothing settles however far the event loop lags |
| EchoRuns.RemovalSettlesExactly | src/aggregator.rs:581-587 | a removal settles if and only if the zone is present or nothing pending rediscovers it |
| EchoRuns.DrainedRemovalSettles | src/aggregator.rs:581-587 | on a drained queue every removal settles |
| EchoRuns.DrainedEntrySettles | src/aggregator.rs:573-735 | on a drained queue every update of one entry settles |
| EchoRuns.ManagerStopSettlesExactly | src/aggregator.rs:715-734 | a manager stop settles if and only if nothing pending rediscovers an HQPlayer zone, present or not |
| EchoRuns.InstanceRemovalSettlesExactly | src/aggregator.rs:668-687 | an instance removal settles if and only if it is of another epoch, or the zone is present, or nothing pending rediscovers it |
| EchoRuns.ManagerStopCanBeUndone | src/aggregator.rs:715-734 | a zone committed and dropped by a manager stop before its echo is handled comes back |
| EchoRuns.ReplacementSettlesExactly | src/aggregator.rs:747-788 | an update that retires a zone and adds it again settles if and only if the zone was absent |
| EchoRuns.ReplacementLosesTheZone | src/aggregator.rs:747-788 | otherwise the zone is committed and gone once its echo is handled, under any lag |
| EchoRuns.RemovalCanBeLost | src/aggregator.rs:581-587 | a run from the empty aggregator that ends drained with a zone whose last update removed it |
| EchoRuns.RunsConverge | src/aggregator.rs:537-791 | for every interleaving of settling commits, publications and receptions, the drained zones are those of an aggregator without lag: last committed values, rounded, and removed zones stay removed |
| EchoRuns.PlainRunsConverge | src/aggregator.rs:537-791 | however commits that add zones, one-entry commits of any kind on a drained queue, other publications and the event loop interleave, the drained zones are those of an aggregator without lag |
| EchoRuns.StartsLagging | src/aggregator.rs:84-92 | a new aggregator qualifies as the start of such a run |
| HqpLanes.PayloadAtInstance | src/aggregator.rs:588-687 | one payload keeps an instance's snapshot, with epoch not falling and every change raising the revision, if and only if it does not retire the displayed epoch |
| HqpLanes.SinkAtInstance | src/aggregator.rs:826-963 | the same for one sink call |
| HqpLanes.SnapshotsOverRuns | src/aggregator.rs:493-687 | over every run of both lanes attached options match the displayed target, and until the displayed epoch itself is retired by an admitted removal the producer epoch never decreases and every change raises the revision |
| HqpLanes.SinkKeepsOutputsExactly | src/aggregator.rs:920-955 | a sink call keeps a document and its (epoch, revision) order if and only if it neither removes the instance nor admits a document of an older epoch |
| HqpLanes.PayloadKeepsOutputs | src/aggregator.rs:668-734 | one payload keeps a document, with (source epoch, output revision) and aggregate revision not falling, if and only if it does not remove the instance |
| HqpLanes.OutputsOverRuns | src/aggregator.rs:563-734 | until an admitted removal drops it a document's (source epoch, output revision) and its aggregate revision never decrease unless the sink offers an older epoch, and no document claims a revision beyond the projection's, manager stops included |
| HqpLanes.SinkCanRegress | src/aggregator.rs:920-938 | from the empty aggregator a committed document of epoch 1 is replaced through the sink by one of epoch 0 that the commit lane would refuse |
| HqpHistory.SnapshotIsItsHistory | src/aggregator.rs:493-734 | over every run of both lanes the log of what was admitted for an instance tells every field of its snapshot: the last observation with the latest pipeline, options while the execution target stays, profiles and their error while the endpoint stays, presence, failure time, and a revision that counts the log |
| HqpHistory.TellsOne | src/aggregator.rs:493-734 | a log tells of one snapshot only, so every field is determined |
| HqpHistory.LastKnownExactly | src/aggregator.rs:658-719 | from the empty aggregator a snapshot is last known if and only if the latest admitted observation, failure or manager stop was not an observation, and its failure time is that of the last failure since the last observation |
| HqpHistory.FailureKeepsValues | src/aggregator.rs:901-963 | a failure and a manager stop leave observation, options and profiles alone on either lane, and unknown instances unknown |
| HqpHistory.DocumentsExactly | src/aggregator.rs:684-734 | the document each payload leaves: an offer is shown exactly if not older by (source epoch, revision), a manager stop makes it unavailable for the stated reason and ends its session, a removal drops it |
| HqpHistory.SinkDocumentsExactly | src/aggregator.rs:920-963 | the document each sink call leaves: an offer is shown exactly if its revision is not lower, under its own epoch, and a manager stop leaves it alone |
| HqpHistory.SinkZonesExactly | src/aggregator.rs:826-872 | a sink call changes at most the zone of its observation, and that exactly if the instance is not displayed under a later producer epoch |
| LmsPublication.StepKeeps | src/adapters/lms.rs:1072-1108 | every step of any publisher, cancellation and foreign traffic included, keeps the permit, the numbering and the order of what is queued and delivered |
| LmsPublication.EveryPublicationCommits | src/adapters/lms.rs:1072-1108 | under every schedule of any number of publishers the updates arrive strictly increasing and the aggregator commits every one |
| LmsPublication.NothingIsLost | src/adapters/lms.rs:1072-1108 | under every schedule what is delivered and what is queued are exactly what was sent, in order, each LMS update with its publisher's own entry under the number of allocations so far |
| LmsPublication.GateOpensAgain | src/adapters/lms.rs:1072-1108 | the permit is out exactly while one publisher has it, and once the actor has emptied the ingress no publisher waits |
| LmsPlayers.StepAt | src/adapters/lms.rs:2923-3620 | under any lag, what a step says about a player takes effect on the zone at once and in the drained view, except a retirement that finds no zone; what others do changes nothing there |
| LmsPlayers.StepElsewhere | src/adapters/lms.rs:2923-3620 | a step leaves every other adapter's zones alone in both views |
| LmsPlayers.StepFollowsExactly | src/adapters/lms.rs:2923-3620 | a step keeps the drained `lms:` zones equal to the cached players if and only if every cached player it retires has its zone present |
| LmsPlayers.StepShowsMembers | src/adapters/lms.rs:2923-3620 | with the `lms:` zones equal to the players, they are equal again right after any observer's step, before an event is handled |
| LmsPlayers.PublishedIsShown | src/adapters/lms.rs:1072-1108 | a published player is shown as cached at once and in the drained view |
| LmsPlayers.RunMembersExactly | src/adapters/lms.rs:2923-3620 | over every run of polls, CLI events, readbacks, refreshes, turns of the event loop and other producers' traffic, the drained `lms:` zones are exactly the players and those whose retirement found no zone and was not made good |
| LmsPlayers.RunFollows | src/adapters/lms.rs:2923-3620 | if every retirement of a cached player finds its zone, they are exactly the players, and the aggregator's own zones whenever nothing is pending |
| LmsPlayers.RunFollowsExactly | src/adapters/lms.rs:2923-3620 | at the end of a run zones and players are equal if and only if no zone lingers |
| LmsPlayers.DisconnectCanBeLost | src/adapters/lms.rs:3531-3612 | a run from a new aggregator that ends with no player cached and a zone that remains |
| LmsPlayers.PollDecidesMembership | src/adapters/lms.rs:2923-3145 | right after a poll only players it reported connected remain, and all of those whose status it could read |
| LmsPlayers.PollDecidesZones | src/adapters/lms.rs:2923-3145 | the drained zones right after a poll are those players' and of those it retired without their zone being present |
| LmsValues.PollMembersExactly | src/adapters/lms.rs:3042-3051 | after a poll a player is cached if and only if the poll reported it connected and it was cached before or its status could be read |
| LmsValues.PollKeepsUnread | src/adapters/lms.rs:3042-3051 | without a readable status the cached observation is unchanged |
| LmsValues.PollTakesStatus | src/adapters/lms.rs:2923-3052 | with one it is the last inventory row of the player with the status fields, muted if either says so |
| LmsValues.NotificationMembers | src/adapters/lms.rs:3331-3620 | only an announcement with a readable status adds a player and only a disconnect drops one |
| LmsValues.NotificationSparesOthers | src/adapters/lms.rs:3331-3620 | a notification leaves every other player alone |
| LmsValues.VolumeIsCached | src/adapters/lms.rs:3331-3620 | a volume notification caches the reported or moved volume, kept between 0 and 100 and rounded to the nearest, unmutes, and changes nothing else |
| LmsValues.PlaylistIsCached | src/adapters/lms.rs:3331-3620 | a playlist notification caches the status read after it but neither its power nor its mute |
| LmsValues.ClientIsCached | src/adapters/lms.rs:3331-3620 | what is cached of a client that appears, and where its name comes from |
| LmsValues.ReadbackIsCached | src/adapters/lms.rs:1617-1649 | a readback caches the first inventory row with the status fields, and nothing when either is missing |
| LmsValues.RefreshIsCached | src/adapters/lms.rs:1546-1569 | the refresh changes playback state, volume and position of a cached player and nothing else |
| LmsValues.ChangesArePublished | src/adapters/lms.rs:2923-3620 | whatever any step but the refresh changes of a player is published |
| LmsValues.UnchangedIsPublishedToo | src/adapters/lms.rs:2923-3620 | a poll shows everyone it leaves cached, and a notification its player even if nothing changed |
| LmsValues.PublicationIsRecorded | src/adapters/lms.rs:1048-1070 | each publication is recorded under its player's one key with the new revision, the later replacing the earlier, and no other record changes |
| LmsValues.ZoneShowsPlayer | src/adapters/lms.rs:2870-2917 | what the zone published for a player shows, field by field |
| LmsObservers.LmsAdapter.PublishZone | src/adapters/lms.rs:1048-1059 | a published zone is committed, now and in the drained view |
| LmsObservers.LmsAdapter.PublishRemoved | src/adapters/lms.rs:1061-1070 | a retired zone is gone now, and from the drained view exactly if it was present |
| LmsObservers.LmsAdapter.UpdatePlayers | src/adapters/lms.rs:2923-3145 | a poll at any lag leaves the merged, connected players, shows each, leaves other zones alone, and keeps zones equal to players exactly if the zones it retires are present |
| LmsObservers.LmsAdapter.HandleCliEvent | src/adapters/lms.rs:3331-3620 | each CLI event at any lag, its effect on the cache, and exactly when it keeps zones equal to players |
| LmsObservers.LmsAdapter.CommandReadback | src/adapters/lms.rs:1617-1649 | a readback at any lag succeeds exactly when row and status could be read, then caches and shows the observation, and always keeps zones equal to players |
| LmsObservers.LmsAdapter.RefreshCache | src/adapters/lms.rs:1546-1569 | the compatibility refresh never changes who is a player |
| LmsObservers.LmsAdapter.PublishCached | src/adapters/lms.rs:3310-3328 | a cached player is published, an unknown one ignored |
| LmsObservers.LmsAdapter.Drive | src/adapters/lms.rs:2923-3620 | any run of observers' steps with turns of the event loop and other traffic anywhere computes the run the theorems above are about |
| LmsObservers.LmsAdapter.CatchUp | src/aggregator.rs:129-393 | once the loop has handled everything the zones are the drained view |
| MusicAssistant.MusicAssistantAdapter.PublishSnapshot | src/adapters/musicassistant.rs:463-550 | what a snapshot publishes in order, removals in any order, and the cache it leaves |
| MusicAssistant.DifferenceAgrees | src/adapters/musicassistant.rs:463-550 | the differences of one player carry a zone that agrees with the previous snapshot to one that agrees with the next |
| MusicAssistant.DifferenceExactly | src/adapters/musicassistant.rs:463-550 | exactly which events are published between two snapshots of a player, each once: name and state always, track, modes, position and volume exactly when what they tell has changed |
| MusicAssistant.WholeSecondsExactly | src/adapters/musicassistant.rs:463-550 | a published position is cut to whole seconds and never negative |
| MusicAssistant.SnapshotIsShown | src/adapters/musicassistant.rs:1192-1240 | what a discovered player shows |
| MusicAssistant.SnapshotFollows | src/adapters/musicassistant.rs:463-550 | everything one snapshot publishes leads each zone from the previous snapshot to the next, presence included |
| MusicAssistant.DifferencesRefineReplacement | src/adapters/musicassistant.rs:463-550 | over any run of snapshots without a stop, interleaved with the event loop and other producers that leave every output to its zone, the drained `musicassistant:` zones are the last snapshot's players and agree with it on name, state, track, modes and volume |
| MusicAssistant.StartTracks | src/adapters/musicassistant.rs:463-550 | a publisher without players and an aggregator without zones qualify as the start of a run |
| MusicAssistant.ReceptionIsTheAggregators | src/aggregator.rs:129-393 | a reception in these runs is the aggregator's own |
| MusicAssistant.RestartForgetsKnownPlayers | src/adapters/musicassistant.rs:375-382 | after a stop the first snapshot brings back exactly the players that were not known before it |
| Coordinator.AdapterCoordinator.Register | src/coordinator.rs:374-387 | an adapter is registered as not running, replacing what was registered under the name |
| Coordinator.AdapterCoordinator.RegisterCompanion | src/coordinator.rs:265-272 | a companion joins those of its provider, last |
| Coordinator.AdapterCoordinator.StopAdaptersThenFlush | src/coordinator.rs:246-263 | all observers stop before the one flush is published, and are then marked stopped |
| Coordinator.AdapterCoordinator.StopWithCompanions | src/coordinator.rs:297-320 | the adapter and all companions of the projection stop under one flush |
| Coordinator.AdapterCoordinator.StartWithCompanions | src/coordinator.rs:274-295 | who runs after a start, and after a companion's start fails: the adapter is flushed and stopped, companions already started run on |
| Coordinator.CompanionsExactly | src/coordinator.rs:265-272 | however registrations interleave, each provider's companions are those registered for it, in order |
| Coordinator.MarkedExactly | src/coordinator.rs:246-263 | marking sets the running flag of the registered names given and leaves every other flag, and who is enabled, alone |
| FlushProtocol.QuietStopIsSafe | src/coordinator.rs:333-361 | from a quiet stop, in every interleaving, an acknowledged wait leaves no zone of the prefix present or on its way and no flush queued, and none is ever queued after the restart |
| FlushProtocol.NoFlushAfterRestart | src/aggregator.rs:347-381 | with no stop pending an event removes a zone of the adapter only if it retires that very zone |
| FlushProtocol.FlushSparesOthers | src/aggregator.rs:347-381 | a flush leaves every zone of every other adapter as it was |
| FlushProtocol.UnquietStopCanFail | src/coordinator.rs:333-361 | from every stop that is not quiet some interleaving is acknowledged with a zone left or a flush still queued |
| FlushProtocol.SafeExactlyWhenQuiet | src/coordinator.rs:333-361 | an acknowledgement means a clean projection in every interleaving if and only if the stop was quiet |
| FlushProtocol.ReceptionIsTheAggregators | src/aggregator.rs:129-393 | a reception in this protocol is the aggregator's own |
| FlushProtocol.CommitIsTheAggregators | src/aggregator.rs:573-783 | a commit in this protocol is the aggregator's own commit of that one zone, echo included |
| FlushProtocol.LaneIsFirstInFirstOut | src/bus/runtime.rs:678-700 | in every schedule the lane commits what was submitted, once and in order |
| ZoneOrder.BeforeIsTotal | src/zone_list.rs:139-165 | the comparison never ties for different ids |
| ZoneOrder.BeforeIsTransitive | src/zone_list.rs:139-165 | the comparison is transitive across placed and unplaced zones |
| ZoneOrder.OrderZones | src/zone_list.rs:132-148 | the sort in place leaves the stably ordered list |
| ZoneOrder.OrderedPermutes | src/zone_list.rs:132-148 | sorting loses, adds and repeats nothing |
| ZoneOrder.OrderedExactly | src/zone_list.rs:132-165 | a list is the ordered one if and only if it is sorted and shows the same zones |
| ZoneOrder.OrderedReads | src/zone_list.rs:121-165 | placed zones come first by stored position, the rest alphabetically without regard to case, ids breaking ties |
| ZoneOrder.StoredOrderIsFollowed | src/zone_list.rs:132-148 | storing the ids of an arrangement makes the list that arrangement |
| ZoneOrder.AbsentIdsAreInert | src/zone_list.rs:129-148 | two stored orders that mention the present zones alike sort them alike |
| ZoneOrder.ListsIgnoreArrival | src/zone_list.rs:60-82 | the lists depend on which zones there are, never on the order they arrive in |
| ZoneOrder.HidingCommutes | src/zone_list.rs:60-70 | hiding before or after everything else gives the same list |
| ZoneOrder.StaleOrderIsIgnored | src/zone_list.rs:60-82 | ids of absent zones in the stored order have no effect on a list |
| ZoneListing.ListsHoldExactly | src/zone_list.rs:60-95 | the management list holds exactly the zones whose provider is not switched off, each under the user's name if there is one, and the visible list exactly those of them not hidden |
| ZoneListing.ListedIdsExactly | src/zone_list.rs:60-82 | the same for the ids in either list |
| ZoneListing.SwitchesAreTheirOwn | src/zone_list.rs:113-121 | each provider's zones follow that provider's own switch, `lms-cli` following `lms`, and those of a provider without a switch are always listed |
| ZoneListing.BareIdsAreListed | src/zone_list.rs:113-121 | ids without a provider are always listed |
| ZoneListing.BeforeExactly | src/zone_list.rs:132-165 | the comparison said of the stored order and of the texts themselves: last stored position first, then folded name, then id |
| ZoneMoves.Reorder | src/zone_list.rs:190-222 | a step removes the zone's id and puts it back at the slot of the nearest zone it may trade with |
| ZoneMoves.ReorderTo | src/zone_list.rs:241-258 | a drop removes the zone's id and puts it back at the target's slot |
| ZoneMoves.StoredMove | src/api/mod.rs:4204-4249 | once a move is stored and everything sorted again, the list is the old one with that zone moved |
| ZoneMoves.StepMovesOnePlace | src/zone_list.rs:190-222 | the step of a shown zone is refused exactly at that end of the shown list, and otherwise swaps it with its shown neighbour and changes nothing else the user sees |
| ZoneMoves.StepRefusedExactly | src/zone_list.rs:186-209 | a step of any zone is refused exactly when it is not listed or nothing on that side may trade with it |
| ZoneMoves.StepBackRestores | src/zone_list.rs:190-222 | a step and its opposite restore what the user sees |
| ZoneMoves.HiddenStepIsUnseen | src/zone_list.rs:190-222 | stepping a hidden zone changes nothing the user sees |
| ZoneMoves.HiddenStepSwapsNeighbours | src/zone_list.rs:190-222 | the step of a hidden zone is refused exactly at that end of the full list and otherwise swaps it with its immediate neighbour there |
| ZoneMoves.DropLandsOnTarget | src/zone_list.rs:241-258 | a drop is refused exactly for an unknown zone or itself, and otherwise lands in the target's slot with all others in order |
| ZoneMoves.DropIsUndone | src/zone_list.rs:241-258 | one further drop undoes a drop |
| ZoneMoves.DropsReachEverything | src/zone_list.rs:241-258 | every arrangement of the zones is reached by drops, at most one for each zone |
| ZoneMoves.MoveForgetsAbsentZones | src/api/mod.rs:4204-4249 | a zone absent when a move was stored later sorts after every zone that was present |
| Didl.FivePassesAreOne | src/adapters/didl.rs:28-34 | the five replacements are one pass that decodes each entity once, for every text |
| Didl.EntitiesAreDecoded | src/adapters/didl.rs:28-34 | each of the five entities, wherever it stands, is decoded to its one character |
| Didl.NothingElseIsDecoded | src/adapters/didl.rs:28-34 | text without an ampersand, and an ampersand that begins none of the five, stay as they are |
| Didl.DecodeUndoesEscape | src/adapters/didl.rs:23-34 | decoding undoes exactly one level of escaping, whatever was escaped |
| Didl.AmpersandFirstDecodesTwice | src/adapters/didl.rs:23-27 | with the ampersand replaced first a doubly escaped text decodes two levels |
| DidlElements.ExtractExact | src/adapters/didl.rs:59-96 | the loop over an index yields what the search yields on the text that is left |
| DidlElements.SearchYields | src/adapters/didl.rs:36-96 | in every document of text, tags, comments and instructions the search yields the text between the first opening tag of exactly that name and the next end tag of it without white space |
| DidlElements.SearchFindsTheElement | src/adapters/didl.rs:36-96 | that is the element's text if and only if the tag that ends the element has no white space before its bracket |
| RoonMatch.EditDistanceAtMostOne | src/adapters/roon_match.rs:122-149 | the greedy test holds if and only if the Levenshtein distance is at most one |
| RoonMatch.CloseExactly | src/adapters/roon_match.rs:122-149 | the distance is at most one if and only if the words differ in one place at most or one of them is the other with one character taken out |
| RoonMatch.DistanceIsSymmetric | src/adapters/roon_match.rs:122-149 | the distance, and so the test, does not depend on which word comes first |
| LmsDiscovery.RecordsAreReadBack | src/adapters/lms_discovery.rs:94-121 | any records followed by any incomplete rest are read back exactly |
| LmsDiscovery.EveryInputDecomposes | src/adapters/lms_discovery.rs:94-121 | every byte string is the records read from it followed by an incomplete rest |
| LmsDiscovery.ResponseIsItsRecords | src/adapters/lms_discovery.rs:80-154 | a response says what its records say, the later of two records of one field counting |
| LmsDiscovery.UnknownFieldsAreSkipped | src/adapters/lms_discovery.rs:116-121 | records of unknown fields change nothing wherever they stand |
| LmsDiscovery.PortsAreReadBack | src/adapters/lms_discovery.rs:137-141 | a number written in decimal is read back if it is a port and refused otherwise |
| LmsDiscovery.PortExactly | src/adapters/lms_discovery.rs:137-141 | a text is read as port n if and only if it is the decimal digits of n, at most 65535, after any zeros and at most one plus sign |
| LmsDiscovery.TagsAreText | src/adapters/lms_discovery.rs:59-90 | the tag of each field and the two markers, as ASCII text |
| LmsDiscovery.DescribedExactly | src/adapters/lms_discovery.rs:124-154 | every field of the server described by the last record under its tag, with the source's defaults, and no server without a name |
| LmsDiscovery.ReadFields | src/adapters/lms_discovery.rs:91-122 | the loop tabulates the last value of every known field, in bounds on every byte string |
| LmsDiscovery.ParseTlvResponse | src/adapters/lms_discovery.rs:80-154 | the parser returns what the records describe, with its defaults and its refusals |
| LmsPaging.PageLimit | src/adapters/lms.rs:2140-2144 | every page asks for at least one row and at most fifty, for what was requested in between, and for twenty by default |
| LmsPaging.WalkWithTotals | src/adapters/lms.rs:217-222 | with totals the walk ends and delivers every mapped row once and in order, for every limit |
| LmsPaging.WalkWithoutTotals | src/adapters/lms.rs:217-222 | without totals it delivers the mapped rows up to the first page not full of items |
| LmsPaging.WalkIsCompleteExactly | src/adapters/lms.rs:2256-2299 | the walk delivers the whole collection if and only if totals are reported or no full page drops a row ahead of one that would be shown |
| LmsPaging.NothingDroppedNothingLost | src/adapters/lms.rs:2256-2299 | when no row is dropped the condition holds |
| LmsPaging.ADroppedRowEndsTheWalk | src/adapters/lms.rs:2256-2299 | a two-row collection of which a walk without totals delivers nothing |

## Left out

- HTTP, SOAP, JSON-RPC, websockets, discovery sockets and timers: their results are inputs of the steps.
- u64 limits of sequence numbers and revisions (the source saturates), and the i64 limits and not-a-number
  cases of seek positions.
- Bus overflow: a lagging subscriber that loses events, and the aggregator's restart of its receiver.
- Command correlation and the command gateway.
- Provider accounts, adapter errors and connection events, volume capabilities, playback history and
  timestamps (`lastUpdated` is fixed).
- HQPlayer observations beyond epoch, target, zone and revision; profiles and options are opaque.
- The two-second acknowledgement timeout is the `GiveUp` step; nothing is claimed for runs that take it.
- Shutdown in the protocol modules; `RunInner` models it for the loop.
- Music Assistant's queue requests, its multi-room status and its reconnects; a stop is modelled only by
  its effect in `RestartForgetsKnownPlayers`.
- LMS player fields that no zone shows, such as playlist position and mode; the order in which a poll
  publishes players is arbitrary.
- Zones.ParseState: lower-cases ASCII letters only.
- MusicAssistant.DifferencesRefineReplacement: duration and the volume of a player that stops reporting one
  are not claimed, because no event carries them.
- LmsObservers.LmsAdapter.Drive: each observer's step runs to completion and its publications succeed; a poll
  suspended between its requests, and failed submissions, are not modelled. Other producers' commits and
  events may come between any two steps, as long as they leave LMS zones, the LMS source and LMS outputs to LMS.
- ZoneEvents.FoldIsPointwise: a volume event for an output that several zones share reaches one of them in
  the code and all of them here; `Aggregator.ZoneAggregator.Receive` states what the code does.
- DidlElements.SearchFindsTheElement: opening tags of the sought name have no closing angle bracket among their
  attributes, and comments contain no opening one; there the search is misled.
- `extract_prefixed`, the DIDL-Lite record and `clean_markup`: easy members, or not true in general.
- ZoneMoves.StoredMove: the zones and settings do not change between reading and storing.
- `match` rules of Roon search beyond the one-edit test, playback backoff, firmware versions, artwork.
