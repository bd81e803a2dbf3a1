# Proximity voice chat: a verified model

This project models, in Dafny, the parts of the proximity voice chat whose
correctness rests on state, interleaving or arithmetic, and proves what each of
them is for.

- **Camera mode on the minimap.** `CameraBox.dfy` (the rectangle search by prefix
  sums, against a brute-force count over all pixels), `CameraBoxTracker.dfy` (hold
  and throttle), `Elimination.dfy` (who each unknown icon is), `IconTracks.dfy` and
  `IconNames.dfy` (icons followed from tick to tick, and their names),
  `IconRiders.dfy` and `RideRules.dfy` (players hidden under other icons),
  `HearingPlaces.dfy` (where everyone is and who is heard) and `CameraHearing.dfy`
  (the tracker with its track objects, updated in place).
- **Room server.** `Rooms.dfy` (the two indexes as values), `RoomManager.dfy` (the
  two maps sharing client objects that are updated in place), `WsProtocol.dfy` (one
  step per event, with the frames it sends), `WsHandler.dfy` (the handler that runs
  those steps on the objects), `WsMembership.dfy`, `WsRuns.dfy`, `WsHistory.dfy`,
  `WsReports.dfy` and `WsSockets.dfy` (whole runs), `Volumes.dfy` (the team-aware
  scoring).
- **Rate limiting and addresses.** `TokenBucket.dfy`, `Ipv6Text.dfy`, `Cidr.dfy`.
- **Peer claims.** `PeerClaims.dfy` (each stretch of code between two awaits as one
  step), `PeerRuns.dfy` and `PeerEvents.dfy` (any interleaving of them),
  `PeerService.dfy` (the service's maps and connection objects, updated in place).
- **Small machines.** `Jitter.dfy`, `CircleFit.dfy`, `WrongLock.dfy`.

Where the source keeps objects and changes them in place there is a class here, and
each of its methods is proved to do one step of a value model; a ghost history then
ties the object to the theorems about whole runs (`WsHandling.Server.Valid`,
`PeerService.AudioService.Valid`, `CameraHearingTracker.CameraHearing.Valid`).

Assumptions. Numbers are exact: times are integers, tokens, volumes and coordinates
are reals, box scores are exact rationals. The distance of a displacement
(`Math.hypot`) is a parameter; the wrong-lock results use only that no displacement
is no distance, the others nothing at all. A socket is an identity with an OPEN flag
that never comes back, delivering nothing after its close event; one message sees one
clock reading. An event of the peer service is one stretch between awaits, the
factory is asynchronous, each connection it delivers is new, and setting one up does
not throw. Player ids are unique and not empty, and an observation's name is that of
a player of its side.

Where the code and its comments differ, the code is followed. The comment on the
tiered volumes says an ally with no fresh position stays at full volume
(server/src/volumes.ts:350-352); the code scores it at its latest place of the last
20 s (server/src/volumes.ts:407-436), and so does the model
(`TieredVolumes.AllyNotFreshNotHeard` is an input that shows it, and
`TieredVolumes.AllyFullIff` says exactly when an ally is at full volume). A sender's RESET clock
is said to outlive reconnecting (server/src/rooms.ts:20-21); it is dropped whenever
the room empties, even for the moment in which a sole member renames itself, so the
spacing is stated from the last time the room was empty (`WsHistory.ClockLostWithTheRoom`
is a run that shows it). A covered track is said to live on for 6 s
(src/services/camera-hearing.ts:103-108); it is listed for up to 7 s past its last
observation, the last second as any track not seen (`IconTracks.ListedPastSixSeconds`
shows it, `IconTracks.TickListsExactly` says exactly when).
Unknown icons are said to go to players who could be there; an icon and such a player
can both be left over (`Elimination.PairLeftFree`), and `Elimination.FreePairIff` and
`Elimination.FreePairExactly` say exactly when.

## Model

| member | source | states |
|---|---|---|
| `CameraBoxSearch.FindCameraBox` | src/services/camera-box.ts:80-130 | for every mask, size and optional window the result is the first placement in scan order that none beats by (score, visible length) among those passing the thresholds, scored by direct counts over all pixels; null exactly when none reaches 0.4 or the inputs are unusable |
| `CameraBoxSearch.FoundUnique` | src/services/camera-box.ts:104-129 | that specification admits one answer |
| `CameraBoxSearch.PrefixSums` | src/services/camera-box.ts:50-70 | the two tables hold the weighted counts of every row and column prefix |
| `CameraBoxSearch.HRun` | src/services/camera-box.ts:91-97 | a clipped row run is the sum of the pixel weights between its ends, and its visible length |
| `CameraBoxSearch.VRun` | src/services/camera-box.ts:98-103 | the same for a column run |
| `CameraBoxSearch.HorizontalRuns` | src/services/camera-box.ts:114-118 | the two row runs together are the marked weight of the box's horizontal edges, counted pixel by pixel |
| `CameraBoxSearch.VerticalRuns` | src/services/camera-box.ts:114-118 | the two column runs together are the marked weight of its vertical edges between the corners |
| `CameraBoxSearch.VisibleRuns` | src/services/camera-box.ts:114-118 | the four clipped runs count every visible outline pixel exactly once |
| `CameraBoxSearch.ScoreAtMostOne` | src/services/camera-box.ts:118-123 | hits never exceed twice the visible length, with equality exactly when every visible outline pixel is marked |
| `CameraBoxSearch.OffByOneScoresHalf` | src/services/camera-box.ts:50-70 | an outline each visible pixel of which is marked, or has a mark across its edge, scores at least one half |
| `CameraBoxSearch.ScoresNothingIff` | src/services/camera-box.ts:50-70 | a placement scores nothing if and only if no visible outline pixel is marked or has a mark across its edge |
| `CameraBoxSearch.NothingFoundIff` | src/services/camera-box.ts:104-129 | nothing is found if and only if, of all corners that leave at least two rows and two columns on the minimap (and within the radius each way when looking near), none shows a quarter of its perimeter with three tenths of a horizontal and of a vertical edge and two fifths of what is visible hit |
| `CameraBoxSearch.ExactRecovery` | src/services/camera-box.ts:104-129 | if the mask holds the whole outline of exactly one wholly visible placement, the search returns it with score 1, whatever else is marked |
| `CameraBoxSearch.FullWindowHasVisible` | src/services/camera-box.ts:106-109 | the full search tries every wholly visible placement |
| `CameraBoxTracking.LearntIsTheMedian` | src/services/camera-box.ts:182-189 | over any run, resets included, the sizes kept are those of the last 15 boxes read whole, and the learnt size is nothing before five and their median from five on |
| `CameraBoxTracking.LearntResistsMinority` | src/services/camera-box.ts:182-189 | over any run, if more than half of those widths (or heights) lie in a range, so does the learnt one: a minority of misread boxes cannot move it out |
| `CameraBoxTracking.CameraBoxTracker.Update` | src/services/camera-box.ts:153-173 | a frame reports what the local search, the throttled full search and the hold say, each search that runs being the specified one, and takes the tracker from one point of a run to the next |
| `CameraBoxTracking.CameraBoxTracker.NoteWholeBox` | src/services/camera-box.ts:182-189 | leaves the sizes of the last 15 boxes ever read whole, and their median as the learnt size from five on |
| `CameraBoxTracking.FullSearchesSpaced` | src/services/camera-box.ts:160-166 | over any run full searches with no reset between them are at least 100 ms apart, whatever the clock does |
| `CameraBoxTracking.FrameExactly` | src/services/camera-box.ts:153-173 | over any run, exactly what a frame does, told from the frames before it: the whole minimap is searched if and only if the near search gives nothing of 0.6 or more and no full search since a reset is less than 100 ms back; the near find comes first; and a box is reported if and only if found now, or, nothing being found now, found last at most 1000 ms before with no reset since |
| `CameraBoxTracking.ReportedWasFound` | src/services/camera-box.ts:167-173 | over any run a reported box was found on this frame, or at most 1000 ms before with no reset since |
| `CameraBoxTracking.ReportedWasRead` | src/services/camera-box.ts:153-173 | over any run every reported box is the specified search's answer on the mask of this frame, or of one at most 1000 ms before with no reset since: of the size looked for, enough of its outline showing, scoring 0.4 or more, and beaten by no placement tried |
| `Elimination.SortIsStable` | src/services/camera-hearing.ts:291 | the pairs are permuted into (tier, cost) order, those of one rank staying in the order listed |
| `Elimination.AssignIsSound` | src/services/camera-hearing.ts:280-304 | each placed player is a candidate on an icon it could be at, and no icon holds two |
| `Elimination.AssignIsStable` | src/services/camera-hearing.ts:291-296 | for every pair considered, one no later in (tier, cost) order was taken on its player or icon: no pair is left with both sides free or both bound only to later pairs |
| `Elimination.LikenessDecides` | src/services/camera-hearing.ts:284-296 | on scores alone, a missing one counting -1: whatever matched icon a candidate could be at, the candidate is on a matched icon on which it scores at least as much, or that icon is with someone who scores at least as much on it |
| `Elimination.NearnessDecides` | src/services/camera-hearing.ts:284-296 | likewise for unmatched icons, by distance from the last sighting, matched icons going first |
| `Elimination.RestIsPlacedIff` | src/services/camera-hearing.ts:297-304 | those never named and on no matched icon are all placed, on icons with no one seen before, if there are enough such icons and they are all inside the box or all outside; otherwise none is |
| `Elimination.FreePairExactly` | src/services/camera-hearing.ts:297-302 | told from the answer alone: a player and an icon are both left free if and only if the player was never named and is on no matched icon, the icon is unmatched and holds no one seen before, and the rest do not fit |
| `Elimination.CouldHaveWalked` | src/services/camera-hearing.ts:309-315 | a player seen t ms ago could be at most 1.5 icons and 0.45 icons a second away |
| `Elimination.InBoxIff` | src/services/camera-hearing.ts:346-351 | inside the box with a quarter of an icon around it |
| `Elimination.FreePairIff` | src/services/camera-hearing.ts:297-302 | a player and an icon it could be at are both left free if and only if the player was never named, the icon never matched, both were left over, and the guard fails (more such players than icons, or icons on both sides of the box) |
| `Elimination.PairLeftFree` | src/services/camera-hearing.ts:297-302 | such a pair exists: with two teammates never named and one icon never matched, the icon and either of them are left free |
| `Elimination.HeardAtMostIcons` | src/services/camera-hearing.ts:210-218 | players heard by elimination never outnumber the unknown icons in the box |
| `Elimination.AssignUnknown` | src/services/camera-hearing.ts:280-304 | the loops compute that assignment |
| `IconTracks.FoldKeeps` | src/services/camera-hearing.ts:461-503 | folding in an observation keeps each name on one track at most and of its side, and puts it on a track of its side that is no longer free |
| `IconTracks.EachOnItsTrack` | src/services/camera-hearing.ts:461-486 | the observations of a tick end on tracks of their own, no two sharing one, at their place, side and time |
| `IconNames.SpotExactly` | src/services/camera-hearing.ts:461-482 | an observation goes to a free track with its name within 1.8 icons if there is one; else to the nearest free track of its side with no other name within 0.9 icons; else to a new one |
| `IconNames.TickNamesExactly` | src/services/camera-hearing.ts:453-502 | over a whole tick, told from the observations as taken in and where each went: a name one of them carries is on the track the last such went to and on no other; any other name stays where it was, unless an observation there is matched with someone 0.3 or more above it |
| `IconNames.DemotedExactly` | src/services/camera-hearing.ts:453-460 | an observation keeps its name exactly if every live track with that name is within 1.8 icons or its own score is 0.8 or more |
| `IconNames.NamedIconLands` | src/services/camera-hearing.ts:448-503 | a name accepted on the one observation that carries it is, after the tick, on a track at that observation's place and of its side, seen now |
| `IconNames.UnseenNameStays` | src/services/camera-hearing.ts:489-502 | a name no observation is accepted as stays on its track if and only if no observation there is matched and clearly someone else |
| `IconNames.TickRemembers` | src/services/camera-hearing.ts:477-490 | a track keeps its side and birth; its scores are those of the matched observation that went to it, else as before |
| `IconTracks.IngestKeeps` | src/services/camera-hearing.ts:448-516 | after every tick names are apart and on their own side, and no listed track was last observed more than 7000 ms before (6000 ms kept alive, 1000 ms to be forgotten) |
| `IconTracks.EveryIconIsTracked` | src/services/camera-hearing.ts:448-511 | every observation of a tick is on a track of its own at the end of it |
| `IconTracks.TickListsExactly` | src/services/camera-hearing.ts:450-511 | for any tracks, observations and covered places: a track goes on being listed exactly if it was last seen, or found covered, at most 1000 ms before; every other track listed was observed now; and one that no observation took is left as it was but for its name, counting as seen exactly if covered and observed at most 6000 ms before |
| `IconTracks.QuietTick` | src/services/camera-hearing.ts:450-511 | with no observations the tracks listed are those still live, each as it was but for being kept alive |
| `IconTracks.ListedPastSixSeconds` | src/services/camera-hearing.ts:504-511 | an icon observed once and then found covered every second is still listed 7000 ms after it was observed |
| `IconTracks.SeenAfterIs` | src/services/camera-hearing.ts:512-514 | a player named on an icon seen now was last seen there; for anyone else nothing changes |
| `IconRiders.RidesKeep` | src/services/camera-hearing.ts:528-571 | after every tick riders are under current tracks, one ride each, disjoint from the named and the dead, an enemy's ride at most 6000 ms old, each ride going on from before or of a player named the tick before |
| `IconRiders.RideHasAStart` | src/services/camera-hearing.ts:561-569 | over any run every ride began at a tick after one in which the player was named, and has gone on ever since |
| `IconRiders.EnemyRidesAreBounded` | src/services/camera-hearing.ts:537-541 | over any run an enemy is never taken for hidden more than 6000 ms past the tick its ride began, whatever the clock does |
| `IconRiders.NamedBetweenRides` | src/services/camera-hearing.ts:561-570 | over any run a player that rides, stops and rides again was named on an icon in between |
| `RideRules.RidesExactly` | src/services/camera-hearing.ts:528-571 | on the tracks, sightings and names themselves: after a tick a player rides if and only if its ride goes on (out of sight, an enemy for at most 6000 ms, its host showing or an ally's icon within 1.2 icons, 0.7 for an enemy, of where it was) or one begins (named the tick before, out of sight, last seen that near an ally's icon); a ride that begins does so now under the nearest such icon |
| `RideRules.RidesCarryOn` | src/services/camera-hearing.ts:546-558 | every ride that goes on is carried on under the same host, or on a newer unnamed icon of its side within 1.2 icons of the host |
| `IconRiders.UpdateRides` | src/services/camera-hearing.ts:528-571 | the two loops compute the next rides, all under current tracks |
| `HearingPlaces.SettledIsSound` | src/services/camera-hearing.ts:247-251 | on one side every assignment becomes a place: candidates of the side, each on an unknown live icon of it that it could be at, one an icon |
| `HearingPlaces.EliminatedIsSound` | src/services/camera-hearing.ts:247-251 | over both sides no icon holds two, and each is alive, named nowhere and on an unknown icon of its own side |
| `HearingPlaces.LooseExactly` | src/services/camera-hearing.ts:248-250 | elimination looks for every living player of the side that no showing track is named after, and for no one else |
| `HearingPlaces.UnknownExactly` | src/services/camera-hearing.ts:244-247 | and at every track of the side seen within 1000 ms that has no name, and at no other |
| `HearingPlaces.LikenessSettles` | src/services/camera-hearing.ts:247-251 | over the whole map: whatever matched unknown icon of its side such a player could be at, it is on a matched icon on which it scores at least as much, or that icon is with someone who does |
| `HearingPlaces.PlacedIff` | src/services/camera-hearing.ts:232-270 | nobody vanishes without a reason: a player is on an icon if and only if a showing track has its name; or it lives, and elimination places it, or its host shows, or it is an ally seen within 3000 ms that could be at some showing ally icon |
| `HearingPlaces.PlacedWhere` | src/services/camera-hearing.ts:242-270 | and on which: its own before the one elimination gives it, before its host, before the nearest ally icon it could be at |
| `HearingPlaces.PlaceAll` | src/services/camera-hearing.ts:242-270 | each player is placed exactly where the reference says and nowhere else: where its name is; else, if alive, on the icon the assignment gives it; else where its host shows; else, an ally seen within 3 s, under the icon nearest to where it was seen of those it could be at, the first on a tie |
| `HearingPlaces.EliminateSide` | src/services/camera-hearing.ts:247-251 | the unknown icons of a side go to its candidates exactly as the assignment says |
| `HearingPlaces.AudibleNow` | src/services/camera-hearing.ts:219-230 | with the box known the players heard are exactly the living ones, but the local one, whom the reference places on a live track inside it, and those of them placed by elimination do not outnumber the unknown icons in the box |
| `CameraHearingTracker.CameraHearing.Ingest` | src/services/camera-hearing.ts:448-571 | updating the track objects in place makes of them what the tick of the value model says, riders, last sightings and names included, and keeps every invariant |
| `CameraHearingTracker.CameraHearing.FindTrack` | src/services/camera-hearing.ts:462-476 | the track an observation continues: the first carrying its name within twice the reach, else the nearest free compatible one of its side |
| `CameraHearingTracker.CameraHearing.UpdateRiders` | src/services/camera-hearing.ts:528-571 | riders follow their host objects, found again by identity, as the value model says |
| `CameraHearingTracker.CameraHearing.SetPlayers` | src/services/camera-hearing.ts:158-165 | new players start from no tracks, riders or last sightings |
| `CameraHearingTracker.CameraHearing.SetDead` | src/services/camera-hearing.ts:168-173 | the dead change and no invariant is lost |
| `CameraHearingTracker.CameraHearing.Reset` | src/services/camera-hearing.ts:333-342 | forgets everything but the players and the dead, the last audible set and its time included, and resets the box tracker |
| `CameraHearingTracker.CameraHearing.OnFrame` | src/services/camera-hearing.ts:185-204 | every frame the box is what the box tracker reports; at most every 250 ms its size is learnt and the icons are taken in as one tick, and otherwise no track, rider or sighting changes |
| `CameraHearingTracker.CameraHearing.Audible` | src/services/camera-hearing.ts:219-230 | while the box is known the audible set is rightly heard of the objects as they are; while it is not, nobody is heard, or those who were rightly heard when it last was, at most one second before |
| `CircleFit.FitCircleCentre` | src/services/tracking-helpers.ts:1083-1101 | the accumulation loop and Cramer's rule give the centre of the fit, or nothing when it declines |
| `CircleFit.FitIsTheMinimiser` | src/services/tracking-helpers.ts:1085-1100 | no other (D, E, F) has a smaller sum of squared residuals, and no other has as small a one |
| `CircleFit.PointsOnACircle` | src/services/tracking-helpers.ts:1081-1083 | points lying on one circle give exactly its centre |
| `CircleFit.DetZeroIffCollinear` | src/services/tracking-helpers.ts:1094-1096 | the determinant vanishes exactly when the points lie on one line |
| `CircleFit.NoFitExactly` | src/services/tracking-helpers.ts:1084-1096 | the fit declines exactly fewer than three points, collinear points, and those with a determinant below the threshold |
| `RoomState.JoinInv` | server/src/rooms.ts:31-69 | a join, evicting the holder of the name, keeps the two indexes inverse, names unique, no room empty and clocks only for rooms, if and only if the socket holds no other seat |
| `RoomState.LeaveInv` | server/src/rooms.ts:76-97 | a leave keeps them too, dropping an emptied room with its clocks |
| `RoomState.SetMemberInv` | server/src/rooms.ts:134-166 | replacing an entry by one of the same socket, room and name keeps them too |
| `RoomState.EvictedFacts` | server/src/rooms.ts:42-48 | the entry a join evicts is the one found under the name, and stands in both indexes |
| `RoomManagement.RoomManager.Join` | server/src/rooms.ts:31-69 | the in-place join, from no seat or into the socket's own again, is the value-level join: state, peer names and evicted entry |
| `RoomManagement.RoomManager.Leave` | server/src/rooms.ts:76-97 | the in-place leave is the value-level leave, and returns the objects that remain |
| `RoomManagement.RoomManager.GetOthersInRoom` | server/src/rooms.ts:106-112 | the objects of the others in the room, in order, with their current values |
| `RoomManagement.RoomManager.FindInRoom` | server/src/rooms.ts:118-122 | the object of the first entry under the name, or nothing |
| `RoomManagement.RoomManager.SetPosition` | server/src/rooms.ts:143-148 | updating the shared object updates the entry in both indexes and nothing else, and drops the last sighting |
| `RoomManagement.RoomManager.SetCamera` | server/src/rooms.ts:154-158 | likewise for the camera |
| `RoomManagement.RoomManager.ClearPosition` | server/src/rooms.ts:221-233 | drops position and camera, and keeps a sighting dated by its clamped age or none |
| `RoomManagement.RoomManager.TryStampRoomReset` | server/src/rooms.ts:172-177 | stamps exactly when allowed, and otherwise changes nothing |
| `RoomManagement.RoomManager.StampSenderReset` | server/src/rooms.ts:188-195 | stamps one name in one room |
| `RoomManagement.RoomManager.StateIsTheObjects` | server/src/rooms.ts:13-22 | wherever an object stands, its fields are the state's entry there |
| `WsProtocol.BroadcastJoined` | server/src/ws-handler.ts:156-160 | a broadcast adds the name to the view of each listed OPEN socket and to no other |
| `WsProtocol.BroadcastLeft` | server/src/ws-handler.ts:289-297 | likewise for removing it |
| `WsMembership.PeersArePlaced` | server/src/rooms.ts:50-68 | the names a join reports are exactly those seated in the room, its own seat apart |
| `WsMembership.EnterKeeps` | server/src/ws-handler.ts:142-161 | a join keeps every OPEN member's view equal to the other names in its room |
| `WsMembership.LeaveAndTellKeeps` | server/src/ws-handler.ts:131-140 | so does a move out of a room or a close |
| `WsRuns.StepKeeps` | server/src/ws-handler.ts:105-297 | every legal event keeps the indexes and all views right, and moves the seats as the reference plan does |
| `WsRuns.MembershipAgreement` | server/src/ws-handler.ts:106-184 | after any run the indexes are inverse, list exactly the seats of the reference plan, and each OPEN member's view folded from its frames is the set of other names in its room |
| `WsRuns.SeatHeldByNewestJoin` | server/src/rooms.ts:34-48 | a seat is held exactly by the newest join of it that has neither moved nor closed |
| `WsRuns.SignalGoesToNewestJoin` | server/src/ws-handler.ts:164-184 | a signal goes to the newest join still holding the name, if OPEN, and otherwise the sender gets an error |
| `WsSockets.OpenExactly` | server/src/ws-handler.ts:145-151 | over any run a socket is OPEN if and only if it connected and has since neither begun to close nor been turned out by another that joined under its seat |
| `WsSockets.PositionReachesOthers` | server/src/ws-handler.ts:186-199 | what a seated socket tells of itself reaches exactly the OPEN sockets seated in its room besides it, under its name and unchanged |
| `WsSockets.UnseatedAreRefused` | server/src/ws-handler.ts:164-240 | a socket with no seat gets an error, and changes nothing, whatever it asks but to join |
| `WsReports.EntriesAreAsReported` | server/src/rooms.ts:31-166 | over any run, told from the messages by seat: each entry's team, position, camera, last sighting and sharedReset flag are what the messages under its room and name say, carried over by a takeover and dropped by a leave |
| `WsReports.LatestReportStands` | server/src/ws-handler.ts:236-276 | the latest report under a seat held ever since stands, with its own x, y and time: a position with or without a camera, or nothing, or a last sighting dated by its age cut to 0 to 20 s |
| `WsHistory.AcceptedIffSpaced` | server/src/ws-handler.ts:225-229 | the clock checks accept exactly when every RESET relayed since the room was last empty is far enough back |
| `WsHistory.ResetsAreSpaced` | server/src/rooms.ts:168-195 | over any run RESETs are 15 s apart in a room and 30 s per name while it never empties, and clocks exist only for rooms with someone in them |
| `WsHistory.ClockLostWithTheRoom` | server/src/rooms.ts:87-91 | a legal run in which a player alone has two RESETs relayed one second apart, by reconnecting under the same name between them |
| `WsHistory.RelayedExactlyWhenSpaced` | server/src/ws-handler.ts:211-234 | a request is relayed exactly when its sender opted in and the spacing allows; a refused one changes nothing |
| `WsHistory.ResetReachesOptedIn` | server/src/ws-handler.ts:230-232 | a relayed RESET reaches exactly the OPEN sockets of the others in the room who opted in |
| `WsHistory.OnlyOptedInAreReset` | server/src/ws-handler.ts:212-219 | whatever the event, a RESET is sent only to one who has opted in, for a sender who has |
| `WsHistory.StoredSightingsWereReported` | server/src/rooms.ts:52-63 | in every reachable state position and last sighting never stand together, a camera only beside a position, and each stored sighting was reported under that room and name with its clamped age, through takeovers |
| `WsHandling.Server.OnJoin` | server/src/ws-handler.ts:106-162 | the handler's join, on the objects and in loops, is the protocol's join, frames included |
| `WsHandling.Server.OnSignal` | server/src/ws-handler.ts:164-184 | likewise for a signal |
| `WsHandling.Server.OnResetAll` | server/src/ws-handler.ts:211-234 | likewise for a shared RESET |
| `WsHandling.Server.OnCoords` | server/src/ws-handler.ts:236-276 | likewise for coordinates |
| `WsHandling.Server.OnClose` | server/src/ws-handler.ts:289-297 | likewise for a close |
| `WsHandling.Server.Handle` | server/src/ws-handler.ts:74-297 | any event takes the server object from one point of a legal run to the next, state and sent frames both |
| `TieredVolumes.VolumeFallsOff` | server/src/volumes.ts:134-151 | volume is full exactly to 900, silent exactly from 1350, within 0 and 1, and never louder further away |
| `TieredVolumes.VolumeInBand` | server/src/volumes.ts:134-151 | between 900 and 1350 what is lost of the volume is the square of the way past 900 as a share of 450 |
| `TieredVolumes.ClosestApproach` | server/src/volumes.ts:333-345 | the loop returns the least pairwise distance, infinite exactly when there is no pair |
| `TieredVolumes.ComputeTieredVolumes` | server/src/volumes.ts:362-491 | the loop gives every entry the score of the specification, a later entry of a name replacing an earlier, and rejects an invalid request |
| `TieredVolumes.ScoredByDistance` | server/src/volumes.ts:467-477 | a teammate under ally proximity with such a place, or anyone else with a fresh position, gets the louder of the champion score and, with both opted in, the camera score, and is listed exactly when that is not silence |
| `TieredVolumes.AllyFullIff` | server/src/volumes.ts:399-478 | on teams and stamps: someone on the requester's team is at full volume exactly when ally proximity is off, or neither a position nor a last sighting of the last 20 s is known, or the latest of them is within 900 of the champion, or of the camera when both published one |
| `TieredVolumes.AllyHeardIff` | server/src/volumes.ts:399-478 | on teams and stamps: a teammate is heard exactly when ally proximity is off, or it has no place of the last 20 s, or the latest one is nearer than 1350 |
| `TieredVolumes.AllyNotFreshNotHeard` | server/src/volumes.ts:407-478 | a teammate whose position is 6 s old and out of range is left out of the answer under ally proximity |
| `TieredVolumes.StrangerHeardIff` | server/src/volumes.ts:402-477 | on teams and stamps: someone on another team, or anyone for a requester with none, is heard exactly when the request is not for allies alone and a position of the last 5 s is nearer than 1350 to the champion, or to the camera when both published one |
| `TieredVolumes.ScoredNowhere` | server/src/volumes.ts:407-452 | a peer scored nowhere (a teammate with ally proximity off or no place of the last 20 s, anyone else with no fresh position or not asked for) is at full volume if a teammate and left out if not |
| `TieredVolumes.AnswerExactly` | server/src/volumes.ts:362-491 | for a valid request from a seated client the answer holds another client's name exactly when its score is not silence, and then that score |
| `TieredVolumes.OwnCameraNeedsTheirs` | server/src/volumes.ts:448-469 | the requester's camera is nothing to a peer without a fresh one |
| `TieredVolumes.OthersCamerasAreIrrelevant` | server/src/volumes.ts:455-470 | moving other clients' cameras, presence and freshness kept, changes nothing |
| `TieredVolumes.SightingsAreForTeammates` | server/src/volumes.ts:407-444 | changing the last sighting of anyone but a teammate, or of anyone for a requester without a team, changes nothing |
| `TieredVolumes.OrderIsIrrelevant` | server/src/volumes.ts:399-479 | with unique names the answer does not depend on the order of the room |
| `TieredVolumes.ReachableAnswers` | server/src/volumes.ts:374-490 | in every reachable room the answer is exactly each other entry's score, every volume in (0, 1] |
| `TieredVolumes.SightingsExpire` | server/src/volumes.ts:314-322 | over any run, wherever an entry's last sighting makes any difference to its score, that sighting was reported for its room and name, at some t with some age a, and it is no later than t - clamp(a, 0, 20000) + 20000, takeovers included |
| `TokenBuckets.TokenBucket.TryConsume` | server/src/rate-limit.ts:39-56 | answers and updates one key's bucket as the specification says |
| `TokenBuckets.TokenBucket.PruneIdle` | server/src/rate-limit.ts:62-71 | drops exactly the buckets idle for longer and counts them |
| `TokenBuckets.TokensAreTheTightestWindow` | server/src/rate-limit.ts:39-56 | tokens before a decision are the minimum over visits j of capacity + refill since j - grants since j |
| `TokenBuckets.RefusedIffWindowExhausted` | server/src/rate-limit.ts:51-55 | refused exactly when some window is exhausted |
| `TokenBuckets.WindowBound` | server/src/rate-limit.ts:45-55 | grants in any window never exceed capacity plus refill over its length |
| `TokenBuckets.ConfiguredBounds` | server/src/rate-limit.ts:136-150 | in any span of t ms the configured limiters grant at most 60 + t/1000, 180 + 0.09 t and 800 + 0.4 t |
| `TokenBuckets.CredentialsRefusedExactly` | server/src/rate-limit.ts:136-138 | a request for relay credentials is refused if and only if more than 59 + t/1000 were granted over the t ms of some span ending at it |
| `TokenBuckets.PruningIsUnobservable` | server/src/rate-limit.ts:58-71 | with a clock that never goes back and idle times that refill a bucket, any sweeps leave every answer as it was |
| `TokenBuckets.UnobservableIffLongEnough` | server/src/rate-limit.ts:58-71 | for a bucket of n tokens sweeping is unobservable in every run if and only if a bucket idle for longer refills |
| `TokenBuckets.ConfiguredSweepsAreSafe` | server/src/index.ts:65-71 | the three swept limiters refill within the ten minutes the server sweeps with |
| `TokenBuckets.LimiterRefusesIffWindowExhausted` | server/src/rate-limit.ts:27-77 | with many keys and safe sweeps, a key is refused exactly when one of its own windows is exhausted |
| `Ipv6Text.ParserInvertsPrinter` | server/src/rate-limit.ts:202-224 | every text of section 2.2 of RFC 4291 for eight hextets, any one zero run elided, any spelling, dotted tail or not, parses to those hextets |
| `Ipv6Text.ExpandsToHextets` | server/src/rate-limit.ts:221-223 | whatever the text, an expansion is eight values of 16 bits |
| `Ipv6Text.SameKeyIffSameSlash64` | server/src/rate-limit.ts:253-258 | two IPv6 texts share a bucket key exactly when their first four hextets agree |
| `Ipv6Text.FamiliesKeepApart` | server/src/rate-limit.ts:253-258 | an address of another family is its own key and never shares one with an IPv6 address |
| `Cidr.MatchesIsSamePrefix` | server/src/rate-limit.ts:303-314 | comparing group by group after shifting is comparing the addresses as integers divided by 2^(width - prefix) |
| `Cidr.IpInNet` | server/src/rate-limit.ts:303-314 | the loop stays in bounds and is true exactly for the same family and prefix (section 3.1 of RFC 4632, section 2.3 of RFC 4291) |
| `Cidr.ParseCidr` | server/src/rate-limit.ts:287-300 | a network exactly when the address is one and the length is absent or an integer within its width: the address's own groups, and that length or the full one |
| `Cidr.AddressGroups` | server/src/rate-limit.ts:273-280 | what an address splits into is always four groups of 8 bits or eight of 16, as the matcher needs |
| `Cidr.AddressReadsBack` | server/src/rate-limit.ts:273-280 | any text of an address splits into its groups: four decimal bytes, or a text of section 2.2 of RFC 4291 |
| `Cidr.AddressBits` | server/src/rate-limit.ts:269-270 | groups have 8 and 16 bits, addresses 32 and 128 |
| `Cidr.BareAddressMatchesItself` | server/src/rate-limit.ts:295-296 | an address without a length matches itself and nothing else |
| `Cidr.LongerPrefixIsNarrower` | server/src/rate-limit.ts:303-314 | a longer prefix of the same network matches less |
| `PeerClaims.StepKeeps` | src/services/audio.ts:356-579 | every stretch between awaits keeps claims and connections apart, every delivered connection registered or closed, one owner a creation and one creation a connection |
| `PeerRuns.RegisteredOrClosed` | src/services/audio.ts:372-426 | after any interleaving a name is never both claimed and connected, both claim maps list the same names, and a delivered connection is registered under its name exactly when it is not closed |
| `PeerEvents.RegisteredExactly` | src/services/audio.ts:379-425 | told from the events: the connection delivered for a creation is registered under its name if and only if the session has not ended and the name has not been dropped since the creation began |
| `PeerEvents.RegistrationLasts` | src/services/audio.ts:508-579 | what is registered stays so until its name is dropped, the session ends, or an offer on that very connection fails |
| `PeerEvents.CallersAreGiven` | src/services/audio.ts:356-370 | a caller is given the connection registered; else the creation under way, its name not dropped since it began; and only if there is neither does it start one, and is told so |
| `PeerEvents.OffersExactly` | src/services/audio.ts:490-497 | a resumed caller makes an offer if and only if it is to initiate and the connection delivered for the creation it started is still registered, and on that connection |
| `PeerRuns.OneCreator` | src/services/audio.ts:351-370 | at most one caller a connection is told it created it, and only that one may be offering |
| `PeerRuns.SomeCreator` | src/services/audio.ts:365-369 | every creation has a caller told it is its creator |
| `PeerRuns.EndedIsClosed` | src/services/audio.ts:885-913 | once the session has ended nothing is registered and every connection, even one delivered later, is closed |
| `PeerRuns.HeldIsFirst64` | src/services/audio.ts:445-460 | what is held for a name is the first 64 of the signals that wait for it, in arrival order |
| `PeerRuns.HeldExactly` | src/services/audio.ts:538-544 | a signal waits exactly when it arrived with no connection there and the name has neither been given one nor been dropped since |
| `PeerRuns.HeardInOrder` | src/services/audio.ts:462-473 | each connection is handed the first 64 that waited and then all that arrive while it is registered, once each and in order |
| `PeerRuns.HeardOnce` | src/services/audio.ts:462-473 | no signal is handed to two connections, or handed out and still held |
| `PeerRuns.NeverPastADrop` | src/services/audio.ts:563-579 | a signal that arrived before its name was dropped is never handed to a connection made later |
| `PeerService.AudioService.EnsurePeer` | src/services/audio.ts:356-370 | the synchronous lookup or claim on the service's maps is the step of the protocol |
| `PeerService.AudioService.PeerArrives` | src/services/audio.ts:379-425 | what follows the factory: register and replay, or close, then release its own claim |
| `PeerService.AudioService.FlushPendingSignals` | src/services/audio.ts:462-473 | the replay loop hands over all that was held, in order, and holds nothing |
| `PeerService.AudioService.AfterEnsure` | src/services/audio.ts:490-497 | what a resumed caller goes on to: an offer for the creator whose connection still stands |
| `PeerService.AudioService.OfferFails` | src/services/audio.ts:508-512 | a failed offer drops the name if it still has that connection, else closes it alone |
| `PeerService.AudioService.DropPeer` | src/services/audio.ts:568-579 | closes the connection and forgets everything kept under the name |
| `PeerService.AudioService.Cleanup` | src/services/audio.ts:885-913 | ends the session: every registered connection closed, every map emptied |
| `PeerService.AudioService.Handle` | src/services/audio.ts:356-579 | any event takes the service from one point of a run to the next |
| `JitterBuffer.Jitter.Push` | src-tauri/src/audio_out.rs:56-64 | appends, and past the maximum keeps the newest target's worth, counting what it drops |
| `JitterBuffer.Jitter.Pull` | src-tauri/src/audio_out.rs:68-93 | fills the output with silence or the oldest samples, trims one sample when far ahead, and stops when dry |
| `JitterBuffer.StreamRefinement` | src-tauri/src/audio_out.rs:56-93 | between clears the buffer is exactly the newest samples pushed, what is played is an in-order selection of what was pushed, pushed = played + dropped + held, and held never exceeds the maximum |
| `JitterBuffer.SteadyBound` | src-tauri/src/audio_out.rs:76-81 | with pulls of n and at most n + 1 samples between them, no more than 2 target + n + 1 is ever held, whatever the maximum |
| `JitterBuffer.SteadyOnlyTrims` | src-tauri/src/audio_out.rs:58-81 | when that fits in the maximum, no push drops and a pull drops at most one sample |
| `JitterBuffer.PlayingIff` | src-tauri/src/audio_out.rs:68-93 | between clears it is playing if and only if a callback found the target held and none has asked for more than was held since |
| `JitterBuffer.HeardExactly` | src-tauri/src/audio_out.rs:68-93 | after any run a callback of n hears silence while less than the target is held and it is not playing; otherwise what is held from the front, past one sample when more than two targets and n are held, then silence |
| `JitterBuffer.HoldsExactly` | src-tauri/src/audio_out.rs:56-93 | and exactly how much is held after each push and callback |
| `WrongLock.EvidenceIsAStreak` | src/services/tracking-helpers.ts:604-638 | the evidence always sums up a streak of supporting runs that began after every earlier switch |
| `WrongLock.SwitchNeedsAStreak` | src/services/tracking-helpers.ts:634-636 | a switch needs at least 6 supporting runs over at least 4000 ms with no gap over 3000 ms, no contradicting run, the followed blob still and the favourite moving at most one icon a time, none counted towards an earlier switch |
| `WrongLock.SwitchesExactly` | src/services/tracking-helpers.ts:604-638 | over any trace a run switches if and only if it continues the streak in hand (supports, close enough in time, the followed blob still, the favourite moved at most one icon) and makes that 6 runs over 4000 ms |
| `WrongLock.SteadyWrongLockIsCaught` | src/services/tracking-helpers.ts:615-637 | on a streak begun on empty evidence the run that ends it switches if and only if enough runs support over enough time |

## Left out

- Floating point: rounding, NaN and infinities; coordinates, tokens and volumes are exact reals, and `Math.hypot` is a parameter.
- Pixel matching and the champion model (`icon-identity.ts`, `skin-matcher.ts`, `champion-classifier.ts`): scores and names are arbitrary inputs.
- `observe`, `coveredEnemies`, `redOnOutline`, the blob shape tests and `matchSets`: observations and covered places are arbitrary inputs to a tick, and so is the box `describeViewportCenter` reads whole.
- The ring heuristics of `tracking-helpers.ts` (`filledIconRing`, `outlineFit`) and `computeNearFieldPx`.
- The older volume paths (`computeVolumes`, `computeVolumesFromRoom`, encryption), the debug trace, and the effect of a peer named `__proto__` on the answer object.
- Text handling around addresses: `isIP`, trimming, zones, ports and brackets, environment parsing, the signs, spaces and `0x` forms `Number` and `parseInt` would take, the proxy walk of `clientIp` and the deprecated hop-count path.
- `validateJoin`, JSON decoding, heartbeats, the per-message limiter and error texts in the handler: a message that is answered with an error and nothing else is one kind of event.
- WebRTC, WebAudio, cpal and timers: a connection is its name, a closed flag and the signals handed to it; what an offer or answer does inside it, and a factory that throws synchronously, are not modelled.
- `turn.ts`, HTTP routing, `ConcurrencyLimiter`, `RejectionCounters`, `orchestrator.ts`, `heartbeat.ts`, `key_decision.rs`, `game-window.ts`, `keymap.ts`, translations and panels: easy members, or ones whose meaning lies elsewhere.
- `CameraHearingTracker.CameraHearing.Ingest`: iterating a map while deleting from it is modelled by the insertion order of riders and names; a tick's read-only work is done on a snapshot of the track objects.
- `Cidr.ParseCidr`: takes the entry's address and what follows its slash already told apart; cutting the text at its last slash and reading the number is not modelled, because it is string handling of no depth.
- `RoomManagement.RoomManager.Join`: only for a socket that holds no other seat, because any other join breaks the indexes (`RoomState.JoinInv`); the handler leaves the old seat first.
- `WrongLock.SteadyWrongLockIsCaught`: complete only for streaks begun on empty evidence, because the machine keeps one streak at a time and can pass over a later start of one.
- `PeerClaims.StepKeeps`: the connection's own closing by the network is not an event; closed means closed by this service.
