# BOB Claw dashboard: a verified model

The dashboard is a browser script that shows where bitcoin-denominated capital sits, how it moves
between chains, and what its strategies earn. This project models the parts of it that carry logic
and proves what they promise. Three parts matter most.

- **Live status.** Snapshots arrive from polls, from pushes and from the bootstrap fetch. A gate
  decides whether a snapshot replaces the current one; a single-flight refresh, one interval timer and
  one event stream are shared by everything that happens in the page. `Status`, `Selection` and `Gate`
  model the snapshots, the choice among the payloads of one poll, and the gate; `StatusLaws` and
  `SelectionLaws` say what they answer in terms of the snapshots' fields. `Session` models the
  fields of `window` as a state machine whose steps are the uninterrupted stretches of script; `Commits`
  says, field by field, what a committed payload puts on the page; `SessionLaws` proves what holds over
  every run; `LiveWindow` is the script itself, in place on those fields: each handler is one step and
  keeps the object valid, and a driver runs any events.
- **The map.** A spring solver moves bodies in place on every frame, a bounds pipeline fits shapes into
  a safe area, and lines and chips are laid out. `Bodies` is one frame as a function on values,
  `Solver` the loops over body objects. `Contacts` and `Superposition` give the exact equation of motion:
  although the loops update velocities pair after pair, every body moves as if all pushes came at once,
  so the order of the bodies does not matter. `SolverLaws`, `Decay`, `Settling` and `Stillness` hold the
  laws over runs.
  `Bloom` and `BloomBodies` lay out the protocol chips, `MapLayout` all bodies of the map; `MapLaws`
  says exactly when that layout stays still, `ElevenChains` what this means for the ring the dashboard
  shows. `Viewport`, `Segments`, `Movements`, `MovementLaws` and `MovementFields` cover the rest of the map.
- **Aggregation.** `Assets` and `Capital` derive holdings, totals and money per chain and protocol,
  `Activity` and `ActivityLaws` group recent activity, `Protocols` groups strategies and averages their rates,
  `ChainRing` and `ChainRingLaws` order the chains around the hub. `Sorting`, `Trig` and `Prelude` are
  shared.

Conventions. Money, positions and rates are exact reals; a number that `Number.isFinite` rejects is
`None`, except in `Viewport`, where infinities are part of the algorithm. Square root, hypotenuse, sine,
cosine, string lower-casing and locale order are parameters, with the facts used about them stated as
predicates (`IsSqrt`, `IsHypot`, `IsTrig`, `TotalOrder`). Ids are opaque strings, the empty string standing for
a missing one. What a fetch returns, when timers fire, what the clock says and whether the mapping of a
snapshot throws are chosen freely by the environment.

Some promises fail on some inputs, and the model says exactly when:

- the gate accepts a push exactly when it ranks at least as high as the current snapshot, unless the
  push carries an unparseable date (`Gate.PushGateIsRank`, `Gate.UndatedPushSlipsThrough`). The final
  rank is the highest one seen, in every arrival order, exactly when no undated push shares the
  baseline flag of the highest, or the highest has time 0 (`Gate.EveryOrderReachesTop`,
  `Gate.OrderIrrelevantExactly`, `Gate.OrderMatters`);
- the movements drawn are the newest ones unless a newer observation of the same key fails the gateway
  or chain filter, which runs after the deduplication (`MovementLaws.LeftOutExactly`,
  `MovementLaws.HiddenObservation`), and fewer are drawn than could be when one of the first ones ends on
  a chain without a place, which is noticed after the cut (`Movements.TracksFillExactly`,
  `Movements.UnknownChainsDisplace`);
- the map snapped to its anchors stays still exactly when the layout is roomy (`MapLaws.MapStillExactly`).
  The chips of an arc never overlap, but the orbit ring of a loop reaches its neighbours as soon as their
  chord at the minimum radius is below the ring's reach (`BloomBodies.RingsClearExactly`), and on the
  ring of eleven chains an arc of two chips or more that needs no more than its minimum radius, as two
  and three always do, puts an end chip within reach of the next chain (`ElevenChains.ArcMoves`);
- the figure shown is within 1.01 of the exact total exactly when the untracked amount is at least
  -1.01 (`Assets.ShownTotalNearExact`);
- the ring order keeps ethereum in the middle and is idempotent, unless the empty id is among the
  input, which the source drops only after it has filled the slots
  (`ChainRingLaws.OppositeWithEmptyId`, `ChainRingLaws.IdempotentExactly`,
  `ChainRingLaws.EmptyIdDisplacesEthereum`).

## Model

| member | source | states |
|---|---|---|
| Gate.PushGateIsRank | dashboard/public/data.jsx:619-646 | for all pairs of snapshots, a push is accepted if and only if its (active baseline, time) rank is at least the current one, except exactly when an undated push of the same baseline meets a dated one |
| Gate.UndatedPushSlipsThrough | dashboard/public/data.jsx:469-472 | a concrete undated push that is accepted although it ranks lower |
| Gate.PollGateDrops | dashboard/public/data.jsx:624-640 | an accepted poll, whatever its date, lowers the rank if and only if it takes the baseline from active to inactive, a null status counting as inactive, or slips through undated |
| Gate.HarmlessReachesTop | dashboard/public/data.jsx:619-646 | after any run of pushes in which no undated one shares the baseline flag of the highest rank, the snapshot held has that highest rank of the initial and all pushed ones |
| Gate.EveryOrderReachesTop | dashboard/public/data.jsx:619-646 | every arrangement of the pushes ends on the highest rank if and only if no undated push shares its baseline flag, or its time is 0 |
| Gate.PushOrderIrrelevant | dashboard/public/data.jsx:619-646 | harmless runs of the same pushes in any order, with any duplicates, end with the same, highest rank |
| Gate.OrderIrrelevantExactly | dashboard/public/data.jsx:619-646 | all arrangements end with the same rank if and only if they all end on the highest, or no push with its baseline flag has a time to regain after an undated one |
| Gate.OrderMatters | dashboard/public/data.jsx:469-472 | two pushes that end with different ranks in the two orders |
| Gate.ClimbsExactly | dashboard/public/data.jsx:619-646 | over any run of pushes, dated or not, the rank falls at some step exactly when some push slips through on its date |
| StatusLaws.KeepsByFields | dashboard/public/data.jsx:619-646 | on the fields of the two snapshots: a payload is turned away if and only if it is a push that would lose the active baseline, or both have the same flag and readable dates and it is the earlier one |
| StatusLaws.ActiveMeans | dashboard/public/data.jsx:474-481 | a baseline is active if and only if the first block present is active and not marked as not applied |
| StatusLaws.TimeMeans | dashboard/public/data.jsx:469-472 | a date counts as unreadable exactly when present and unparseable; a missing one counts as 0 |
| StatusLaws.CompleteMeans | dashboard/public/data.jsx:483-491 | a snapshot is complete if and only if current total, confidence, wallet holdings and flow are all there |
| Selection.ComparatorConsistent | dashboard/public/data.jsx:507-515 | the comparator is antisymmetric, transitive, and its ties are transitive |
| Selection.TiesAgree | dashboard/public/data.jsx:507-515 | two payloads tie exactly when source rank, baseline and time all agree |
| Selection.SelectIsScan | dashboard/public/data.jsx:502-516 | the sort-based choice is the result of one scan for the best candidate, the earliest among equals |
| Selection.AnyStableSortSelects | dashboard/public/data.jsx:507-515 | every stable sort under the comparator puts that same candidate first |
| Selection.SelectIsBest | dashboard/public/data.jsx:502-516 | the result is a candidate with a status if there is one, complete if any is complete, and no eligible candidate beats it |
| Selection.SelectUpToTies | dashboard/public/data.jsx:502-516 | permuting the candidates changes the result only to one that ties with it |
| SelectionLaws.SelectByFields | dashboard/public/data.jsx:493-516 | on the fields of the payloads: of all that have a status, and are complete if any is, none has a source listed before the selected one, none with a source of the same place has an active baseline when the selected one has none, and none of the same place and flag has a later time |
| SelectionLaws.SelectNothing | dashboard/public/data.jsx:502-504 | without any status the unavailable payload is selected |
| Sorting.StableSortStartsWithBest | dashboard/public/data.jsx:507-515 | the head of any stable sorted permutation under a weak order is the element the scan ends on |
| Sorting.SortKeepsTies | dashboard/public/mindmap.jsx:1109-1114 | sorting leaves elements of which neither comes before the other in whatever relation they were listed in |
| Session.NextInv | dashboard/public/data.jsx:1286-1385 | every enabled step, from any source and in any interleaving, keeps single flight, current captures, one timer, one stream and consistent globals |
| SessionLaws.AlwaysSafe | dashboard/public/data.jsx:1286-1385 | in every run from page load: at most one refresh in flight and it is the marked one, a waiting poll's captured status is still current, at most one interval and one event source and each is the referenced one, stream and URL set together; once booted, a payload was committed and the page shows the one committed last |
| SessionLaws.DataIsLastCommit | dashboard/public/data.jsx:619-1275 | at the end of any run the page shows the payload committed last, in the sense of `Commits.CommitShows`, or is unchanged when none was |
| SessionLaws.StepWrites | dashboard/public/data.jsx:619-646 | a step changes the data globals only by committing the payload it offers, exactly when the gate asked about the snapshot held at that moment accepts it; rejected, dropped and throwing steps change none |
| SessionLaws.StepShows | dashboard/public/data.jsx:619-1275 | after a step the page shows the payload the step commits, or no data has changed |
| Commits.CommitShows | dashboard/public/data.jsx:671-760 | what a commit puts on the page, field by field: with wallet items listed the snapshot's lists and figures, each the first of its sources that is there and sums only when both parts are; else the wallet list alone with nothing deployed; else nothing, pending; six ledgers that are the sums of exactly those lists; source, remote flag, live if and only if the payload is live with a status, and a period of 1500 then and 3000 otherwise |
| SessionLaws.StepFalls | dashboard/public/data.jsx:619-646 | for every enabled step: the rank of the snapshot held falls if and only if an accepted poll takes the baseline from active to inactive or an undated payload slips through |
| SessionLaws.RunFalls | dashboard/public/data.jsx:619-646 | over every run the rank falls somewhere if and only if such a step occurs, and otherwise ends at the highest rank of the initial snapshot and all offered ones that map |
| SessionLaws.SettledPollsAsPreferred | dashboard/public/data.jsx:1293-1295 | when a refresh has settled, exactly one interval runs, at 1500 if the page is live and 3000 otherwise, and it is the old one when its period was right |
| SessionLaws.SettledStreams | dashboard/public/data.jsx:1296-1298 | a live refresh, unless the browser has no event sources or a retry delay is pending, leaves the page listening at the address the enabled runtime names if the payload shown is remote, and at the local path otherwise: a stream there stays, any other is replaced by one new stream that has not opened; in all other cases streams are unchanged |
| SessionLaws.ReadyStreams | dashboard/public/data.jsx:1429-1434 | the same once the bootstrap is done |
| SessionLaws.PollStarts | dashboard/public/data.jsx:1286-1288 | a poll joins the refresh in flight, or starts one that captures the snapshot and flag the page holds |
| SessionLaws.JudgedSettles | dashboard/public/data.jsx:619-646 | a judged payload leaves its refresh settling with the flag the page then holds, or finished when its mapping threw |
| SessionLaws.NoStreamDuringBackoff | dashboard/public/data.jsx:1338-1381 | after a stream failed before it opened, no run whose clock readings stay within the retry delay ever opens an event source |
| SessionLaws.RefreshCompletes | dashboard/public/data.jsx:1286-1305 | a waiting poll can always run to its end, after which no refresh is in flight |
| LiveWindow.Window.constructor | dashboard/public/data.jsx:1416-1427 | a new page is in an initial state and valid |
| LiveWindow.Window.BootData | dashboard/public/data.jsx:619-646 | the two guards and the single write of all globals equal the gate and the commit of the state machine |
| LiveWindow.Window.RefreshDashboardData | dashboard/public/data.jsx:1286-1305 | the single-flight guard equals the start step: join, fetch, or judge a pushed payload at once; afterwards a refresh is in flight |
| LiveWindow.Window.StartDashboardPolling | dashboard/public/data.jsx:1328-1336 | the old interval is cleared and one new interval runs |
| LiveWindow.Window.SetupLiveEventStream | dashboard/public/data.jsx:1338-1385 | the four early exits, the closing of the old stream and the opening of the new one equal the stream step |
| LiveWindow.Window.OnBootLoaded | dashboard/public/data.jsx:1307-1310 | the bootstrap payload is committed unless its mapping throws, and the page then shows it |
| LiveWindow.Window.OnBootContinued | dashboard/public/data.jsx:1311-1314 | a refresh is in flight when the bootstrap payload was not live, and none is started when it was; no data changes |
| LiveWindow.Window.OnBootReady | dashboard/public/data.jsx:1429-1434 | hooks are set, exactly one interval runs, at 1500 or 3000, and a live page listens at the preferred address |
| LiveWindow.Window.OnTimer | dashboard/public/data.jsx:1331-1335 | when the interval fires the refresh in flight goes on, or a poll starts with what the page holds; no data changes |
| LiveWindow.Window.OnFetchDone | dashboard/public/data.jsx:619-646 | a fetched payload is written, and then shown, exactly when the gate accepts it against the snapshot held now, although the script asks about the one read before the fetch |
| LiveWindow.Window.OnSettled | dashboard/public/data.jsx:1289-1299 | exactly one interval runs, at 1500 or 3000, and after a live refresh the page listens at the preferred address unless a retry delay is pending |
| LiveWindow.Window.OnCleared | dashboard/public/data.jsx:1300-1302 | the end of a refresh leaves no task and no mark |
| LiveWindow.Window.OnStreamOpen | dashboard/public/data.jsx:1368-1372 | the opened stream is the only one and the only interval runs at 1500 |
| LiveWindow.Window.OnStreamSnapshot | dashboard/public/data.jsx:1356-1367 | a pushed snapshot is written, and then shown with the source of its stream, exactly when no refresh is in flight and the gate accepts it; a refresh in flight drops it |
| LiveWindow.Window.OnStreamError | dashboard/public/data.jsx:1375-1381 | no stream is open or referenced afterwards, and a retry time 30 seconds on is set only if the stream never opened |
| LiveWindow.Window.Drive | dashboard/public/data.jsx:1286-1434 | any sequence of events that can happen, handled one after the other in place, ends in the state of the machine, safe, showing the payload committed last |
| Solver.Body.constructor | dashboard/public/mindmap.jsx:1051-1054 | a new body starts on its anchor at rest |
| Solver.SpringPass | dashboard/public/mindmap.jsx:906-914 | the in-place spring loop equals the pointwise spring function on the old states |
| Solver.Collide | dashboard/public/mindmap.jsx:916-967 | the body of both contact loops, with its three drag cases, equals the meeting of two body values |
| Solver.RepulsionPass | dashboard/public/mindmap.jsx:915-941 | the nested in-place loop over all pairs equals the sweep on values |
| Solver.OrbitPass | dashboard/public/mindmap.jsx:942-968 | the nested in-place loop over orbit rings equals the sweep on values, skipped bodies included |
| Solver.SkipRingless | dashboard/public/mindmap.jsx:943-944 | skipping a body without an orbit ring loses nothing |
| Solver.IntegratePass | dashboard/public/mindmap.jsx:969-981 | the in-place integration equals the pointwise function on the old states |
| Solver.TickInPlace | dashboard/public/mindmap.jsx:893-983 | one frame on the objects equals the frame on their old states |
| Solver.SnapToAnchors | dashboard/public/mindmap.jsx:1089-1100 | the snap moves exactly the bodies not held to their anchors, at rest |
| Contacts.ContactImpulse | dashboard/public/mindmap.jsx:916-967 | one contact of two bodies at distance d: each gains exactly repulsionK * (radii + 6 - d) along the line away from the other, a ring 3/2 times that with its own radius, nothing beyond the reach; a fixed body takes nothing, a held one gives nothing |
| Contacts.ContactGives | dashboard/public/mindmap.jsx:916-967 | the same for all pairs, bodies in one spot included |
| Superposition.LoopIsSuperposition | dashboard/public/mindmap.jsx:915-968 | after a whole in-place contact loop every body has gained exactly the sum of what all others push it with where they stand |
| Superposition.SubstepExactly | dashboard/public/mindmap.jsx:903-982 | one substep in closed form on each axis: fixed bodies are home, held bodies stay and take up the pushes, free bodies move with their speed after spring and all pushes, are drawn to the anchor and damped |
| Superposition.OrderOfBodiesIrrelevant | dashboard/public/mindmap.jsx:893-983 | however the list of bodies is reordered, every body moves the same over any number of substeps in every mode |
| SolverLaws.RunFrame | dashboard/public/mindmap.jsx:903-982 | over any number of substeps anchors, masses, radii and flags never change, fixed bodies end on their anchors at rest, held bodies do not move |
| SolverLaws.TickFrame | dashboard/public/mindmap.jsx:903-982 | the same for one frame in each mode |
| SolverLaws.HeldAreInert | dashboard/public/mindmap.jsx:903-982 | two runs that differ only in their held bodies agree on all other bodies after any number of substeps: where a held body is dragged to influences nobody |
| SolverLaws.FramesAreSubsteps | dashboard/public/mindmap.jsx:905 | a run of frames is a run of twice as many substeps |
| SolverLaws.SettledRun | dashboard/public/mindmap.jsx:903-982 | a list at rest on anchors that respect every pair and orbit distance is left unchanged by any number of substeps |
| SolverLaws.SnapStopsMotion | dashboard/public/mindmap.jsx:1089-1100 | after a snap with no body held and spaced anchors nothing ever moves |
| SolverLaws.SnapFrame | dashboard/public/mindmap.jsx:1089-1100 | the snap leaves held bodies alone and puts every other one on its anchor at rest, with the same shape |
| Stillness.StillExactly | dashboard/public/mindmap.jsx:903-982 | a layout at rest, with nobody held and all fixed bodies in one spot, stays still over any number of substeps in any mode if and only if no pair and no orbit ring gives an impulse |
| Stillness.SnapStopsExactly | dashboard/public/mindmap.jsx:1089-1100 | after a snap with nobody held nothing ever moves again if and only if the anchors are spaced |
| Stillness.SweepOutward | dashboard/public/mindmap.jsx:915-968 | over either contact loop the summed outward momentum of the free bodies rises by exactly the work of the pairs still ahead, each its strength times its distance |
| SolverLaws.SweepConserves | dashboard/public/mindmap.jsx:915-968 | either contact loop, from any position on, conserves the total of mass times velocity on each axis when all bodies are free |
| SolverLaws.ContactPassesConserve | dashboard/public/mindmap.jsx:915-968 | both complete contact loops conserve total momentum |
| Decay.EnergyDecays | dashboard/public/mindmap.jsx:906-981 | the quadratic form of one axis is scaled by exactly (1 - settlePull) * damping per substep |
| Decay.AdvanceScalesArea | dashboard/public/mindmap.jsx:906-981 | one substep of an axis scales every area of the phase plane by that same factor |
| Decay.IsolatedSubstep | dashboard/public/mindmap.jsx:903-982 | inside a full substep over any list, a free body without contacts moves by that linear map |
| Decay.EnergyAfter | dashboard/public/mindmap.jsx:896-982 | after n substeps without contacts the form equals the n-th power of the factor times its first value |
| Decay.EnergyBounds | dashboard/public/mindmap.jsx:896-900 | for the constants of all three modes and masses 1 and 3 the form lies between two positive multiples, given per mode and mass, of squared distance plus squared speed |
| Decay.ModesByNumbers | dashboard/public/mindmap.jsx:896-900 | the four constants of each mode and the share of energy left per substep: 0.94, 0.7544 and 0.574 |
| Decay.EnergyHoldsDistance | dashboard/public/mindmap.jsx:896-900 | whatever the speed, the form is at least the stiffness of the mode and mass times the squared distance |
| Settling.NeverTouch | dashboard/public/mindmap.jsx:903-982 | when the anchors of all pairs are spaced beyond what the rules need plus a clearance per body, with nobody held and the energy of each free body now at most its stiffness times its squared clearance, no contact ever happens |
| Settling.SpreadOutConverges | dashboard/public/mindmap.jsx:896-982 | under that condition on the first frame only, squared distance and speed of every free body shrink geometrically, with a factor per mode and mass, and it never leaves its clearance |
| Settling.SpreadOutComesToRest | dashboard/public/mindmap.jsx:896-982 | ... and for every tolerance there is a substep after which all free bodies stay within it |
| Viewport.CollectBounds | dashboard/public/mindmap.jsx:385-410 | collecting in place from the inside-out box gives exactly the box of the usable shapes, none when there is none |
| Viewport.Bounds.IncludeCircle | dashboard/public/mindmap.jsx:389-395 | a circle widens the bounds to the box of the longer list, or is ignored when a number is not finite |
| Viewport.Bounds.IncludeRect | dashboard/public/mindmap.jsx:397-403 | the same for a rectangle |
| Viewport.Bounds.Finalize | dashboard/public/mindmap.jsx:405-410 | the final box, or nothing when no usable shape was included |
| Viewport.CollectedContains | dashboard/public/mindmap.jsx:389-403 | every point of every included shape lies in the collected box |
| Viewport.BoundsAreTight | dashboard/public/mindmap.jsx:385-410 | there are bounds exactly when a shape is usable; none reaches beyond them and on each side one touches them |
| Viewport.PadReaches | dashboard/public/mindmap.jsx:412-420 | padding adds exactly the points within the padding of the box |
| Viewport.FitAxes | dashboard/public/mindmap.jsx:422-439 | each axis is inside the safe area if and only if its zoomed extent fits, with the translation that brings the focus nearest to the middle of the view across and of the safe area down, and otherwise overflows equally on both sides |
| Viewport.ZoomIsLargest | dashboard/public/mindmap.jsx:424-429 | the zoom lies within the caller's bounds and is the largest there at which both zoomed extents fit, content and safe area counting as at least 1; above the smallest one it fits; with crossed bounds the lower one wins |
| Viewport.ShownExactlyWhenFits | dashboard/public/mindmap.jsx:422-439 | content of any size is shown whole in a safe area at least 1 wide and high if and only if it fits at the smallest zoom |
| Viewport.EveryShapeShown | dashboard/public/mindmap.jsx:385-439 | every point of every shape that was collected, padded and fitted is shown inside the safe area when the content fits at the smallest zoom |
| Segments.TrimKeepsDirection | dashboard/public/mindmap.jsx:297-309 | for any gaps the trimmed vector is a positive multiple, at most 1, of the original |
| Segments.TrimLeavesEnough | dashboard/public/mindmap.jsx:297-309 | at least min(8, 0.58 * length) remains of a segment at least 1 long, and never more than the original |
| Segments.TrimEnds | dashboard/public/mindmap.jsx:297-309 | the line starts min(start gap, 42 % of the length) away from the first node and ends min(end gap, what leaves 8) away from the second; below a length of 1 both shrink in proportion |
| Bloom.ChipsApart | dashboard/public/mindmap.jsx:233-239 | any two chips of an arc are at least two chip radii plus the padding apart, for every count of two or more |
| Bloom.ChipDistance | dashboard/public/mindmap.jsx:1038-1044 | the distance of two chips is the chord of the angle between them |
| Bloom.ChipOnCircle | dashboard/public/mindmap.jsx:1038-1044 | every chip stands exactly the bloom radius away from its chain |
| Bloom.ChipKeepsMinimum | dashboard/public/mindmap.jsx:233-239 | no chip is closer to its chain than the minimum radius, and the radius is the minimum one exactly when its chord suffices |
| BloomBodies.RadiusByNumbers | dashboard/public/mindmap.jsx:14-18 | the radius of an arc is that of chips of radius 33.6 with minimum 112 and padding 22 |
| Bloom.RadiusIsLeast | dashboard/public/mindmap.jsx:233-239 | the radius is the least one from the minimum on at which neighbouring chips keep two chip radii plus the padding |
| Bloom.ArcByAngles | dashboard/public/mindmap.jsx:1036-1044 | a single chip stands straight out; several spread evenly from 0.46 of a half turn on one side to as much on the other |
| BloomBodies.ChipsTouchExactly | dashboard/public/mindmap.jsx:1071-1076 | the bodies of two chips of an arc never touch; a loop's orbit ring reaches another chip if and only if their distance is below the ring's reach |
| BloomBodies.RingsClearExactly | dashboard/public/mindmap.jsx:233-239 | no ring of an arc reaches another chip if and only if there is one chip at most, or no loop, or the chord between neighbours at the minimum radius is at least a ring's reach |
| BloomBodies.RingReachesNeighbours | dashboard/public/mindmap.jsx:942-968 | a loop's ring pushes the chip before and the chip behind it if and only if that chord is below its reach |
| MapLayout.SpokeDistance | dashboard/public/mindmap.jsx:1038-1067 | the squared distance of a chip and any body seen from the hub, from the cosines of the three angles between chain, chip and body |
| MapLayout.LayoutByNumbers | dashboard/public/mindmap.jsx:1062-1076 | places, radii, masses and flags of all bodies in numbers: chains at 138, half a step off the top, bitcoin at 195.8 above the hub, the fixed gateway, chips and rings |
| MapLayout.ChipsByAngles | dashboard/public/mindmap.jsx:1029-1046 | chip i of the list of bodies stands the bloom radius away from the selected chain, i even steps into the arc around that chain's direction, with a ring exactly when it is a loop |
| MapLaws.RootSpacedExactly | dashboard/public/mindmap.jsx:1062-1067 | chains, bitcoin and gateway push nobody if and only if neighbouring chains, and bitcoin and the chains next to it, are out of reach, each a bound on one cosine |
| MapLaws.ChipsApartExactly | dashboard/public/mindmap.jsx:1038-1076 | no chip and no ring meets a chain, bitcoin or the gateway if and only if each chip is clear of the other chains and of bitcoin; its own chain and the gateway are always clear |
| MapLaws.MapStillExactly | dashboard/public/mindmap.jsx:893-983 | the whole list of bodies, all chains, bitcoin, gateway and chips, on their anchors with none held: no frame in any mode ever moves anything if and only if the layout is roomy |
| ElevenChains.RootStaysStill | dashboard/public/mindmap.jsx:1062-1067 | with eleven chains and no selection nothing ever moves |
| ElevenChains.SingleChipStaysStill | dashboard/public/mindmap.jsx:1069-1076 | with eleven chains and a single protocol that is no loop, on whatever chain, nothing ever moves |
| ElevenChains.ArcMoves | dashboard/public/mindmap.jsx:1024-1046 | with eleven chains and an arc of two chips or more at its minimum radius the map does not stay still |
| ElevenChains.FewChipsNeedNoMore | dashboard/public/mindmap.jsx:233-239 | arcs of two and three chips always have the minimum radius |
| ElevenChains.RootComesToRest | dashboard/public/mindmap.jsx:896-982 | eleven chains and bitcoin, wherever they are within a clearance of 2 and with nobody held, never touch and all come to rest on their anchors |
| Movements.DedupeRecentMovements | dashboard/public/mindmap.jsx:127-137 | the loop over the map equals the newest-per-key table in first-seen order |
| Movements.DedupeNewest | dashboard/public/mindmap.jsx:127-137 | the result has one movement per key, each a newest of its key, and misses no key |
| Movements.DedupeIdempotent | dashboard/public/mindmap.jsx:127-137 | deduplicating twice changes nothing |
| Movements.VisibleAreNewest | dashboard/public/mindmap.jsx:1108-1122 | every visible movement was observed, is recent, uses the gateway, touches the selected chain and is a newest recent one of its key |
| Movements.SeedsOrdered | dashboard/public/mindmap.jsx:1299-1302 | the seeds have distinct keys, are the start of the visible list, which is sorted newest first, and are as many as there are visible ones up to 2 or 12 |
| Movements.TracksOrdered | dashboard/public/mindmap.jsx:1299-1305 | the movements drawn have distinct keys and places for both ends, are newest first and at most 2 or 12, and no visible one with places that is not drawn is newer than a drawn one |
| Movements.TracksFillExactly | dashboard/public/mindmap.jsx:1299-1305 | as many visible movements with places as the cap allows are drawn if and only if every seed has places or every visible one with places is a seed |
| Movements.UnknownChainsDisplace | dashboard/public/mindmap.jsx:1299-1305 | a concrete input on which nothing is drawn although a visible movement has places for both ends |
| MovementLaws.VisibleExactly | dashboard/public/mindmap.jsx:1108-1122 | a movement is visible if and only if it passes both filters and is the first newest recent observation of its key |
| MovementFields.VisibleByFields | dashboard/public/mindmap.jsx:113-146 | on the fields of the observations: a movement is visible if and only if it goes by gateway, touches the selected chain, and is the first latest observation, at most six hours old and with both ends known, of its route, or of its ends and asset |
| MovementFields.SeedsByFields | dashboard/public/mindmap.jsx:1299-1302 | the visible ones are listed latest first, those of the same time in the order of the first mention of their movement, and the seeds are the first 2, or 12 when a chain is selected |
| MovementFields.TracksByFields | dashboard/public/mindmap.jsx:1299-1305 | of the seeds exactly those are drawn whose ends are bitcoin, the gateway or on the ring |
| MovementLaws.LeftOutExactly | dashboard/public/mindmap.jsx:1108-1122 | over the raw observations: none that passes the filters and is newer than a seed lacks a seed of its key at least as new, if and only if each passing one whose key is won by an observation that does not pass has at least as many passing winners not older than it as are drawn |
| MovementLaws.AgreementLeavesNothingOut | dashboard/public/mindmap.jsx:1108-1122 | nothing newer is left out when the recent observations of each key agree on the filters |
| MovementLaws.HiddenObservation | dashboard/public/mindmap.jsx:1109-1116 | a concrete input on which a passing observation newer than a seed is left out |
| Movements.EligibleRepresented | dashboard/public/mindmap.jsx:1109-1114 | every recent observation is represented by one of its key that is not older |
| Assets.ShownTotal | dashboard/public/app.jsx:2134-2181 | the figure shown is one of the two totals, never below the current one, and within 1 of the larger |
| Assets.DerivedEstimateNear | dashboard/public/data.jsx:677-715 | two cent roundings keep the derived estimate within 0.01 of wallet plus deployed plus untracked |
| Assets.ShownTotalNearExact | dashboard/public/data.jsx:671-715 | from snapshot to screen, with derived totals, the figure shown is within 1.01 of that exact sum if and only if the untracked amount is at least -1.01 |
| Commits.HeadlineByFields | dashboard/public/app.jsx:2134-2181 | for any holdings the figure shown is the current total, or wallet plus deployed without one, unless the estimate is ahead by more than 1 |
| Commits.SuppliedHeadline | dashboard/public/data.jsx:671-760 | with a supplied current total the figure shown is that total unless the estimate, supplied or in whole cents, is ahead of it by more than 1, and then the estimate |
| Capital.BuildCapitalMaps | dashboard/public/data.jsx:128-173 | the six ledgers hold exactly the positive sums of their group and no other key |
| Capital.WalletEntryAdds | dashboard/public/data.jsx:138-141 | one more wallet item adds its positive amount under its chain and nothing elsewhere |
| Capital.PositionEntryAdds | dashboard/public/data.jsx:143-153 | one more position adds its positive value, and as an estimate its unverified entry when it has none, under its chain and under its chain and protocol |
| Capital.ChainConservation | dashboard/public/data.jsx:128-158 | per chain, total equals wallet plus deployed and the estimate is at least the deployed value |
| Capital.KeyInjective | dashboard/public/data.jsx:119-121 | with colon-free chain ids the combined key determines chain and protocol |
| Capital.ProtocolConservation | dashboard/public/data.jsx:144-158 | per chain the protocols never exceed what is deployed, and equal it if and only if every position with money names one of them |
| Capital.LiveExactlyWithMoney | dashboard/public/data.jsx:1027-1063 | a strategy is LIVE if and only if some position at its chain and protocol has positive USD |
| Capital.LabelsExactly | dashboard/public/data.jsx:1027-1063 | without money each of the eight other labels is shown if and only if its own condition on tick, policy and activity holds |
| Activity.BuildActivitySurfaces | dashboard/public/data.jsx:208-349 | the one-pass update of three dictionaries, with counts, money, latest times, assets, actions and statuses, equals the declarative grouping by chain, by protocol key and by uncovered protocol key |
| ActivityLaws.RowContributes | dashboard/public/data.jsx:256-263 | each activity contributes what its own fields say, completed from the last strategy with its id: chain, key, asset, the first matching action, status, time, and money only when positive |
| ActivityLaws.SurfacesAreDisplayable | dashboard/public/data.jsx:279-280 | no protocol surface belongs to a native-token or transport-only protocol, or lacks chain or protocol |
| ActivityLaws.KnownExactly | dashboard/public/data.jsx:250-254 | a surface counts as covered if and only if a strategy has its chain and protocol |
| Activity.SyntheticMatchesSurface | dashboard/public/data.jsx:297-341 | synthetic entries exist exactly for protocol surfaces no strategy covers, with the same count, money, assets and actions |
| Activity.LatestIsMaximum | dashboard/public/data.jsx:236-241 | the latest time of a group is the first of its times that no other exceeds; it is missing exactly when the group has none |
| Activity.LastSeenIsLast | dashboard/public/data.jsx:338-339 | the time of a synthetic entry is that of the last activity that has one |
| Activity.NamesAreFirstSeen | dashboard/public/data.jsx:231-234 | the assets, actions and statuses of a group are its non-empty names, each once, in order of first appearance |
| Activity.ChainsConserved | dashboard/public/data.jsx:263-281 | the counts and the money of the returned chain surfaces add up to those of the activities that name a chain |
| Activity.ProtocolsConserved | dashboard/public/data.jsx:282-304 | the counts and the money of the returned protocol surfaces add up to those of the activities with a displayable protocol |
| Protocols.GroupByProtocol | dashboard/public/mindmap.jsx:768-772 | the grouping loop partitions its input into the non-empty sublists of equal protocol, in the order in which the protocols are first seen |
| Protocols.GroupingConserves | dashboard/public/mindmap.jsx:768-803 | every additive measure, yields and activity totals among them, is conserved by the grouping |
| Protocols.GroupCountsConserved | dashboard/public/mindmap.jsx:775-797 | the displayed counts of strategies and live strategies add up over the groups |
| Protocols.GroupMoneyConserved | dashboard/public/mindmap.jsx:775-797 | realized and estimated yield, activity counts and activity money of the groups add up to those of the strategies, and a group earned what it realized, or its estimate when that is not positive |
| Protocols.WeightedAprBetween | dashboard/public/mindmap.jsx:743-766 | a group shows a rate if and only if a member has one, and it lies between the least and the greatest of them |
| Protocols.WeightedAprBalances | dashboard/public/mindmap.jsx:743-766 | the rate shown is the one rate r at which the sum of capital times (rate - r) over the rated members is 0, with the first positive of cap, estimated and actual capital; without any capital the unweighted sum is 0 |
| Protocols.WeightedApyBetween | dashboard/public/app.jsx:522-539 | the same for the live-only average over the rows that carry weight |
| Protocols.WeightedApyBalances | dashboard/public/app.jsx:522-539 | the live rate is the one rate at which the live members balance, weighted with the first positive of cap and actual capital |
| ChainRing.OrderedChains | dashboard/public.legacy/scene-model.js:39-59 | filling slots in place equals the closed form, and the search for a free slot never fails |
| ChainRing.FillSlots | dashboard/public.legacy/scene-model.js:53-56 | after the loop every slot holds the chain of its rank |
| ChainRingLaws.OrderedIsPermutation | dashboard/public.legacy/scene-model.js:39-59 | the result lists every distinct non-empty input exactly once |
| ChainRingLaws.OrderedOfSet | dashboard/public.legacy/scene-model.js:39-59 | reordering or repeating the input changes nothing |
| ChainRingLaws.OrderedPlaces | dashboard/public.legacy/scene-model.js:42-59 | without the empty id bitcoin is first, ethereum in the middle, and the rest sorted with bob first |
| ChainRingLaws.IdempotentExactly | dashboard/public.legacy/scene-model.js:39-59 | ordering twice changes nothing if and only if ethereum, when present, stands in the middle of the result |
| ChainRingLaws.OppositeWithEmptyId | dashboard/public.legacy/scene-model.js:50-58 | with the empty id among the input, ethereum is in the middle if and only if the number of distinct ids is even exactly when fewer than half of them precede the empty id |
| ChainRingLaws.EmptyIdDisplacesEthereum | dashboard/public.legacy/scene-model.js:39-59 | a concrete input on which ethereum misses the middle and ordering is not idempotent |

## Left out

- `fetch`, abort timers, JSON parsing, URLs and the resolution of the live runtime: input and output; a fetch is any payload, possibly without a status.
- React components, styles, logos, formatting and labels: user interface.
- Drag handling: between frames any body's position and drag flag may be anything, which the solver's laws allow.
- The re-anchoring and removal of bodies when the layout changes, and the order chips take when a chain is selected again: `MapLayout` is the list as first created; the laws of the solver hold from any list of bodies.
- `buildMovementSurfaces`, `displayChains`, `buildSceneModel`, `clampBloomToViewport`, `movementLinePath`: the same patterns again, or settled by reading one branch.
- Fields of the holdings that neither the ledgers nor the headline read: display total, gaps, verified minimum, reconciliation states and texts.
- Radar, KPI, flow metrics, chain parity and the other globals a commit writes besides the status, holdings, capital and live flags: further functions of the same payload.
- The descriptive fields of a synthetic strategy, its inferred type among them: text and lookups.
- Colour, index and line geometry of a drawn track: display.
- Group fields other than counts, yields, activity totals and the rate (type, status, capital maxima, loops, texts).
- Distinct ids that a locale compares as equal: the locale order is assumed total, so the sorted rest is determined.
- Keys that name properties of `Object.prototype`, and the reordering of integer-like keys by `Object.values`: dictionaries are maps.
- Floating-point rounding: reals are exact, except that cent rounding is modelled; with rounding the order of the bodies can change last digits.
- Exceptions thrown by the event-source constructor, and events delivered by a closed source: excluded as section 9.2 of the HTML Living Standard lets a caller expect.
- Settling.SpreadOutComesToRest: a condition on the first frame that is sufficient, not necessary; with contacts the motion of a body depends on all others, and the exact substep, the momentum and the outward-momentum laws are what is proved.
- The executor, signer, policy and payback code named in the repository's README.
