# Server AI, proved

A Dafny model of the hard logic of a game server's agents and of two asset tools beside it,
with proofs about every input, every run or every reachable state.

- **Engagement** (`Engagement`, `EngagementLaws`, `PursuitLaws`, `RetreatLaws`, `AgentEvents`, `LeashSafety`,
  `SquadQuiescence`, `SquadReturns`, `SquadRounds`, `ChaserController`): one agent's state machine over Idle,
  Alert, Chasing, Attack, Search, Return and Seek, and a squad whose members pass alerts between them. How
  long each phase lasts and what ends it is told over runs; the leash holds over whole runs, a squad with
  nobody to fight stops, and a squad member's way back ends.
- **Squads** (`SquadRoute`, `SquadRuntime`, `SquadLaws`, `ChaseRings`): the walk along a route, casualties,
  slots in formation, and the rings agents stand on round a shared target.
- **Targeting** (`PlayerGroups`, `ThreatTracker`, `Allocation`, `AllocationLaws`): single-linkage groups by
  union-find, how long each has gone unthreatened, and whom a patrol is aimed at next.
- **Composition** (`Composition`, `DrawLaw`, `Sums`): the weighted draw, its total, and its
  distribution.
- **Budgets** (`AgentKernel`, `Waves`, `PatrolSteps`, `PatrolLaws`, `PatrolDirector`, `WorldRules`, `Spawners`,
  `SpawnerSteps`, `SpawnerLaws`, `SpawnerDirector`, `AgentRuntimeManager`): whole squads and waves under
  several ceilings at once, when the kernel is asked for them and for exactly whom, calls for help
  that never chain, and one soft ceiling for a tick's directors together.
- **Missions** (`MissionFlow`, `MissionLaws`, `MissionDirector`): a graph of nodes that open in order, spawn once
  and cannot hang if acyclic.
- **Revives** (`Respawn`): one pool for the team.
- **Exact arithmetic** (`Geometry`, `Vectors`, `Ballistics`, `BallisticReach`): low-arc aim in exact
  reals, and what can be hit at all.
- **Handedness** (`Mirror`, `SkeletonPose`, `PoseMatrix`, `PoseWorld`, `Handedness`, `VisitLaws`): mirroring a scene as a
  transformation that keeps its meaning, on buffers in place, and the rest pose in rotations against
  the one in matrices.
- **Height maps** (`PngUnfilter`, `PngFormat`, `GroundMap`): undoing PNG row filters (section 6 of RFC 2083) in
  place, byte by byte what comes of it, and the file as the server reads it.

`Wrappers`, `Counters`, `Players`, `Sorting` and `Sums` hold what several of these share.

State the program changes step by step is a class or an array changed by methods; each such method
is proved against a specification function or relation, and the theorems are about those. The modules
called laws say what such a specification means in the terms of its inputs alone: positions, ids, counts
and bytes. The kernel is an oracle: a create gives a fresh id or is refused, every request for one is
on record, and what is gone stays gone. Random
picks, bearings and square roots are given. Square roots are any function that is one.

Where the code falls short of what its comments or documentation say, the model follows the code
and the condition is exact:

- A leash shorter than max(resume, 1 m), which the catalog's check of resume against leash lets through
  under 1 m, lets a fight be dragged: past it the agent breaks off, is home at once, and starts afresh
  where it stands (`LeashSafety.LeashHoldsFast`, `LeashSafety.PastLeashBreaksOff`).
- Squad tiers match every group size once unless a tier that is not the last ends at 2^32 - 1: the
  next-minimum counter then wraps to 0 (`Allocation.TiersMatchOnce`, `Allocation.WrappedTierAccepted`).
- A tangent's fourth component is negated whatever the accessor's width. A morph target's tangents
  have three, so the next cell is negated instead: in a tight run the next tangent's X, which comes
  out as it was (`Handedness.TangentsFlippedExactly`, `Handedness.TightTangentsUnmirrored`).
- The aim tolerances give shots that miss exactly where `Ballistics.GivenShotHits` says: for a
  discriminant a little below zero (`BallisticReach.ShotIntoNothing`) and for a target off the line
  of gravity by less than the tolerance (`BallisticReach.ShotBeside`). They refuse what could be hit
  exactly where `BallisticReach.RefusalsRight` says: a target in reach under negligible gravity,
  within the tolerance of that line, or on it and too near, one's own place included.
- The rest pose a skeleton is solved to takes in the scale of a node's parent and of nothing above it,
  so it is where the scene has it if and only if nothing that has grandchildren is scaled
  (`PoseWorld.RightWithoutScaledGrandparents`).
- A pool of revives is conserved unless a player dies again while waiting, which takes a second
  revive for one place (`Respawn.RespawnScheduler.Advance`, `Respawn.SecondDeathCostsTwo`).
- A squad whose walk ends a tick exactly on a waypoint has no heading that tick, and its formation stands as
  authored, turned towards nothing (`SquadLaws.MarchFaces`, `SquadLaws.SlotLies`).
- A mission flow updates every max(1, interval) + 1 ticks, not every interval: the countdown is
  reset on the tick of the update and tested before it is counted down (`MissionFlow.UpdatePeriod`).

## Model

| member | source | states |
|---|---|---|
| `LeashSafety.LeashSafety` | game_server/src/agent_chaser_controller.cc:897-957 | over any run of events, orders and changes of behaviour among them, an agent still engaged after its tick is within the leash that applies of the place where that fight began; that place is where the agent stood when a block of a tick, or an alert, last took it into a fight, no leash having a say in it, and a fight going on keeps its place unless the agent is home within max(resume, 1 m) |
| `LeashSafety.OriginIsAnchor` | game_server/src/agent_chaser_controller.cc:938-957 | over any run, an engaged agent's stored anchor is where its fight began: nothing but the start of a fight moves it, not even a change of behaviour |
| `LeashSafety.AnchorFollows` | game_server/src/agent_chaser_controller.cc:833-957 | one tick: the anchor moves exactly where a block starts a fight, and then to where the agent stands |
| `LeashSafety.PastLeashBreaksOff` | game_server/src/agent_chaser_controller.cc:897-957 | an agent in a fight whose leash is passed is on its way back after the tick if and only if it is not home yet; a leash shorter than home lets it start afresh on the same tick |
| `LeashSafety.LeashHoldsFast` | game_server/src/agent_behavior.cc:207-226 | the leash keeps every fight where it began, whatever the tick brings, if and only if it is no shorter than max(resume, 1 m) |
| `LeashSafety.TickKeepsLeash` | game_server/src/agent_chaser_controller.cc:778-1353 | one tick: an engaged outcome is inside the leash, the anchor only moves out of Idle or Seek or at home, and Return holds until home |
| `LeashSafety.NoResumeBeforeHome` | game_server/src/agent_behavior.cc:213-226 | an agent outside a squad that broke off is still returning, to the same anchor, unless some tick of the run found it within max(resume, 1 m) of that anchor, by the leash it was then on, or some order it may obey reached it |
| `LeashSafety.ReturnEndsExactly` | game_server/src/agent_runtime_manager.cc:893-914 | of one event: a Return ends if and only if it is a tick that finds the agent home, the squad pass giving up on it, or an order it may obey; until then its anchor stays |
| `LeashSafety.NoResumeUntilReleased` | game_server/src/agent_behavior.cc:172-226 | the same over any run, in a squad or out of one |
| `LeashSafety.OrderReleases` | game_server/src/agent_runtime_manager.cc:893-914 | an order lets an agent go wherever it stands, and what it then sees is engaged on its next tick, anchored there |
| `LeashSafety.ResumesAtHome` | game_server/src/agent_chaser_controller.cc:934-948 | the way back is open again: home and seeing a target, it engages on that very tick, anchored where it stands |
| `SquadQuiescence.Quiescence` | game_server/src/patrol_group_runtime.cc:105-155 | from any squad state, each member with a tuning of its own, once nobody sees a target or is hit again, the squad is not holding after a bound computed from its state and never holds again |
| `SquadQuiescence.QuietAfterAnyHistory` | game_server/src/patrol_group_runtime.cc:105-155 | the same after any history of rounds, for agents that start without a retreat |
| `SquadQuiescence.QuietTick` | game_server/src/agent_chaser_controller.cc:991-1249 | one unseen, unhurt tick: nobody starts a fight, one going on gets strictly nearer its end, and hearsay stays hearsay |
| `SquadQuiescence.PassAlertFacts` | game_server/src/patrol_group_runtime.cc:117-155 | passing alerts never raises the squad's potential, and without anyone credible passes nothing on |
| `SquadQuiescence.Fade` | game_server/src/patrol_group_runtime.cc:109-123 | a squad whose alerts are all hearsay stops holding within the longest time any one of them lasts |
| `SquadQuiescence.RoundsStayAllowed` | game_server/src/agent_chaser_controller.cc:651-757 | no run of rounds makes a retreat the member's tuning does not have, which the bound relies on |
| `ChaserController.AgentState.Tick` | game_server/src/agent_chaser_controller.cc:778-1353 | the record updated in place, block by block, ends as the tick's specification says of the record it started from |
| `EngagementLaws.SightToPursuit` | game_server/src/agent_chaser_controller.cc:938-1011 | over any run of ticks with the target in sight and within the leash, an agent at rest or looking for someone, and not hit, is alert until the alert delay has run and pursues the target it sees from then on |
| `EngagementLaws.HitToPursuit` | game_server/src/agent_chaser_controller.cc:891-1011 | and one that is hit there, or searching, does so after the delay for damage |
| `EngagementLaws.FightSeen` | game_server/src/agent_chaser_controller.cc:991-1207 | an alert or a pursuit going on keeps its place and its cause, and follows the target it sees |
| `PursuitLaws.AttacksInReach` | game_server/src/agent_chaser_controller.cc:1160-1207 | pursuing in sight, with no charge, wind-up or run under way, it ends the tick attacking exactly where a weapon reaches, a leap is about to land or a wind-up has just begun, and its target is the one it sees |
| `PursuitLaws.StartsBursts` | game_server/src/agent_chaser_controller.cc:1146-1159 | a wind-up ahead of a leap, neither while it backs away, each only once its wait is over and nothing like it is under way |
| `PursuitLaws.ChargesAttack` | game_server/src/agent_chaser_controller.cc:1045-1068 | winding up and charging count as attacking while the target is in sight |
| `PursuitLaws.RunsAwayChasing` | game_server/src/agent_chaser_controller.cc:1069-1121 | turning and running with its target in sight counts as chasing it |
| `PursuitLaws.LostTick` | game_server/src/agent_chaser_controller.cc:1232-1249 | out of sight a pursuit is a search on that same tick, or over where there is nothing to search for |
| `PursuitLaws.SearchLasts` | game_server/src/agent_chaser_controller.cc:1232-1249 | over any run out of sight and unhurt, a pursuit is a search for exactly as many ticks as it takes to forget, and on the next its target is given up for what its role then does |
| `PursuitLaws.FoundTick` | game_server/src/agent_chaser_controller.cc:1237-1242 | a search that sees its target chases it again, under the leash it was under |
| `PursuitLaws.AlertForgets` | game_server/src/agent_chaser_controller.cc:1012-1020 | over any run out of sight an alert waits out exactly what it takes to forget, never pursuing, and gives its target up |
| `PursuitLaws.BreakTick` | game_server/src/agent_chaser_controller.cc:916-948 | past the leash the target is dropped whatever it sees, and where it is home at once it may start afresh there |
| `PursuitLaws.ReturnTick` | game_server/src/agent_chaser_controller.cc:891-936 | on its way home it heeds neither sight nor hits |
| `PursuitLaws.RestTick` | game_server/src/agent_chaser_controller.cc:938-989 | undisturbed, hunters and those locked on a target go looking, and a guard with no post takes one |
| `PursuitLaws.PostStays` | game_server/src/agent_behavior.cc:266-270 | and keeps it; none is taken with a target in sight |
| `PursuitLaws.HomeIs` | game_server/src/agent_behavior.cc:172-226 | home in a squad is its slot or its anchor, outside one its anchor, each within its radius |
| `RetreatLaws.RetreatTick` | game_server/src/agent_chaser_controller.cc:651-757 | a pursuit that backs away: when it starts, which way it goes, and when it stops for distance, time, the leash or getting nowhere |
| `RetreatLaws.RunTick` | game_server/src/agent_chaser_controller.cc:1069-1121 | one that turns and runs goes on out of sight, turns when it has run long enough or may run no further, and ends when it faces its target again |
| `RetreatLaws.BackpedalEnds` | game_server/src/agent_chaser_controller.cc:651-757 | over any run in sight a backpedal is over by its longest time, and its cooldown is set |
| `RetreatLaws.LostRetreat` | game_server/src/agent_chaser_controller.cc:797-803 | one that backs away facing its target stops the tick it loses sight of it, whatever becomes of the fight |
| `ChaserController.AgentState.Perceive` | game_server/src/agent_chaser_controller.cc:833-929 | countdowns, sight, hits and breaking off at the leash, in the order the tick has them |
| `ChaserController.AgentState.UpdateRetreat` | game_server/src/agent_chaser_controller.cc:651-757 | the backing-away state, trigger, heading, stall and end, refines its specification |
| `ChaserController.AgentState.AlertBySquad` | game_server/src/patrol_group_runtime.cc:148-153 | a squad-mate's alert anchors the agent where it stands and marks it as hearsay |
| `ChaserController.AgentState.SetBehavior` | game_server/src/agent_runtime_manager.cc:893-914 | an order is accepted exactly where it may be, and then everything the agent was after is let go at once |
| `AgentEvents.OrderIs` | game_server/src/agent_runtime_manager.cc:893-914 | which orders are obeyed, by whom, and what is left of what it was doing |
| `AgentEvents.RoleIs` | game_server/src/agent_runtime_manager.cc:1106-1138 | a behaviour given unasked changes role and post alone |
| `ChaserController.AgentState.ApplyBehavior` | game_server/src/agent_runtime_manager.cc:1106-1138 | a behaviour given without asking changes the role and the post as specified, and leaves the fight alone |
| `ChaserController.AgentState.TransitionTo` | game_server/src/agent_steering.cc:99-109 | a change of state resets the state and lost counters and the squad mark; no change resets nothing |
| `SquadReturns.ReturnEnds` | game_server/src/agent_runtime_manager.cc:686-737 | whatever happens to a squad member between return passes, some pass out of any three hundred leaves it out of Return |
| `SquadReturns.StallEnds` | game_server/src/agent_runtime_manager.cc:718-727 | one on its way that gets nowhere gives its Return up by the ninetieth pass |
| `SquadReturns.SquadReturn.Update` | game_server/src/agent_runtime_manager.cc:686-737 | the pass over one member in place: it gives up exactly where the specification does, and remembers of the way what that says |
| `SquadReturns.LaterPass` | game_server/src/agent_runtime_manager.cc:700-730 | one pass on the way, told in metres and ticks: what counts as stalled, when its back is turned to the wall, and when it gives up |
| `SquadReturns.FirstPass` | game_server/src/agent_runtime_manager.cc:709-730 | the first pass starts counting where it finds it |
| `SquadReturns.NotAwayPass` | game_server/src/agent_runtime_manager.cc:694-708 | one where it belongs, or in a fight, is on no way back |
| `SquadRounds.FinishRound` | game_server/src/agent_runtime_manager.cc:1363-1366 | after the squad's own tick, the return pass and every controller, member by member |
| `SquadRounds.ServerRoundIsRound` | game_server/src/agent_runtime_manager.cc:1355-1366 | alerts passed, slots handed out, Returns given up and controllers run are together one round of the quiescence proof |
| `SquadRuntime.PatrolGroup.Tick` | game_server/src/patrol_group_runtime.cc:91-222 | one squad tick in place: exactly the living keep their own places, holding is a member engaged, alerts pass as specified, the cursor walks as specified, each member gets the slot of its own place, and no agent outside the squad is touched |
| `SquadRuntime.PatrolGroup.DropCasualties` | game_server/src/patrol_group_runtime.cc:92-103 | erasing from the back leaves exactly the living members, in order, each with its own offset |
| `SquadRuntime.PatrolGroup.Hold` | game_server/src/patrol_group_runtime.cc:109-123 | holding if and only if a member is engaged, and the first member with attention of its own |
| `SquadRuntime.PatrolGroup.TurnSquad` | game_server/src/patrol_group_runtime.cc:135-155 | everyone idle in formation alerts on the source's attention, nobody else changes |
| `SquadRuntime.PatrolGroup.WalkRoute` | game_server/src/patrol_group_runtime.cc:157-194 | the inner loop ends for any waypoints and leaves the route as the walk's specification says |
| `SquadRuntime.AgentIndex.Find` | game_server/src/agent_runtime.h:449-461 | binary search answers exactly whether an agent of that id is in the list, and where |
| `SquadRuntime.AgentIndex.Rebuild` | game_server/src/agent_runtime.h:428-447 | after a rebuild the index names every agent once, in id order |
| `SquadRuntime.FormationKeepsShape` | game_server/src/patrol_group_runtime.cc:14-32 | turning the formation with the route keeps every distance between slots as authored |
| `SquadLaws.SlotLies` | game_server/src/patrol_group_runtime.cc:14-32 | told in dot and cross products: a slot lies as far along the heading, to its right and above the squad's point as its offset says, and where there is no heading it is the offset |
| `SquadLaws.MarchFaces` | game_server/src/patrol_group_runtime.cc:157-194 | after a walk the heading is from where the squad stands to the waypoint it walks at, or nothing where the walk ends exactly on one |
| `SquadLaws.StandingFaces` | game_server/src/patrol_group_runtime.cc:157-164 | a squad that holds or has nowhere left to walk faces the waypoint it stands before |
| `SquadLaws.PlacedExactly` | game_server/src/patrol_group_runtime.cc:196-212 | after the tick every member has its own place's slot, is in the squad and is otherwise as it was |
| `SquadLaws.MarchStep` | game_server/src/patrol_group_runtime.cc:165-187 | short of its waypoint the cursor goes exactly speed times time, straight at it |
| `SquadLaws.WalkOn` | game_server/src/patrol_group_runtime.cc:171-187 | a waypoint within the radius is passed, one reached is walked on from with what is left |
| `SquadLaws.RouteEnds` | game_server/src/patrol_group_runtime.cc:165-194 | a squad that holds stays; any other is done once past its last waypoint, and counts its ticks from then on |
| `SquadLaws.RetiresExactly` | game_server/src/patrol_director.cc:318-349 | when a squad is let go: done for long enough, or the nearest player too far off, and never while it holds |
| `SquadLaws.HoldsExactly` | game_server/src/patrol_group_runtime.cc:109-123 | holding is some member alert, chasing, attacking or searching |
| `SquadLaws.TurnsExactly` | game_server/src/patrol_group_runtime.cc:109-155 | one tick alerts exactly the members that stand idle at their slots, where an engaged one has attention of its own, and hands them the first such one's |
| `SquadRuntime.PatrolGroupRuntime.CreateGroup` | game_server/src/patrol_group_runtime.cc:44-65 | 0 exactly for a request with nowhere to walk, nobody in it or mismatched offsets; otherwise a new squad under an id no squad has had |
| `SquadRuntime.PatrolGroupRuntime.RemoveGroup` | game_server/src/patrol_group_runtime.cc:239-248 | that squad and no other is gone, order kept |
| `SquadRoute.WalkFacts` | game_server/src/patrol_group_runtime.cc:166-187 | one tick's walk spends no more than it was given, moves the cursor no further than it spent and shortens the route left by at least as much |
| `SquadRoute.RunCovers` | game_server/src/patrol_group_runtime.cc:165-194 | over any run the cursor ends no further away than its free ticks could carry it: holding freezes it |
| `SquadRoute.RunFinishes` | game_server/src/patrol_group_runtime.cc:188-194 | enough free ticks finish any route however fights interrupt them, and count towards retirement from then on |
| `SquadRoute.FinishedSquadsRetire` | game_server/src/patrol_director.cc:318-349 | a squad free for long enough is retired exactly when it is not holding |
| `PlayerGroups.GroupPlayers` | game_server/src/patrol_targeting.cc:32-100 | the groups are exactly the connected components of "within radius", members by id, groups by size and then lowest id, nobody lost or duplicated |
| `PlayerGroups.GroupingIsUnique` | game_server/src/patrol_targeting.cc:91-99 | with distinct ids any permutation of the players gives the same groups in the same order |
| `PlayerGroups.LinkedExactly` | game_server/src/patrol_targeting.cc:54-58 | the link is distance over the ground within the radius, its edge included, whatever the heights |
| `PlayerGroups.OrderedExactly` | game_server/src/patrol_targeting.cc:67-99 | what the order is: sizes never increase, ties go by the lowest id, and ids ascend in a group |
| `PlayerGroups.CentroidGrows` | game_server/src/patrol_targeting.cc:81-90 | the centroid of one is where it stands, and each further player moves it by its share |
| `PlayerGroups.RootsAreComponents` | game_server/src/patrol_targeting.cc:45-66 | after all pairs are united two players share a root if and only if a chain of links joins them |
| `PlayerGroups.FindRoot` | game_server/src/patrol_targeting.cc:47-53 | path halving ends at the root and leaves every player's root as it was |
| `PlayerGroups.HalvingKeepsRoots` | game_server/src/patrol_targeting.cc:47-53 | pointing a node at its grandparent changes no root and keeps parents at or below their children |
| `PlayerGroups.UnionMergesRoots` | game_server/src/patrol_targeting.cc:60-63 | linking the higher root under the lower moves exactly that tree |
| `PlayerGroups.BuildForest` | game_server/src/patrol_targeting.cc:45-66 | the forest after the double loop separates players exactly by connectedness |
| `PlayerGroups.CollectGroups` | game_server/src/patrol_targeting.cc:68-81 | one group a root, each holding exactly the players under it |
| `ThreatTracker.PlayerThreatTracker.Observe` | game_server/src/patrol_targeting.cc:119-144 | after any sequence of sightings the map holds exactly those present at the last, each stamped with the tick its unbroken stay began or it was last threatened since |
| `ThreatTracker.MarkIsUnique` | game_server/src/patrol_targeting.cc:135-138 | there is only one such tick, so the stamp is determined by the history |
| `ThreatTracker.NearExactly` | game_server/src/patrol_targeting.cc:128-134 | near a squad is over the ground, the radius included |
| `ThreatTracker.StarvedExactly` | game_server/src/patrol_targeting.cc:146-164 | a group has starved as long as the one of its members on record that starved least, and nothing where nobody is |
| `ThreatTracker.UnionStarves` | game_server/src/patrol_targeting.cc:146-164 | a merged group has starved as long as the part that starved least; an untracked part adds nothing |
| `ThreatTracker.PlayerThreatTracker.GroupStarvedTicks` | game_server/src/patrol_targeting.cc:146-164 | the loop computes that starvation |
| `Allocation.ChoosePatrolTarget` | game_server/src/patrol_allocation.cc:50-120 | none exactly when nothing enabled fits; otherwise the least by class, class key and list order, within the room, and a choice that is not the floor leaves the definition at or under its cap |
| `AllocationLaws.ChosenOutranks` | game_server/src/patrol_allocation.cc:50-120 | told of players, squads and ticks: what is chosen may be served, with the squad of the first tier its size falls in, and the starved go before the unthreatened and those before any other, each by its own order and then by the list |
| `AllocationLaws.NoneExactly` | game_server/src/patrol_allocation.cc:50-120 | and nothing is chosen exactly where nothing may be served |
| `AllocationLaws.ServedExactly` | game_server/src/patrol_allocation.cc:54-119 | what may be served, and for which reason |
| `AllocationLaws.TierIs` | game_server/src/patrol_allocation.cc:24-36 | which squad a size gets: that of the first tier it falls in, or the definition's own |
| `AllocationLaws.CapIs` | game_server/src/patrol_allocation.cc:12-48 | so many squads are under a cap where they are under the product less the hair |
| `AllocationLaws.TablesExactly` | game_server/src/patrol_director.cc:91-126 | which tables of tiers are accepted, told of the tiers' numbers and squads alone |
| `Allocation.LeastIsUnique` | game_server/src/patrol_allocation.cc:54-119 | that least choice is the only one |
| `Allocation.StarvedFirst` | game_server/src/patrol_allocation.cc:79-88 | a starved group that fits is never passed over for one that is not, nor for one starved less |
| `Allocation.FirstThatFits` | game_server/src/patrol_allocation.cc:64-75 | of one class, filtered and stably sorted, the first that fits is ahead of all others that fit |
| `Allocation.InOrder` | game_server/src/patrol_allocation.cc:95-106 | the stable sort leaves exactly the qualifying candidates, each ahead of those after it |
| `Allocation.CeilProduct` | game_server/src/patrol_allocation.cc:14-20 | the least whole number not below the product less a hair, 0 for none |
| `Allocation.WholeProduct` | game_server/src/patrol_allocation.cc:12-20 | a product that is whole comes out as itself, hair or not |
| `Allocation.SquadShapeFor` | game_server/src/patrol_allocation.cc:24-36 | the first tier that matches, or else the definition's own squad |
| `Allocation.ValidateSquadTiers` | game_server/src/patrol_director.cc:91-126 | accepts exactly tables that start at 1, follow on (in 32 bits), end unbounded and whose squads are valid |
| `Allocation.TiersMatchOnce` | game_server/src/patrol_director.cc:91-117 | an accepted table matches every group size exactly once if and only if no tier ends at the widest 32-bit number |
| `Allocation.WrappedTierAccepted` | game_server/src/patrol_director.cc:97-117 | such a table: accepted, and a group of one matches both its tiers |
| `Allocation.SquadComesOutExact` | game_server/src/patrol_allocation.cc:24-36 | whatever the group's size, an accepted table gives a squad whose draw is always exactly the size asked for |
| `Composition.DrawSpawnComposition` | game_server/src/spawn_sampling.cc:101-138 | the loops draw exactly the deal the random stream's picks spell out, and use no more of the stream |
| `Composition.TotalExactly` | game_server/src/spawn_sampling.cc:101-138 | for any stream each entry is in its band, and in all there are as many as asked for, or what the floors come to if that is more, or the ceilings if that is less |
| `Composition.PickIs` | game_server/src/spawn_sampling.cc:114-120 | each pick is the next word of the stream taken round what is left |
| `Composition.PlacePick` | game_server/src/spawn_sampling.cc:121-131 | every pick lands, in the entry whose room it falls in |
| `Composition.ValidateSpawnComposition` | game_server/src/spawn_sampling.cc:73-99 | accepts exactly non-empty compositions with open bands that hold the whole range of counts, and names the first closed band |
| `Composition.ValidExactly` | game_server/src/spawn_sampling.cc:73-99 | which those are, told of the entries' floors and ceilings alone |
| `Composition.ValidMeansExact` | game_server/src/spawn_sampling.cc:73-99 | the accepted compositions are exactly those from which every size in range always comes out exact |
| `Composition.InRangeIs` | game_server/src/spawn_sampling.cc:25-33 | a number in the range, both ends included, as far up from its low end as the word goes round it |
| `DrawLaw.OutcomesCount` | game_server/src/spawn_sampling.cc:114-134 | the number of pick sequences that yield given extras is k! times the product of the entries' binomials |
| `DrawLaw.AllPicksCount` | game_server/src/spawn_sampling.cc:114-134 | all pick sequences of length k number total (total-1) ... (total-k+1) |
| `DrawLaw.Hypergeometric` | game_server/src/spawn_sampling.h:91-98 | so the extras are hypergeometric: the share of an outcome is the product of binomials over the binomial of the whole |
| `SpawnerDirector.SpawnerDirector.Tick` | game_server/src/spawner_director.cc:158-169 | the clocks on exactly the carriers that are there and then the callers, each turn exactly as specified: what the kernel was asked for, what is remembered of its answers, logged and spent; the invariant is kept and the agent budget filled no further than its ceiling |
| `SpawnerLaws.NoCall` | game_server/src/spawner_director.cc:394-457 | a caller that sees nothing, waits, has used its calls up, was refused or was put out by a spawner asks for nobody and is not refused |
| `SpawnerLaws.CallRefused` | game_server/src/spawner_director.cc:458-487 | one that may call and for which no whole wave keeps within its own ceiling, the shared one and the server's is refused, and asks for nobody |
| `SpawnerLaws.CallAnswered` | game_server/src/spawner_director.cc:458-507 | one that may call and for which some whole wave does is not refused: if it is there, exactly the largest wave that does, up to what was drawn, is asked for, and if anyone comes the call is counted, logged and its gap begins |
| `SpawnerLaws.ClockFiresExactly` | game_server/src/spawner_director.cc:252-331 | a clock asks for the largest wave there is room for exactly where it has run down on a carrier that is there and some whole wave keeps within both ceilings; it is wound up again if anyone comes |
| `SpawnerSteps.RecordedIs` | game_server/src/spawner_director.cc:595-605 | everyone given, in order and nobody else, is on the carrier's list, on the shared one if it called, and marked if it could call itself |
| `Waves.UnitsAre` | game_server/src/spawner_director.cc:522-536 | a wave asks for as many of each entry as were drawn, the entries in order |
| `SpawnerLaws.OneRetired` | game_server/src/spawner_director.cc:236-250 | a clock is dropped where the query does not find its carrier, and nothing else is |
| `SpawnerLaws.RetiredSplits` | game_server/src/spawner_director.cc:236-250 | the rest keep their order |
| `SpawnerLaws.OneRested` | game_server/src/spawner_director.cc:337-375 | a caller that is gone is dropped, any other has one tick less to wait, and clocks are left alone |
| `SpawnerLaws.RestedSplits` | game_server/src/spawner_director.cc:354-375 | and all keep their order |
| `SpawnerLaws.PrunedSplits` | game_server/src/spawner_director.cc:342-352 | the lists of who is out keep those alive, in order |
| `SpawnerLaws.RestedLists` | game_server/src/spawner_director.cc:337-352 | who answers calls and who may not call is on its own list for as long as it lives |
| `SpawnerLaws.FoundIs` | game_server/src/spawner_director.cc:176-234 | a clock that is found starts a whole interval from its first wave, with nobody out |
| `SpawnerLaws.ClocksTakeTurns` | game_server/src/spawner_director.cc:252-331 | in a tick every clock that is left has its turn, in the order they were found |
| `SpawnerLaws.ClocksHaveTurns` | game_server/src/spawner_director.cc:191-250 | every clock that is there has an instance when the clocks take their turns, and no clock that is gone does |
| `SpawnerLaws.CallersTakeTurns` | game_server/src/spawner_director.cc:380-506 | and then every signal, in net id order, each from where the one before it left off |
| `SpawnerDirector.SpawnerDirector.TickIntervalCarriers` | game_server/src/spawner_director.cc:171-331 | discovery by query, retirement of exactly the clocks that are gone and every clock's turn keep the invariant, and log no call |
| `SpawnerDirector.SpawnerDirector.TickAlertCarriers` | game_server/src/spawner_director.cc:333-507 | pruning, countdown and every signal's turn in net id order keep the invariant, one tick later |
| `SpawnerDirector.SpawnerDirector.EmitWave` | game_server/src/spawner_director.cc:509-621 | a wave asks for exactly its units, records those given for its carrier, and marks every unit that could call |
| `SpawnerDirector.SpawnerDirector.FireClock` | game_server/src/spawner_director.cc:252-330 | a clock's turn in place is its specification's; the invariant and every ceiling hold |
| `SpawnerDirector.SpawnerDirector.Answer` | game_server/src/spawner_director.cc:394-506 | a signal's turn in place is its specification's; the invariant and every ceiling hold |
| `SpawnerSteps.CallAskIs` | game_server/src/spawner_director.cc:458-487 | a call is as big as what was drawn and three ceilings let it be, and 0 exactly where that is less than a wave must be |
| `SpawnerSteps.ClockAskIs` | game_server/src/spawner_director.cc:296-319 | so is a clock's wave, under two ceilings |
| `Spawners.SharedCeilingHolds` | game_server/src/spawner_director.cc:337-352 | the reinforcements alive never exceed the shared budget, callers alive or not |
| `Spawners.OwnCeilingHolds` | game_server/src/spawner_director.cc:467-477 | a living carrier, on a clock or calling, never has more units alive than its own ceiling |
| `Spawners.CallsNeverChain` | game_server/src/spawner_director.cc:596-604 | no unit that answered a call was called for by a unit some spawner made, and no such unit has ever called |
| `Spawners.CallsSpaced` | game_server/src/spawner_director.cc:354-364 | two calls of a carrier are at least its interval apart, an engagement has no more than it may, and none follows a refusal in it |
| `Spawners.LaterKeeps` | game_server/src/spawner_director.cc:236-250 | deaths and births outside the director keep everything it relies on |
| `Spawners.PutOutKeeps` | game_server/src/spawner_director.cc:595-605 | one more unit, recorded, keeps every ceiling and mark while there is room |
| `Spawners.EventKeeps` | game_server/src/spawner_director.cc:419-435 | a call, a refusal and a new engagement each keep the log's promises |
| `Spawners.CountdownKeeps` | game_server/src/spawner_director.cc:354-364 | counting all gaps down as the clock moves keeps calls a gap apart |
| `Spawners.DropKeeps` | game_server/src/spawner_director.cc:365-375 | retiring instances of carriers that are gone keeps every living one remembered |
| `AgentRuntimeManager.AgentRuntimeManager.Tick` | game_server/src/agent_runtime_manager.cc:1303-1343 | patrols, world rules, missions and spawners run once each, in that order, every one from where the last left the kernel and the budget; patrols and spawners together make no more than what the tick began under the ceiling with, and the population ends at most max(before, ceiling) plus what the two kinds of rules made |
| `AgentRuntimeManager.AgentRuntimeManager.TickPatrols` | game_server/src/agent_runtime_manager.cc:1315-1328 | after squads the budget is exact again and within the ceiling if any were made |
| `AgentRuntimeManager.AgentRuntimeManager.TickWorldRules` | game_server/src/agent_runtime_manager.cc:1329-1336 | what world rules make is counted into the budget, agents or not, never past their largest target |
| `AgentRuntimeManager.AgentRuntimeManager.Elapse` | game_server/src/agent_runtime_manager.cc:1287-1310 | whatever dies or appears between ticks keeps the directors' invariant |
| `AgentKernel.AgentBudget.Room` | game_server/src/agent_budget.h:24-29 | what is left under a ceiling, all there can be without one; together with the living it is never above it |
| `PatrolDirector.PatrolDirector.Tick` | game_server/src/patrol_director.cc:192-278 | every definition's turn exactly as specified, each seeing what those before it spent; the pass stays under the server's ceiling, its own agents ceiling and each area definition's squads, and the squads it began with stay, in order, but for those let go |
| `PatrolLaws.AreaAsksExactly` | game_server/src/patrol_director.cc:212-276 | in its own area a definition that goes by the clock asks for a squad exactly where its wait is over, it has fewer than it may, its largest draw keeps within both ceilings and a route is found; it asks for what it draws, and those given are the squad |
| `PatrolLaws.AroundAsksExactly` | game_server/src/patrol_director.cc:596-700 | aimed at players it asks for one exactly where no retry is pending, some group can be served and a route is found, and for what the squad of the group served first draws |
| `PatrolLaws.AroundAsksNobody` | game_server/src/patrol_director.cc:608-641 | where no group can be served both waits run down and nothing else happens |
| `PatrolLaws.LetGoExactly` | game_server/src/patrol_director.cc:323-349 | a squad is let go exactly where it is not holding and has lingered as long as the first definition of its id allows, or is further from the nearest player than that allows |
| `PatrolLaws.StrayStays` | game_server/src/patrol_director.cc:324-332 | a squad whose definition is gone is never let go |
| `PatrolLaws.SquadAgentsAre` | game_server/src/patrol_director.cc:204-210 | everyone in every squad counts once against the patrols' own ceiling |
| `PatrolDirector.PatrolDirector.constructor` | game_server/src/patrol_director.cc:176-190 | no definition places a squad before its interval has run once |
| `PatrolLaws.GivenSplits` | game_server/src/patrol_director.cc:756-790 | the squad is those given, each in its turn |
| `PatrolLaws.RoomIsLargest` | game_server/src/patrol_director.cc:214-227 | the room is the most agents that keep within both ceilings |
| `PatrolDirector.PatrolDirector.Retire` | game_server/src/patrol_director.cc:318-349 | exactly the squads whose definition lets them go are retired |
| `PatrolSteps.HoldingRemains` | game_server/src/patrol_director.cc:333-336 | a squad that is holding is never retired |
| `PatrolDirector.PatrolDirector.TickAroundPlayers` | game_server/src/patrol_director.cc:596-700 | a squad aimed at players fits the room all ceilings leave, and spends its largest draw |
| `PatrolDirector.PatrolDirector.TickArea` | game_server/src/patrol_director.cc:244-276 | an area squad only where squads, agents and the server have room for its largest draw |
| `PatrolDirector.PatrolDirector.SpawnSquad` | game_server/src/patrol_director.cc:736-837 | one squad of exactly those the kernel gave of what was drawn, or nothing at all |
| `WorldRules.WorldRuleDirector.Tick` | game_server/src/world_rule_director.cc:24-111 | rule after rule exactly as specified, each counting what those before it made: nothing is made past the largest target, whatever of it is an agent |
| `WorldRules.TargetsMet` | game_server/src/world_rule_director.cc:24-111 | a pass that is refused nothing leaves no due rule short of its target, and the population at exactly one of those targets or where it was |
| `WorldRules.MaxTargetIs` | game_server/src/world_rule_director.cc:24-111 | what that largest target is |
| `WorldRules.CountedAsGiven` | game_server/src/world_rule_director.cc:46-104 | whatever is refused, the population is counted up by exactly what was given, and everything asked for is what some due rule short of its target spawns |
| `WorldRules.RulePeriod` | game_server/src/world_rule_director.cc:38-49 | over any passes: a rule that made something asks for nothing for max(1, interval) - 1 passes, however short the population falls, and is due on the next |
| `MissionFlow.OpensInOrder` | game_server/src/game_rule_director.cc:211-235 | over any run, graph and kernel, a node opens only after every node pointing at it completed, and none that may open is left shut |
| `MissionFlow.AdvanceKeepsOrder` | game_server/src/game_rule_director.cc:181-235 | an update completes exactly the active nodes whose condition holds, and states only move forward one step |
| `MissionLaws.CompletesExactly` | game_server/src/game_rule_director.cc:181-209 | told of players and of who is alive: one update completes an open node exactly where enough players are there, or the first group of its name was filled without a refusal and none of its members is alive |
| `MissionLaws.OpensExactly` | game_server/src/game_rule_director.cc:211-235 | and opens a shut one exactly where something points at it and all that does is completed |
| `MissionLaws.RootsOpenFirst` | game_server/src/game_rule_director.cc:149-179 | a flow opens first exactly the nodes nothing points at |
| `MissionLaws.FinishedExactly` | game_server/src/game_rule_director.cc:236-247 | it is finished exactly when every node is completed |
| `MissionLaws.WaveOutlived` | game_server/src/game_rule_director.cc:181-209 | over any run no node that waits on its own wave completes while anyone of it is alive |
| `MissionFlow.NoDeadlock` | game_server/src/game_rule_director.cc:211-247 | on an acyclic graph an unfinished flow always has an active node |
| `MissionFlow.SpawnsOnce` | game_server/src/game_rule_director.cc:61-127 | over any run a node's group is empty until it opens and then holds exactly its number of members, unless the kernel refused one |
| `MissionFlow.ActivateFails` | game_server/src/game_rule_director.cc:61-121 | opening a node fails the flow exactly where it waits on a group it does not fill, its group is missing or a create is refused |
| `MissionFlow.HalfFilledNeverCleared` | game_server/src/game_rule_director.cc:102-115 | a wave that could not be filled never reads as cleared |
| `MissionFlow.AdvanceGetsOn` | game_server/src/game_rule_director.cc:181-235 | an update that finds some active condition met leaves strictly fewer nodes to do |
| `MissionFlow.FavourableIsFruitful` | game_server/src/game_rule_director.cc:181-235 | on an acyclic graph an update that finds all active conditions met finds one |
| `MissionFlow.FinishesFruitfully` | game_server/src/game_rule_director.cc:133-248 | a well-formed flow that meets no refusal is finished once as many of its updates as it has nodes have found some active condition met, whatever the other ticks saw |
| `MissionFlow.Finishes` | game_server/src/game_rule_director.cc:133-248 | an acyclic, well-formed flow that meets no refusal is finished once as many of its updates as it has nodes have found all active conditions met, whatever the other ticks saw |
| `MissionFlow.FinishesInTime` | game_server/src/game_rule_director.cc:133-248 | and where every update finds them met, within one opening tick and one update a node |
| `MissionFlow.LooksAreSpaced` | game_server/src/game_rule_director.cc:139-147 | while a flow runs, its ticks are exactly one opening, and max(1, interval) idle ones and an update for each update made |
| `MissionFlow.UpdatePeriod` | game_server/src/game_rule_director.cc:139-147 | from one update to the next, max(1, interval) ticks change nothing and the one after is the update: the period is never the interval |
| `MissionFlow.PeriodIsNotInterval` | game_server/src/game_rule_director.cc:139-147 | at an interval of 1 a flow that is ready at once finishes on its third tick, not its second |
| `MissionFlow.LoopNeverFinishes` | game_server/src/game_rule_director.h:57-58 | acyclic is needed too: a flow with a loop among its edges never finishes, whatever happens |
| `MissionDirector.RuleRuntime.Tick` | game_server/src/game_rule_director.cc:133-248 | the runtime updated in place ends as the flow's specification says |
| `MissionDirector.RuleRuntime.ActivateNode` | game_server/src/game_rule_director.cc:61-127 | states, group, status and the create requests made are as specified |
| `MissionDirector.RuleRuntime.FillMembers` | game_server/src/game_rule_director.cc:88-121 | members are created one by one up to the first refusal, which marks the group failed |
| `MissionDirector.RuleRuntime.MayOpen` | game_server/src/game_rule_director.cc:217-231 | the flag loop decides: pointed at by something, and by nothing unfinished |
| `Ballistics.SolverExact` | game_server/src/ballistic_aim.cc:67-137 | off the line of gravity with a discriminant not negative, or on it and not too near: the shot hits, at unit length, sooner than any other, or nobody hits within the limit; with a negative discriminant nobody hits, whatever comes back |
| `Ballistics.GivenShotHits` | game_server/src/ballistic_aim.cc:89-97 | a returned shot hits if and only if the target is off that line by more than the tolerance with a discriminant not negative, or exactly on it |
| `Ballistics.ToleranceExactly` | game_server/src/ballistic_aim.cc:101-131 | with a discriminant below 0 a shot is given exactly where it is short by no more than a hundred-thousandth of the scale and its flight, as if it were 0, is not too long |
| `Ballistics.OutOfReach` | game_server/src/ballistic_aim.cc:101-115 | a negative discriminant: no unit direction reaches the target at any time |
| `Ballistics.ArcExact` | game_server/src/ballistic_aim.cc:98-136 | the rationalised tangent, cosine and time are those of the soonest hit |
| `Ballistics.VerticalExact` | game_server/src/ballistic_aim.cc:36-63 | both vertical cases are exact |
| `Ballistics.ArrivalBound` | game_server/src/ballistic_aim.cc:99-104 | any shot that arrives makes the discriminant a square, which bounds how soon it can be |
| `Ballistics.OffLineMissed` | game_server/src/ballistic_aim.cc:89-96 | a shot straight up or down misses anything off its line |
| `BallisticReach.ReachExactly` | game_server/src/ballistic_aim.cc:67-104 | for any gravity and target, somebody at this speed hits within the limit if and only if a condition in two squared lengths, a dot product and a square root holds |
| `BallisticReach.RefusalsRight` | game_server/src/ballistic_aim.cc:36-137 | a refusal is right, nobody hits within the limit, if and only if it is not one of a target the tolerances overlook and that is in reach |
| `BallisticReach.NearRefused` | game_server/src/ballistic_aim.cc:42-44 | on the line of gravity and nearer than the tolerance the answer is always none, though there is a soonest shot |
| `BallisticReach.OwnPlaceRefused` | game_server/src/ballistic_aim.cc:42-44 | aiming at one's own place is always refused, rightly if and only if a shot straight up is not back within the limit |
| `BallisticReach.ShotIntoNothing` | game_server/src/ballistic_aim.cc:113-116 | a discriminant a little below zero for which a shot is given, and nothing ever hits |
| `BallisticReach.ShotBeside` | game_server/src/ballistic_aim.cc:90-97 | a target beside the line of gravity that is shot at along it, and missed |
| `Mirror.MirrorMultiply` | tools/gltf_to_unity_handedness.py:150-158 | mirroring commutes with composing rotations |
| `Mirror.MirrorRotate` | tools/kernel_skeleton_from_source.py:109-111 | a mirrored rotation turns mirrored vectors into the mirror images |
| `Mirror.MirrorNormalize` | tools/kernel_skeleton_from_source.py:121-123 | normalising keeps the mirror image, and fails on both or neither |
| `Mirror.WindingKeepsNormal` | tools/gltf_to_unity_handedness.py:129-135 | reversing the winding of the mirrored triangle keeps its normal the mirror image; without it the normal is opposite |
| `Mirror.MirrorProduct` | tools/gltf_to_unity_handedness.py:138-147 | negating mixed components is a homomorphism of matrices |
| `Mirror.MirrorLocal` | tools/gltf_to_unity_handedness.py:16-18 | a node's converted parts make the mirror image of its matrix |
| `PoseMatrix.LocalMatrixCarries` | tools/kernel_skeleton_from_source.py:109-111 | for a unit rotation the matrix of a node takes a point exactly where scaling it, rotating it and moving it does: matrices and rotations speak of one pose |
| `PoseMatrix.MultiplyCarries` | tools/gltf_to_unity_handedness.py:16-18 | and a product of such matrices carries a point by one and then the other |
| `PoseMatrix.WorldCarries` | tools/gltf_to_unity_handedness.py:182-192 | so a node's matrix in model space takes a point where its parent's takes what the node's own scaling, turn and move make of it |
| `PoseWorld.RotateTwice` | tools/kernel_skeleton_from_source.py:101-111 | turning by a product of rotations is turning by one and then by the other |
| `PoseWorld.PoseIsMatrix` | tools/kernel_skeleton_from_source.py:400-415 | where nothing above a node is scaled, its matrix does to every point exactly what the position and rotation in the tables, and its own scale, do |
| `PoseWorld.PlacedAsMatrix` | tools/kernel_skeleton_from_source.py:400-415 | the tables have a node where its matrix puts it as long as nothing that has grandchildren is scaled |
| `PoseWorld.RightWithoutScaledGrandparents` | tools/kernel_skeleton_from_source.py:409-414 | and where no scale is zero only then: the tables are right, however nodes are moved and turned, if and only if nothing that has grandchildren is scaled |
| `SkeletonPose.PoseMirrored` | tools/kernel_skeleton_from_source.py:400-415 | for any node forest the pose of the converted nodes is the mirror image of the pose of the originals, node by node |
| `SkeletonPose.WorldMirrored` | tools/gltf_to_unity_handedness.py:182-192 | so is each node's model-space matrix |
| `SkeletonPose.SkinMirrored` | tools/gltf_to_unity_handedness.py:218-222 | joint times inverse bind comes out as M (joint IBM) M |
| `SkeletonPose.ConvertNodes` | tools/gltf_to_unity_handedness.py:182-192 | in place: fails exactly on a matrix node, otherwise every node is converted |
| `SkeletonPose.ConvertedTwice` | tools/gltf_to_unity_handedness.py:182-192 | converting the nodes back restores them |
| `SkeletonPose.Solver.Solve` | tools/kernel_skeleton_from_source.py:400-415 | the tables filled from parents down hold exactly the pose, and it fails exactly where a rotation has no length |
| `SkeletonPose.Solver.Refresh` | tools/kernel_skeleton_from_source.py:393-398 | every node is placed, or the pose of one does not exist |
| `Handedness.Converter.Convert` | tools/gltf_to_unity_handedness.py:194-222 | fails exactly on a primitive that is not an indexed triangle list, an accessor that is not there or a use that runs off the buffer; otherwise the buffer is what each accessor's first use, in order, makes of it, bounds turned, which where accessors have what their uses touch is every one flipped once and no other cell changed |
| `VisitLaws.VisitedExactly` | tools/gltf_to_unity_handedness.py:195-222 | which accessors are used for what: positions and normals of every primitive and of its morph targets as directions, tangents as tangents, indices as winding, inverse bind matrices as such, and nothing else |
| `VisitLaws.FirstVisitDecides` | tools/gltf_to_unity_handedness.py:203-222 | an accessor is converted as what its first use says |
| `VisitLaws.AttributesInOrder` | tools/gltf_to_unity_handedness.py:200-211 | uses come attribute by attribute, target after target |
| `VisitLaws.PrimitivesInOrder` | tools/gltf_to_unity_handedness.py:196-216 | primitive after primitive, each one's indices last |
| `VisitLaws.MeshesInOrder` | tools/gltf_to_unity_handedness.py:195-216 | mesh after mesh |
| `VisitLaws.SkinsInOrder` | tools/gltf_to_unity_handedness.py:218-222 | and skin after skin |
| `VisitLaws.SkinsLast` | tools/gltf_to_unity_handedness.py:218-222 | and every skin after every mesh |
| `Handedness.ConvertedFlips` | tools/gltf_to_unity_handedness.py:194-222 | where accessors do not overlap and have the components their uses touch, the uses in order flip each accessor used, once, by its first use, and change nothing else |
| `Handedness.ConvertTwice` | tools/gltf_to_unity_handedness.py:194-222 | there, converting the converted buffer gives back the one converted |
| `Handedness.Converter.Use` | tools/gltf_to_unity_handedness.py:205-216 | an accessor is flipped the first time it is met and never again |
| `Handedness.NegateX` | tools/gltf_to_unity_handedness.py:117-126 | negates X, and W where asked, element by element, and turns the bounds round; it stops exactly where a W is past the end of the buffer |
| `Handedness.NegatedFlips` | tools/gltf_to_unity_handedness.py:117-122 | for packed accessors with the components it needs, that flips its own cells and no others |
| `Handedness.TangentsNeedFour` | tools/gltf_to_unity_handedness.py:208-211 | flipping the fourth component keeps to the accessor exactly where it has four components |
| `Handedness.TangentsFlippedExactly` | tools/gltf_to_unity_handedness.py:208-211 | every buffer comes out with a tangent accessor flipped if and only if it has four components |
| `Handedness.TightTangentsUnmirrored` | tools/gltf_to_unity_handedness.py:117-122 | of a tight run of three-component tangents the first alone has its X negated, every other keeps it, and the cell behind the run is negated |
| `Handedness.ReverseWinding` | tools/gltf_to_unity_handedness.py:129-135 | every whole triangle has its last two corners exchanged, one after the other |
| `Handedness.RewindingFlips` | tools/gltf_to_unity_handedness.py:129-135 | nothing else moves |
| `Handedness.MirrorBindMatrices` | tools/gltf_to_unity_handedness.py:138-147 | every mixed component is negated, matrix by matrix; it stops exactly where one is past the end of the buffer |
| `Handedness.MirroringFlips` | tools/gltf_to_unity_handedness.py:138-147 | that mirrors every matrix of the accessor and moves nothing else |
| `Handedness.VectorsMirrored` | tools/gltf_to_unity_handedness.py:117-122 | a flipped vector is the mirror image of what it was |
| `Handedness.MatricesMirrored` | tools/gltf_to_unity_handedness.py:138-147 | a flipped inverse bind matrix is M A M |
| `Handedness.CornersExchanged` | tools/gltf_to_unity_handedness.py:129-135 | which corners a rewound index list holds |
| `Handedness.BoundsStillHold` | tools/gltf_to_unity_handedness.py:123-126 | the exchanged and negated bounds hold of exactly the negated values |
| `PngUnfilter.RoundTrip` | tools/terrain/ground_png_to_nkgm.py:31-54 | for every image and every choice of row filters, decoding what the filters of section 6 of RFC 2083 produce gives the rows back, whatever follows |
| `PngFormat.DecodedByte` | tools/terrain/ground_png_to_nkgm.py:36-54 | filter by filter, as section 6 of RFC 2083 has it, what every byte of a decoded row is; of the three neighbours Paeth takes one that no other is nearer to their sum than, in order |
| `PngFormat.FileLaid` | tools/terrain/ground_png_to_nkgm.py:57-66 | what the file begins with and how long it is, byte by byte |
| `PngFormat.SampleLaid` | tools/terrain/ground_png_to_nkgm.py:57-66 | where in the file each sample of the picture is, at full depth |
| `PngFormat.ServerReads` | game_server/src/terrain/terrain_assets.cc:100-127 | the server takes the cooked file exactly where both sizes are ones it allows, and then reads every sample back as it was, rows turned round |
| `GroundMap.ParseGroundMap` | game_server/src/terrain/terrain_assets.cc:215-247 | the server's reader: which files it takes, and the samples it reads |
| `PngUnfilter.RebuiltUndoesFilter` | tools/terrain/ground_png_to_nkgm.py:38-52 | byte by byte a row is rebuilt from its filtered form |
| `PngUnfilter.UnfilterInPlace` | tools/terrain/ground_png_to_nkgm.py:36-52 | the in-place loop, tie order of Paeth included, computes the rebuilt row |
| `PngUnfilter.ReadRows` | tools/terrain/ground_png_to_nkgm.py:31-54 | reads exactly the decoded picture, and fails exactly on a stream too short for it |
| `PngUnfilter.WriteNkgm` | tools/terrain/ground_png_to_nkgm.py:57-66 | the header and every sample little-endian, rows turned round, all of it bytes |
| `PngUnfilter.CookedMap` | tools/terrain/ground_png_to_nkgm.py:57-66 | end to end: however a picture's rows were filtered, by filters that are bytes, the stream is one the tool takes, and the file then holds each sample's two bytes swapped at the mirrored row |
| `PngUnfilter.EncodeBytes` | tools/terrain/ground_png_to_nkgm.py:31-54 | filtering rows of bytes gives bytes |
| `PngUnfilter.Cook` | tools/terrain/ground_png_to_nkgm.py:57-66 | the whole tool: what it fails on, and that the file it writes is bytes and holds the decoded picture |
| `Respawn.RespawnScheduler.Advance` | game_server/src/respawn_scheduler.cc:21-47 | deaths resolved, clock moved, due players returned in id order, each once; late comers join dead from then on exactly where somebody has died and a finite pool is used up; a finite pool stays balanced exactly where nobody granted a revive was already waiting |
| `Respawn.RespawnScheduler.Resolve` | game_server/src/respawn_scheduler.cc:22-34 | the loop reserves for exactly the granted, one revive each |
| `Respawn.RespawnScheduler.OnPlayerDied` | game_server/src/respawn_scheduler.cc:10-14 | a death waits its turn, decided with the others of its tick; nobody's is dropped |
| `Respawn.RespawnScheduler.OnPlayerLeft` | game_server/src/respawn_scheduler.cc:16-19 | one who leaves forfeits its reservation and its unresolved death, nobody else's |
| `Respawn.ArrivalOrderIsNothing` | game_server/src/respawn_scheduler.cc:22-23 | the order and repetition of a tick's deaths make no difference |
| `Respawn.LowestIdsWin` | game_server/src/respawn_scheduler.cc:24-33 | when revives run short the lowest ids have them, all of them |
| `Respawn.RevivesSpent` | game_server/src/respawn_scheduler.cc:24-33 | an unlimited pool serves everyone and stays; a finite one gives one revive each until it is empty |
| `Respawn.ReadyFacts` | game_server/src/respawn_scheduler.cc:37-45 | exactly those whose delay has elapsed are returned, and exactly the others still wait |
| `Respawn.PutAllFacts` | game_server/src/respawn_scheduler.cc:32-32 | reserving adds one waiting player for each that was not waiting already |
| `Respawn.SecondDeathCostsTwo` | game_server/src/respawn_scheduler.cc:24-33 | one who dies again while waiting takes a second revive, and no more are waiting than before |
| `Respawn.TwoForOne` | game_server/src/respawn_scheduler.cc:24-33 | two revives and one player: dead twice, one place waiting and none left |
| `ChaseRings.PlanRings` | game_server/src/agent_chaser_controller.cc:401-490 | every group of two or more after a known target is dealt rings, each as full as its own spacing lets it be, and nobody else is |
| `ChaseRings.PlacesWithinArc` | game_server/src/agent_chaser_controller.cc:393-486 | whoever has a place has it within the arc of the mean of its ring's bearings |
| `ChaseRings.PlacesAreFair` | game_server/src/agent_chaser_controller.cc:432-459 | of agents sharing a target each has one place, and the better ranked, or at one rank the lower id, is never further out |
| `ChaseRings.AloneHasNoPlace` | game_server/src/agent_chaser_controller.cc:432-434 | one alone after its target has none |
| `ChaseRings.EveryonePlaced` | game_server/src/agent_chaser_controller.cc:439-452 | everyone's ring is the one its position in the ranking gives it |
| `ChaseRings.RingHolds` | game_server/src/agent_chaser_controller.cc:439-452 | a ring holds exactly the positions its capacity gives it |
| `ChaseRings.WidestGap` | game_server/src/agent_chaser_controller.cc:460-470 | the start follows the first of the widest gaps |
| `ChaseRings.CutSpan` | game_server/src/agent_chaser_controller.cc:460-475 | cut at any gap the bearings never decrease and span the turn less that gap |
| `ChaseRings.WidestSpansLeast` | game_server/src/agent_chaser_controller.cc:453-475 | cut at the widest they span the least they can |
| `ChaseRings.SpreadWithinArc` | game_server/src/agent_chaser_controller.cc:391-397 | a ring within its capacity spreads by no more than the arc either way |
| `ChaseRings.CapacityIsLargest` | game_server/src/agent_chaser_controller.cc:439-446 | and its capacity is the most that do |
| `ChaseRings.PlaceRing` | game_server/src/agent_chaser_controller.cc:453-487 | the ring in bearing order, ties by id, is dealt places a gap apart about the mean of its unwrapped bearings |
| `ChaseRings.MeanGrows` | game_server/src/agent_chaser_controller.cc:471-476 | that mean: one bearing is its own, and each further one moves it by its share |
| `ChaseRings.PlacesCentred` | game_server/src/agent_chaser_controller.cc:477-479 | the first place and the last are as far from the mean |
| `ChaseRings.AnglesSpread` | game_server/src/agent_chaser_controller.cc:477-479 | neighbours are a gap apart and nobody is further from the mean than half the spread |
| `ChaseRings.PlacesApart` | game_server/src/agent_chaser_controller.cc:439-479 | no two places of a ring are nearer than a gap either way round the circle, where twice the arc and a gap are no more than a turn |

## Left out

- Movement, facing, animation, weapon choice, firing, leap and charge tuning, the behaviour behind
  each role's steering: they choose no branch the proofs are about. Flags that do are observations.
- The navmesh, vision, terrain and physics: whether a retreat heading is clear, a route is found or a
  target is visible is an arbitrary input of each tick.
- Floating-point rounding and NaN: geometry is in exact reals, with the code's constants.
- 32-bit wrap of tick counters and of sums of counts, and the bias of a random word taken modulo a
  range: counts are unbounded and picks are any value in range. The one wrap that matters, in the
  tiers, is modelled.
- ChaserController.AgentState.TransitionTo: the patrol rotation counters it also resets only turn an idle
  agent's head and are not modelled.
- AgentState.Tick: the agent's path while seeking, its chase hold and its group id are not modelled.
- SquadRuntime.PatrolGroup.WalkRoute: a waypoint radius is taken to be zero or more. Below zero the
  source divides zero by zero on reaching a waypoint, which no real number models.
- SquadRuntime.PatrolGroup.Tick: members are looked up once after the casualties rather than once a loop, the
  squad's point and the travel velocity handed to members are not modelled, and removing groups
  that have lost everyone is left to the caller.
- SpawnerLaws.CallAnswered: a wave's largest size is taken to fit the 32 bits the source keeps it in.
- PatrolDirector.PatrolDirector.Tick: each squad's walk, whether it holds and how near a player is come in,
  and what players are near, their groups and starvation come in as candidates.
- PatrolDirector.PatrolDirector.TickAroundPlayers: candidates are given, and the ring a route is drawn on and the map's bounds are not modelled.
- SpawnerDirector.SpawnerDirector.Tick: doors, walks out, controllers handed to units and where units stand are not
  modelled, the budget is always there, and every unit a wave makes is an agent.
- AgentRuntimeManager.AgentRuntimeManager.Tick: the despawn of everything, the resync and the controllers
  that follow the directors are not part of it; missions are a list of creates, whichever flows asked
  for them.
- SpawnerDirector.SpawnerDirector.Discover: one query for all types, and no cap on what it reports.
- MissionDirector.RuleRuntime.Tick: one rule rather than the list of rules, which do not touch each other; positions,
  controllers and logging are not modelled.
- ChaserController.AgentState.Tick: hits, sight and clear headings come in with the observation.
- Handedness.NegateX: a component is one cell, so component formats, byte order and integer
  accessors are not modelled, and buffers are as long as their accessors say.
- BallisticReach.RefusalsRight: a speed of zero or less is refused, and whether something dropped or thrown
  backwards would hit is not asked.
- Handedness.Converter.Convert: rest-pose rotations asked for on the command line are not modelled.
- PngUnfilter.Cook: chunks, checksums and inflating are not modelled; it starts from the inflated bytes.
- GroundMap.ParseGroundMap: a file of terrace levels goes to a reader that is not part of this model.
- PoseWorld.RightWithoutScaledGrandparents: asks that no scale is zero, which would hide what is lost above
  it; that unscaled grandparents are enough is proved without (`PoseWorld.PlacedAsMatrix`).
- ChaseRings.PlanRings: the push between neighbours is not modelled; each ring's angular spacing and each
  agent's bearing and rank are given.
- SquadReturns.SquadReturn.Update: whether a path is found is given, so the search, its turns and replanning
  are not modelled, and every member has a slot and is not walking out of a door.
- World rules' positions, the catalog's parsing and its other checks, capture, rendering, inventory,
  networking, what an order must satisfy before it reaches an agent (rates, sides, distances), and the
  rest of the tools are not part of this model.
