# Verification of the queue simulation

This project models the mobility simulation of the crate `rust_qsim` in Dafny and proves what holds
of every input, every interleaving and every run. It has four parts.

**The partitioned queue network.** Links with a waiting list, a queue and a flow-limited buffer
(`FlowCap`, `Storage`, `StuckTimers`, `Links`, `SimLinks`) are objects that are changed in place and
proved against functions on link states (`LinkSpec`); `LinkLaws` says what these compute in lengths,
speeds, rates and times. `NetSpec` describes a partition as a state
machine; `Partition` is the object that works in place, and each of its methods is proved to be a
legal run of that machine, for every draw of the random numbers and every order of iteration. So
what is proved of all runs holds of the code: `NetInvariant` (placement, activity, counter),
`NodeMoves`, `NodeLoop`, `NodeDraws`, `NodeLimit` and `Jams` (the loop of a node: why it ends, what it
computes, which link a draw selects, and exactly when it leaves nothing behind), `Projection` (every link in a partition's run), `FullScan` (skipping idle
links and nodes loses nothing). `System` puts all partitions together with packets that are
delivered exactly once, at any later time and in any order; on it rest `Ledger`, `Overshoot`,
`Conservation` and `Exchange`. `LegEngines` is one tick in the order of the source, and
`SystemTicks` shows that any number of ticks of all processes is a run of the whole system. `RoadNetwork` holds the adjacency
invariants.

**Time and scheduling.** `Clock` (ticks and times), `TimeText` (times as text), `TimeQueues`,
`Activities`.

**Plan editing.** `TripSpans` and `Prepare`.

**Event files and ids.** `Comparison` (the three threads and their barrier), `Merge`, `IdStores` and
`Wire`.

Floating-point numbers are real numbers here, ticks and nanoseconds are natural numbers with the
64-bit limits written out, and every vehicle has a pce between 0 and a bound p. Iteration over hash
sets is arbitrary choice. A random draw is any number from 0 up to, but not including, 1. The
router, the compression and the arrival of messages are parameters. Where the source panics, the
model has a `None` or a precondition. A precondition is proved at every call inside the model; for
the tick of an engine, which is called from outside, it follows from the invariant of the whole
system (`LegEngines.LegEngine.InboxCanBeTaken`, `LegEngines.LegEngine.DepartureCanBegin`).

Where code and expectation differ, the model follows the code and the exact condition is proved:

- `MessageIter` loses the last frame of a file if it is shorter than ten bytes
  (`Wire.AllFramesReadIff`). The compressed id store never writes so short a frame
  (`IdStores.CompressedRoundTrip`).
- The comparison of event files accepts a first file that is contained in the second, an empty file
  against a file with one batch, and a last batch that goes back in time
  (`Comparison.OkMeansAccepted`).
- A teleported vehicle whose leg ends in another partition than the one it departs from, while its
  last route link is not in that partition, is forwarded forever (`Conservation.TeleportArrives`,
  with a witness in `Conservation.ForwardedForever`).
- The tick round trip is exact for rates up to 10^9 only (`Clock.RoundTripIff`); beyond, tick 1 is
  lost (`Clock.TickOneIsLost`).
- The nudges of 1e-6 can end a node's loop while a link could still release a vehicle. This happens
  only with vehicles whose pce is below 1e-6 times (number of in-links - 1), whatever the capacities,
  and below that bound there is a run in which it does (`Jams.SettlesExactlyAbove`).
- A teleported vehicle whose leg ends neither in the partition where it begins nor in a neighbour of
  it may still be on its way after the last tick, and its agent is then not among the drained
  (`Exchange.EveryoneComesHomeIff`, with a run in `Exchange.OneIsMissing`). Everyone else is
  (`Exchange.LastExchange`).
- A replacement that is not alternating breaks an agent's parity rule, and no check prevents it
  (`TripSpans.StaysAlternating`).

## Model

| member | source | states |
|---|---|---|
| `FlowCap.Flowcap.UpdateCapacity` | rust_qsim/src/simulation/network/flow_cap.rs:22-29 | if time has passed, what is left plus the elapsed nanoseconds times the rate per second over 10^9, but no more than the capacity of a tick; otherwise nothing changes |
| `FlowCap.Flowcap.ConsumeCapacity` | rust_qsim/src/simulation/network/flow_cap.rs:39-41 | consuming takes exactly the amount; the bucket may be overdrawn |
| `FlowCap.RefillComposes` | rust_qsim/src/simulation/network/flow_cap.rs:22-29 | refilling at t1 and then at t2 is the same as refilling once at t2: a look at a link can be skipped |
| `FlowCap.RefillBounds` | rust_qsim/src/simulation/network/flow_cap.rs:22-29 | a refill never takes capacity away, never overfills and adds at most rate times elapsed time |
| `LinkLaws.RefillIsExact` | rust_qsim/src/simulation/network/flow_cap.rs:22-29 | after a refill the bucket is full or has gained exactly rate times elapsed time, whichever is less |
| `LinkLaws.OutflowIsExact` | rust_qsim/src/simulation/network/flow_cap.rs:22-41 | the exact account over every run of a link: what left it and what a full bucket could not take is what was in the bucket and what the elapsed time brought |
| `LinkLaws.FullAgain` | rust_qsim/src/simulation/network/flow_cap.rs:22-29 | over every run without a departure: the bucket is full as soon as the elapsed time brings what was missing, and until then has gained exactly what the time brought |
| `LinkLaws.OutflowAtLeast` | rust_qsim/src/simulation/network/link.rs:298-366 | the least a link lets out: if vehicles are left behind, what left, is buffered or was lost to a full bucket is at least what was in the bucket plus rate times elapsed time |
| `LinkLaws.HeldBackOnlyByFlow` | rust_qsim/src/simulation/network/link.rs:325-403 | a waiting or due vehicle is left behind by a step only if it travels on and the buffered vehicles take up all flow capacity |
| `LinkLaws.FreshLinkIs` | rust_qsim/src/simulation/network/link.rs:222-258 | a new link: the rate brings the sampled hourly capacity in an hour, the maximum is the larger of one second's outflow and the cells, and the threshold lasts the configured seconds |
| `LinkLaws.TickLengthIsNearest` | rust_qsim/src/simulation/time/mod.rs:347-349 | the length of a tick is the nearest whole number of nanoseconds, ties to the even one |
| `Storage.StorageCap.constructor` | rust_qsim/src/simulation/network/storage_cap.rs:23-42 | the maximum is the number of cells, but at least one second's outflow |
| `Storage.StorageCap.Consume` | rust_qsim/src/simulation/network/storage_cap.rs:54-56 | adds to the storage in use, without a limit |
| `Storage.StorageCap.Release` | rust_qsim/src/simulation/network/storage_cap.rs:61-63 | takes from the storage in use |
| `StuckTimers.StuckTimer.StartAt` | rust_qsim/src/simulation/network/stuck_timer.rs:18-23 | a running timer keeps its start tick |
| `StuckTimers.StuckTimer.IsStuck` | rust_qsim/src/simulation/network/stuck_timer.rs:29-36 | true exactly if the timer runs and its start tick plus the threshold is reached; only asked when the start tick is reached, so the unsigned subtraction cannot underflow |
| `Links.LocalLink.PushVeh` | rust_qsim/src/simulation/network/link.rs:260-289 | a vehicle enters the queue with its earliest exit tick and uses storage, or it waits and uses none |
| `LinkLaws.EntersQueue` | rust_qsim/src/simulation/network/link.rs:273-284 | a vehicle that enters the queue comes last, may leave it travel ticks later within 64 bits, and takes up its size |
| `LinkSpec.TravelTicksAre` | rust_qsim/src/simulation/network/link.rs:273-284 | in the travel ticks a vehicle does not get beyond the length of the link at the smaller of the two speeds; in one tick more it does at either speed, unless the range of a tick is exceeded |
| `LinkSpec.WithoutSpeed` | rust_qsim/src/simulation/network/link.rs:273-284 | without speed the exit of a link that has a length is never reached, and a link without length takes no time |
| `Links.LocalLink.AddWaitingToBuffer` | rust_qsim/src/simulation/network/link.rs:368-403 | the loop computes exactly the function that moves the waiting list into the buffer as flow allows |
| `Links.LocalLink.AddQueueToBuffer` | rust_qsim/src/simulation/network/link.rs:325-366 | the loop computes exactly the function that takes due vehicles from the queue, releasing storage |
| `Links.LocalLink.DoSimStep` | rust_qsim/src/simulation/network/link.rs:298-323 | a link step is refill, waiting list, queue; returned are the vehicles that end their leg, in order |
| `Links.LocalLink.OffersVeh` | rust_qsim/src/simulation/network/link.rs:452-462 | the head of the buffer is offered if there is flow capacity, and being offered starts its timer |
| `Links.LocalLink.PopVeh` | rust_qsim/src/simulation/network/link.rs:435-443 | popping takes the head, consumes flow capacity, keeps storage and resets the timer |
| `Links.LocalLink.Drain` | rust_qsim/src/simulation/network/link.rs:473-480 | draining returns every vehicle on the link and leaves none |
| `Links.SplitOutLink.PushVeh` | rust_qsim/src/simulation/network/link.rs:542-555 | the upstream half uses storage for a vehicle that it holds for another partition |
| `Links.SplitOutLink.TakeVeh` | rust_qsim/src/simulation/network/link.rs:538-540 | handing the queue over does not release storage |
| `Links.SplitOutLink.ApplyStorageCapUpdate` | rust_qsim/src/simulation/network/link.rs:534-536 | an update releases exactly the reported amount |
| `SimLinks.SimLink.PopVeh` | rust_qsim/src/simulation/network/link.rs:148-156 | the head of the buffer, or nothing if the buffer is empty; asked of links with a queue only |
| `SimLinks.SimLink.PushVeh` | rust_qsim/src/simulation/network/link.rs:134-146 | dispatch of a push; only the upstream half cannot take a waiting vehicle |
| `SimLinks.SimLink.IsVehStuck` | rust_qsim/src/simulation/network/link.rs:91-100 | true exactly if the timer runs and its start tick plus the threshold is reached; asked of links with a queue only, and never before the timer's start tick |
| `SimLinks.SimLink.IsAvailable` | rust_qsim/src/simulation/network/link.rs:102-110 | true exactly if the storage in use is below the maximum; never asked of the downstream half of a split link |
| `LinkSpec.SimStepShape` | rust_qsim/src/simulation/network/link.rs:298-403 | a link step takes a prefix of the waiting list and a prefix of due queue entries; arriving vehicles end, the others follow the buffer in order, and storage falls by exactly the queue vehicles |
| `LinkRuns.StepConserves` | rust_qsim/src/simulation/network/link.rs:298-403 | every vehicle before a step is on the link after it or has ended its leg, none twice |
| `LinkRuns.RunKeepsInv` | rust_qsim/src/simulation/network/link.rs:325-462 | in every run: used storage equals the pce of the queue alone, the bucket is not overfull, the buffered pce is below the remaining flow capacity plus one vehicle |
| `LinkRuns.OutflowBound` | rust_qsim/src/simulation/network/flow_cap.rs:22-41 | token bucket: what leaves a link from a refill at a up to time b is less than one tick's capacity plus rate times (b - a) plus one vehicle |
| `LinkRuns.TimerMeansSameHead` | rust_qsim/src/simulation/network/link.rs:435-462 | a running timer was started by an offer at that very tick, and the same vehicle has headed the buffer ever since |
| `LinkHistory.FifoAndMinimumTravelTime` | rust_qsim/src/simulation/network/link.rs:273-284 | vehicles leave through the node in order of entry, each no earlier than entry tick plus travel ticks plus one, in every run in which nodes act before links; so the time between entry and departure times the own speed, and times the free speed, exceeds the length of the link |
| `RoadNetwork.Network.AddNode` | rust_qsim/src/simulation/scenario/network.rs:89-97 | a new node has no links, and the network stays wired |
| `RoadNetwork.Network.AddLink` | rust_qsim/src/simulation/scenario/network.rs:99-119 | the link is listed once at each of its end nodes, and the network stays wired |
| `RoadNetwork.Network.RemoveLink` | rust_qsim/src/simulation/scenario/network.rs:127-155 | the source's assertion that exactly one entry is removed at each end is proved; the network stays wired |
| `RoadNetwork.Network.RemoveNode` | rust_qsim/src/simulation/scenario/network.rs:165-182 | exactly the links that touch the node go with it, and the rest stays wired |
| `RoadNetwork.Network.PartitionNetwork` | rust_qsim/src/simulation/scenario/network.rs:200-220 | every link gets the partition of the node it leads to, whatever the order of nodes |
| `RoadNetwork.RemoveUndoesAdd` | rust_qsim/src/simulation/scenario/network.rs:99-155 | removing a link that was just added restores the network |
| `Partition.CreateSimLinks` | rust_qsim/src/simulation/network/sim_network.rs:96-180 | the partition has a link object for every link at one of its nodes, of the right kind and apart from each other, also where a link is created twice |
| `Partition.SimNetworkPartition.constructor` | rust_qsim/src/simulation/network/sim_network.rs:96-209 | the new partition is the initial state of the state machine |
| `Partition.SimNetworkPartition.SendVehEnRoute` | rust_qsim/src/simulation/network/sim_network.rs:262-312 | a departing vehicle waits, a received one enters the queue; link active, counter up by one, invariant kept, no panic |
| `Partition.SimNetworkPartition.ApplyStorageCapUpdates` | rust_qsim/src/simulation/network/sim_network.rs:314-322 | the loop is the run of all credits in order; no update meets a link that is not an upstream half |
| `Partition.SimNetworkPartition.ShouldVehMoveOut` | rust_qsim/src/simulation/network/sim_network.rs:552-577 | true exactly if the link offers a vehicle that is stuck or finds space; all lookups succeed |
| `NodeDraws.MovesExactlyIfMayLeave` | rust_qsim/src/simulation/network/sim_network.rs:552-577 | asked for its offer, a link moves it exactly if it has been offered for the threshold of ticks or the storage in use on the next link is below the maximum |
| `NodeDraws.OfferedFromNextTick` | rust_qsim/src/simulation/network/link.rs:452-500 | the step of a link starts the timer of what it offers at the next tick, unless it runs already |
| `NodeDraws.StuckMayMove` | rust_qsim/src/simulation/network/sim_network.rs:552-577 | in every run: an offer whose timer started the threshold ago or earlier may move, whatever the storage of the next link |
| `Partition.SimNetworkPartition.MoveVehicle` | rust_qsim/src/simulation/network/sim_network.rs:580-624 | the vehicle goes to the link its route names, storage is used there, both links' activity is exact |
| `Partition.SimNetworkPartition.VisitLinks` | rust_qsim/src/simulation/network/sim_network.rs:470-516 | one round over the links is the function Visits of the draw; it takes a vehicle from a buffer or exhausts a link, since available capacity never exceeds that of the open links |
| `Partition.SimNetworkPartition.MoveNodeCapacityPriority` | rust_qsim/src/simulation/network/sim_network.rs:456-520 | the loop terminates for every sequence of draws and is the function NodeWork of them; with draw d the first vehicle leaves the link at which the capacities, added up in order, reach d times their sum, if the links up to it may all release; afterwards every in-link is blocked, provided that no vehicle buffered on the in-links had a pce below 1e-6 times their number less one; the result says whether a link offers a vehicle |
| `NodeDraws.LoopIsByCapacity` | rust_qsim/src/simulation/network/sim_network.rs:465-514 | the actions of the loop begin with looks at the links up to the first at which the summed capacities reach the drawn share of all capacities, and the move of that link's vehicle, if these links may all release |
| `NodeDraws.OneReaches` | rust_qsim/src/simulation/network/sim_network.rs:465-500 | for every draw exactly one link is the first to reach it |
| `NodeDraws.DrawsOfALink` | rust_qsim/src/simulation/network/sim_network.rs:465-500 | the draws that make a link the first are an interval as long as its share of the capacities |
| `NodeDraws.LeftBehindMustWait` | rust_qsim/src/simulation/network/sim_network.rs:456-519 | after a node's work an offer that is still there has been offered for less than the threshold and finds its next link full, under the size condition |
| `Partition.SimNetworkPartition.GetActiveInLinks` | rust_qsim/src/simulation/network/sim_network.rs:522-539 | the active in-links in order, and the sum of their capacities |
| `Partition.SimNetworkPartition.AnyLinkOffers` | rust_qsim/src/simulation/network/sim_network.rs:541-550 | true exactly if some link offers a vehicle; links are asked in order up to the first that does, which starts timers but blocks and unblocks nothing |
| `Partition.SimNetworkPartition.MoveNodes` | rust_qsim/src/simulation/network/sim_network.rs:434-454 | a legal run, and exactly the work of the active nodes in some order with the draws that end their loops; afterwards every link of the partition is settled, also at nodes that were skipped, and a node stays active exactly if one of its links offers a vehicle; timers read were started at or before now, those left behind at or before the next tick |
| `Partition.SimNetworkPartition.MoveLocalLink` | rust_qsim/src/simulation/network/sim_network.rs:373-391 | the step of a link with its offer for the next tick and the activation of its node |
| `Partition.SimNetworkPartition.MoveLink` | rust_qsim/src/simulation/network/sim_network.rs:337-354 | one link's step by kind, with its releases; deferred bookkeeping amounts to the state machine's step |
| `Partition.SimNetworkPartition.MoveLinks` | rust_qsim/src/simulation/network/sim_network.rs:324-371 | exactly the active links step, once each and in any order; returned are exactly the vehicles that leave, those that end, and the released storage; the counter does not underflow |
| `Partition.SimNetworkPartition.Drain` | rust_qsim/src/simulation/network/sim_network.rs:140-146 | what is drained are exactly the vehicles on the partition, and its links are empty afterwards |
| `NodeMoves.NoFruitlessRound` | rust_qsim/src/simulation/network/sim_network.rs:466-516 | with a draw below the available capacity a whole round cannot pass without a move and without exhausting a link |
| `NodeMoves.MoveKeepsBlocked` | rust_qsim/src/simulation/network/sim_network.rs:552-624 | moving vehicles over a node makes no room, so a link found blocked stays blocked for the tick |
| `NodeLoop.AllSettled` | rust_qsim/src/simulation/network/sim_network.rs:434-454 | when all active nodes have worked, every link is settled, because inactive nodes had no offer: it is blocked, provided that no vehicle on its node's in-links was smaller than the nudges of one round |
| `NodeLoop.NothingLeft` | rust_qsim/src/simulation/network/sim_network.rs:466-519 | for every sequence of draws with which the loop ends, every link it looked at is blocked if no vehicle on these links is smaller than the nudges of one round |
| `NodeLoop.OpenIsUsedUp` | rust_qsim/src/simulation/network/sim_network.rs:466-516 | a link that was never found blocked has used up its flow capacity by then: from the second round on it released a vehicle in every round, which is at least what the nudges took |
| `NodeLoop.RoundsEffect` | rust_qsim/src/simulation/network/sim_network.rs:466-516 | after n rounds: available capacity is that of the open links less the nudges, capacity passed covers the open links, and every open link has lost a vehicle in every round but the first |
| `NodeLimit.StopsEarly` | rust_qsim/src/simulation/network/sim_network.rs:466-519 | whatever is drawn, with all other links exhausted in the first round and smaller vehicles the loop ends while the last link has a vehicle that may move |
| `Jams.SettlesExactlyAbove` | rust_qsim/src/simulation/network/sim_network.rs:466-519 | nodes with n in-links settle their links in every state that a run reaches, for all draws, if and only if no vehicle is smaller than 1e-6 times (n - 1) |
| `Jams.JamReached` | rust_qsim/src/simulation/network/sim_network.rs:456-519 | the state in which a vehicle is left below that size is reached: vehicles depart on n links of a network and those links make their step in tick 0 |
| `Jams.JamWorks` | rust_qsim/src/simulation/network/sim_network.rs:456-519 | in tick 1 of that run, for every sequence of k + 1 draws, the loop of the node ends and leaves a vehicle that may move |
| `NetInvariant.OfferIsMovable` | rust_qsim/src/simulation/network/sim_network.rs:552-577 | route safety at a node: an offered vehicle has a next link, which is in the partition and is not a downstream half |
| `NetInvariant.ApplyKeepsInv` | rust_qsim/src/simulation/network/sim_network.rs:262-624 | every operation keeps the invariant (vehicles where their route pointer says, exact accounts, exact activity, exact counter) and accounts for every vehicle |
| `NetInvariant.RunKeepsInv` | rust_qsim/src/simulation/network/sim_network.rs:262-624 | the same in every state of every run; the vehicle counter equals the vehicles on the links and is never negative |
| `NetInvariant.InitialInv` | rust_qsim/src/simulation/network/sim_network.rs:96-209 | a fresh partition satisfies the invariant |
| `NetInvariant.StepKeepsActivity` | rust_qsim/src/simulation/network/sim_network.rs:337-360 | a link is active exactly if a vehicle is on it, and the node behind every offer is active, through a link's step |
| `NetInvariant.MoveKeepsActivity` | rust_qsim/src/simulation/network/sim_network.rs:615-623 | the same through a move |
| `Projection.RunSeen` | rust_qsim/src/simulation/network/sim_network.rs:262-624 | a run of a partition, seen from any of its links, is a run of that link |
| `Projection.FifoOnEveryLink` | rust_qsim/src/simulation/engines/leg_engine.rs:79-121 | first in first out and the minimum travel time, in ticks and as time times speed beyond the length, on every link in every run of a partition |
| `Projection.OutflowOfEveryLink` | rust_qsim/src/simulation/network/flow_cap.rs:22-41 | the outflow bound on every link over every stretch of every run of a partition |
| `Projection.ForcedOnlyAfterThreshold` | rust_qsim/src/simulation/network/sim_network.rs:552-566 | a vehicle may enter a full link only if its link was asked for it at least the threshold of ticks ago and it has headed the buffer ever since |
| `FullScan.NothingIsLost` | rust_qsim/src/simulation/network/sim_network.rs:324-454 | from the same state, in every run and at every tick, skipping inactive nodes and links agrees with letting every node do its loop, with the same draws, and every link its step, in any order: the loops end with the same draws, same vehicles, same releases, same offers; buckets equal up to later refills; the invariant of both is derived |
| `FullScan.StepAgrees` | rust_qsim/src/simulation/network/sim_network.rs:337-360 | one link, looked at in every tick or only when active, yields the same |
| `FullScan.InactiveNodeIdle` | rust_qsim/src/simulation/network/sim_network.rs:434-454 | at a node that is not active no move is possible, and asking its links changes nothing |
| `FullScan.InactiveNodeWorksInVain` | rust_qsim/src/simulation/network/sim_network.rs:456-520 | whatever is drawn, the loop of a node that is not active leaves the state as it is |
| `FullScan.NodeAgrees` | rust_qsim/src/simulation/network/sim_network.rs:456-520 | with the same draws the loop of a node does the same in both simulations, and ends in both or in neither |
| `FullScan.NodesAgree` | rust_qsim/src/simulation/network/sim_network.rs:434-454 | all nodes in some order there, the active ones of them in that order here: the same effect, and the set of active nodes is not changed by the work |
| `FullScan.StepsAreExact` | rust_qsim/src/simulation/network/sim_network.rs:324-371 | in whatever order links step, each makes its own step from its own state |
| `System.NoRunPanics` | rust_qsim/src/simulation/network/sim_network.rs:157-312 | in every run of all partitions: departures find their link, nodes find links with a queue, offers have a next link that can be asked, and every packet in flight is accepted at its destination, by a link's queue, a storage account or the queue of teleported vehicles |
| `System.PacketDeliverable` | rust_qsim/src/simulation/engines/leg_engine.rs:103-115 | every packet in flight is taken by the partition it is bound for, and a teleported vehicle is queued there |
| `System.RunKeepsOk` | rust_qsim/src/simulation/network/sim_network.rs:262-624 | the invariant of all partitions and all packets in every state of every run |
| `System.NeighboursSymmetric` | rust_qsim/src/simulation/network/sim_network.rs:215-227 | the relation by which partitions wait for each other is symmetric |
| `Ledger.LedgerBalanced` | rust_qsim/src/simulation/network/sim_network.rs:314-432 | in every state of every run, for every split link: upstream used equals upstream queue plus vehicles in flight plus downstream used plus released amounts in flight; downstream used equals its queue's pce |
| `Ledger.ReleaseNotNegative` | rust_qsim/src/simulation/network/sim_network.rs:402-412 | the source's assertion: a step cannot increase the occupied storage |
| `Overshoot.OvershootBound` | rust_qsim/src/simulation/network/storage_cap.rs:23-69 | in every run without forced moves every local, upstream and downstream link keeps used storage below its maximum plus one vehicle; the downstream bound comes from the ledger |
| `Overshoot.DownWithin` | rust_qsim/src/simulation/network/sim_network.rs:393-421 | the downstream half, which checks nothing, is within bounds because the ledger balances and both halves have the same maximum |
| `Conservation.RunConserves` | rust_qsim/src/simulation/simulation.rs:31-88 | in every run every agent is with exactly one process or in flight |
| `Conservation.DrainedIsPopulation` | rust_qsim/src/simulation/simulation.rs:73-79 | at whatever point a run ends, what all processes drain plus what is in flight is exactly the population, each agent once; the drained alone are exactly when only storage updates are in flight |
| `Exchange.SentToNeighbour` | rust_qsim/src/simulation/messaging/sim_communication/message_broker.rs:60-84 | in flight with its sender, a vehicle on the network or a storage update goes to a neighbour of the sender, who waits for it |
| `Exchange.DeliveriesEmptyTheFlight` | rust_qsim/src/simulation/messaging/sim_communication/message_broker.rs:86-112 | an exchange delivers all mail whose sender and destination are neighbours, and all other mail that is there in time; nothing is sent on |
| `Exchange.LastExchange` | rust_qsim/src/simulation/simulation.rs:46-79 | after a run that ends with an exchange, in flight are exactly the teleported vehicles, on a leg that does not end near where it began, that were missed; everyone else is drained, and the drained are exactly the population if and only if nobody was missed |
| `Exchange.SendersAreRight` | rust_qsim/src/simulation/messaging/sim_communication/message_broker.rs:60-84 | in every run every packet in flight was sent by a partition with a half of its link, or by the one in which its teleported leg began |
| `Exchange.EveryoneComesHomeIff` | rust_qsim/src/simulation/simulation.rs:46-79 | nobody is ever missing at the end, in any run with these teleported legs and whatever comes too late, if and only if every leg that can begin ends in the partition where it begins or in a neighbour of it |
| `Exchange.NearLegsSuffice` | rust_qsim/src/simulation/simulation.rs:46-79 | if no plan has a teleported leg to a partition that is no neighbour, nobody is ever missing |
| `Exchange.FirstLegsMustBeNear` | rust_qsim/src/simulation/simulation.rs:46-79 | for the legs on which agents set out that is also necessary, which can be checked before the run |
| `Exchange.OneIsMissing` | rust_qsim/src/simulation/simulation.rs:46-79 | three partitions in a row: an agent that is teleported from the first to the last in the last tick is not drained |
| `Conservation.SplitByStartLinkPartition` | rust_qsim/src/simulation/scenario/population.rs:118-146 | every person goes to the partition of the link of the first activity, and to no other |
| `Conservation.TeleportArrives` | rust_qsim/src/simulation/engines/teleportation_engine.rs:44-65 | following a vehicle from reception to reception: it is ever queued if and only if its leg ends where it departs or its last route link is in the partition of its end link, and then after at most one border; otherwise it is forwarded forever |
| `Conservation.ForwardedForever` | rust_qsim/src/simulation/engines/teleportation_engine.rs:44-65 | a network of three partitions and a vehicle that is sent to partition 1 every time it is received |
| `LegEngines.TeleportationEngine.ReceiveVehicle` | rust_qsim/src/simulation/engines/teleportation_engine.rs:44-65 | queued where its leg ends, handed on otherwise |
| `LegEngines.TeleportationEngine.DoStep` | rust_qsim/src/simulation/engines/teleportation_engine.rs:67-82 | exactly the vehicles whose tick has come arrive |
| `LegEngines.LegEngine.PassToEngine` | rust_qsim/src/simulation/engines/leg_engine.rs:197-221 | a driver goes onto the network, a rider whose leg ends here arrives its travel time after this tick, anyone else is forwarded; nobody is lost |
| `LegEngines.LegEngine.TakeIn` | rust_qsim/src/simulation/engines/leg_engine.rs:103-115 | the same for the whole inbox, message by message, with every rider's arrival time; nothing else happens to the network |
| `LegEngines.LegEngine.DoStep` | rust_qsim/src/simulation/engines/leg_engine.rs:89-121 | one tick is departures of exactly the departing drivers, node work, link steps, and exactly the credits and receptions of the inbox, in this order; on the network: before plus departing plus received equals after plus leaving plus ended; of the teleported vehicles, those that depart now with travel time 0 included, exactly the due ones arrive, and the others stay with their arrival times; timers stay readable for the next tick |
| `LegEngines.TicksInOrder` | rust_qsim/src/simulation/engines/leg_engine.rs:79-88 | over ticks that follow each other nodes always act before links, as the documentation of the step order promises |
| `LegEngines.LegEngine.InboxCanBeTaken` | rust_qsim/src/simulation/engines/leg_engine.rs:103-115 | in a state of the whole system that satisfies the invariant, a message made of packets bound for this partition meets the precondition of taking it, if the arrival times of its teleported vehicles fit in 64 bits |
| `LegEngines.LegEngine.DepartureCanBegin` | rust_qsim/src/simulation/engines/leg_engine.rs:197-221 | a vehicle whose route begins on a link of this partition meets the precondition of a departure |
| `SystemTicks.TickIsSystemRun` | rust_qsim/src/simulation/engines/leg_engine.rs:89-121 | one tick of all processes, in which each works and then takes in what was in flight or what the others send in this very tick, is a run of the whole system with the same networks, agents at activities, teleported vehicles and packets in flight |
| `SystemTicks.TicksAreSystemRun` | rust_qsim/src/simulation/simulation.rs:46-72 | any number of ticks of all processes is a run of the whole system |
| `SystemTicks.TicksConserve` | rust_qsim/src/simulation/simulation.rs:46-72 | after any number of ticks everyone is with one process or in flight, and the invariant holds |
| `SystemTicks.TicksBalance` | rust_qsim/src/simulation/network/sim_network.rs:314-432 | after any number of ticks the storage of every split link is balanced |
| `Clock.Adjunction` | rust_qsim/src/simulation/time/mod.rs:351-370 | time_to_tick(t) is at most k exactly if t is at most tick_to_time(k), for every tick rate |
| `Clock.FirstTickThatReaches` | rust_qsim/src/simulation/time/mod.rs:351-361 | the tick of a time is the first whose clock time reaches it |
| `Clock.TickRoundTrip` | rust_qsim/src/simulation/time/mod.rs:351-370 | tick to time and back is exact for up to 10^9 ticks per second |
| `Clock.RoundTripIff` | rust_qsim/src/simulation/time/mod.rs:351-370 | it is exact for every tick if and only if the rate is at most 10^9 |
| `Clock.TickOneIsLost` | rust_qsim/src/simulation/time/mod.rs:351-370 | beyond that rate the time of tick 1 is 0, which leads back to tick 0 |
| `Clock.NoOverflow` | rust_qsim/src/simulation/time/mod.rs:351-361 | up to that rate no 64-bit time overflows its tick |
| `Clock.SecondsAreExact` | rust_qsim/src/simulation/time/mod.rs:372-374 | whole seconds are a whole number of ticks |
| `TimeText.NormalizeNanos` | rust_qsim/src/simulation/time/mod.rs:301-327 | the padding loop computes the nanoseconds of one to nine digits; further digits are an error or are cut off |
| `TimeText.DecimalRoundTrip` | rust_qsim/src/simulation/time/mod.rs:223-254 | parse_decimal_seconds undoes format_decimal_seconds for every u64 |
| `TimeText.HmsRoundTrip` | rust_qsim/src/simulation/time/mod.rs:180-271 | parse undoes format_hh_mm_ss_trimmed for every u64, without an overflow error |
| `TimeText.FractionRoundTrip` | rust_qsim/src/simulation/time/mod.rs:301-327 | trimming zeros and padding them again restores every fraction |
| `TimeText.HmsTextIs` | rust_qsim/src/simulation/time/mod.rs:256-271 | two digits or more for hours, two for minutes and seconds, and a fraction without trailing zeros only if it is not zero |
| `TimeText.DecimalTextIs` | rust_qsim/src/simulation/time/mod.rs:243-254 | the seconds without leading zeros, and a fraction without trailing zeros only if it is not zero |
| `TimeText.ParsesHms` | rust_qsim/src/simulation/time/mod.rs:180-221 | digits, colon, digits, colon, digits mean 3600 times the first plus 60 times the second plus the third, whatever their length, if that fits in 64 bits |
| `TimeText.ParsesFraction` | rust_qsim/src/simulation/time/mod.rs:180-221 | a fraction of one to nine digits adds its value |
| `TimeText.LongFractions` | rust_qsim/src/simulation/time/mod.rs:223-327 | of more than nine digits of a fraction parse_decimal_seconds takes the first nine, and parse rejects them |
| `TimeText.ParsesDecimal` | rust_qsim/src/simulation/time/mod.rs:223-241 | seconds with a fraction mean what they say |
| `TimeText.FormatsAreInjective` | rust_qsim/src/simulation/time/mod.rs:243-271 | no two times are written alike |
| `TimeQueues.TimeQueue.Add` | rust_qsim/src/simulation/time_queue.rs:78-87 | an entry is numbered by a counter that wraps at 64 bits |
| `TimeQueues.TimeQueue.Pop` | rust_qsim/src/simulation/time_queue.rs:89-102 | exactly the due entries, by time and then by number; the others stay |
| `TimeQueues.StableOrder` | rust_qsim/src/simulation/time_queue.rs:30-39 | entries of the same time leave in the order of insertion as long as the counter has not wrapped |
| `Activities.ActivityEngine.WakeUp` | rust_qsim/src/simulation/engines/activity_engine.rs:143-158 | exactly the sleepers whose wake-up time has come wake up; those whose activity is over are returned, the others stay awake, nobody is lost |
| `Activities.ActivityEngine.End` | rust_qsim/src/simulation/engines/activity_engine.rs:160-174 | the swap_remove loop removes exactly the agents whose activity is over |
| `Activities.ActivityEngine.DoStep` | rust_qsim/src/simulation/engines/activity_engine.rs:46-63 | released are exactly those held or arriving whose due tick has come; everyone else is kept, asleep exactly until the wake-up time |
| `Activities.ActivityEngine.Drain` | rust_qsim/src/simulation/engines/activity_engine.rs:37-43 | everyone held, each once |
| `Activities.LeavesExactlyOnce` | rust_qsim/src/simulation/engines/activity_engine.rs:46-63 | in every run an agent, there from the start or arriving later, leaves exactly once, at the first step from then on whose clock time reaches the end of its activity, and is held until then |
| `Activities.StaysUntilOver` | rust_qsim/src/simulation/scenario/population.rs:400-410 | a visitor stays until the clock reaches the end time of its activity, or else its begin plus the duration, or else the end of the clock, and leaves at the first such step |
| `Activities.NoneOverdue` | rust_qsim/src/simulation/engines/activity_engine.rs:143-174 | after every step nobody held is overdue |
| `Activities.WakesAhead` | rust_qsim/src/simulation/agents/agent_logic.rs:272-296 | an agent is awake exactly if its activity is over, or if a leg follows and the activity ends within the preplanning horizon |
| `TripSpans.GetTripSpans` | rust_qsim/src/simulation/scenario/trip_structure_utils.rs:139-172 | the loop computes the trips of the plan |
| `TripSpans.TripsAreTrips` | rust_qsim/src/simulation/scenario/trip_structure_utils.rs:139-172 | the spans are exactly the pairs of main activities with something but no main activity between, in order |
| `TripSpans.ReplaceIsLocal` | rust_qsim/src/simulation/scenario/trip_structure_utils.rs:98-110 | replacing a trip by a non-empty sequence without main activities keeps the number of trips, keeps earlier spans and shifts later ones |
| `TripSpans.OthersUntouched` | rust_qsim/src/simulation/scenario/trip_structure_utils.rs:98-110 | the replaced trip consists of the new elements, every other trip of its old ones, between the same activities |
| `TripSpans.EmptyReplacementLosesTrip` | rust_qsim/src/simulation/scenario/trip_structure_utils.rs:98-110 | with an empty replacement the trip is gone |
| `TripSpans.FindsFirstFrom` | rust_qsim/src/simulation/scenario/trip_structure_utils.rs:191-206 | the search finds the first trip that starts at or after the element, if any does |
| `TripSpans.FindsItself` | rust_qsim/src/simulation/scenario/trip_structure_utils.rs:191-206 | from a trip's origin the search finds that trip |
| `TripSpans.StaysAlternating` | rust_qsim/src/simulation/scenario/trip_structure_utils.rs:98-110 | an alternating plan stays alternating if and only if the replacement leads from leg to leg and alternates |
| `TripSpans.PlanLogic.AtActivity` | rust_qsim/src/simulation/agents/agent_logic.rs:160-166 | the state by parity is the kind of the current element |
| `TripSpans.PlanLogic.AdvancePlan` | rust_qsim/src/simulation/agents/agent_logic.rs:142-158 | advancing alternates between activity and leg |
| `TripSpans.PlanLogic.ReplaceNextTrip` | rust_qsim/src/simulation/agents/agent_logic.rs:471-487 | an empty response changes nothing; any other replaces the first trip from here on, keeps what lies behind, and keeps the parity rule exactly if it leads from leg to leg |
| `Prepare.ValidRoutesAreConnected` | rust_qsim/src/simulation/scenario/prepare_for_sim.rs:354-370 | a network route accepted here is connected and runs from start link to end link, which is what route safety assumes |
| `Prepare.AssignActivityCoordinates` | rust_qsim/src/simulation/scenario/prepare_for_sim.rs:228-241 | missing coordinates become the middle of the link; nothing else changes |
| `Prepare.CheckAndAdaptTrip` | rust_qsim/src/simulation/scenario/prepare_for_sim.rs:180-226 | a trip is left alone exactly if it is assessed valid; otherwise the result is the router's answer to the one request for the trip, put in its place, or the error that prevents the request or that the router returns |
| `Prepare.NeedIs` | rust_qsim/src/simulation/scenario/prepare_for_sim.rs:180-226 | exactly when there are no legs, no unambiguous mode, no departure time or no vehicle; otherwise which mode, activities and vehicle are sent to the router, and as departure the last fixed end up to the origin plus the durations of everything after it |
| `Prepare.EndOfPart` | rust_qsim/src/simulation/time/time_interpretation.rs:26-70 | the end of a part of a plan is its last fixed end plus the durations after it, or without one the start plus all durations; a leg takes the travel time of its route or else its own |
| `Prepare.ValidTripIs` | rust_qsim/src/simulation/scenario/prepare_for_sim.rs:280-370 | exactly when a trip can be simulated as it is: every leg has the mode, times, a distance that is not negative and, on the network, a connected way that is open to its mode; on the network also access, egress, a leg in the mode and two stages |
| `Prepare.MainModeIs` | rust_qsim/src/simulation/scenario/prepare_for_sim.rs:259-278 | the main mode is the only routing mode of the legs, or the mode of a single leg without one; otherwise it is ambiguous |
| `Prepare.EndsKnownIff` | rust_qsim/src/simulation/time/time_interpretation.rs:26-69 | the departure time is known exactly if every element up to the origin has an end or a duration |
| `Prepare.VehicleIsOfFirst` | rust_qsim/src/simulation/scenario/prepare_for_sim.rs:372-405 | the vehicle is that of the first leg in this mode that names one of the garage |
| `Prepare.PreparePlan` | rust_qsim/src/simulation/scenario/prepare_for_sim.rs:152-178 | the result is that of preparing the trips one after the other, each in the plan that the ones before left, or the index and the error of the first that fails; a plan is left alone exactly if it is ready; with a router that keeps its contract the result is ready; the number of trips stays |
| `Prepare.PersonPlans.PreparePerson` | rust_qsim/src/simulation/scenario/prepare_for_sim.rs:117-150 | every plan becomes what its preparation yields; one whose preparation fails is untouched; the issues are exactly the failing plans, in order, with trip and error |
| `Comparison.CompareBatchOfEvents` | rust_qsim/src/simulation/events/comparison.rs:337-364 | greedy matching succeeds exactly if the first batch is contained in the second, repetitions counted; otherwise it names the first event too many |
| `Comparison.ReadInBatches` | rust_qsim/src/simulation/events/comparison.rs:36-134 | the published batches are the maximal runs of equal time of the file, only the last marked finished, and together they are the file |
| `Comparison.StepKeepsInv` | rust_qsim/src/simulation/events/comparison.rs:36-286 | every step of every thread keeps the three in the same round |
| `Comparison.NoDeadlock` | rust_qsim/src/simulation/events/comparison.rs:36-286 | as long as a thread has not left, some thread can go on or the barrier releases all three |
| `Comparison.EveryScheduleEnds` | rust_qsim/src/simulation/events/comparison.rs:36-286 | every interleaving is shorter than a bound that depends on the files, and one that cannot go on has led all threads out |
| `Comparison.SeesTheSameRounds` | rust_qsim/src/simulation/events/comparison.rs:144-162 | in every interleaving the comparator sees in round k exactly the k-th batches of both files |
| `Comparison.AllLeaveTogether` | rust_qsim/src/simulation/events/comparison.rs:36-286 | all threads leave in the same round, and the result is the judgement of the files |
| `Comparison.OkMeansAccepted` | rust_qsim/src/simulation/events/comparison.rs:144-286 | Ok exactly if both files have the same number of batches, all but the last have equal, non-decreasing times and are contained, and the last ones too or a file is empty |
| `Comparison.ErrorIff` | rust_qsim/src/simulation/events/comparison.rs:144-286 | an error is reported exactly if it is the fault of the first round that is not fine: one file ends, the times differ, they go back, or an event of the first is missing in the second |
| `Comparison.OkOnNonEmptyFiles` | rust_qsim/src/simulation/events/comparison.rs:144-286 | for two files with events Ok means equal times and every first batch contained in its partner |
| `Comparison.EmptyAgainst` | rust_qsim/src/simulation/events/comparison.rs:164-187 | an empty file is accepted against any file with a single batch, and only against such |
| `Comparison.NotSymmetric` | rust_qsim/src/simulation/events/comparison.rs:337-364 | inclusion, not equality: a file with an additional event is accepted as second file only |
| `Comparison.LastBatchMayGoBack` | rust_qsim/src/simulation/events/comparison.rs:164-187 | the order of the last batch is not checked |
| `Merge.ReadPartitionedEvents` | rust_qsim/src/simulation/events/utils.rs:175-234 | terminates, delivers every step of every file exactly once in file order, in order of time whenever every file is; each step is the next one of the file with the least time, among equal times of the file whose last turn was latest, or else of the smallest number |
| `Merge.Open` | rust_qsim/src/simulation/events/utils.rs:188-207 | a reader for every file that is not empty, positioned at its start |
| `IdStores.IdStore.CreateId` | rust_qsim/src/simulation/id/id_store.rs:213-234 | an existing text keeps its number, a new one gets the next; the numbering stays dense |
| `IdStores.IdStore.ReplaceIds` | rust_qsim/src/simulation/id/id_store.rs:236-247 | a type is renumbered from the given texts, first occurrences only; other types are untouched |
| `IdStores.DistinctTexts` | rust_qsim/src/simulation/id/id_store.rs:236-247 | the renumbered texts are those given, each once |
| `IdStores.DistinctIsOrdered` | rust_qsim/src/simulation/id/id_store.rs:236-247 | and in the order of their first occurrence |
| `IdStores.IdStore.Get` | rust_qsim/src/simulation/id/id_store.rs:254-265 | the text of a number maps back to it |
| `IdStores.IdStore.TryGetFromExt` | rust_qsim/src/simulation/id/id_store.rs:267-274 | found exactly if the text has an id, and then that id's text is it |
| `IdStores.DenseIsBijection` | rust_qsim/src/simulation/id/id_store.rs:213-234 | texts and numbers are in bijection |
| `IdStores.IdStore.Serialize` | rust_qsim/src/simulation/id/id_store.rs:39-56 | the file is the sequence of length-prefixed messages, one per type |
| `IdStores.IdStore.Deserialize` | rust_qsim/src/simulation/id/id_store.rs:67-76 | every readable message replaces its type; the last one for a type counts |
| `IdStores.StoreRoundTripIff` | rust_qsim/src/simulation/id/id_store.rs:39-76 | what was written is read back if and only if the frame written last is at least ten bytes long |
| `IdStores.NumbersRestored` | rust_qsim/src/simulation/id/id_store.rs:39-76 | then every text gets back its number |
| `IdStores.LongTypeIdSuffices` | rust_qsim/src/simulation/id/id_store.rs:44-51 | a type id whose varint has six bytes or more makes the frame long enough |
| `IdStores.CompressedRoundTrip` | rust_qsim/src/simulation/id/id_store.rs:95-109 | with a compression whose output has at least seven bytes, as LZ4 frames have, a store is always read back |
| `Wire.WriteIds` | rust_qsim/src/simulation/id/id_store.rs:111-123 | the loop writes the length-prefixed texts |
| `Wire.ReadIds` | rust_qsim/src/simulation/id/id_store.rs:154-170 | the loop reads them, or reports where the source panics |
| `Wire.IdsRoundTrip` | rust_qsim/src/simulation/id/id_store.rs:111-170 | reading undoes writing |
| `Wire.VarintRoundTrip` | rust_qsim/src/generated/mod.rs:70-100 | a Base 128 Varint of a u64 is read back, whatever follows, and takes at most ten bytes |
| `Wire.VarintByte` | rust_qsim/src/simulation/id/id_store.rs:111-123 | byte i holds the i-th group of seven bits, and its high bit says whether another byte follows |
| `Wire.VarintLength` | rust_qsim/src/simulation/id/id_store.rs:111-123 | a Base 128 Varint has as many bytes as the number needs and no more |
| `Wire.ReadsExactlyVarints` | rust_qsim/src/generated/mod.rs:70-100 | reading accepts exactly the varints of at most ten bytes and 64 bits, with their number |
| `Wire.MessageRoundTrip` | rust_qsim/src/simulation/id/id_store.rs:44-51 | a message with its type and data is decoded to itself |
| `Wire.MessageBytes` | rust_qsim/src/simulation/io/proto/types/ids.proto:4-10 | field 1 is the type as a varint, left out if 0, and field 3 the compressed texts with their length |
| `Wire.IdBytes` | rust_qsim/src/simulation/id/id_store.rs:111-123 | texts and messages are stored one after the other, each with its length in front |
| `Wire.ReadMessages` | rust_qsim/src/generated/mod.rs:112-131 | the loop reads frame after frame as long as ten bytes are left |
| `Wire.AllFramesReadIff` | rust_qsim/src/generated/mod.rs:70-131 | all frames are read if and only if the last is at least ten bytes long |
| `Wire.ShortFrameIsLost` | rust_qsim/src/generated/mod.rs:70-85 | a frame of three bytes at the end is silently lost |
| `FlowCap.Flowcap.constructor` | rust_qsim/src/simulation/network/flow_cap.rs:12-20 | a new bucket holds one tick's capacity; the rate is the scaled hourly capacity |
| `StuckTimers.StuckTimer.Reset` | rust_qsim/src/simulation/network/stuck_timer.rs:25-27 | a reset timer does not run |
| `Links.LocalLink.constructor` | rust_qsim/src/simulation/network/link.rs:222-258 | a new link is empty, with the capacity of a tick of rounded length and the threshold in ticks |
| `Links.LocalLink.HasFlowCapacityLeft` | rust_qsim/src/simulation/network/link.rs:429-433 | whether the remaining flow capacity exceeds the buffered pce |
| `Links.SplitOutLink.constructor` | rust_qsim/src/simulation/network/link.rs:512-532 | a new upstream half is empty and has the same maximum as the downstream half |
| `SimLinks.SimLink.OffersVeh` | rust_qsim/src/simulation/network/link.rs:80-89 | dispatch of the question for an offer, asked of links with a queue only |
| `SimLinks.SimLink.IsActive` | rust_qsim/src/simulation/network/link.rs:112-123 | whether a vehicle is on a link with a queue |
| `SimLinks.SimLink.CapacityPerTick` | rust_qsim/src/simulation/network/link.rs:70-78 | asked of links with a queue only |
| `SimLinks.SimLink.Drain` | rust_qsim/src/simulation/network/link.rs:158-164 | draining a link of any kind returns its vehicles and leaves none |
| `Partition.CreateOne` | rust_qsim/src/simulation/network/sim_network.rs:157-180 | the kind of a link follows from the partitions of its two nodes |
| `Partition.SimNetworkPartition.VisitLink` | rust_qsim/src/simulation/network/sim_network.rs:489-514 | one link of a round: its capacity is added if its offer may move, the offer moves if the sum reaches the draw, and otherwise the link is blocked |
| `Partition.SimNetworkPartition.ToNodesActive` | rust_qsim/src/simulation/network/link.rs:495-500 | the offer for the next tick, whose timer starts at the next tick |
| `FullScan.StepsAgree` | rust_qsim/src/simulation/network/sim_network.rs:324-371 | the steps of the active links on one side and of all links on the other keep the two in agreement |
| `FullScan.ActionAgrees` | rust_qsim/src/simulation/network/sim_network.rs:262-322 | every other operation is possible in both or in neither and keeps them in agreement |
| `LegEngines.LegEngine.TakeMessage` | rust_qsim/src/simulation/engines/leg_engine.rs:105-114 | a message's released storage is applied, each update once and in order, and then its drivers are received, each once and in order; riders are queued or forwarded |
| `TimeQueues.TimeQueue.Drain` | rust_qsim/src/simulation/time_queue.rs:104-106 | everything that is queued |
| `Activities.ActivityEngine.ReceiveAgent` | rust_qsim/src/simulation/engines/activity_engine.rs:118-140 | an arriving agent sleeps until its wake-up time |
| `Activities.ActivityEngine.constructor` | rust_qsim/src/simulation/engines/activity_engine.rs:217-229 | the population starts asleep at its first activities, whose end the agent counts from time 0 when it is made (agents/agent_logic.rs:90) |
| `Activities.AgentsConserved` | rust_qsim/src/simulation/engines/activity_engine.rs:46-63 | in every step those held and those arriving are those held afterwards and those released |
| `Comparison.StepIsProgress` | rust_qsim/src/simulation/events/comparison.rs:36-286 | every step of a thread and every release of the barrier is progress towards a bound |
| `Comparison.GoesOnOnlyIfNoneFinished` | rust_qsim/src/simulation/events/comparison.rs:144-286 | the comparator goes on only if no reader has finished, and leaves only if both have or the stop flag is set; the branch for a batch without a time is never reached |

## Left out

- Rounding of floating-point numbers; only the rounding of the tick length to whole nanoseconds is modelled.
- The communicators and the message cache of the broker: packets are delivered exactly once, in any order and at any time, which allows more than the broker does; that neighbours wait for each other is used for the last exchange only.
- In runs of the whole system: teleported legs whose last route link is in another partition than their end link. They are the ones that are forwarded forever.
- METIS: the partition of every node is given.
- Passengers and vehicle types: a vehicle has a driver, a size, a maximum speed and a route.
- Events published on the way, logging, profiling, configuration and file formats other than the id file.
- Overflow of the clock time of a tick inside a link (`tick_to_time` at more than 584 years): the link model uses the unbounded value.
- Saturation of time sums beyond 64 bits in activities and plans, where the source panics: sums are required to fit, or are unbounded.
- LZ4: any pair of functions that undo each other stands for it; an empty list of ids may then have an empty payload, which the real format does not produce.
- Fields of a stored message in another order, or unknown ones: decoding accepts what the store writes.
- Replanning and routers: the router is a function with a stated contract.
- Identity of plans whose preparation runs in parallel: plans are prepared one after the other.
- `MutTimeQueue`, which is not used.
- Equality of a partitioned simulation with an unpartitioned one, which the source does not give.
- Comparison.ReadInBatches: the repeated look at the stop flag while a batch is read is one look, since the flag cannot be set then.
- Partition.SimNetworkPartition.Drain: the order of the drained vehicles is not stated, only who they are.
