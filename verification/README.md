# Verified model of the WAVE mesh routing protocol

A Dafny model of the mesh routing protocol in `wsm/aodv.c`, the transmit queue in `wsm/mesh_extern.c` that it sends
through, and the timer queue, link-quality ring and management table underneath. One root announces itself with
numbered RANN messages; a node without an uplink floods a PREQ that collects a source route; the root waits three
seconds for the best one and sends a PREP back along it, and each hop installs an uplink for the originator. Hello
timeouts and PERR messages delete routes again.

`dafny verify dfyconfig.toml` checks everything.

## How the model is built

| files | content |
|---|---|
| `Prelude`, `Messages`, `RouteTable`, `Handlers` | messages, the ten-slot table, and what every handler does to a node, as functions on values |
| `MeshNode` | the same handlers in the form of the source: arrays and fields updated in place by loops. Each method is proved equal to its function in `Handlers` |
| `Effects`, `HelloPurge` | what each message and timer does to a node, slot by slot, in terms of the table before it and independent of how the handlers are written |
| `NodeInvariants`, `Network` | what each handler keeps true of a node and of what it sends; the mesh as a state machine with one step per delivery, loss, timer and operator action; runs from power-on |
| `Uplinks`, `LoopFreedom`, `CrossedReplies` | uplink graphs; loop freedom over all runs; exactly which step creates a loop; a run from power-on that does |
| `Replies`, `SelectionWindow`, `RannEpoch` | replies retrace requests; the root keeps the best request; announcement numbering |
| `Quiescence`, `Reports`, `TrappedReport`, `Guarantees` | how much traffic can follow once the timers are silent, exactly when it ends, and a run in which it never does; the invariants spelled out for the reader of a run |
| `TimerSpec`, `TimerTheorems`, `TimerQueue` | the timer queue on values, its theorems, and the doubly linked lists that refine it |
| `TransmitRing`, `LinkQuality`, `NmsTable`, `Checksum` | the twenty-slot ring, the ten-sample ring, the management table, the checksum |

Claims about runs quantify over every finite run from power-on (`Network.Init`), every number of nodes, every order of
deliveries, every loss and every interleaving with timers. A broadcast is one packet for each other node and any packet
may be lost at any time, so every topology and every change of topology is covered.

## Assumptions

- A node does not hear its own broadcasts; addresses are nonzero and distinct; there is one root and it stays the root.
- A queued unicast goes to the destination set by the function that queued it (the source keeps one shared
  `dest_mac_addr` and reads it when the frame leaves).
- Handlers run to completion one at a time. A message may stay in flight for any length of time, and no timer period
  restricts the order of events.
- In runs, announcements are made by `Rann_send` alone, with nonzero metric, rate and channel, and fewer than 2^32 of
  them. The operator may change the settings (with or without a table reset) and request a route reset at any time.
- The root has a free slot when a request of an originator it has no route for arrives: the source stores through index
  -1 otherwise (`wsm/aodv.c:1986-1987`). The insertion loop looks at eleven slots of a ten-slot array
  (`wsm/aodv.c:2934`); the model has ten.
- Memory the source reads by mistake is arbitrary, and theorems quantify over it: what stands behind an address list
  (`Env.past`) and the last-hello time after `rt_table_update`, which copies the bytes of a pointer there
  (`Env.junk`, `wsm/aodv.c:2916`).
- Stray tokens (`wsm/aodv.c:1301`, `1594`, `2352`, the missing comma at `1113`) are read as typing slips.

## What the proofs brought to light

- Uplinks are loop-free for an originator as long as no two replies for it are in flight at once
  (`LoopFreedom.UplinksNeverLoop`). Without that condition they are not: the root may answer a second request before
  the first reply has arrived, and `CrossedReplies.OverlappingRepliesLoop` is a run from power-on, with three nodes
  besides the root, after which two nodes point at each other. `LoopFreedom.LoopIff` says exactly which single step
  closes a loop.
- An acknowledgement or unicast error report is in flight after n deliveries if and only if the walk along its way
  makes n hops (`Reports.ReportLifetime`), so one caught on a loop travels for ever. With its timers silent the mesh
  falls silent within some bound if and only if no report can get caught like that, and a bound is then computed from
  the state (`Reports.SilenceIff`). Four nodes get a report caught from power-on (`TrappedReport.ReportTrapped`); where
  no two replies for one originator were in flight together up to the moment the timers stop, none can be
  (`Guarantees.MeshFallsSilent`).
- The repeat check of requests skips list position 2 (`wsm/aodv.c:2131-2140`). No node ever repeats all the same,
  because with three hops recorded that position holds the radio sender, and with four the ttl ends the request
  (`NodeInvariants.ForwardOk`).
- The timer queue is not sorted (`TimerTheorems.NotSorted`). A sorted one stays sorted through an operation if and only
  if the operation does not link a timer while another waits that is due later by less than a millisecond
  (`TimerTheorems.DoSortedIff`). In any case no timer stands a full millisecond before its time
  (`TimerTheorems.AlwaysOrdered`), and that is enough for expiry.
- The transmit ring is a FIFO exactly in those runs in which at most twenty frames are queued before the first is sent,
  or none is sent (`TransmitRing.TwentyIsExact`): with a front index of -1 it cannot report that it is full.
- A downlink a reply installs leads to the next node of the route exactly if that node is the last one to visit; with
  more to visit the next hop is read behind the list, at twice the intended offset (`wsm/aodv.c:2203`,
  `NodeInvariants.DownlinkIff`).
- The detector of link quality is one byte (`wsm/aodv.h:290`): exactly 256 hellos between two checks count as none
  (`LinkQuality.RingHolds`).
- The hello check changes the table it is going through, so an overdue slot may be gone before its turn, and then its
  neighbour is not declared dead. `HelloPurge.ReportedIff` says, of the table the check begins with, exactly which
  reports go out.
- Removing a neighbour from a full list leaves the last entry standing twice (`NmsTable.PurgeIff`).
- The unicast error report is in fact queued as a broadcast by the node that makes it (`wsm/aodv.c:879`) and as a
  unicast by those that pass it on (`wsm/aodv.c:1166`); the model does the same. The once-only flag of `Perr_process` is
  cleared for every slot (`wsm/aodv.c:2248`), so one error may be passed on several times; each time is paid for by a
  deleted route (`Quiescence.EchoesPaid`).
- An announcement with another id resets the node that hears it, even the root, before its order is looked at
  (`wsm/aodv.c:1740-1744`). With one root no such announcement is ever in flight, and a node is reset by its first one
  at most (`RannEpoch.AlwaysEpochOk`).

## Model

| member | source | states |
|---|---|---|
| LoopFreedom.UplinksNeverLoop | wsm/aodv.c:2174-2195 | in every run with at most one reply for s in flight at a time, the uplinks for s never form a cycle: from any node a walk along them ends within as many hops as there are nodes, through losses, resets, timeouts and errors |
| LoopFreedom.LoopIff | wsm/aodv.c:2187-2195 | a step from a loop-free state leaves a loop if and only if it delivers a reply to a node with room for the route which the reply's sender already reaches along uplinks |
| LoopFreedom.OwnReply | wsm/aodv.c:2151-2219 | the receiver of a reply joins the ladder of nodes that already lead to the root, so the graph stays loop-free |
| LoopFreedom.OtherReply | wsm/aodv.c:2187-2195 | a reply for one originator touches no uplink of another and leaves every reply for it standing on its ladder |
| LoopFreedom.NextLoopInv | wsm/aodv.c:2718-2778 | every step keeps the graph acyclic and every reply in flight standing on a ladder to the root |
| LoopFreedom.ReplyActor | wsm/aodv.c:2187-2195 | a reply changes the uplink of its own originator at its receiver only, to the sender, one hop further than there |
| CrossedReplies.OverlappingRepliesLoop | wsm/aodv.c:2019-2030 | a run from power-on that ends with two nodes pointing at each other, so in a cycle, and passes a state with two replies for their originator in flight |
| Replies.ReplyMovesOn | wsm/aodv.c:1073-1126 | each delivery puts the reply back one hop nearer to its originator with the same overall route, until nothing is left to visit |
| Replies.ReplyUnwinds | wsm/aodv.c:2151-2219 | undisturbed, a reply is delivered once to each node of the recorded route, last to first, ext_length and hop count adding up to its length, and leaves each pointing to the next with its true distance, no other node changed |
| Replies.UnwoundReachesRoot | wsm/aodv.c:764-815 | so from the originator, following uplinks, the root is exactly as many hops away as the request recorded nodes |
| Replies.ReplyArrives | wsm/aodv.c:2187-2195 | whatever happens in between, when a reply reaches its originator every node of its route points to the next or has lost its route since |
| Replies.QuietOneReply | wsm/aodv.c:2151-2219 | deliveries and losses never bring a second reply for an originator into flight |
| NodeInvariants.ForwardOk | wsm/aodv.c:2129-2148 | a request that passes the defective repeat check still has no repeated node when it is forwarded |
| NodeInvariants.PreqStepOk | wsm/aodv.c:1925-2149 | handling a well-formed request keeps the node in order, sends only well-formed requests and changes no uplink |
| NodeInvariants.RootPreqOk | wsm/aodv.c:1967-2080 | the root stays in order: one route per destination, and behind every open window the request its route was built from |
| NodeInvariants.PrepFireOk | wsm/aodv.c:1046-1060 | the root sends exactly one reply, whose route is the whole route recorded in the stored request, and changes no route |
| NodeInvariants.PrepStepOk | wsm/aodv.c:2151-2219 | a reply sets the uplink of its originator to its sender, if the table has room, and leaves all other uplinks alone; the root never follows the missing-route pointer |
| NodeInvariants.DownlinkIff | wsm/aodv.c:2200-2215 | an inserted downlink has the next node of the reply as its next hop, whatever stands in memory behind the list, if and only if one node is left to visit |
| NodeInvariants.PassOnOk | wsm/aodv.c:1073-1126 | a forwarded reply is well-formed and has the same route as before |
| NodeInvariants.RannOk | wsm/aodv.c:1718-1852 | an announcement, accepted or not, keeps the node in order and can only remove routes |
| NodeInvariants.HelloOk | wsm/aodv.c:1631-1657 | a hello keeps keys unique and gives no uplink but the node's own to a root next door |
| NodeInvariants.PerrOk | wsm/aodv.c:2221-2399 | an error message keeps the node in order and can only remove routes |
| NodeInvariants.HelloTimeoutOk | wsm/aodv.c:1471-1603 | a timeout check keeps the node in order and can only remove routes |
| Network.ReceiveOk | wsm/aodv.c:2718-2778 | every message, whoever receives it, keeps the receiver and all it sends in order; only replies install uplinks for others |
| Network.AlwaysOk | wsm/aodv.c:2718-2778 | in every state of every run all nodes and all messages in flight are in order |
| Guarantees.RequestsInFlight | wsm/aodv.c:1008-1043 | every request in flight: ttl + hcnt = 5, route as long as hcnt and at most four, from originator to radio sender, no node twice, never the root |
| Guarantees.AnnouncementsInFlight | wsm/aodv.c:1756-1757 | an announcement in flight names the root and has a ttl between 1 and the 3 it was made with |
| Guarantees.RepliesInFlight | wsm/aodv.c:764-815 | every reply in flight: rest of the route, receiver and nodes behind make up one route of at most four different nodes; hop count and remaining length add up to its length |
| Guarantees.TablesInOrder | wsm/aodv.c:2874-2968 | no two routes of a node share destination and source, free slots are blank; at the root first-match and last-match search agree |
| Guarantees.FloodsFallSilent | wsm/aodv.c:1018-1041 | whenever the timers fall silent in a run, the deliveries and losses that can follow, other than those of acknowledgements and unicast reports, are bounded by the energy of that state |
| Guarantees.MeshFallsSilent | wsm/aodv.c:1855-1900 | if up to the moment the timers fall silent no two replies for one originator were in flight together, all deliveries and losses that can follow are bounded by the budget of that state |
| Quiescence.EchoesPaid | wsm/aodv.c:2317-2330 | every error message passed on is paid for by a deleted route |
| Quiescence.RannCheap | wsm/aodv.c:1746-1845 | an announcement costs less than it weighs: forward and answer together weigh less |
| Quiescence.PreqCheap | wsm/aodv.c:1925-2149 | so does a request |
| Quiescence.PrepCheap | wsm/aodv.c:2151-2219 | so does a reply, with the two routes it may install |
| Quiescence.PerrCheap | wsm/aodv.c:2221-2399 | so does an error message |
| Quiescence.EnergyDrops | wsm/aodv.c:2718-2778 | every delivery and loss lowers the energy of the mesh, unless a report is passed on |
| Quiescence.FloodsEnd | wsm/aodv.c:2718-2778 | in a run of deliveries and losses from any state in order, all but the deliveries of reports, plus the energy left, are no more than the energy of the first state, whatever the uplinks look like |
| Quiescence.ReportMovesOn | wsm/aodv.c:1148-1170 | an acknowledgement or unicast report changes nothing at its receiver, which sends it on to its next hop for the originator, if it may, and sends nothing else |
| Reports.ReportHop | wsm/aodv.c:1148-1170 | a delivery leaves all nodes as they are; the report is then in flight to the next node of its way, if its receiver is on the way and the one named, and is gone otherwise |
| Reports.ReportLifetime | wsm/aodv.c:1855-1900 | an acknowledgement or unicast report is still in flight after n deliveries if and only if the walk along its way from its receiver makes n hops (an acknowledgement addressed to another node than it names makes none) |
| Reports.StuckIff | wsm/aodv.c:1148-1170 | a report outlasts every number of deliveries if and only if it is the receiver named that gets it and the walk along its way never ends |
| Reports.StuckCheck | wsm/aodv.c:1148-1170 | which holds if and only if the walk makes as many hops as there are nodes |
| Reports.TripShorter | wsm/aodv.c:1889-1899 | a report that is passed on and whose way ends has one hop less to go |
| Reports.BudgetDrops | wsm/aodv.c:2718-2778 | every delivery and every loss lowers the budget, unless it delivers a report that is stuck |
| Reports.QuietRunsEnd | wsm/aodv.c:2718-2778 | a run of deliveries and losses that delivers no stuck report is no longer than the budget of its first state |
| Reports.SilenceIff | wsm/aodv.c:2718-2778 | from a state in order the runs of deliveries and losses are bounded in length if and only if none of them leads to a stuck report, and then the budget bounds them |
| Reports.AcyclicFrees | wsm/aodv.c:2477-2497 | where the uplinks of every originator are free of cycles no report is stuck |
| TrappedReport.ReportTrapped | wsm/aodv.c:1593-1599 | a run from power-on to a state with an error report that is stuck |
| RannEpoch.RannStep | wsm/aodv.c:1740-1790 | within an epoch a node accepts exactly the announcements with a higher number, takes over number and settings, and forwards nothing that is not genuine |
| RannEpoch.RannEmits | wsm/aodv.c:1746-1845 | a rejected announcement causes nothing, an accepted one at most one forward, with a ttl one less and none at 1, and one request or acknowledgement |
| RannEpoch.AlwaysEpochOk | wsm/aodv.c:673-713 | over every run a node at order k uses the metric, rate and channel of the root's k-th announcement, and no announcement in flight differs from the one the root made |
| RannEpoch.AcceptedOrdersIncrease | wsm/aodv.c:1746-1749 | the orders a node accepts strictly increase and never exceed the root's |
| SelectionWindow.WindowPreq | wsm/aodv.c:1981-2080 | with a window open the root takes a request over only if it is better, and never loses the better one |
| SelectionWindow.WindowAgrees | wsm/aodv.c:1987-2030 | in every run an open window's request agrees with the route in originator, hop count, next hop and metric |
| SelectionWindow.KeptArrived | wsm/aodv.c:1996-2018 | the request kept is the one the window opened with or one that arrived in it |
| SelectionWindow.OneHopIsFinal | wsm/aodv.c:1993-1996 | under either metric, once the request kept has one hop it is the one kept at the end |
| SelectionWindow.FewestHopsKept | wsm/aodv.c:1996-2009 | under the hop-count metric it has the fewest hops of all that arrived in the window |
| SelectionWindow.BestAirtimeKept | wsm/aodv.c:2037-2049 | under the airtime metric it is at least as good as any that arrived while the route had more than one hop, counted with the quality of the link it arrived on, and as the one the window opened with |
| SelectionWindow.ReplyFollowsKept | wsm/aodv.c:1253-1268 | when the timer fires the window closes and one reply goes out, to the next hop of the route, along exactly the kept request's path |
| HelloPurge.PurgeExact | wsm/aodv.c:1485-1603 | after the check a slot is blank if it was overdue or named a node declared dead, and otherwise unchanged; only overdue neighbours are declared dead; nothing overdue and no dead node's name is left |
| HelloPurge.TimeoutEffect | wsm/aodv.c:1485-1603 | of the table the check begins with, exactly the slots that outlive all turns are left, with their stored requests, and exactly the reports of the slots that fall are sent, in order |
| HelloPurge.ReportedIff | wsm/aodv.c:1503-1599 | the node reports the loss of a exactly if a slot of a falls: with itself as reporter if and only if another route to the root went through a then, and to the root if and only if it is not the root and an uplink of its own is still there |
| Effects.HelloHeard | wsm/aodv.c:1658-1663 | a hello from a known neighbour makes it not overdue, counts, learns a missing IP address and changes nothing else |
| Effects.HelloNew | wsm/aodv.c:1653-1657 | an unknown neighbour with an address gets the first free slot, with a one-hop route from the node itself |
| Effects.HelloIgnored | wsm/aodv.c:1653-1657 | without an address or with a full table a hello from an unknown neighbour changes nothing |
| Effects.SchHelloHeard | wsm/aodv.c:1703-1714 | a hello on the second channel makes a known neighbour not overdue and is counted in two counters that wrap |
| Effects.RannEffect | wsm/aodv.c:1740-1800 | every route and stored request is given up if and only if the id is another, or the announcement is new and another nonzero setting or the reset flag says so; number, root and settings are taken over if and only if it is new |
| Effects.RannAsks | wsm/aodv.c:1746-1845 | an announcement that is not new causes nothing; a new one is passed on while its ttl allows, and a node without an uplink of its own, or that has just forgotten it, asks for one |
| Effects.RannAcknowledged | wsm/aodv.c:979-999 | a node that keeps its uplink acknowledges to its next hop if and only if it has a route to it |
| Effects.RequestForwarded | wsm/aodv.c:1008-1043 | a request for another node changes nothing; unless list positions 0, 1, 3, 6 name the node or the ttl ends it is broadcast once, a hop longer, its metric grown by the first slot of the sender modulo 2^32 |
| Effects.RequestNew | wsm/aodv.c:1984-1993 | the first request of an originator takes the first free slot, is stored with the grown metric and arms the timer of the slot |
| Effects.RequestAgain | wsm/aodv.c:1994-2080 | a later one replaces route and stored request, and opens a closed window, if and only if the route has more than one hop and it is better under the metric, or newer with the window closed; otherwise nothing changes |
| Effects.ReplyRenews | wsm/aodv.c:2181-2215 | a reply for which the uplink exists renews it; a wanted downlink takes the first free slot; every other slot stays |
| Effects.ReplyInstalls | wsm/aodv.c:2187-2215 | otherwise the uplink takes the first free slot and a wanted downlink the second; every other slot stays |
| Effects.ReplyKeepsRoutes | wsm/aodv.c:2208-2215 | no slot in use but the one of its uplink changes, so an existing route to the originator stays; one appears if and only if none was there, some node is left to visit and a slot is left |
| Effects.ReplySent | wsm/aodv.c:1073-1126 | it goes on to the last node of its list, which it leaves the list, with all else unchanged |
| Effects.PerrEffect | wsm/aodv.c:2244-2399 | exactly the routes to the root through the reporter, and those that mention the dead node and not the reporter of its death as next hop, are blanked; one error per severed route is sent |
| Effects.PerrForgets | wsm/aodv.c:2252-2345 | so no route in use mentions a node that was declared dead, and none leads to the root through a node that reported its own uplink lost |
| Effects.WindowCloses | wsm/aodv.c:1046-1060 | the timer goes off, the window of the originator closes, one reply with the addresses and number of the stored request goes out, and nothing else changes |
| Effects.ResetToldOnce | wsm/aodv.c:965-977 | a route reset asked for is announced in exactly one announcement, and numbers follow on each other |
| Effects.OperatorHeard | wsm/aodv.c:2608-2674 | a route reset blanks the table of the root, new settings blank it or not, and the next announcement carries the reset or the settings |
| Effects.RingsChecked | wsm/aodv.c:329-354 | every slot heard on the second channel gets one ring entry, whether a hello came since the last check, and every other slot stays |
| Effects.QualitiesSet | wsm/aodv.c:356-388 | only quality fields change, and only in one-hop slots heard on the second channel |
| RouteTable.First | wsm/aodv.c:2874-2893 | the first matching slot, or none if no slot matches |
| RouteTable.Last | wsm/aodv.c:2904-2911 | the last matching slot, or none |
| RouteTable.FirstIsLast | wsm/aodv.c:2904-2911 | where destinations are unique both searches return the same slot |
| RouteTable.InsertOk | wsm/aodv.c:2929-2968 | inserting an absent key keeps keys unique and changes the route of that key only |
| RouteTable.RefreshOk | wsm/aodv.c:2913-2926 | updating a slot keeps keys unique and changes the route of its key only |
| RouteTable.ThinnedOk | wsm/aodv.c:2780-2823 | blanking slots keeps the table in order and can only make routes disappear |
| MeshNode.MeshNode.constructor | wsm/aodv.c:2825-2872 | a node starts with a blank table, no request kept and no timer armed |
| MeshNode.MeshNode.RtTableFind | wsm/aodv.c:2874-2893 | the search loop returns the first match |
| MeshNode.MeshNode.RtTableGetIndex | wsm/aodv.c:2904-2911 | the search loop returns the last match |
| MeshNode.MeshNode.RtTableUpdate | wsm/aodv.c:2913-2926 | the new slot, with an arbitrary last-hello time |
| MeshNode.MeshNode.RtTableInsert | wsm/aodv.c:2929-2968 | the first free slot is filled, a full table left alone |
| MeshNode.MeshNode.RtTableEmpty | wsm/aodv.c:2780-2823 | index 10 blanks all slots, 0 to 9 one, others none; requests kept are given up |
| MeshNode.MeshNode.HelloProcess | wsm/aodv.c:1631-1663 | refines the hello handler |
| MeshNode.MeshNode.SchHelloProcess | wsm/aodv.c:1690-1715 | refines the second-channel hello handler, with its byte-wide detector |
| MeshNode.MeshNode.RannSend | wsm/aodv.c:965-977 | refines the root's announcement: order up by one, pending reset used up |
| MeshNode.MeshNode.RannAckSend | wsm/aodv.c:979-999 | refines the acknowledgement: nothing without an uplink of its own, and only if the next hop is itself in the table |
| MeshNode.MeshNode.AcceptRann | wsm/aodv.c:1748-1845 | refines the acceptance of an announcement, in the source's order of effects |
| MeshNode.MeshNode.RannProcess | wsm/aodv.c:1718-1852 | refines the announcement handler |
| MeshNode.MeshNode.RannAckProcess | wsm/aodv.c:1855-1900 | refines the passing on of acknowledgements |
| MeshNode.MeshNode.PerrUnicastProcess | wsm/aodv.c:2477-2497 | refines the passing on of unicast error reports |
| MeshNode.MeshNode.PrepStart | wsm/aodv.c:1253-1268 | an armed selection timer is not restarted |
| MeshNode.MeshNode.RootPreq | wsm/aodv.c:1981-2080 | refines the root's choice, branch by branch |
| MeshNode.MeshNode.RepeatCheck | wsm/aodv.c:2131-2140 | the loop reads positions 0, 1, 3, 6 and finds the node there or nowhere |
| MeshNode.MeshNode.PreqProcess | wsm/aodv.c:1925-2149 | refines the request handler |
| MeshNode.MeshNode.PrepSend | wsm/aodv.c:1046-1060 | refines the selection timer's handler |
| MeshNode.MeshNode.PrepProcess | wsm/aodv.c:2151-2219 | refines the reply handler, with the downlink next hop read at twice the intended offset |
| MeshNode.MeshNode.PerrProcess | wsm/aodv.c:2221-2399 | the loop that changes the table while it reads it removes exactly the condemned slots of the table it started with and echoes once for each uplink through the reporter |
| MeshNode.MeshNode.PurgeNeighbour | wsm/aodv.c:1505-1588 | the three passes and the final blanking remove exactly the neighbour and what names it |
| MeshNode.MeshNode.HelloTimeoutProcess | wsm/aodv.c:1471-1603 | refines the timeout check |
| MeshNode.MeshNode.SchHelloCheck | wsm/aodv.c:329-354 | refines the sampling loop |
| MeshNode.MeshNode.AlmCalculator | wsm/aodv.c:356-388 | refines the scoring loops |
| LinkQuality.RingHolds | wsm/aodv.c:329-354 | after n checks the pointer is n mod 10 and the ring holds the last ten results, zeros where there is none, from the numbers of hellos between the checks |
| LinkQuality.RingSum | wsm/aodv.c:373-379 | the ring's sum is the number of hits in the last ten checks |
| LinkQuality.ScoreMeans | wsm/aodv.c:356-388 | the quality is ten times the hits in the last ten checks, or the percentage so far in the first nine seconds |
| LinkQuality.ScoreAtMostHundred | wsm/aodv.c:356-388 | the quality is at most 100 at any moment |
| TimerQueue.TimevalDiff | wsm/aodv.c:193-205 | the sign of the truncated difference tells whether one moment is a whole millisecond before the other |
| TimerSpec.Place | wsm/aodv.c:245-255 | a timer goes before the first one that is at least a millisecond later |
| TimerTheorems.AlwaysOrdered | wsm/aodv.c:225-276 | after any additions, removals and settings no timer is due a full millisecond after one behind it, none is linked twice |
| TimerTheorems.NotSorted | wsm/aodv.c:193-205 | two settings that leave the queue out of order by 999 microseconds |
| TimerTheorems.PlaceSortedIff | wsm/aodv.c:243-255 | inserted at the place chosen, a timer leaves a sorted queue sorted if and only if none waits that is due later than it by less than a millisecond |
| TimerTheorems.DoSortedIff | wsm/aodv.c:207-291 | from a sorted queue each operation leads to a sorted queue if and only if it does not link a timer where such a one waits |
| TimerTheorems.SortedWhileSpaced | wsm/aodv.c:207-276 | so any sequence of operations none of which does so keeps the queue sorted |
| TimerTheorems.CollectExact | wsm/aodv.c:3242-3251 | collection takes only timers due before now + 1 ms, in queue order, and leaves only timers later than now |
| TimerTheorems.HandlerKeeps | wsm/aodv.c:3253-3262 | a waiting timer still waits after a handler if and only if the handler did not touch it |
| TimerTheorems.DrainExact | wsm/aodv.c:3253-3262 | for arbitrary handlers draining ends, fires waiting timers only, none twice, none that an earlier handler touched, and all the others |
| TimerTheorems.TimeoutExact | wsm/aodv.c:3237-3262 | every overdue timer fires or was touched by a handler before its turn; what fires is due within a millisecond |
| TimerQueue.ListDetach | wsm/aodv.c:181-191 | unlinking an element leaves the ring of the others and an unattached element |
| TimerQueue.ListAdd | wsm/aodv.c:170-179 | linking an element leaves the ring with it in place |
| TimerQueue.TimerQueue.constructor | wsm/aodv.h:187-189 | both lists empty, no timer in use |
| TimerQueue.TimerQueue.TimerRemove | wsm/aodv.c:207-223 | refines removal from whichever list the timer is in; used says exactly whether a timer is linked |
| TimerQueue.TimerQueue.FindPlace | wsm/aodv.c:243-255 | the walk finds the place the specification names, and changes nothing |
| TimerQueue.TimerQueue.TimerAdd | wsm/aodv.c:225-258 | refines insertion |
| TimerQueue.TimerQueue.TimerSetTimeout | wsm/aodv.c:260-276 | refines setting: seconds and microseconds with the carry |
| TimerQueue.TimerQueue.TimerInit | wsm/aodv.c:278-291 | the timer is due at 0 and marked unused; the lists stay as they are, so the queue is in order afterwards if and only if the timer was in neither |
| TimerQueue.TimerQueue.CollectExpired | wsm/aodv.c:3242-3251 | refines the first phase |
| TimerQueue.TimerQueue.DrainExpired | wsm/aodv.c:3253-3262 | refines the second phase |
| TimerQueue.TimerQueue.TimerTimeout | wsm/aodv.c:3237-3262 | refines the whole, and leaves the waiting list empty |
| TransmitRing.PutStep | wsm/mesh_extern.c:64-79 | addq appends or declines exactly as a queue of twenty, later nineteen, does |
| TransmitRing.SendStep | wsm/wsm-tx.c:41-56 | removing first and reading the front slot afterwards yields the oldest frame |
| TransmitRing.PutOverwritesNothing | wsm/mesh_extern.c:64-79 | addq never writes a queued slot nor the slot at the front |
| TransmitRing.RefinesFifo | wsm/mesh_extern.c:64-104 | with at most twenty additions before the first send, the frames sent are those of the bounded FIFO in every run |
| TransmitRing.TwentyIsExact | wsm/mesh_extern.c:57-63 | in a run with different frames the ring sends what the FIFO sends if and only if nothing has been sent yet or at most twenty frames were queued before the first was sent |
| TransmitRing.TxQueue.InitQ | wsm/mesh_extern.c:36-50 | both indices -1, every slot blank |
| TransmitRing.TxQueue.IsEmpty | wsm/mesh_extern.c:52-56 | front equals rear |
| TransmitRing.TxQueue.IsFull | wsm/mesh_extern.c:57-63 | the slot behind rear is the front |
| TransmitRing.TxQueue.AddQ | wsm/mesh_extern.c:64-79 | refines addition, bytes copied in place |
| TransmitRing.TxQueue.DeleteQ | wsm/mesh_extern.c:95-104 | refines removal |
| TransmitRing.TxQueue.TxTimer | wsm/wsm-tx.c:41-56 | refines the transmit timer: what it copies out is what the ring emits |
| NmsTable.PurgeIff | wsm/aodv.c:3029-3036 | in-place removal filters the dead node out of a compact list, order kept, if and only if the list was not full or the node was not ahead of the last place |
| NmsTable.WithNeighbourOk | wsm/aodv.c:3069-3085 | adding a neighbour appends it if absent and there is room, and keeps the list compact and free of repeats |
| NmsTable.PerrUpdateExact | wsm/aodv.c:3004-3040 | where lists are compact and not full the dead node disappears from every list and path, others keep the rest in order, its own row is emptied |
| NmsTable.NmsTable.constructor | wsm/aodv.c:2970-2985 | blank rows, the first one the node itself |
| NmsTable.NmsTable.NmsTableFind | wsm/aodv.c:2993-3002 | the first row with the address |
| NmsTable.NmsTable.NmsTablePerrUpdate | wsm/aodv.c:3004-3040 | refines the in-place update of all rows |
| NmsTable.NmsTable.NmsTableUpdate | wsm/aodv.c:3042-3089 | refines the update of one row; the place returned is where the neighbour then stands in its list, or -1 for an unknown device |
| Checksum.Csum | wsm/aodv.c:131-139 | for up to 65537 words the 32-bit accumulator does not overflow and the result is the one's complement checksum |
| Checksum.FoldsSuffice | wsm/aodv.c:136-137 | two folds reduce any 32-bit sum completely |
| Checksum.ChecksumPermutation | wsm/aodv.c:131-139 | the order of the words does not matter, as section 2 of RFC 1071 promises |
| Checksum.ChecksumVerifies | wsm/aodv.c:131-139 | a buffer with its checksum appended has checksum 0, as section 1 of RFC 1071 uses it |

## Left out

- MeshNode.MeshNode.PrepProcess: with two or more nodes left to visit the next hop of a new downlink is arbitrary, because the source reads it behind the list (`NodeInvariants.DownlinkIff`).
- NmsTable.PerrUpdateExact: excludes full neighbour lists, for which `NmsTable.PurgeIff` says what goes wrong.
- Checksum.Csum: the accumulator is taken as 32 bits wide; where `unsigned long` is wider the result is the same.
- Link metrics carried by acknowledgements and what the root records of them (wsm/aodv.c:1875-1920): no route depends on them.
- `update_cycle`: the handler compares where it means to assign (wsm/aodv.c:1814), so the period never changes; the hello-timeout threshold is a parameter instead.
- The fields r_ch, log, update_period, reset_addr, ifindex and the reboot they trigger: no routing decision reads them.
- Management-table updates inside the handlers, `nms_table_insert` and the uplink paths it records: the table is modelled by itself; row choice is tied to four hard-coded devices.
- Re-issued announcements of the control interface (wsm/aodv.c:2677-2689) and the menu that overwrites `rann_order` and `root_addr`: runs contain `Rann_send` only.
- The PERR/RANN watch timer (wsm/aodv.c:2401-2434): nothing starts it.
- Timer periods in runs: the selection timer can fire at any moment after it is armed, the other timers at any moment; the timer queue is verified on its own.
- Handler pointers and their data, and the exit on a NULL timer: handlers of the timer queue are arbitrary sequences of queue operations.
- A full transmit ring inside runs: a frame it drops is a lost packet.
- Logging, TCP, data traffic by IP, sockets, netlink, the command menu and the kernel module: I/O around the protocol.
- Data races between the receive callback, the timer thread and the command thread: the source has no locks; handlers are atomic here.
