# Meshias: a verified model of its timer queue, node state and route discovery

Meshias is a daemon that implements AODV (RFC 3561). This project models its three linked
parts and proves properties of them.

1. **The timer queue.** `rbtree.c` is modelled as objects whose `left`, `right`, `parent` and colour
   are changed in place (`RbTree.dfy`). A ghost description of the tree (`RbModel.dfy`) gives every node
   its position and interval in the in-order listing and its black height; `RbInsert.dfy` and
   `RbErase.dfy` prove what every step of the two fix-up loops keeps. `RbShape.dfy` proves that
   this description is the textbook red-black tree. `Alarm.dfy` is `alarm.c` on top of it, proved
   against a queue on sequences (`AlarmSpec.dfy`).
2. **One node.** `Node.dfy` gives the meaning of every step of the daemon as a function on the state of
   its global `data`. `Daemon.dfy` is the code itself, with fields that change and loops, proved to do
   what these functions say. `NodeInv.dfy`, `NodeSteps.dfy` and `NodeRuns.dfy` prove an invariant of
   every step and so of every run; `NodeFacts.dfy` says what it means. What an event does is stated without the
   step functions, in the fields of the entry for each address and the deadline of its alarm (`Sights.dfy`):
   `Verdicts.dfy` for packets, `Relays.dfy` for RREQs, `Replies.dfy` for RREPs. `Effects.dfy` says what the smallest
   changes do entry by entry and alarm by alarm, `Freshness.dfy` which routes a packet keeps alive and when
   a reply makes a route older, and `Promise.dfy` when a held packet is left without a request.
   `Ending.dfy` says which request a reply ends. `Callbacks.dfy` joins the alarm callbacks to the queue,
   `Join.dfy` runs them in the red-black queue, and `EventOps.dfy` does so with every event and whole runs.
   `Retry.dfy` follows one request through its whole life, and `Asking.dfy` adds everything that the node
   broadcasts for that destination meanwhile.
3. **One discovery in a network.** `Network.dfy` lets any number of nodes, each running the functions of
   `Node.dfy`, exchange the messages of one discovery. At its start no node has a route or a buffered
   RREQ; sequence numbers, RREQ ids, held packets and everything sent before are arbitrary. Copies arrive
   in any order or never, so every topology is covered, and the first RREQ has any time to live from 1
   to 255. `NetworkInv.dfy` proves the invariant and when a delivery spoils a hop count,
   `Discovery.dfy` the reverse tree and the forward chain, `Flood.dfy` that a flood ends, and `Success.dfy`
   that a discovery reaches its aim. `EchoExample.dfy` shows where hop counts stop being exact.

Besides, `LinuxList.dfy` is the circular list of `linux_list.h`, `Wire.dfy` the byte layout of RREQ and
RREP packets on hosts of either endianness, and `Config.dfy` the timing constants and the times to live of the
expanding ring search. These widen from try to try only for some hop counts, which `Config.RingsWiden` states
exactly; the daemon always passes hop count 0, one of them.

The clock is a parameter wherever the daemon reads it; a callback run takes one reading for each
callback. Lifetimes that the daemon computes from RREQs and RREPs are arbitrary durations. Packets taken
from the kernel, verdicts, messages sent and route expiry are kept as logs.

## What is false of the code

* **Packets held for an expired route.** The daemon queues a packet when the table holds only an expired
  entry for its destination (`nfqueue.c:347-362`, `routing_table.c:210-215`). A reply then revives the
  entry without looking at the queue and ends the request, and the packet stays held with no request
  out. `NodeFacts.PacketStranded` is such a run. `Promise.ReactPromises` gives the exact condition for every
  event: a held packet loses its request if and only if a RREP for us finds an entry for its destination, is
  taken over, and ends a request of ours for which packets are held. `Promise.HeldArePromised` is that for
  whole runs of the daemon.
* **Reverse hop counts.** After its reply has come, the originator no longer has its own RREQ
  buffered (`logic.c:342-347`), so a copy that comes back late is taken for a new RREQ and broadcast with
  a hop count above zero (`logic.c:138-148`, `logic.c:204-232`). A node that hears it first stores
  too large a count. `EchoExample.EchoMisleads` is such a run. `NetworkInv.MoveExact` gives the exact
  condition for every move: the counts stay exact unless a copy that the originator passed on reaches a
  node that has not heard the RREQ. `Discovery.ReverseExact` is that for whole runs, and
  `Discovery.ReverseTree` gives the length of every way back in any case.
* **Requests that outlive their answer.** A reply that is taken over ends the newest buffered entry for its
  destination whose id is not above ours, whoever asked (`rreq_fifo.c:158-169`, `logic.c:342-347`). If that
  is the RREQ of somebody else, our own request stays, and the node goes on asking for a destination to
  which it has a valid route. `Ending.AsksAgain` is such a run, and `Ending.RrepEnds` gives the exact
  condition for a reply to end a request.
* **Freshness of routes.** A RREP with an older sequence number replaces newer knowledge when its hop
  count equals the stored one, because the last take-over rule does not look at the sequence number
  (`logic.c:311-316`). `Freshness.RouteGetsOlder` is a run that ends with the older number, and
  `Freshness.RrepFreshness` gives the exact condition.

## Where the code departs from its comments

The model follows the code. `routing_table_update_route` assigns its own parameter, so its caller never
sees the invalid route and every RREQ of ours starts with hop count 0 and an unknown sequence number
(`routing_table.c:213`). The fourth rule for taking over a RREP tests for an equal hop count where the
comment says smaller (`logic.c:316`). A relayed RREQ never gets a newer destination sequence number: the
branch for it assigns a value to itself (`logic.c:217-226`). An intermediate node compares the RREQ with
its own sequence number, not with that of its route (`logic.c:470`). Answers of intermediate nodes are
built but never sent (`logic.c:499-553`). Passing on a RREP gives the next hop's route its old lifetime
again, not the later of the two (`logic.c:389-397`), which the model covers by arbitrary lifetimes.

## Model

| member | source | states |
|---|---|---|
| Timevals.Add | libmeshias/alarm/alarm.c:59-69 | Adding the delay to the clock field by field adds instants, and the fields stay in range |
| Timevals.Sub | libmeshias/alarm/alarm.c:89-105 | Subtracting field by field subtracts instants |
| Timevals.BeforeIsEarlier | libmeshias/alarm/alarm.c:36-57 | Comparing seconds, then microseconds, compares instants |
| RbModel.RotateLeftKeepsOrder | libmeshias/alarm/rbtree.c:25-49 | A left rotation keeps parent and child links consistent and the in-order sequence unchanged |
| RbModel.RotateRightKeepsOrder | libmeshias/alarm/rbtree.c:51-75 | The same for a right rotation |
| RbTree.RbRoot.RotateLeft | libmeshias/alarm/rbtree.c:25-49 | The pointer assignments make exactly the left rotation, whether the node was root, left or right child |
| RbTree.RbRoot.RotateRight | libmeshias/alarm/rbtree.c:51-75 | The pointer assignments make exactly the right rotation |
| RbInsert.InsertRecolour | libmeshias/alarm/rbtree.c:84-95 | Red uncle: recolouring moves the only possible fault to the grandparent, strictly higher |
| RbInsert.InsertTopLeft | libmeshias/alarm/rbtree.c:105-107 | Black uncle, parent on the left: recolouring and one rotation of the grandparent leave a valid tree |
| RbInsert.InsertTopRight | libmeshias/alarm/rbtree.c:129-131 | The mirror image |
| RbTree.RbRoot.InsertRound | libmeshias/alarm/rbtree.c:81-133 | One round of the insert loop keeps the loop's invariant and the in-order sequence, and ends it or moves up |
| RbTree.RbRoot.InsertColor | libmeshias/alarm/rbtree.c:77-136 | From a tree whose only fault is at the new red node to a valid red-black tree, the in-order sequence unchanged; terminates |
| RbInsert.LinkLeft | libmeshias/alarm/linux_rbtree.h:149-156 | A red leaf linked in a free left slot enters the in-order sequence right before its parent, and at most one fault arises |
| RbInsert.LinkRight | libmeshias/alarm/linux_rbtree.h:149-156 | The same for a right slot, right behind the parent |
| RbTree.RbRoot.LinkNode | libmeshias/alarm/linux_rbtree.h:149-156 | `rb_link_node` does that in place |
| RbTree.RbRoot.Link | libmeshias/alarm/alarm.c:52-56 | Linking and fixing up insert the node at its search position and leave a valid tree |
| RbErase.EraseTurn | libmeshias/alarm/rbtree.c:147-152 | Red sibling: after the rotation the shortage has a black sibling |
| RbErase.EraseMoveUp | libmeshias/alarm/rbtree.c:154-158 | Black sibling with black children: painting it red moves the shortage to the parent, which is strictly higher |
| RbErase.EraseInner | libmeshias/alarm/rbtree.c:160-170 | Inner red child only: a rotation of the sibling makes the outer child red |
| RbErase.EraseOuter | libmeshias/alarm/rbtree.c:172-181 | Outer red child: recolouring and rotating mend the whole tree |
| RbErase.EraseOuterRight | libmeshias/alarm/rbtree.c:211-220 | The mirror image |
| RbTree.RbRoot.EraseRound | libmeshias/alarm/rbtree.c:143-223 | One round of the erase loop mends the tree or keeps the loop's invariant with less room below, in all mirrored cases |
| RbTree.RbRoot.EraseColor | libmeshias/alarm/rbtree.c:138-228 | From a tree short of one black node below one place to a valid tree with the same in-order sequence; terminates |
| RbErase.SpliceErase | libmeshias/alarm/rbtree.c:286-307 | Unlinking a node with at most one child leaves a valid tree or exactly the shortage that the erase loop starts from |
| RbErase.EraseInnerNode | libmeshias/alarm/rbtree.c:239-285 | Replacing a node with two children by its successor comes to unlinking the successor and copying its place |
| RbTree.RbRoot.UnlinkInner | libmeshias/alarm/rbtree.c:239-285 | The code for two children does that in place |
| RbTree.RbRoot.Erase | libmeshias/alarm/rbtree.c:230-308 | Erasing any linked node from a valid tree leaves a valid tree whose in-order sequence is the old one without that node |
| RbTree.RbRoot.First | libmeshias/alarm/rbtree.c:313-324 | The first node of the in-order sequence, or null if it is empty |
| RbTree.RbRoot.Last | libmeshias/alarm/rbtree.c:329-340 | The last node of the in-order sequence, or null |
| RbTree.RbRoot.Next | libmeshias/alarm/rbtree.c:345-375 | The node behind this one in the in-order sequence, or null |
| RbTree.RbRoot.Prev | libmeshias/alarm/rbtree.c:377-403 | The node before this one, or null |
| RbModel.PrevInvertsNext | libmeshias/alarm/rbtree.c:345-403 | `rb_prev` and `rb_next` are inverse to each other |
| RbShape.InOrderIsInterval | libmeshias/alarm/rbtree.c:313-403 | Reading a subtree in order lists its interval of the sequence |
| RbShape.ValidIsRedBlack | libmeshias/alarm/rbtree.c:77-136 | A valid tree is a red-black tree: black root, no red node with a red child, the same number of black nodes on every path |
| RbShape.HeightIsLogarithmic | libmeshias/alarm/rbtree.c:77-136 | Its height is at most twice the logarithm of its size plus one |
| AlarmSpec.ArmKeeps | libmeshias/alarm/alarm.c:59-69 | Arming keeps the queue sorted, leaves no alarm in it twice, and makes exactly this one pending besides |
| AlarmSpec.CancelKeeps | libmeshias/alarm/alarm.c:71-78 | Deleting keeps it sorted and makes exactly this one not pending |
| AlarmSpec.HistoryRepresented | libmeshias/alarm/alarm.c:25-87 | After any history the queue holds exactly the alarms armed last and not deleted since, each once with its latest deadline, sorted by deadline and then by arming order |
| AlarmSpec.RunIsSteps | libmeshias/alarm/alarm.c:126-155 | Running alarms after a history is a longer history, so the same holds after any mixture of arming, deleting and running |
| AlarmSpec.RunFindsEachLinked | libmeshias/alarm/alarm.c:126-155 | If callbacks disarm no alarm but their own, every alarm of a run is in the queue when its turn comes, whatever they re-arm |
| AlarmSpec.DueExactly | libmeshias/alarm/alarm.c:126-155 | A run is made of exactly the alarms due at its entry, each once, latest deadline first |
| AlarmSpec.RunLeaves | libmeshias/alarm/alarm.c:126-155 | An alarm that is not due and not touched keeps its deadline through a run |
| Alarm.AlarmQueue.InitAlarm | libmeshias/alarm/alarm.c:25-34 | A new block is not pending, and the queue and its history are unchanged |
| Alarm.AlarmQueue.AlarmPending | libmeshias/alarm/alarm.c:80-87 | Answers whether the block is in the tree |
| Alarm.AlarmQueue.FindSlot | libmeshias/alarm/alarm.c:36-53 | The descent ends at the free slot behind every alarm due no later |
| Alarm.AlarmQueue.LinkByDeadline | libmeshias/alarm/alarm.c:36-57 | The alarm enters the queue by deadline, behind equal deadlines |
| Alarm.AlarmQueue.AddAlarm | libmeshias/alarm/alarm.c:59-69 | Arming moves a pending alarm to its new deadline, inserts one that is not pending, and adds one step to the history |
| Alarm.AlarmQueue.DelAlarm | libmeshias/alarm/alarm.c:71-78 | Deleting removes a pending alarm, changes nothing otherwise, and adds one step to the history |
| Alarm.AlarmQueue.GetNextAlarmRun | libmeshias/alarm/alarm.c:89-124 | The time to the earliest deadline or zero if it has passed, and nothing if and only if no alarm is pending (deadlines below LONG_MAX) |
| Alarm.AlarmQueue.CollectDue | libmeshias/alarm/alarm.c:135-145 | Collects the due alarms, latest deadline first |
| Alarm.AlarmQueue.DoAlarmRun | libmeshias/alarm/alarm.c:126-155 | Runs exactly the collected alarms in that order, each erased while linked; the queue afterwards is that of the sequence run, and the result is the next wait |
| Alarm.AlarmQueue.RepresentsHistory | libmeshias/alarm/alarm.c:25-155 | After any operations the tree holds exactly the alarms armed last and not deleted or run since, each once with its latest deadline, sorted by deadline and then by arming order |
| LinuxList.Insert | libmeshias/alarm/linux_list.h:76-84 | Linking between two neighbours inserts one element into the ring |
| LinuxList.ListAdd | libmeshias/alarm/linux_list.h:94-97 | Prepends |
| LinuxList.ListAddTail | libmeshias/alarm/linux_list.h:107-110 | Appends |
| LinuxList.ListDel | libmeshias/alarm/linux_list.h:178-195 | Removes exactly this element |
| LinuxList.ListEmpty | libmeshias/alarm/linux_list.h:264-267 | True if and only if the sequence is empty |
| LinuxList.ListSplice | libmeshias/alarm/linux_list.h:287-310 | Puts the first list in front of the second; an empty one changes nothing |
| LinuxList.ForEachSafe | libmeshias/alarm/linux_list.h:436-440 | Visits every element of the original list exactly once in order although the body unlinks some, and leaves exactly the others |
| Config.RingsWiden | libmeshias/aodv/configuration_parameters.c:127-136 | The rings widen from try to try if and only if the hop count is at most 32, or wraps in the packet's byte |
| Config.RingSteps | libmeshias/aodv/configuration_parameters.c:127-136 | Within the threshold of 7 each try reaches two hops further than the one before; beyond it, 35 |
| Config.OwnRings | libmeshias/aodv/configuration_parameters.c:127-136 | For our own RREQs the rings are 3, 5, 7 and then 35 |
| Config.WaitsDouble | libmeshias/aodv/configuration_parameters.c:122-125 | The waits start at 2.8 seconds and double, in 32 bits |
| Config.WordsWrap | meshias_daemon/aodv/logic.c:22-26 | Counters wrap at 32 bits, and the signed reading of a word is the one in range |
| Wire.RreqFirstLayout | meshias_daemon/aodv/packet.h:133-164 | The bit fields of a RREQ lie as in section 5.1 of RFC 3561 on hosts of either endianness |
| Wire.RrepFirstLayout | meshias_daemon/aodv/packet.h:22-62 | The bit fields of a RREP lie as in section 5.2 |
| Wire.HtonlTwice | meshias_daemon/aodv/packet.c:321-328 | Converting a word twice gives it back |
| Wire.BuildRreq | meshias_daemon/aodv/packet.c:299-319 | The bytes built are those of the RFC, flags reduced to five bits |
| Wire.BuildRrep | meshias_daemon/aodv/packet.c:248-268 | The same for a RREP, flags reduced to two bits and prefix size to five |
| Wire.Check | meshias_daemon/aodv/packet.c:139-226 | Accepts by type and size, converts the words of an accepted RREQ or RREP in place, and leaves other packets alone; an empty datagram is refused whatever byte lies behind it |
| Wire.RreqRecovered | meshias_daemon/aodv/packet.c:139-161 | Checking a built RREQ recovers every field |
| Wire.RrepRecovered | meshias_daemon/aodv/packet.c:163-176 | Checking a built RREP recovers every field |
| Wire.PrepareRreq | meshias_daemon/aodv/packet.c:321-328 | Converts the five words in place |
| Wire.PrepareRrep | meshias_daemon/aodv/packet.c:270-276 | Converts the four words in place |
| Wire.PrepareUndoesCheck | meshias_daemon/aodv/packet.c:321-328 | Preparing an accepted packet gives back its bytes |
| Wire.RreqForwarded | meshias_daemon/aodv/logic.c:146-231 | A RREQ checked, counted one hop further and prepared is the same RREQ with the new hop count |
| Wire.RrepForwarded | meshias_daemon/aodv/logic.c:270-369 | The same for a RREP |
| Routes.FindMatches | meshias_daemon/routing_table.c:171-194 | The search finds an entry that covers the address, or none does |
| Routes.AtMostOneMatch | libmeshias/msh_route.c:256-267 | With one common prefix size at most one entry matches an address |
| Routes.FindIsLookup | meshias_daemon/routing_table.c:171-194 | The first match is the only one, so the search is a map lookup |
| Routes.AddKeepsUncovered | meshias_daemon/routing_table.c:81-139 | A new entry's destination is covered by no older entry |
| Daemon.Data.ProcessPackets | meshias_daemon/packets_fifo.c:74-93 | The loop accepts the covered packets and leaves the others in order |
| Daemon.Data.DropPackets | meshias_daemon/packets_fifo.c:61-72 | The loop drops exactly the packets for the destination |
| Daemon.Data.FindByIp | meshias_daemon/routing_table.c:184-194 | The search loop returns the first entry that covers the address |
| Daemon.Data.AddPrecursorTo | libmeshias/msh_route.c:206-221 | A precursor is added in front unless it is there |
| Daemon.Data.RoutingTableAdd | meshias_daemon/routing_table.c:81-139 | Adds an entry unless one covers its destination, arms it, and releases packets |
| Daemon.Data.UpdateRoute | meshias_daemon/routing_table.c:196-271 | Fails without a valid route; otherwise refreshes the routes to destination, originator and their next hops |
| Daemon.Data.Contains | meshias_daemon/rreq_fifo.c:130-141 | True if and only if an entry has this id and destination |
| Daemon.Data.WaitingResponseFor | meshias_daemon/rreq_fifo.c:143-156 | True if and only if an entry of ours has this destination |
| Daemon.Data.DeleteAnswered | meshias_daemon/rreq_fifo.c:158-169 | Deletes the newest entry for the destination with an id up to the given one |
| Daemon.Data.ManageOutput | meshias_daemon/nfqueue.c:323-370 | Accepts the packet, or holds it and asks for a route unless a request is out |
| Daemon.Data.ManageForward | meshias_daemon/nfqueue.c:405-442 | Accepts the packet and refreshes the routes it uses |
| Daemon.Data.AnswerRreq | meshias_daemon/aodv/logic.c:422-557 | Answers exactly as destination or with a usable entry, and sends only as destination |
| Daemon.Data.ProcessRreq | meshias_daemon/aodv/logic.c:106-233 | Previous hop, duplicate test, reverse route, answer or relay, as the step function says |
| Daemon.Data.ProcessRrep | meshias_daemon/aodv/logic.c:235-410 | Previous hop, forward route, take-over rules, end of the request or passing on, as the step function says |
| Daemon.Data.ProcessPacket | meshias_daemon/aodv/logic.c:68-104 | Packets of our own are ignored |
| Daemon.Data.RequestAlarm | meshias_daemon/rreq_fifo.c:20-69 | Deletes an entry of others, retries, or gives up and drops the packets |
| Daemon.Data.RunDue | libmeshias/alarm/alarm.c:147-152 | The callbacks of the due alarms run one after the other |
| Verdicts.OutputVerdict | meshias_daemon/nfqueue.c:323-370 | A packet of our own is accepted at once exactly if it is for everybody, for us, or for a destination with a valid entry; otherwise exactly it is held, and exactly one RREQ goes out unless one of ours is waited for; nothing is dropped |
| Verdicts.ForwardVerdict | meshias_daemon/nfqueue.c:405-442 | A packet passing through is always accepted, and nothing is sent |
| Verdicts.OutputKeepsAlive | meshias_daemon/routing_table.c:196-271 | A routed packet of our own keeps alive exactly the entries of its destination and of the next hop there; no other entry or deadline changes |
| Verdicts.ForwardKeepsAlive | meshias_daemon/routing_table.c:196-271 | The same for a packet passing through, and for its originator and the next hop to it |
| Verdicts.RetryKeepsAlive | meshias_daemon/rreq_fifo.c:46-56 | A request's callback touches routes only if it tries again although there is a valid one |
| Relays.AskSees | meshias_daemon/aodv/logic.c:106-187 | Every field of every entry and every route deadline after a RREQ: the previous hop's, the way back of a new RREQ, and the precursors if the node answers for the destination |
| Relays.OriginatorLearnt | meshias_daemon/aodv/logic.c:156-187 | A new RREQ sets the way back and the originator's sequence number: its own for an unknown originator, the later of the two for a known one; an originator first heard directly counts as known with number 0 |
| Relays.AskSends | meshias_daemon/aodv/logic.c:204-232 | What a RREQ makes a node send; a RREQ is broadcast again field by field as it came, with one less to live and one hop more |
| Replies.OwnIgnored | meshias_daemon/aodv/logic.c:74-76 | A message of our own changes nothing |
| Replies.ReplySees | meshias_daemon/aodv/logic.c:235-410 | Every field of every entry and every route deadline after a RREP: the previous hop's, the way to the destination if taken over, the lifetime and precursors where it is passed on |
| Replies.KnownTakenOver | meshias_daemon/aodv/logic.c:299-338 | For a known destination, the exact condition for a RREP to be taken over in terms of the entry's fields, what the entry then says, and that nothing known changes otherwise |
| Replies.UnknownTakenOver | meshias_daemon/aodv/logic.c:268-338 | For an unknown destination, the entry a RREP makes |
| Replies.ReplySends | meshias_daemon/aodv/logic.c:349-369 | A RREP that is taken over goes on field by field as it came, with one less to live and one hop more, to the next hop of the way back; nothing else is sent |
| Effects.LifetimeSet | libmeshias/msh_route.c:145-158 | A lifetime makes exactly one entry valid and moves exactly its alarm; every other entry is found as before and every other deadline stays |
| Effects.RequestPushed | meshias_daemon/rreq_fifo.c:92-128 | A buffered request is found from then on, one of ours is waited for, its alarm rings after the path discovery time or after the wait of its try, and nothing else changes |
| Effects.OwnAskKnown | meshias_daemon/aodv/logic.c:14-66 | A node that asks broadcasts one RREQ of its own and knows it again: a copy that comes back while it is buffered is neither answered, relayed nor buffered |
| Effects.RouteRings | libmeshias/msh_route.c:320-335 | When its alarm rings, a valid entry becomes invalid and rings again after the delete period; an invalid one goes and its alarm too; every other entry and deadline stays |
| NodeInv.AddRouteKeeps | meshias_daemon/routing_table.c:81-139 | Adding an entry keeps the whole invariant, and held packets without an entry still have none |
| NodeInv.PushKeeps | meshias_daemon/rreq_fifo.c:92-128 | Buffering a request that is not there keeps it |
| NodeInv.DeleteKeeps | meshias_daemon/rreq_fifo.c:13-18 | Deleting a request with its alarm keeps it |
| NodeSteps.RreqKeeps | meshias_daemon/aodv/logic.c:106-233 | Processing a RREQ keeps it |
| NodeSteps.RrepKeeps | meshias_daemon/aodv/logic.c:235-410 | Processing a RREP keeps it; if every held packet had no entry and a request of ours out, that stays so |
| NodeSteps.OutputKeeps | meshias_daemon/nfqueue.c:347-369 | An outgoing packet keeps it, and queuing leaves every held packet without any entry exactly if the packet is let through or had no entry itself |
| NodeSteps.RouteAlarmKeeps | libmeshias/msh_route.c:320-335 | A route's callback keeps it if an invalid route has been invalid long enough when it is due |
| NodeSteps.RequestAlarmKeeps | meshias_daemon/rreq_fifo.c:20-69 | A request's callback keeps it |
| NodeRuns.FireAllKeeps | libmeshias/alarm/alarm.c:126-155 | So does a whole alarm run, whatever the callbacks re-arm |
| NodeRuns.StepKeeps | meshias_daemon/nfqueue.c:323-440 | Every event keeps the invariant |
| NodeRuns.RunKeepsInv | meshias_daemon/nfqueue.c:323-440 | So does every run of packets, messages and alarm runs in any order |
| NodeRuns.RunKeepsHeld | meshias_daemon/nfqueue.c:347-369 | Held packets stay owed over every run without an expired entry in the way |
| Promise.ReactPromises | meshias_daemon/aodv/logic.c:235-348 | Over every event, each held packet keeps a request of ours if and only if the event is no RREP that is taken over at an entry known before and ends the request of a held packet |
| Promise.RunPromises | meshias_daemon/nfqueue.c:347-369 | Every state of a run has a request out for each held packet if and only if no RREP of the run strands one |
| Promise.HeldArePromised | meshias_daemon/nfqueue.c:347-369 | The same from the start of the daemon on |
| Ending.PickedIsInFront | meshias_daemon/rreq_fifo.c:158-169 | `rreq_fifo_del` picks an entry if and only if its id is not above the given one and no newer entry for the destination has such an id |
| Ending.RrepEnds | meshias_daemon/aodv/logic.c:336-348 | A RREP ends a buffered request for its destination if and only if it is for us, taken over, and the request is the newest with an id up to ours |
| Ending.AsksAgain | meshias_daemon/aodv/logic.c:336-348 | A run in which the answer ends a foreign entry, and our own request is broadcast once more although there is a valid route |
| NodeFacts.RoutesExpire | libmeshias/msh_route.c:145-158 | In every reachable state each entry has its alarm pending and is valid exactly when that alarm is to invalidate it; none was destroyed less than DELETE_PERIOD after it was last marked invalid |
| NodeFacts.TableIsMap | meshias_daemon/routing_table.c:81-194 | In every reachable state destinations are pairwise distinct and the search finds an entry exactly if it is there |
| NodeFacts.RequestsBuffered | meshias_daemon/rreq_fifo.c:92-169 | In every reachable state at most one request of ours per destination, tries from 0 to RREQ_RETRIES, others marked -1 and distinct, an alarm pending for each |
| NodeFacts.PacketsConserved | meshias_daemon/packets_fifo.c:21-93 | In every reachable state a packet id is held, accepted or dropped as often in all as it was taken |
| NodeFacts.RouteSorts | meshias_daemon/packets_fifo.c:74-93 | A route accepts exactly the packets it covers, in their order, and keeps the others in theirs |
| NodeFacts.HeldAreOwed | meshias_daemon/nfqueue.c:347-369 | If packets are queued only without any entry, each held packet has no entry and exactly one request of ours out |
| NodeFacts.RouteReleases | meshias_daemon/routing_table.c:134-138 | A new route accepts every held packet for its destination and leaves the others |
| NodeFacts.GiveUpReleases | meshias_daemon/rreq_fifo.c:36-44 | Giving up drops every held packet for the destination and leaves the others |
| NodeFacts.PacketStranded | meshias_daemon/aodv/logic.c:336-348 | A run in which a packet queued over an expired entry stays held with no request out |
| Freshness.UpdateDue | meshias_daemon/routing_table.c:196-271 | A routed packet sets the deadline of exactly the routes to destination, originator and their next hops to the active route timeout from now; every other deadline stays |
| Freshness.RrepFreshness | meshias_daemon/aodv/logic.c:311-330 | A RREP leaves a known sequence number no older if and only if it is not both older and of equal hop count |
| Freshness.RouteGetsOlder | meshias_daemon/aodv/logic.c:311-330 | A run of two replies that ends with the older sequence number in the table |
| Freshness.AnswerNewer | meshias_daemon/aodv/logic.c:432-461 | The destination answers with its own sequence number, never the one asked about, and newer exactly if the asked one is not ahead |
| Freshness.NotedOnce | libmeshias/msh_route.c:206-221 | A precursor enters the list of that route alone, and no precursor is listed twice |
| Callbacks.FireIsOps | meshias_daemon/rreq_fifo.c:20-69 | A callback's effect on the alarm queue is a list of arming operations and at most its own disarming |
| Callbacks.FireAllIsRun | libmeshias/alarm/alarm.c:126-155 | An alarm run of the daemon is a run of the queue, and no callback disarms an alarm of another |
| Callbacks.RunFindsAlarms | libmeshias/alarm/alarm.c:147-152 | In every state with the invariant each alarm of the run is in the queue when its turn comes |
| Join.SetAlarmTime | libmeshias/utils.c:9-13 | Seconds and microseconds add up to the milliseconds asked for |
| Join.RunAsked | meshias_daemon/rreq_fifo.c:20-69 | All callbacks of a run touch only alarms of entries there were when it began, with delays that fit a word |
| Join.RunRenamed | libmeshias/alarm/alarm.c:126-155 | A run of alarms under other names is the run itself, renamed |
| Join.CallbacksFit | libmeshias/alarm/alarm.c:126-155 | The callbacks of the daemon, as calls of `add_alarm` and `del_alarm` on blocks, are what `do_alarm_run` may be given, and the run they give is that of the daemon |
| Join.RunCallbacks | libmeshias/alarm/alarm.c:126-155 | If the red-black queue holds the daemon's alarms, then after `do_alarm_run` with the daemon's callbacks it holds those of the state the daemon is then in |
| EventOps.ReactIsOps | meshias_daemon/meshias.c:59-97 | The effect of every event on the alarm queue is a list of arming and disarming operations on alarms the node has numbered by then, with delays that fit a word |
| EventOps.EventFits | libmeshias/alarm/alarm.c:59-78 | Those operations, as calls of `add_alarm` and `del_alarm` on blocks, are allowed and give the alarms of the state the node is then in |
| EventOps.HandleEvent | libmeshias/alarm/alarm.c:59-155 | If the red-black queue holds the node's alarms before an event, it does so after it |
| EventOps.RunEvents | meshias_daemon/meshias.c:59-97 | So it does over every run of packets, messages and alarm runs |
| Retry.RunIsFirings | libmeshias/alarm/alarm.c:147-152 | An alarm run is its callbacks one by one |
| Retry.ReactMine | meshias_daemon/rreq_fifo.c:158-169 | Nothing but a reply that removes it touches a request between its alarms |
| Retry.TryAgain | meshias_daemon/rreq_fifo.c:30-68 | A retry broadcasts exactly one RREQ, with the next id, the next sequence number and the ring of that try, and starts the next wait |
| Retry.GiveUp | meshias_daemon/rreq_fifo.c:36-44 | After the last wait nothing is broadcast, the request is gone and its packets are dropped |
| Retry.NextDeadline | libmeshias/aodv/configuration_parameters.c:122-125 | While they fit 32 bits the waits double, so the k-th ends after (2^(k+1) - 1) NET_TRAVERSAL_TIME |
| Retry.Lifecycle | meshias_daemon/rreq_fifo.c:20-69 | For any retry limit whose waits fit 32 bits: unanswered and with its alarms on time, a request is broadcast when it is made and by its own callbacks at the end of each of the first `limit` doubling waits, and given up after exactly (2^(limit+1) - 1) NET_TRAVERSAL_TIME |
| Retry.RunIsMicros | libmeshias/alarm/alarm.c:126-155 | Every run of the daemon is its events and callbacks one by one |
| Retry.RunLifecycle | meshias_daemon/rreq_fifo.c:20-69 | The same life of a request over every run of packets, messages and alarm runs in which no reply removes it and its own alarm rings on time |
| Asking.AsksOnSchedule | meshias_daemon/rreq_fifo.c:20-69 | For a destination that none of our requests was out for, all events together make the node ask exactly limit + 1 times, with widening rings at the doubling times, each RREQ numbered by how many the node has made since, and not once besides until the request is given up |
| Asking.RunAsksOnSchedule | meshias_daemon/rreq_fifo.c:20-69 | The same over every run of packets, messages and alarm runs, by numbers: time to live 3 at once, 5 after 2.8 seconds, 7 after 8.4 seconds |
| Asking.StepIds | meshias_daemon/aodv/logic.c:24-26 | Every RREQ of its own counts the node's id up by one, in 32 bits, and no other step changes it |
| Asking.IdsDiffer | meshias_daemon/aodv/logic.c:24-26 | Two RREQs of one request carry the same id if and only if a multiple of 2^32 RREQs lie between them |
| Retry.ForeignLifecycle | meshias_daemon/rreq_fifo.c:26-30 | A RREQ of somebody else stays buffered for exactly PATH_DISCOVERY_TIME and then goes without a word, unless a reply removes it |
| NodeView.RreqSeen | meshias_daemon/aodv/logic.c:132-141 | A buffered RREQ is not broadcast again, and changes no route but that to the previous hop |
| NodeView.RreqFresh | meshias_daemon/aodv/logic.c:143-232 | A new RREQ is buffered, the way back has the sender as next hop and the RREQ's hop count, and it is answered by its destination, swallowed by a node that takes itself for able to answer, or broadcast again with the fields it came with, one hop further |
| NodeView.RrepEffect | meshias_daemon/aodv/logic.c:235-369 | A RREP for a destination without a way sets it with one hop more (in a byte), and goes on to the next hop of the way back if there is one |
| NetworkInv.FreshKeeps | meshias_daemon/aodv/logic.c:132-232 | A node that hears the RREQ first joins the reverse tree one hop behind the sender, and the invariant holds on |
| NetworkInv.ReplyNearer | meshias_daemon/aodv/logic.c:358-369 | Each forward of the RREP shortens the remaining way to the originator by exactly one hop |
| NetworkInv.ReplyKeeps | meshias_daemon/aodv/logic.c:235-410 | A RREP extends the forward chain by one node, and at most one RREP is in flight |
| NetworkInv.MoveKeeps | meshias_daemon/aodv/logic.c:106-410 | Every delivery and every loss keeps the invariant |
| NetworkInv.MoveExact | meshias_daemon/aodv/logic.c:106-410 | The stored hop counts stay exact over a move if and only if it does not deliver, to a node that has not heard the RREQ, a copy that the originator passed on |
| Discovery.WayBack | meshias_daemon/aodv/logic.c:156-187 | The steps to the originator are the hop count plus one, less the count of the last node on the way |
| Discovery.WayBackExact | meshias_daemon/aodv/logic.c:156-187 | The steps are exactly the hop count plus one if and only if the last node before the originator stores hop count zero |
| Discovery.ReverseTree | meshias_daemon/aodv/logic.c:106-187 | In every run, each node that has heard the RREQ reaches the originator in its hop count plus one steps, less the hop count that the last node on the way stores, and no node comes twice on the way |
| Discovery.ExactIsTree | meshias_daemon/aodv/logic.c:156-187 | Every way back is as long as counted if and only if the nodes next to the originator store hop count zero |
| Discovery.RunExact | meshias_daemon/aodv/logic.c:106-410 | From exact counts, a run ends in exact counts if and only if none of its moves misleads a node |
| Discovery.ReverseExact | meshias_daemon/aodv/logic.c:106-187 | After every run, all nodes that have heard the RREQ reach the originator in exactly their hop count plus one steps if and only if no move of the run misled a node |
| Discovery.ForwardChain | meshias_daemon/aodv/logic.c:235-348 | In every run, each node that knows a way to the destination reaches it in exactly its hop count of steps |
| Discovery.EndsAgree | meshias_daemon/aodv/logic.c:311-348 | On arrival the originator's hop count for the destination is the destination's for the originator plus one |
| Discovery.NoCycle | meshias_daemon/aodv/logic.c:106-187 | A way that ends visits no node twice |
| Flood.MoveDescends | meshias_daemon/aodv/logic.c:204-232 | Every delivery and every loss lowers the bound on what is still to come |
| Flood.FloodEnds | meshias_daemon/aodv/logic.c:204-232 | Every discovery ends, after a number of moves bounded by nodes and time to live |
| Flood.FloodBounded | meshias_daemon/aodv/logic.c:132-232 | Hop count and time to live add up to the same on every copy in flight; every node but the originator broadcasts at most one RREQ more than before, and the originator at most two |
| Success.ReplyArrives | meshias_daemon/aodv/logic.c:235-410 | Without a lost RREP, when nothing is in flight any more the originator knows a way to the destination if and only if the destination has heard the RREQ |
| Success.MoveSpreads | meshias_daemon/aodv/logic.c:204-232 | Over every move, what a node has passed on has been heard over its links, or is on its way there |
| Success.FarEnough | meshias_daemon/aodv/logic.c:204-232 | Until the destination has heard the RREQ, no node stops it if the first time to live is the number of the other nodes |
| Success.DestinationHears | meshias_daemon/aodv/logic.c:132-232 | If the destination can be reached over links that carry every copy of the RREQ, and the time to live is not less than the number of the other nodes, then it has heard the RREQ at the end |
| Success.DiscoverySucceeds | meshias_daemon/aodv/logic.c:106-410 | If besides no RREP is lost, then at the end the originator reaches the destination in exactly its hop count of steps, whatever the order of the deliveries |
| EchoExample.EchoMisleads | meshias_daemon/aodv/logic.c:342-347 | A run in which a node stores hop count 2 though it reaches the originator in one step |

## Left out

- Sockets, netlink, iptables hooks, the `select` loop, the command interface and the tools: foreign calls and input/output.
- `libnetfilter_queue/`: a wrapper around kernel messages.
- RERR and RREP-ACK: their handlers are empty, and building a RERR is unfinished.
- Replies of intermediate nodes and gratuitous RREPs: the code builds them and does not send them; only the precursors they leave are modelled.
- The numbers in lifetimes (`minimal_lifetime`, `msh_route_get_lifetime`): they mix absolute and relative times, so the model takes any duration.
- `manage_input_packet`: it refreshes routes as `manage_forward_packet` does and accepts, but gives no verdict in a branch that its own message calls a bug.
- `routing_table_del`, `routing_table_delete` and the other shutdown functions.
- `rb_replace_node`, RCU and hlist variants, `list_move`: not used by the daemon.
- `RTFLAG_UNMANAGED` (never set), the kernel's routing table and its gateway updates: insertion into the kernel is taken to succeed.
- Statistics, logging and failing memory allocation.
- The colour bit inside `rb_parent_color`: colour and parent are two fields of a node.
- In `Daemon.dfy` alarms are named by identifiers and kept in the sequence queue; `Join.dfy` and `EventOps.dfy` carry its events and runs over to the red-black queue through any one-to-one assignment of blocks to alarms. The blocks are initialised before the run; that routes and requests embed theirs, and free them, is not modelled.
- Routes, requests and held packets in `Daemon.dfy` are values in sequences, found again by identity; the pointer surgery of their lists is proved in `LinuxList.dfy` alone.
- Several discoveries at once and loop freedom in general: the acceptance rules of the code do not support it.
