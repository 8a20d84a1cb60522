# goSDFS: a verified model

goSDFS is a small distributed file system on top of a failure detector. One node, the introducer,
keeps all members on a virtual ring and tells each of them its ring neighbours. Members send
heartbeats with their member list to their neighbours, declare a silent neighbour failed, and merge
what others report. The greatest live member acts as master and answers where the three copies of a
file belong; a monitor thread on every node copies files to where they belong and deletes them from
where they do not. Files travel over TCP in 256-byte slabs, everything else in 512-byte datagrams.

The model follows the code file by file:

| file | what it holds |
|---|---|
| `Text.dfy` | splitting at separators, last octet of an address, key order of an ordered map |
| `Sets.dfy` | one fact about finite sets |
| `RingOrder.dfy` | the ring as a list of addresses: joins, departures, order, whole runs |
| `Ring.dfy` | the ring on the heap: `Node`, `VirtualRing`, every splice statement by statement, and whole runs |
| `Neighbourhood.dfy` | the neighbour relation and the failures it survives |
| `Introducer.dfy` | `update_nodes` and `intro_handler` on the heap ring |
| `Datagram.dfy` | datagram framing and the member-list message |
| `Membership.dfy` | one node's tables and handlers, the failure detector, master election |
| `Gossip.dfy` | all nodes, all messages and one clock as a transition system |
| `Spread.dfy` | ring and gossip together: verdicts reach every survivor of two failures |
| `Slots.dfy` | the number a file name is slotted to |
| `Placement.dfy` | `where_to`: the three places of a file |
| `WriteConflict.dfy` | `putfile_handler` and the one-minute rule |
| `Replication.dfy` | the monitors as an interleaved protocol, and its safety |
| `Convergence.dfy` | passes under one placement bring a file exactly onto it; reading back what was put |
| `Settling.dfy` | the placement changes under running passes, which still hold older answers |
| `Recovery.dfy` | after failures: exactly when the monitors can still bring a file where it belongs |
| `Progress.dfy` | monitors that nothing blocks come to the end of their passes and place every file |
| `Failures.dfy` | how one failed machine blocks the monitors of others for good, or takes them with it |
| `Tolerance.dfy` | two machine failures, from placement to surviving copies and back to three |
| `Store.dfy` | `monitor_handler` |
| `Transfer.dfy` | size announcement, slab sender and short-read receiver, each receive possibly short |
| `Command.dfy` | command names and the in-place shift |
| `Upload.dfy` | command, announcement and file of an upload together |

How the environment is represented:

- The clock is a parameter of every handler; a handler reads it once and runs as one atomic step.
- Lost, duplicated and reordered heartbeats: every message ever sent stays deliverable for ever.
- Reading the end of the member map, which `where_to` and the heartbeat loop do, yields an arbitrary
  entry (`End`, `atEnd`), and results are stated for every such entry.
- A TCP stream is a sequence of bytes; how much each `recv` returns is arbitrary but at least one
  byte. This includes the receives of the command and of the size announcement.
- Behind the end of a stream, which its sender closes, a `recv` returns nothing.
- A query to the master gets any of a set of possible answers per file (`Master`); `Only(p)` is a fixed
  placement. The empty list is the answer of a query whose sending fails with an error, for instance
  on a node without a route: the exception is caught and the response stays empty (src/com.cpp:84). A
  query or a check that is merely lost is never answered, and its monitor waits for ever (`Hang`).
- A machine fails by disappearing (`Crash`), whatever the other monitors are in the middle of. A check of
  a missing node waits; an upload to one cannot connect, which ends the uploader's process
  (src/ftpclient.cpp:41-42).
- A pass begins only where four members are known (src/client.cpp:687); a node comes to know members
  at any time (`Learn`).
- A member list is sent only while it fits the datagram (`Gossip.Sendable`).

Properties that do not hold of the code as it stands, each with its exact condition and with a lemma
or method that reaches a failing case:

- A joiner keeps the octet order exactly when its octet is at least 2, or no octet behind the
  introducer exceeds it (`RingOrder.JoinSortedIff`, `RingOrder.OctetOneUnsorts`): the search starts
  with the constant 1.
- The introducer leaving a ring of two does not leave a ring (`Ring.VirtualRing.Leave`, an
  if-and-only-if; `Ring.IntroducerLeavesPair`): the remaining node points at itself and at the node
  that left, or, when the second pointers were never set, the code dereferences null.
- A member other than the introducer that leaves a ring of two stays listed; from three on every departing
  address goes (`RingOrder.GoneIff`).
- `where_to` gives three different live members, whatever the end of the map holds, exactly under
  the condition of `Placement.WhereToIff`. In particular a slotted member whose nearest live
  predecessor is the first key of the map is sent to the end of the map instead
  (`Placement.FirstKeyMisplaces`).
- A file is safe from the monitors exactly when some node belongs to every answer a query for it may
  get (`Replication.SafeIff`). So one query whose sending fails can lose a file
  (`Replication.EmptyAnswerLoses`), and a change of placement is safe exactly when the old and the new
  answer share a node (`Replication.ChangeSafeIff`).
- After a change of placement one whole pass of every holder does not put the file in place, even when
  the placements share a node (`Settling.OnePassNotEnough`). Two rounds of finishing what was begun, and
  then one pass, do (`Settling.Converged`, `Settling.ChangeConverges`).
- Two failures are not always repaired. One is enough to block every holder of a file for good
  (`Failures.OneFailureBlocks`), and one failed machine can take all holders of a file with it, however
  many there are (`Failures.FailureTakesAll`). `Recovery.RestoreIff` says exactly when the monitors can
  still bring a file to all its nodes, `Tolerance.CopiesCanReturn` that they can when nothing is blocked.
- A completed put stays readable exactly when no older upload with other content is still on its way
  (`Convergence.PutStaysIff`); for every placed file a run leads to a put with such an upload
  (`Convergence.StalePutReachable`).
- A transfer whose command came in whole writes the beginning of the file, whatever the file and the
  reads, exactly when all 256 bytes of the size announcement come in at once (`Transfer.HeaderIff`).
  `Transfer.FaithfulIff` says for each file, and whatever part of the command and the announcement is
  left over, when it does: what is left over is written in front of the file. With everything received
  it writes the whole file exactly when the one read below 256 bytes is full
  (`Transfer.TransferFile`); every file of two bytes or more can be cut short
  (`Transfer.TruncatableIff`).
- An upload is right, in name and content, for every file exactly when command and announcement come in
  at once (`Upload.PutIff`); a cut command mostly stores an empty file under a cut name
  (`Upload.CutCommand`).
- A command's name arrives whole exactly when the whole command comes in at once
  (`Command.NameAtServer`).
- After an election scan the master is live exactly when someone other than the least key is live or
  the old master is, so that two live members are enough (`Membership.MasterLiveIff`,
  `Membership.DeadMasterStays`).
- A verdict spreads only while member lists fit a datagram; 28 full-width addresses is the bound
  (`Datagram.CapacityExact`).

The interactive prompt speaks of 30 seconds between writes (src/client.cpp:876), the feature list of
a minute; the code checks 60 seconds, and so does the model.

## Model

| member | source | states |
|---|---|---|
| `Text.SplitJoin` | src/client.cpp:140-144 | splitting loses nothing and leaves no separator in a part |
| `Text.SplitTerminated` | src/client.cpp:482-488 | a list written with a separator after each item splits into the items and one empty part |
| `Text.Keys` | src/client.cpp:548-552 | the map is iterated over exactly its keys, strictly increasing |
| `Text.KeysUnique` | src/client.cpp:548-552 | there is only one such order, so iteration depends on the key set alone |
| `Text.BeforeMeans` | src/client.cpp:548-552 | the order of keys is that of strings: behind the common part the one that ends or has the smaller character comes first |
| `RingOrder.Position` | src/virtual_ring.cpp:173-185 | the search stops behind the introducer and within the old ring |
| `RingOrder.Reaches` | src/virtual_ring.cpp:173-185 | everything in front of the stop has a smaller octet and the stop itself does not |
| `RingOrder.JoinedKeepsRing` | src/virtual_ring.cpp:135-267 | a join keeps addresses distinct and the introducer first |
| `RingOrder.JoinerPlace` | src/virtual_ring.cpp:173-190 | a joiner goes behind all members with a smaller octet, in front of the first with an equal or larger one; below 2 it goes to the end; a present address changes nothing |
| `RingOrder.DepartedKeepsRing` | src/virtual_ring.cpp:33-99 | a departure keeps addresses distinct |
| `RingOrder.DepartedMeans` | src/virtual_ring.cpp:42-97 | a departure takes out exactly the departing address, the others stay in their order, also when the introducer leaves; an absent address changes nothing |
| `RingOrder.GoneIff` | src/virtual_ring.cpp:62-62 | exactly when a departing address is gone: a ring of two keeps its second member |
| `RingOrder.JoinThenDepart` | src/virtual_ring.cpp:62-97 | a join followed by the joiner's departure restores the ring |
| `RingOrder.JoinSortedIff` | src/virtual_ring.cpp:190-190 | exactly which joiners keep the order by last octet |
| `RingOrder.LowOctetUnsorts` | src/virtual_ring.cpp:149-190 | the shortest runs that break the order: any second joiner with an octet below 2 and below the first joiner's |
| `RingOrder.OctetOneUnsorts` | src/virtual_ring.cpp:149-190 | such a run with concrete addresses |
| `RingOrder.DepartSorted` | src/virtual_ring.cpp:33-58 | every departure, also one that promotes a new introducer, keeps the order |
| `RingOrder.RunSorted` | src/virtual_ring.cpp:33-267 | over every run of joins with octet at least 2 and departures the ring stays a duplicate-free list in octet order |
| `Ring.VirtualRing.constructor` | src/virtual_ring.hpp:26-36 | a new ring is one node with no pointers set |
| `Ring.RotatedRing` | src/virtual_ring.cpp:187-190 | the ring invariant does not depend on where the ring is read from |
| `Ring.VirtualRing.Find` | src/virtual_ring.cpp:137-142 | the lookup finds the node of an address exactly when it is present |
| `Ring.VirtualRing.Search` | src/virtual_ring.cpp:173-185 | the ordered search stops at the node of the list position |
| `Ring.VirtualRing.SpliceThird` | src/virtual_ring.cpp:192-213 | the pointer writes from two to three nodes give exactly the longer ring |
| `Ring.VirtualRing.SpliceFourth` | src/virtual_ring.cpp:214-239 | the same from three to four nodes |
| `Ring.VirtualRing.SpliceLater` | src/virtual_ring.cpp:240-263 | the same for any larger ring |
| `Ring.Grown` | src/virtual_ring.cpp:240-263 | the writes of a splice turn a ring of any size into the ring with the new node |
| `Ring.Shrunk` | src/virtual_ring.cpp:45-54 | the writes around a departing node leave exactly the shorter ring, also from three to two nodes |
| `Ring.VirtualRing.Insert` | src/virtual_ring.cpp:135-267 | the heap is again a ring, with the new node at the joiner's place among the old nodes; a present address changes nothing and returns its node |
| `Ring.VirtualRing.LeaveIntroducer` | src/virtual_ring.cpp:42-58 | the pointer writes of the introducer's departure and the promotion of its successor |
| `Ring.VirtualRing.Bypass` | src/virtual_ring.cpp:70-83 | the pointer writes around any other departing node |
| `Ring.VirtualRing.Walk` | src/virtual_ring.cpp:64-95 | the walk finds the departing node, or has seen the whole ring |
| `Ring.VirtualRing.Leave` | src/virtual_ring.cpp:33-99 | exactly the departing node is taken out of the nodes; an absent address changes no node and no field; the heap is a ring exactly unless the introducer left a ring of two |
| `Ring.VirtualRing.InsertThenLeave` | src/virtual_ring.cpp:33-267 | an address that joins and leaves again changes neither the nodes nor their order nor the introducer |
| `Ring.VirtualRing.Perform` | src/virtual_ring.cpp:33-267 | joins and departures in any permitted order keep the heap a ring whose addresses are those of the list model |
| `Ring.PerformRun` | src/virtual_ring.cpp:33-267 | every permitted run from a single introducer, performed on the heap, ends in a ring with the addresses of the run, sorted if all joiners have an octet of at least 2 |
| `Ring.IntroducerLeavesPair` | src/virtual_ring.cpp:42-58 | a run in which the introducer leaves a ring of two and what remains is no ring |
| `Neighbourhood.NeighboursSymmetric` | src/client.cpp:191-230 | neighbour sets are symmetric and never contain their owner |
| `Neighbourhood.NeighbourSet` | src/client.cpp:191-230 | from three members on the set is the four nodes at distance one and two, less the owner |
| `Neighbourhood.NeighbourCount` | src/client.cpp:191-230 | every set has min(4, members - 1) elements |
| `Neighbourhood.ConnectedIff` | src/client.cpp:560-588 | for any set of failed nodes, two survivors are joined by neighbour links exactly when one arc between them has no two consecutive failures |
| `Neighbourhood.StaysInside` | src/client.cpp:560-588 | with both arcs broken no route leaves its side |
| `Neighbourhood.ArcRoute` | src/client.cpp:560-588 | an unbroken arc can be walked |
| `Neighbourhood.ThreeFailuresConnected` | README.md:3-3 | any three nodes may fail without separating two survivors |
| `Neighbourhood.FourCanSeparate` | README.md:3-3 | in every ring of six or more four failures can separate, so three is tight |
| `Neighbourhood.GossipSurvivesThree` | src/client.cpp:792-821 | in terms of the address sets sent out: the introducer and two failed machines leave gossip connected |
| `Introducer.PointersAreNeighbours` | src/client.cpp:195-217 | the four pointers of a ring node hold exactly the addresses at distance one or two, at every ring size |
| `Introducer.UpdateNodes` | src/client.cpp:191-230 | every member but the introducer is addressed exactly once with its own neighbour list |
| `Introducer.IntroHandler` | src/client.cpp:237-284 | what each request does to the ring; a join is answered with the joiner's neighbours in the new ring; after a join or a departure every member is sent its list |
| `Introducer.ListRoundTrip` | src/client.cpp:480-494 | the receiver's list is the ordered neighbour set it was sent |
| `Datagram.Frame` | src/com.cpp:74-75 | the sent buffer is the request followed by zeros |
| `Datagram.CleanString` | src/com.cpp:13-22 | the text in front of the first zero |
| `Datagram.Receive` | src/com.cpp:142-143 | the request handed to a handler is the buffer up to its first zero |
| `Datagram.FramingExact` | src/com.cpp:74-76 | exactly which requests arrive unchanged |
| `Datagram.MakeMessage` | src/client.cpp:547-554 | the message lists every member and flag in key order |
| `Datagram.WireParses` | src/client.cpp:140-146 | parsing a list message gives back its reports |
| `Datagram.MemberListRoundTrip` | src/client.cpp:547-554 | up to 28 addresses and flags survive serialising, padding, cutting and splitting, in order |
| `Datagram.CapacityExact` | src/com.cpp:74-76 | 28 full-width addresses is the exact capacity |
| `Datagram.TextArrives` | src/client.cpp:547-576 | any member list shorter than the datagram, whatever its addresses, is parsed to the reports that were sent |
| `Datagram.WidthGrows` | src/client.cpp:547-554 | a list of fewer members is no longer, so one bound on all known members covers every list |
| `Membership.MergeEffect` | src/client.cpp:142-166 | a merge keeps every entry and stamp, raises only reported nodes outside the neighbour list, clears only nodes reported alive |
| `Membership.LastReportDecides` | src/client.cpp:147-158 | the last usable report on a node decides its flag |
| `Membership.NewcomerAlive` | src/client.cpp:160-165 | a node first heard of in a message starts alive and stamped now |
| `Membership.HeardStamps` | src/client.cpp:121-165 | a heartbeat stamps its sender and all newcomers now and no one else; it lists its sender only if that was known and the list has fewer than four entries |
| `Membership.HeardRaises` | src/client.cpp:117-169 | a heartbeat never raises the flag of its sender or of a neighbour |
| `Membership.HeardClears` | src/client.cpp:117-169 | a flag falls only to the node's own heartbeat or a report that it is alive |
| `Membership.ElectionAgreement` | src/client.cpp:290-305 | nodes with the same keys and flags, and someone electable, elect the same live master |
| `Membership.MasterLiveIff` | src/client.cpp:290-305 | the elected master is live exactly when the old one is or someone other than the least key is; two live members suffice; a group with someone live is left without a live master exactly when the old one is dead and only the least key lives |
| `Membership.DeadMasterStays` | src/client.cpp:292-304 | a dead master is kept although the least key is live |
| `Membership.NeighboursFill` | src/client.cpp:103-128 | over any sequence of heartbeats the introducer's list stays in front and is filled up to four with the first known senders, repeats included |
| `Membership.Member.EnrolNeighbours` | src/client.cpp:765-767 | at start-up every listed neighbour gets an entry, alive and stamped now, no other address does, and no existing entry changes |
| `Membership.Member.HeartbeatHandler` | src/client.cpp:117-169 | both tables become the merged ones for the parsed reports; the sender and newcomers are stamped now, everyone else keeps the stamp, and a known sender is listed while there are fewer than four |
| `Membership.Member.FailureDetectorScan` | src/client.cpp:607-626 | exactly the listed members with a stamp two seconds old become failed; no stamp changes |
| `Membership.Member.UpdateHandler` | src/client.cpp:480-494 | the neighbour list becomes exactly the list of addresses whose text was sent, for every such list |
| `Membership.Member.HeartbeatRound` | src/client.cpp:560-582 | heartbeats with the text of the member list go to exactly the listed addresses that are not marked failed |
| `Membership.RoundSends` | src/client.cpp:567-581 | a known address not marked failed gets as many heartbeats as it has list entries, one marked failed none |
| `Membership.Member.LastLive` | src/client.cpp:291-304 | the backward scan stops at the last live key, or at the first key |
| `Membership.Member.ElectMaster` | src/client.cpp:290-305 | the greatest live key other than the least is elected; with none the master stays |
| `Gossip.FiringWitnessed` | src/client.cpp:611-618 | a detector fires only after two seconds without a heartbeat handled at that node |
| `Gossip.StepKeepsInv` | src/client.cpp:117-169 | every step keeps flags and reports justified by the record, and every stamp the time of the latest sign of life in it |
| `Gossip.Accuracy` | src/client.cpp:117-169 | in every run each failed flag and each report of a failure goes back to a detector that fired on its own silent neighbour |
| `Gossip.DetectedIff` | src/client.cpp:607-626 | in every run a scan leaves exactly those marked that were marked before and the known listed neighbours with no heartbeat handled, no start and no first mention for two seconds |
| `Gossip.SilenceIsDetected` | src/client.cpp:124-127 | a known neighbour from which no heartbeat is handled for two seconds, whatever else happens, is marked by the next scan |
| `Gossip.VerdictStands` | src/client.cpp:607-626 | a silent neighbour is marked by the next scan and stays marked until a restart, its heartbeat or a report that it is alive |
| `Gossip.VerdictSpreads` | src/client.cpp:560-588 | along every gossip path of nodes that do not watch the failed one, the introducer at most at its end, and whose known members fit a datagram, delivery alone brings the verdict to the last node |
| `Spread.WatcherSurvives` | src/client.cpp:191-230 | after two failures, with the introducer set aside, a watcher of the failed node is left whenever someone survives who does not watch it |
| `Spread.EverySurvivorLearns` | README.md:3-3 | in every ring whose members fit a datagram, with its neighbour lists and at most two failures, the verdict can reach every survivor without the introducer |
| `Gossip.RaisedBy` | src/client.cpp:153-157 | one step raises a flag only by the own detector or by a report on a non-neighbour |
| `Gossip.RoundIsSends` | src/client.cpp:567-581 | a heartbeat belongs to a round of the heartbeat loop exactly when its send is a step of the transition system |
| `Gossip.TextIsReports` | src/client.cpp:573-576 | the text of a heartbeat that may be sent reaches the handler as the reports of the transition system |
| `Placement.NumberOfActiveNodes` | src/client.cpp:312-321 | the number of live members |
| `Placement.WalkUp` | src/client.cpp:333-340 | the upward walk stops at the first live entry or the end |
| `Placement.WalkDown` | src/client.cpp:351-358 | the downward walk stops at the nearest live entry or the first |
| `Placement.CopiesAround` | src/client.cpp:331-363 | the three entries chosen around the slotted one |
| `Placement.FindSlot` | src/client.cpp:327-366 | the scan for the first live entry whose octet reaches the slot |
| `Slots.SlotMeaning` | src/client.cpp:324-324 | the slot is 37 plus the distance of the first character from an a, less a multiple of the live members but one, with the sign of that distance; for a to z it lies from 37 up to 37 plus the live members less two |
| `Slots.SlotUnique` | src/client.cpp:324-324 | no other number fits that |
| `Placement.WhereTo` | src/client.cpp:323-375 | for every member map and every content of its end, the answer described without positions: the first live member that reaches the slot, the cyclically next live one, and the nearest live one before it or what the search finds instead; without a slotted member the end and the first two keys |
| `Placement.ChoiceUnique` | src/client.cpp:323-375 | at most one answer fits that description |
| `Placement.ChoiceIff` | src/client.cpp:331-363 | on positions: exactly when the three are live and distinct |
| `Placement.SlotMeans` | src/client.cpp:324-331 | the slotted member is the first live one whose octet reaches the slot, and exists exactly when the scan stops early |
| `Placement.WhereToIff` | src/client.cpp:323-375 | exactly when a request is placed on three different live members |
| `Placement.FirstKeyMisplaces` | src/client.cpp:354-359 | any request slotted to the second of three live members is misplaced for some content of the map's end |
| `Placement.MisplacedExample` | src/client.cpp:324-359 | such members exist, with every name that starts with an a |
| `Placement.ThirdKeyPlaces` | src/client.cpp:331-363 | a request slotted to the third of three live members is placed on all three |
| `Placement.NextAndPrevious` | src/client.cpp:333-361 | the second copy is the cyclically next live member and the third the nearest live predecessor |
| `WriteConflict.ReadsRequest` | src/client.cpp:405-412 | a request with number 0 asks for the check, one with number 1 forces the put |
| `WriteConflict.PutHandler.PutfileHandler` | src/client.cpp:408-432 | a forced request moves no stamp and is never refused; an unforced one is refused exactly within 60 seconds of the stamp and otherwise stamps its name; the reply is the placement |
| `WriteConflict.StampIsLast` | src/client.cpp:412-421 | a stamp is the time of the last accepted unforced put of its name; forced and refused puts never move it |
| `WriteConflict.RefusedIff` | src/client.cpp:415-420 | an unforced put is refused exactly when one of the same name was accepted less than 60 seconds before |
| `WriteConflict.Spacing` | src/client.cpp:403-422 | accepted unforced puts of one name are at least 60 seconds apart |
| `Replication.Removes` | src/client.cpp:711-714 | a step removes only the acting node's own copy, its answer not listing it, and only when every node common to all answers holds the file |
| `Replication.StepKeepsInv` | src/client.cpp:683-716 | every step of every monitor, and every put, keeps the protocol invariant and all nodes, whatever answers the queries get |
| `Replication.NoPassBelowFour` | src/client.cpp:687-687 | in every run from rest a monitor that knows fewer than four members is in no pass |
| `Replication.NeverLost` | src/client.cpp:683-716 | no interleaving deletes the copy of a node that all answers name, nor, with such a node, the last copy |
| `Replication.SafeIff` | src/client.cpp:692-714 | a file is safe in every run exactly when some node belongs to every answer |
| `Replication.FixedSafeIff` | src/client.cpp:692-714 | under one fixed placement: exactly when the placement is not empty |
| `Replication.EmptyAnswerLoses` | src/com.cpp:72-88 | one query whose sending may fail with an error, and so reads as the empty list, is enough to lose a file, whatever the other answers |
| `Replication.ChangeSafeIff` | src/client.cpp:693-714 | a change of placement loses no file in any run exactly when the old and the new answer share a node |
| `Replication.ChangedAnswerLoses` | src/client.cpp:693-714 | for any two disjoint answers, the runs before and after the change that lose the file |
| `Convergence.OnePassEach` | src/client.cpp:687-716 | under one placement, from any state of passes that work with it: once every holder has begun and finished a pass, the holders are exactly the placement |
| `Settling.RenewedIsSound` | src/client.cpp:690-716 | from any state of passes with any older answers, also after failures: once every pass has twice finished its file, the second time without losing a machine, all answers are current and all checks made still stand |
| `Settling.Converged` | src/client.cpp:687-716 | from any such state: after the two rounds, once every holder has begun and finished a pass, the holders are exactly the placement |
| `Settling.ChangeConverges` | src/client.cpp:693-714 | a placement that changes under running passes and shares a node with the old one: the holders become exactly the new placement |
| `Settling.OnePassNotEnough` | src/client.cpp:690-716 | without the two rounds they need not: a run in which every holder goes through a whole pass after the change and a listed node ends without the file |
| `Settling.FurtherPassesChangeNothing` | src/client.cpp:687-716 | from then on no pass changes who holds the file |
| `Progress.PassEnds` | src/client.cpp:690-716 | a monitor anywhere in a pass, with whatever answer, comes to the end of it while nothing is blocked |
| `Progress.CanConverge` | src/client.cpp:683-718 | from any unblocked state the monitors alone can bring every copy onto its placement, and every file that is kept onto all of it |
| `Progress.CanSettle` | src/client.cpp:683-718 | from any unblocked state there are runs through the two rounds and a whole pass of every holder, and no kept file is lost in them |
| `Recovery.RestoreIff` | src/client.cpp:687-716 | from any state of passes with any older answers and any missing machines: exactly when some run of the monitors brings a file to all its nodes |
| `Failures.BlockedForGood` | src/com.cpp:79-80 | once every holder of a file waits for an answer that cannot come, no run changes who holds it and no holder ever ends a pass |
| `Failures.OneFailureBlocks` | src/client.cpp:699-699 | for any placement on three nodes, a run and one failure after which both remaining holders wait so and the file cannot be restored |
| `Failures.FailureTakesAll` | src/ftpclient.cpp:41-42 | for any set of holders, a run and one failure of a machine without a copy, after which uploads to it take every copy away |
| `Convergence.PutStaysIff` | src/client.cpp:706-709 | exactly when a completed put keeps its content on all listed nodes in every run |
| `Convergence.StaleUpload` | src/client.cpp:706-709 | from a state with an upload decided before the put, a run in which it overwrites the put |
| `Convergence.StalePutReachable` | src/client.cpp:699-709 | for every placed file, a run from rest to a completed put with such an upload pending |
| `Convergence.FindFileRemote` | src/client.cpp:666-678 | the first listed node that stores the file, or the empty string exactly when none does |
| `Convergence.ReadAfterPut` | src/client.cpp:903-917 | a reader is sent to a node that holds exactly what was put |
| `Tolerance.TwoFailuresLeaveACopy` | README.md:3-3 | once a file is settled on a sound choice by the master's member map, from whatever state that was reached, any two machines may fail together and a listed node keeps its copy |
| `Tolerance.ThreeCopies` | src/client.cpp:683-716 | from any state, settling brings a file to exactly three copies |
| `Tolerance.CommonSurvives` | src/client.cpp:690-716 | a copy on a surviving node that the old and the new placement share is kept, whatever the survivors were in the middle of |
| `Tolerance.CopiesRestored` | README.md:3-3 | after any two failures, whatever the survivors were in the middle of: two rounds and full passes under a new sound choice that shares a surviving node with the old bring the file back to exactly three copies |
| `Tolerance.CopiesCanReturn` | README.md:3-3 | when the failures block nobody, there is a run of the survivors back to exactly three copies, whether or not the placements share a node |
| `Store.CheckAnswer` | src/client.cpp:699-706 | the answer to a check tells presence and the asker's own address |
| `Store.Disk.MonitorHandler` | src/client.cpp:380-401 | a deletion removes the named file and nothing else; a check changes nothing and reports presence |
| `Transfer.StreamSize` | src/ftpclient.cpp:108-132 | the stream is the file size rounded up to whole slabs |
| `Transfer.SendFile` | src/ftpclient.cpp:100-132 | every byte of the stream, in whole slabs of 256: the file, then what the previous slab left, or zeros |
| `Transfer.Delivered` | src/ftpserver.cpp:302-332 | less than one slab is ever missing |
| `Transfer.ReceiveFile` | src/ftpclient.cpp:248-280 | what is written is the stream up to the delivered length, for every number read and every pattern of short reads; behind the end of the stream it stops or reads nothing for ever |
| `Transfer.AtoiDecimal` | src/ftpclient.cpp:238-239 | reading a printed number goes on with its value, whatever follows it |
| `Transfer.SizeRoundTrip` | src/ftpserver.cpp:206-210 | a printed size reads back as itself in front of anything but a digit |
| `Transfer.ReceiveSize` | src/ftpclient.cpp:238-239 | the number read is that of the received bytes over what the buffer held before |
| `Transfer.SignRead` | src/ftpserver.cpp:297-297 | a sign in front of a number is taken into account |
| `Transfer.BlanksSkipped` | src/ftpserver.cpp:297-297 | blanks in front of a number are skipped |
| `Transfer.CutNumber` | src/ftpserver.cpp:274-297 | a receive that cuts the number reads the size without its last digits |
| `Transfer.CutNumberIff` | src/ftpserver.cpp:274-328 | for each file: such a transfer is faithful exactly when what it delivers repeats the cut digits and the zeros behind them |
| `Transfer.FaithfulIff` | src/ftpserver.cpp:275-328 | for each file and whatever is left of command and announcement: a transfer writes the beginning of the file exactly when the number read is in range and what is delivered repeats what was left; nothing is left exactly when both came in whole |
| `Transfer.SizeReadIff` | src/ftpserver.cpp:275-328 | with the size itself read: exactly when all of the announcement came in, or all bytes delivered would be zero |
| `Transfer.HeaderIff` | src/ftpclient.cpp:238-278 | behind a command that came in whole, every transfer is faithful exactly when all 256 bytes of the announcement come in at once |
| `Transfer.TransferFile` | src/ftpserver.cpp:225-253 | end to end for every rest of the command and every first receive; with nothing left of either a prefix missing less than a slab, and the whole file exactly when the last short read is full |
| `Transfer.TruncatableIff` | src/ftpclient.cpp:265-272 | exactly which files some pattern of reads truncates |
| `Command.ClientCommand` | src/ftpclient.cpp:200-201 | the command buffer holds verb, name and zeros |
| `Command.ServerReceive` | src/ftpserver.cpp:86-98 | the server's buffer holds as much of the text as came in with one receive |
| `Command.Dispatch` | src/ftpserver.cpp:163-166 | the verb is recognised exactly when it came in whole |
| `Command.ShiftInPlace` | src/ftpserver.cpp:170-176 | the in-place shift terminates and leaves exactly the text without its verb |
| `Command.MovedLength` | src/ftpserver.cpp:172-172 | the length measured again during the shift is unchanged until the zero itself moves |
| `Command.CopyName` | src/ftpserver.cpp:286-296 | the copying strip leaves exactly the text without its verb |
| `Command.NameAtServer` | src/ftpclient.cpp:25-28 | the server's name is the part of the name that came in with the first receive, and the name exactly when the whole command did, for both verbs |
| `Command.FilePath` | src/ftpserver.cpp:306-308 | folder and name behind each other, for names of up to 245 characters |
| `Upload.PutFile` | src/ftpserver.cpp:261-333 | the name and the content an upload leaves, for every amount of command and announcement that has come in |
| `Upload.PutIff` | src/ftpserver.cpp:92-297 | uploads under a name are right, in name and content, for every file exactly when command and announcement come in at once |
| `Upload.CutCommand` | src/ftpserver.cpp:268-298 | a rest of the command that reads as no number leaves an empty file under a cut name |

## Left out

- Sockets, Boost.Asio, threads, `fork`, directory listings and the console menu: plumbing without properties of its own.
- The handlers' locks, and data races between handlers that do not take them: each handler is one atomic step, except the separate network steps of `monitor`.
- The clock may advance between two readings inside one handler of the code; the model reads it once.
- A ring update after a join or a departure is sent from a thread of its own; the model sends it at once.
- The acknowledgements that the two ends of a transfer send each other are not read for content, and are left out.
- A check whose sending fails with an error makes `monitor` read a part that is not there (src/client.cpp:702); the model has no such check.
- A machine that has failed does not come back: restarted machines are left out of `Replication` and what builds on it.
- The rule that picks a new master, in place of which `Replication` takes any answers, is modelled in `Membership` and not joined with the monitors.
- A monitor upload is one step: a file cut short by a short read during re-replication is covered by `Transfer`, not combined with `Replication`.
- User deletions are left out of `Replication` and `Convergence`, whose statements are about files nobody deletes; `Store` models the deletion request itself.
- `virtual_ring::put_file`: its only call is commented out (src/client.cpp:423).
- `tcp_connection`, `tcp_file_server`, `tcp_send_file`, `src/sdfs.cpp`, `src/server.cpp`, `src/daemon.c`: unfinished or plumbing.
- `test/DS_Introducer.cpp`: an older copy of the ring.
- `ls-remote` and the echo branch of the file server: they transfer no file.
- `Placement.WhereTo`: requires a non-empty request, a non-empty map and a number of live members other than one, because the code throws, reads past the map or divides by zero otherwise.
- `Datagram.Receive`: requires a zero in the buffer, because the code reads past a buffer without one.
- `Membership.Member.HeartbeatHandler`: requires two parts in every piece of the message, because the code reads the second part unconditionally.
- `Transfer.ReceiveFile`: a `recv` that returns an error makes the code write out of bounds, and is excluded; a negative number, which makes it ask for more than its buffer holds, ends in `Overrun`.
- `Transfer.ReceiveSize`: reads numbers without bound, while `atoi` is undefined beyond an `int`; only stale digits behind a cut announcement, or digits in a cut command, lead there.
- `Command.FilePath`: requires a name that leaves room for the folder, because the code copies without a bound.
- `Upload.PutFile`: opening the file is taken to succeed; for an empty name, which is what is left when only the verb came in, it does not.
- `Tolerance.CopiesRestored`: speaks of runs that go through the rounds and passes; `Progress.CanSettle` shows that they exist when nothing is blocked, `Recovery.RestoreIff` and `Failures` say when a file cannot come back at all.
