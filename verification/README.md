# MeDiE in Dafny

MeDiE keeps metadata objects on a set of servers. A table with N entries (the MLT)
maps the hash of a key to an entry and the entry to a server and a version. From time
to time the servers' clocks tick (an epoch signal); an overloaded server asks the
manager for help; the manager asks every server for its access list, moves entries
from overloaded to underloaded servers in its table, and broadcasts the table; the
servers then hand the moved entries over to each other while clients go on working
with cached tables.

The project models the `windowed` variant, and the rebalancer of the `dh` manager
beside it.

* `Table`, `Packing`: the table as a value, key lists and their comma-separated text.
* `Protocol`: manager, servers, clients and channels as a step system. One client
  request, one table application, and one entry's packing or unpacking are single
  steps; everything else interleaves freely. Channels are reliable and first-in
  first-out.
* `Rounds`, `RoundSteps`, `Versions`, `Keys`: the invariants of that system.
* `Refinement`, `Progress`, `Epochs`, `Clients`: what they mean for whole runs, and for one
  client's wish.
* `Mlt`, `EntryList`, `Queue`, `Eacl`, `ServerNode`, `ClientNode`: the code of servers
  and clients over their arrays, lists and counters. `ServerNode` proves that this code
  does what the steps of `Protocol` say.
* `LoadArgsSort`, `Sender`: the list of entries to send with its sort, and the sender's
  pass over the hosts file; `ServerNode` fills the list and hands it to the sender.
* `SortSubset`, `Greedy`, `Rebalance`, `TrueLoads`, `Bookkeeping`, `Turns`,
  `ManagerWindowed`: the windowed rebalancer, as functions with their properties and as the
  code over arrays.
* `DhRebalance`, `DhPicks`, `ManagerDh`: the same for the DH rebalancer.
* `Ranges`: when the arithmetic of both rebalancers stays inside a C `int`.
* `Sequences`, `Division`: sums, quotients and other facts that several modules need.
* `Murmur3`: the hash.

Some of what one might expect of the code is false. For these the project has a lemma
with a concrete input, and one that says exactly when the property holds:

* A question to the servers may never be answered by all of them, and then the manager
  waits forever: a server whose own epoch has passed the one asked drops the question
  (`Progress.QuestionMayNeverEnd`, `Progress.QuestionEndsIff`).
* An epoch signal that reaches the manager during a round is marked as processed with
  that round (`Epochs.SignalMayBeLost`, `Epochs.SignalHeardIff`).
* The windowed rebalancer's relative loads need not be those of the table it makes: an
  entry can be credited to two receivers (`TrueLoads.TwoReceiversMayMislead`) or by two
  givers (`Bookkeeping.TwoGiversMayMislead`). At the end of a call they are true exactly
  when every entry that was handed over still was with its giver
  (`Bookkeeping.TrueInTheEndIff`): a false credit is never made good by later ones.
* An overloaded server may get no turn in a call of the windowed rebalancer, although it
  has an entry that an underloaded server still has room for: a giver that reaches the
  mean is replaced in the list with the last one, which the loop has then passed
  (`Turns.GiverIsPassedOver`). Which givers get a turn is `Turns.GiversIff`, and which
  receivers `Turns.ReceiversIff`.
* The DH rebalancer finds entries by their access index, so a server may give away more
  than was picked (`DhRebalance.BothMove`, `DhRebalance.GivesExactlyIff`).
* It finds servers by their load, so of several servers with the same load only the first
  one gives, and only to the receiver that picked that load last
  (`DhPicks.LastPickCounts`); an earlier receiver gets nothing (`DhPicks.PickIsLost`).
  Which servers give is `DhPicks.GivesIff`; every pick is carried out exactly when no load
  is picked twice (`DhPicks.PicksGivenIff`), and so whenever no two overloaded servers
  have the same load (`DhPicks.DifferentLoadsAreGiven`).
* A key list survives its journey only if the keys are non-empty and have no comma
  (`Packing.LosslessIffClean`), and the sender's buffer is large enough for every list
  of keys of at most m characters only if m is at most 39 (`EntryList.FitsIffShort`).
* On an arbitrary list of destinations the sender's pass succeeds only if they never go
  back (`Sender.ForwardPass`); sorting makes that so (`Sender.SendAll`).

`dafny verify dfyconfig.toml` checks the project.

## Model

| member | source | states |
|---|---|---|
| Versions.SingleAcceptor | src/distribution_windowed_s.c:236-264 | in every state of the invariant at most one server would perform a request for a given entry: the new owner stays in transfer until the old one has taken up the new version and packed the entry |
| Versions.PerformerIsOwner | src/distribution_windowed_s.c:236-272 | a server that performs a request, having compared only the version and the state flag, is the owner the manager assigned at that version |
| Versions.ServerLineAssigned | src/distribution_windowed_s.c:823-878 | every (owner, version) pair in a server's table is the pair the manager assigned at that version |
| Versions.BroadcastVersions | src/manager_windowed.c:383-400 | a broadcast only adds to the history of owners: a changed entry gets one new version, an unchanged one none |
| Versions.NextVersions | src/distribution_windowed_c.c:67-110 | every step of every process keeps the pairs in tables, cached tables, requests and replies among those assigned |
| Versions.ClientTargets | src/distribution_windowed_c.c:122-135 | every server a client's cached table names exists, so a client can always send |
| Rounds.BroadcastOnlyWhenSettled | src/manager_windowed.c:525-576 | counting one answer per server is enough: when the count is complete every server has answered this question and has finished the previous round, with every state flag 0 and its table the broadcast one |
| Rounds.AllCounted | src/manager_windowed.c:525-576 | a count equal to the number of servers means all servers, and it never exceeds it |
| RoundSteps.NextRounds | src/manager_windowed.c:468-606 | every step keeps the round invariant: at most one question and one answer under way per server, rounds never overlap |
| RoundSteps.SendListIsReceiveList | src/distribution_windowed_s.c:847-878 | for servers that share the old table, entry i is in a's send list for b exactly when it is in b's receive list from a |
| RoundSteps.PacketIsExpected | src/distribution_windowed_s.c:625-640 | every packet under way goes from the old to the new owner of its entry, which still expects it |
| RoundSteps.ApplyIsMove | src/distribution_windowed_s.c:823-878 | applying a table sets the flag of exactly the entries the server must send or receive, and the to-do lists are exactly those entries |
| Keys.OnePlace | src/distribution_windowed_s.c:485-545 | two servers never both hold the keys of an entry, and neither does while its packet is under way |
| Keys.NextInv | src/distribution_windowed_s.c:485-719 | every step keeps the whole invariant: sound lists, each store the union of its lists, keys only at the place of their entry |
| Keys.ReceiveNotFailed | src/distribution_windowed_s.c:651-691 | when a packet is read its entry's list is empty and no put fails |
| Keys.SendKeys | src/distribution_windowed_s.c:485-546 | packing an entry never fails to delete a key, and the packet unpacks to exactly the entry's list |
| Refinement.ExactlyOnePlace | src/distribution_windowed_s.c:485-691 | each key is in exactly one place, a server's store or a packet |
| Refinement.StepRefinesSet | src/server.c:272-393 | every step is a step of one set of keys: a performed request changes it and is answered as that set would be, every other step leaves it alone |
| Refinement.RunSafety | src/server.c:272-393 | in every state of every run: one acceptor per entry, one place per key, store equal to the union of the lists, no failed storage operation in a transfer |
| Refinement.RunRefinesSet | src/distribution_windowed_s.c:276-373 | along every run the set of keys starts empty and changes only by successful creates and deletes |
| Refinement.OwnerKnows | src/server.c:314-345 | the place of an entry knows all keys of that entry |
| Progress.MoveEnabled | src/distribution_windowed_s.c:430-456 | as long as a server has not finished the round, some transfer step can be taken: senders and receivers do not wait for each other forever |
| Progress.MoveDecreases | src/distribution_windowed_s.c:473-591 | every transfer step makes a measure smaller and no other step except a broadcast changes it |
| Progress.QuietIffSettled | src/distribution_windowed_s.c:893-909 | no transfer step is possible exactly when every server has the broadcast table with every state flag 0 |
| Progress.RoundEnds | src/distribution_windowed_s.c:880-909 | from every state of a round the servers alone can finish it, in at most as many steps as the measure says, and clients and keys are left alone |
| Progress.DoomedForever | src/distribution_windowed_s.c:762-764 | once a server has dropped a question, no step of any process lets the manager broadcast again |
| Progress.QuestionEndsIff | src/distribution_windowed_s.c:755-797 | the manager can still get all answers exactly when no server has thrown the question away or holds it unread with a newer epoch |
| Progress.QuestionMayNeverEnd | src/distribution_windowed_s.c:762-764 | a run to a state from which the manager waits forever |
| Progress.AnswersCanEnd | src/manager_windowed.c:525-576 | otherwise there is a path on which all answers come in |
| Clients.ClientLearns | src/distribution_windowed_s.c:236-264 | a request with the right version is performed; one that meets a transfer is answered wait&retry and nothing changes; from any other the client learns the line of the server it asked, and nothing else changes |
| Clients.SettledWish | src/server.c:272-393 | when all servers are settled, a client asks at most twice, whatever its cached table, until its wish is performed and answered as one set of keys would |
| Clients.WishGranted | src/server.c:272-393 | from every state of the invariant, whatever transfers are under way, an idle client's wish leads by a path of bounded length to that answer |
| Epochs.RunEpochs | src/manager_windowed.c:486-517 | the epochs asked along any run are strictly increasing, whenever the signals come |
| Epochs.MergedAnswerIsCurrent | src/manager_windowed.c:525-576 | a merged answer comes from a server not heard since the question and was computed at the epoch asked or later |
| Epochs.HelpIsHeard | src/manager_windowed.c:486-517 | a request for help of the manager's epoch, if not yet processed, or of a later one leads by the manager's own steps and the epoch signals to a question about that epoch to every server |
| Epochs.HelpIsIgnored | src/manager_windowed.c:491-505 | any other leads to none: an older one leaves the manager as it was, and one of an epoch already processed leaves it at rest as long as that epoch lasts |
| Epochs.NextEpochs | src/manager_windowed.c:43-48 | every step, a signal included, keeps the epoch invariant |
| Epochs.RestingUntilSignal | src/manager_windowed.c:503-505 | until the next signal a manager that has processed its epoch asks nothing |
| Epochs.SignalHeardIff | src/manager_windowed.c:486-606 | when the manager is next done with its epoch it has asked about a signalled epoch exactly if the signal did not come while it was collecting or publishing |
| Epochs.SignalMayBeLost | src/manager_windowed.c:606-606 | a run that ends with the manager at rest at an epoch nobody was asked about |
| Packing.LosslessIffClean | src/distribution_windowed_s.c:527-541 | unpacking a packed key list gives it back exactly when every key is non-empty and has no comma |
| Packing.RoundTrip | src/distribution_windowed_s.c:651-672 | the round trip for clean keys |
| Packing.PackAround | src/distribution_windowed_s.c:527-541 | each key stands in the text behind a comma, between the text of the keys before it and of those after it |
| Packing.ReverseSame | src/distribution_windowed_s.c:678-678 | pushing keys one by one turns the list round and keeps its keys |
| Packing.ReverseAt | src/distribution_windowed_s.c:678-678 | the key at each position of the list so made |
| Packing.WithoutKeeps | src/md_entry.c:33-51 | a list of distinct keys loses exactly the key that is deleted |
| Mlt.Mlt.constructor | src/mlt.c:13-57 | the initial table: entry i belongs to server i modulo the number of servers, at version 0, not in transfer |
| Table.InitialIsEven | src/mlt.c:13-57 | in the initial table every server has its share of the entries, rounded down or up |
| Mlt.Mlt.Create | src/mlt.c:13-57 | sizes that are not positive are refused |
| Mlt.Mlt.UpdateState | src/mlt.c:63-80 | only the flag of one line changes, and only for a valid flag |
| Mlt.Mlt.UpdateEntry | src/mlt.c:89-113 | exactly one line is overwritten, or none with the error the arguments deserve |
| Mlt.Mlt.GetEntry | src/mlt.c:122-138 | the line of an entry, or an error outside the table |
| EntryList.EntryList.Insert | src/md_entry.c:17-21 | the new element becomes the first of the linked list |
| EntryList.EntryList.Pop | src/md_entry.c:23-31 | the first element leaves the linked list, or the list was empty |
| EntryList.EntryList.SearchMdName | src/md_entry.c:33-51 | the first element with the name leaves the linked list; null exactly when there is none |
| EntryList.WithoutAt | src/md_entry.c:33-51 | what the list is without its first occurrence of a name |
| EntryList.PackList | src/distribution_windowed_s.c:479-546 | the loop empties the list into the packed text and deletes its keys; it fails exactly when a key is not in the storage; the text with its terminator fits the buffer when the list's keys do |
| EntryList.UnpackText | src/distribution_windowed_s.c:651-691 | the list becomes the reversed tokens in front of what it held and the storage gains them; it fails exactly when a token repeats or is already stored |
| EntryList.NextToken | src/distribution_windowed_s.c:651-666 | repeated calls give the tokens of the text in order |
| EntryList.FitsIffShort | src/distribution_windowed_s.c:479-525 | the buffer of 80 bytes that grows by half at most once per key has room for every list of keys of at most m characters exactly when m is at most 39 |
| EntryList.ShortNamesFit | src/distribution_windowed_s.c:511-525 | and it keeps having room once it has grown |
| ServerNode.Server.PostReceive | src/distribution_windowed_s.c:215-273 | accepted exactly when the flag is 0 and the version is the server's own, and only then counted as one access of that entry |
| ServerNode.Server.PreSend | src/distribution_windowed_s.c:276-373 | a created key enters, a deleted key leaves the list of its entry and no other; the only failure is a deleted key that is not listed |
| ServerNode.Server.Process | src/server.c:312-365 | create needs the key absent, the other operations need it present |
| ServerNode.Server.Serve | src/server.c:272-393 | one turn of the request loop has the reply, lists and storage that the protocol's Handle prescribes; a request with the right version counts as one access of its entry, and no other count changes |
| ServerNode.Performed | src/server.c:312-372 | the storage operation and the list update together are the protocol's Handle |
| ServerNode.ApplyTable | src/distribution_windowed_s.c:823-878 | the listener's loop leaves the table that the protocol's step leaves, and its two lists are exactly the outgoing and incoming entries, in order |
| ServerNode.ListsExact | src/distribution_windowed_s.c:847-878 | each outgoing entry is listed once, with its new owner, and the receiver waits for exactly as many packets as entries come in |
| ServerNode.MovingExact | src/distribution_windowed_s.c:847-878 | such a list holds the moving entries, each once, each with its server |
| ServerNode.MovingCount | src/distribution_windowed_s.c:624-624 | and has as many lines as entries move |
| ServerNode.Server.SendEntry | src/distribution_windowed_s.c:479-567 | the sender's work on one entry does what the protocol's SendServer does; afterwards the entry has no counts and index 0, and every other entry's are as before |
| ServerNode.Server.ReceiveEntry | src/distribution_windowed_s.c:625-710 | the receiver's work on one packet does what the protocol's ReceiveServer does; afterwards the entry has no counts and index 0, and every other entry's are as before |
| ServerNode.Sent | src/distribution_windowed_s.c:485-562 | an emptied list and its text in terms of the protocol |
| ServerNode.Received | src/distribution_windowed_s.c:651-700 | a filled list in terms of the protocol |
| ClientNode.Client.AssignSrvByKey | src/distribution_windowed_c.c:115-145 | the request carries the key's entry (hash with seed 1 modulo the table size) and the cached server and version of that entry |
| ClientNode.Client.PostReceive | src/distribution_windowed_c.c:67-110 | only a reply that carries an assignment changes the cached table, and only the line it names; a reply of a busy server, which has no version flag, is refused |
| Eacl.Eacl.IncrAccess | src/eacl_windowed.c:77-84 | one more access of one entry, as a 32-bit counter |
| Eacl.Eacl.ResetAccess | src/eacl_windowed.c:91-103 | the window of every entry shifts by its count |
| Eacl.Eacl.ResetAllEntry | src/eacl_windowed.c:110-119 | one entry forgets its counts, the others keep theirs |
| Eacl.Eacl.CalculateSai | src/eacl_windowed.c:129-143 | each index is the floor of half the sum of the window's mean and the current count, and the load level is their sum modulo 2^32; the window is the last 12 counts |
| Eacl.EntryCounts | src/eacl_windowed.c:77-119 | after any events and a reset, an entry holds exactly the accesses of each window since |
| Eacl.SaiIsHalf | src/eacl_windowed.c:139-139 | the mixed floating-point expression with forgetting factor 0.5 is an integer half, rounded down, and fits a word |
| Eacl.AverageBelow | src/eacl_windowed.c:139-139 | the mean of 32-bit counts is a 32-bit value |
| Queue.Queue.Put | src/queue.c:32-44 | the buffer holds the last counts since the reset, the oldest one dropped when it is full |
| Queue.Queue.Mean | src/queue.c:46-59 | the floor of the average of the last min(used, capacity) values since the reset; 0 when empty |
| Queue.AverageIff | src/queue.c:46-59 | the average is the one number whose product with the count is at most the sum, and by less than the count |
| Queue.Queue.Reset | src/queue.c:61-70 | the history starts anew |
| Queue.RingPut | src/queue.c:32-44 | overwriting the slot `next` keeps the rotation |
| Queue.RingSum | src/queue.c:51-58 | the sum over the used slots is the sum over the window, whatever the rotation |
| LoadArgsSort.LoadArgs.Cut | src/distribution_windowed_s.c:375-395 | p <= q < r, every server in p..q is at most every server in q+1..r, and the lines only changed places within p..r |
| LoadArgsSort.LoadArgs.Sort | src/distribution_windowed_s.c:399-407 | the lines p..r are sorted by server, and pairs of server and entry stayed together |
| LoadArgsSort.PartedStays | src/distribution_windowed_s.c:399-407 | sorting both parts keeps them apart |
| LoadArgsSort.CutStep | src/distribution_windowed_s.c:378-394 | after both scans either the part is cut or exchanging the two lines goes on |
| Sender.Seek | src/distribution_windowed_s.c:445-456 | reading on finds a line exactly when it is not behind and not past the end of the file |
| Sender.ForwardPass | src/distribution_windowed_s.c:442-591 | the pass gets exactly as far as the destinations go forward within the file: each packet so far went to its own server, over one connection per run of equal destinations, and it succeeds exactly when the whole list goes forward |
| Sender.SendAll | src/distribution_windowed_s.c:410-591 | after sorting it succeeds exactly when the file has a line for every destination, and then every entry is sent exactly once to its own server, over one connection for each destination |
| ServerNode.ApplyAndSend | src/distribution_windowed_s.c:823-893 | applying a new table and then running the sender sends one packet for each entry this server loses, to the address of its new owner, exactly when the hosts file has a line for every such owner; otherwise still nothing else is sent and nothing twice |
| ServerNode.LogToNewOwners | src/distribution_windowed_s.c:847-893 | a log that carries lines of the sender's list, each at most as often as it is listed, has at most one packet per outgoing entry, each for its new owner |
| Sender.StopsExact | src/distribution_windowed_s.c:473-591 | on a list that goes forward every destination is a stop exactly once |
| SortSubset.SortDescSorts | src/manager_windowed.c:148-167 | the sort by decreasing magnitude gives a descending permutation |
| SortSubset.SwapKeepsSort | src/manager_windowed.c:155-160 | exchanging neighbours in the wrong order does not change the sorted list |
| SortSubset.Sort | src/manager_windowed.c:148-167 | the bubble sort with early exit computes that sort in place |
| Greedy.ChoiceIsHalfOptimal | src/manager_windowed.c:181-213 | the greedy choice stays within the goal, no left out entry of nonzero weight still fits, and it weighs at least half of any collection of candidates within the goal |
| Greedy.ChosenMaximal | src/manager_windowed.c:198-206 | nothing of nonzero weight that was left out still fits |
| Greedy.HalfOrAll | src/manager_windowed.c:198-206 | the pass fills more than half of the goal or takes everything that fits by itself |
| Rebalance.RebalanceIsSound | src/manager_windowed.c:259-375 | through the whole nested loop the loads keep their sum and their signs, the sum of their magnitudes drops by exactly twice the weight credited, and only entries with some weight move, from overloaded to underloaded servers |
| Rebalance.MovesTowardsMean | src/manager_windowed.c:259-375 | in terms of the reported loads, an entry goes only from a server above their mean to one below it |
| Turns.TurnFills | src/manager_windowed.c:346-374 | a turn hands candidates to one receiver without taking either server past the mean, until no left out candidate of some weight fits both; only a receiver that is at the mean leaves its list |
| Turns.TurnIsHalfOptimal | src/manager_windowed.c:346-362 | it hands over at least half the weight of any choice of candidates that fits both servers |
| Turns.MostLoadedFirst | src/manager_windowed.c:274-317 | the givers are the servers above the mean, the most loaded first |
| Turns.MostIdleFirst | src/manager_windowed.c:344-345 | before each giver's turns the receivers are put in order, the most idle first |
| Turns.ReceiversIff | src/manager_windowed.c:346-374 | the turns of one giver go through the receivers in order; if the giver stays above the mean, the p-th one gets a turn exactly when p and the number of receivers before it that end at the mean together are less than their number |
| Turns.GiversIff | src/manager_windowed.c:314-375 | the same for the givers over the whole call; a giver without a turn keeps its load and its entries |
| Turns.GiverIsPassedOver | src/manager_windowed.c:314-375 | relative loads 2, 1, -3: server 0 gives its entry, server 1 gets no turn and stays 1 above the mean although server 2 still has room for its entry |
| Turns.TwoToGiveInput | src/manager_windowed.c:314-375 | such an input |
| Rebalance.CommitIsLegal | src/manager_windowed.c:383-400 | an entry's version rises by one exactly when its server changes |
| Rebalance.DrainKeeps | src/manager_windowed.c:346-374 | the inner loop keeps the loads and the lists sound although it skips and swaps |
| Rebalance.RoundKeeps | src/manager_windowed.c:322-375 | a turn of the outer loop does, with the candidates never reset |
| Rebalance.CreditKeeps | src/manager_windowed.c:358-362 | handing over entries within the goal moves exactly their weight |
| Rebalance.ListsExact | src/manager_windowed.c:274-287 | the server lists and the list of a server's entries hold what they should, each number once |
| TrueLoads.OneToOneIsTrue | src/manager_windowed.c:259-375 | with one overloaded and one underloaded server and true inputs the final loads are those of the new table |
| TrueLoads.CreditConsistentIff | src/manager_windowed.c:358-362 | a credit keeps the bookkeeping true exactly when the entry still was with the giver, or weighs nothing |
| Bookkeeping.TrueInTheEndIff | src/manager_windowed.c:259-375 | for load levels that are true at the start, the loads at the end of the call are those of the new table exactly when every entry handed over in any turn still was with the server that handed it over |
| Bookkeeping.LoopErr | src/manager_windowed.c:314-375 | over the outer loop no server's error changes if all hand-overs are honest, and otherwise some server's error ends below zero |
| Bookkeeping.DrainErr | src/manager_windowed.c:346-374 | draining a giver honestly changes no error; otherwise the giver's own error falls; servers still to be drained keep error zero |
| Bookkeeping.CreditErr | src/manager_windowed.c:358-362 | handing over entries takes their whole weight off the giver's error and gives each server back the weight of those it held |
| Bookkeeping.TwoGiversMayMislead | src/manager_windowed.c:314-375 | an input with two givers and one receiver for which the bookkeeping is wrong: server 1 stays 5 above the mean and is said to be 1 above it |
| Bookkeeping.TwoGiversInput | src/manager_windowed.c:314-375 | such an input |
| TrueLoads.TwoReceiversMayMislead | src/manager_windowed.c:314-362 | an input with two receivers for which the bookkeeping is wrong: the giver is 5 above the mean and is said to be 2 above it |
| TrueLoads.TwiceInput | src/manager_windowed.c:314-362 | such an input |
| ManagerWindowed.BalanceLoad | src/manager_windowed.c:181-213 | sorts the candidates in place and writes exactly the greedy choice; the overshoot branch is never taken |
| ManagerWindowed.CandidatesFit | src/manager_windowed.c:309-336 | the never reset candidates always fit their array of one slot per entry |
| ManagerWindowed.Manager.MergeEacl | src/manager_windowed.c:132-140 | a zero in a new access list leaves the old index in place |
| ManagerWindowed.Manager.CalculateRelab | src/manager_windowed.c:216-410 | the table becomes the one module Rebalance computes from the old table, the merged indices and the reported loads, which is a legal rebalance; the mean load is the average reported, and an entry goes only from a server that reported more than the mean to one that reported less |
| DhRebalance.FillIsBest | src/manager_dh.c:150-175 | filling an underloaded server never leaves it further from the mean than before; the greedy part cannot be extended, and no single left out load would come nearer than the result |
| DhRebalance.PickFits | src/manager_dh.c:150-175 | picking access indices stays within the goal and the overshoot branch is never taken |
| DhRebalance.LookupSucceeds | src/manager_dh.c:280-304 | the values an underloaded server takes are on offer, and looking up a server for each of them succeeds and finds an overloaded one |
| DhRebalance.RemoveValueBag | src/manager_dh.c:292-300 | taking a value off the list removes exactly one occurrence |
| DhRebalance.ReceiversAreOk | src/manager_dh.c:280-305 | a server that gives is overloaded and the first with its load, and its receiver is underloaded |
| DhPicks.LastPickCounts | src/manager_dh.c:280-304 | a server gives to the last receiver that picked its load, if it is the first server with that load, and otherwise to nobody; the loads picked and the loads left on offer are together the loads that were offered |
| DhPicks.GivesIff | src/manager_dh.c:280-304 | a server gives exactly when it is overloaded, is the first with its load, and that load was taken off the offer |
| DhPicks.ReceiversAreContent | src/manager_dh.c:280-304 | with what it picked, an underloaded server is no further from the mean than before, and no load that is left on offer would bring it nearer |
| DhPicks.PicksGivenIff | src/manager_dh.c:280-304 | every picked load goes from a server with that load to the receiver that picked it exactly when no load is picked twice |
| DhPicks.DifferentLoadsAreGiven | src/manager_dh.c:280-304 | in particular when no two overloaded servers have the same load |
| DhPicks.PickIsLost | src/manager_dh.c:280-304 | loads 2, 2, -2, -2: both underloaded servers pick a load of 2, but server 1 gives nothing and server 2 receives nothing |
| DhRebalance.RewriteIsParallel | src/manager_dh.c:307-385 | although each server reads the table that is being rewritten, the outcome is that of all reading the original table: an entry moves at most once |
| DhRebalance.DhRebalanceIsLegal | src/manager_dh.c:191-385 | an entry moves from an overloaded to an underloaded server with its version raised by one, or stays; entries without accesses stay |
| DhRebalance.GivesExactlyIff | src/manager_dh.c:354-380 | a giver gives at least what was picked, and exactly that if and only if it has no further entry with the same index as a picked one |
| DhRebalance.GivesEnough | src/manager_dh.c:307-380 | an entry of some weight that a giver keeps would have taken it below the mean, together with what it gave |
| DhRebalance.BothMove | src/manager_dh.c:354-380 | an input on which two entries move although one was picked, so that the imbalance is only turned round |
| Ranges.WindowedInRange | src/manager_windowed.c:259-375 | if the reported loads together, plus the heaviest index, fit a C int, then so do the sum, the mean, the relative loads, and in every turn of the loops the goal, each sum compared with it, and each credited load |
| Ranges.DhInRange | src/manager_dh.c:191-352 | if the indices together, plus the heaviest once more, fit a C int, then so do all sums, the relative loads, and each sum compared with a goal, for every receiver and every giver |
| ManagerDh.BalanceLoad | src/manager_dh.c:150-175 | sorts the values in place and writes exactly the picked ones |
| ManagerDh.FindIndex | src/manager_dh.c:179-187 | the first position of the value, or -1 |
| ManagerDh.TakeOff | src/manager_dh.c:292-300 | the first occurrence is overwritten with the last value |
| ManagerDh.DealLoop | src/manager_dh.c:280-304 | the loop over the underloaded servers computes the receivers |
| ManagerDh.Manager.MoveAll | src/manager_dh.c:307-385 | the loop over the giving servers rewrites the table as module DhRebalance says |
| ManagerDh.HeavierToLighter | src/manager_dh.c:230-385 | in terms of the weight of a server's entries, summed over the table, an entry goes only from a server above the mean to one below it |
| ManagerDh.Manager.CalculateRelab | src/manager_dh.c:191-390 | the table becomes the one module DhRebalance computes, which is a legal rebalance; an entry with some weight goes only from a server whose entries weigh more than the mean to one whose entries weigh less |
| Murmur3.MurmurHash3 | src/murmur3.c:71-124 | the loop over the blocks, the tail and the finalization compute the hash of the key |
| Murmur3.Finalize | src/murmur3.c:45-54 | the finalization, step by step |
| Murmur3.ReadTail | src/murmur3.c:105-113 | the cases of the switch fall through |
| Murmur3.MixBlockBijective | src/murmur3.c:92-94 | the mix of a block is a bijection |
| Murmur3.TurnBijectiveInHash | src/murmur3.c:88-99 | a turn of the loop is a bijection in the hash, so later blocks keep hashes apart |
| Murmur3.TurnBijectiveInBlock | src/murmur3.c:88-99 | and a bijection in the block |
| Murmur3.Fmix32Bijective | src/murmur3.c:45-54 | the finalization is a bijection |
| Murmur3.SharedBlocks | src/murmur3.c:88-99 | over blocks that two keys share, hashes are equal afterwards exactly when they were before |
| Murmur3.OneBlockApart | src/murmur3.c:71-124 | two keys of the same length that differ at most inside one block have the same hash exactly when they are the same key |
| Murmur3.TailApart | src/murmur3.c:101-124 | and so have two keys that differ at most after the last block |
| Murmur3.SeedsApart | src/murmur3.c:71-124 | two seeds never give a key the same hash |
| Murmur3.LengthCounts | src/murmur3.c:101-121 | the length is part of the hash: a zero byte that still fits the tail always changes it |
| Murmur3.KnownValues | src/murmur3.c:71-124 | four published values of MurmurHash3 for x86, 32 bits, which fix its constants |

## Left out

- Sockets, JSON, signals, threads and locks: modelled as messages, records and interleaved steps; interleavings inside one step, which the source does not protect, are not covered.
- File storage: a set of keys per server. The value of a key is not modelled, so that a transfer writes the same fixed value for every key cannot be seen.
- Reading a key that is absent: the source then builds a JSON string from a null pointer (src/server.c:353-362); the model answers "aborted".
- Requests without the expected JSON fields, allocation failures, ack files and timing files.
- Integer widths: loads, sums and versions are unbounded (`Ranges` says when the code's loads and sums do not overflow); the hash, the access counters and the load level are 32-bit as in the source. The hash reads blocks lowest byte first, as a little-endian machine does.
- Parsing the hosts file: the lines are what successive reads return; a line longer than the buffer of 21 bytes counts as several.
- The sender's look-ahead reads one element past the list before it checks the bound (src/distribution_windowed_s.c:585); the model checks first.
- Keys with a comma, or empty ones: clients of the step system only send clean keys; what happens to the others in a packet is `Packing.LosslessIffClean`.
- A failed storage operation in a transfer: the thread ends after a part of its work; the step system only records the failure, which is proved never to happen.
- How near to balance a whole call of the windowed rebalancer comes with several overloaded or underloaded servers, beyond what `Rebalance.RebalanceIsSound` and `Turns` say: balance is not guaranteed.
- Monotonicity of a client's cached version: the server compares with `!=`, so a cached version can go back.
- Fairness: that steps which can be taken are taken in time; progress is stated as paths that exist and as a measure that decreases.
- ServerNode.Server.Serve: takes an index inside the table, as clients compute it; that an index outside is refused is in `ServerNode.Server.PostReceive`.
- Mlt.Mlt.UpdateState: an index past the end of the table is not modelled, because the source does not check it and would write outside the array.
- EntryList.PackList: takes a list of distinct keys; that lists are always distinct is part of the invariant in `Keys`.
- ManagerDh.QSort: stands for the C library's qsort, which is not part of the repository.
- The main loop of the manager as imperative code: it is the manager's part of `Protocol`.
- The variants `indedh`, `v2` and `sh`, and the DH server and client: near copies that add no new property.
- The 128-bit hashes, benchmarks, plots and scripts.
