# landlock-observability, verified

A Dafny model of the userspace pipeline of landlock-observability: a kernel record is
decoded into an event, delivered through a bounded queue, merged into reconstructed
state, aggregated, and printed. Each part is stated twice, once as the code works and
once as what its output means, and the two are proved equal for every input, every run
or every interleaving.

- **State reconstruction** (`State`, `Summary`, `History`, `OrderIndependence`,
  `StateInvariants`, `StateStore`). `Run` applies observations one by one. `Summarize`
  says of each field of each record what the whole history implies: a greatest value, a
  union, the last of the greatest timestamps, a first guess until a creation is seen.
  They are equal for every history. From that follow the exact condition for order
  independence, the exact condition for a replay to change nothing, the relations that
  every reachable state keeps and the facts that no later observation can weaken.
- **Collector** (`Collector`, `CollectorProofs`, `CollectorLaws`, `CollectorParts`). A
  machine of interleaved steps; every receive is two steps, as in the code. One invariant
  accounts for every sample offered, every notice owed and every terminal error sent; from
  it follows, in terms of the log alone, when a sample is dropped, what each receive
  returns and what each terminal error was caused by.
- **Aggregator** (`Recency`, `Identity`, `Aggregator`). The map with sequence numbers, compacted at
  a limit that is a parameter, refines a list in order of recency; the list is then
  described without reference to either, and without its keys, on the events themselves.
- **Batch output** (`BatchLines`, `BatchReader`, `BatchLog`, `Batch`). The stream of lines
  is a faithful change log of the state, topic by topic, with nothing printed that did not
  change; every fact can be read back from the text of its line.
- **Domain tree** (`DomainIds`, `DomainTree`). The explicit stack visits every domain once,
  also with cyclic parents, and gives first the one preorder listing of what the roots reach.
- **Codecs and text** (`Events`, `Numbers`, `Wire`, `WireLayout`, `WireRoundTrip`, `WireErrors`,
  `Captured`, `Capture`, `Display`, `Escape`, `Text`, `Sequences`, `Bits`, `Masks`,
  `BlockerText`, `Wrap`).
- **Privileges** (`Privilege`). Every system call may fail at any time, and the number of
  tasks may be different at every listing; what the world answers is fixed call by call,
  and every call is recorded.

Where the code does less than its comments or a natural reading suggest, the code is
modelled, a concrete counterexample is given, and the exact condition is proved:

- `recv_timeout` is documented to return buffered deliveries before a terminal poll
  failure. A delivery accepted between the two reads of one receive can be overtaken
  (`OvertakenDelivery`); `DeliveriesFirst` says exactly which are not.
- A pending queue-full notice is reported before a poll failure or a callback panic, but
  not before a panic that leaves the worker function (`LostNotice`); `EndOfRun` has the
  condition.
- Equal timestamps and disagreeing first guesses make the reconstructed state depend on
  arrival order (`TieExample`, `GuessExample`, and for every such history `TiesMatter`,
  `GuessesMatter`); `OrderIndependence` has the condition.
- Wrapping a nonempty text can end with an empty line (`OverWideExample`);
  `TrailingEmptyLine` has the condition.

Clocks, the network and the kernel are not modelled as such: a timeout is a step that may
or may not happen, a system call is one that may or may not fail, the display width of a
string and the unsafe Unicode categories are parameters, and both byte orders are covered.

The table has no row for small helpers whose contract follows their body, such as
`TrySend`, `TrySendTerminal`, `Unpair`, `RecordCreation` and `Recount`; the operations
that call them have rows.

## Model

| member | source | states |
|---|---|---|
| `History.RunIsSummary` | src/state.rs:446-662 | Folding `apply` over any history gives exactly the state that the declarative summary of the history describes, for every field of every ruleset and domain record. |
| `History.SummaryStep` | src/state.rs:446-662 | One `apply` takes the summary of a history to the summary of the history with the event added. |
| `History.KnownDomains` | src/state.rs:528-662 | A domain is known exactly when some observation names it: as created, freed, enforced or denied, as the parent of a created or denied one, or as the sandboxed other party of a ptrace, signal or abstract-socket denial. |
| `History.KnownRulesets` | src/state.rs:446-603 | A ruleset is known exactly when some observation creates, extends, freezes or frees it. |
| `Summary.HighestIsGreatest` | src/state.rs:705-715 | The value kept by `update_max` and `update_latest_timestamp` is the greatest reported, and there is none exactly when nothing was reported. |
| `Summary.WinnerWins` | src/state.rs:458-466 | The retained timestamped fact is the last applied among those with the greatest timestamp. |
| `Summary.AccessUnionBits` | src/state.rs:468-527 | A rule's mask has a bit exactly when some observed rule for that target has it. |
| `Summary.FirstDenialIsFirst` | src/state.rs:625-662 | The guess retained until a creation is seen comes from the first denial of the domain. |
| `OrderIndependence.StatesAgree` | src/state.rs:446-662 | Two histories with the same observations reach the same state if and only if every timestamped slot is won with the same payload and every unconfirmed guess is the same. |
| `OrderIndependence.OrderIndependence` | src/state.rs:446-662 | All orders of a history reach the same state if and only if observations tied at the greatest timestamp of a slot carry the same payload and the denials of a domain without a seen creation agree on parent and creator. |
| `OrderIndependence.TiesMatter` | src/state.rs:446-623 | Two tied observations with different payloads are enough for some two orders to differ. |
| `OrderIndependence.GuessesMatter` | src/state.rs:625-662 | Two denials with different guesses, and no creation, are enough for some two orders to differ. |
| `OrderIndependence.TieExample` | src/state.rs:448-467 | Two creations of one ruleset at the same time: the one applied last is believed. |
| `OrderIndependence.GuessExample` | src/state.rs:625-662 | Two denials of one domain that name different parents: the one applied first is believed. |
| `OrderIndependence.ReplayAbsorbed` | src/state.rs:446-662 | Re-applying a seen event changes nothing if and only if it does not take a slot from a tied winner with another payload. |
| `OrderIndependence.ReplaysAbsorbed` | src/state.rs:446-662 | Any number of replays of order-insensitive observations changes nothing. |
| `StateInvariants.ConsistentKept` | src/state.rs:446-662 | Every observation keeps the relations within and between records. |
| `StateInvariants.RunConsistent` | src/state.rs:528-662 | In every reachable state a known parent is a known domain, a frozen ruleset is known and has reached the frozen version, Deallocated goes with a free timestamp and a final value and only with them, final values never exceed cumulative ones, and a known creation comes with parent and creator. |
| `StateInvariants.RunGrows` | src/state.rs:185-193 | Later observations never leave Deallocated, lower a maximum, forget a record or drop a bit of a mask. |
| `StateInvariants.SelectedEnforcement` | src/state.rs:604-621 | A thread has a selected enforcement exactly when one was observed, and it is the last applied of those with the greatest timestamp. |
| `StateInvariants.NoNewPrivsMeaning` | src/state.rs:397-403 | The result is absent exactly when no enforcement was observed, and otherwise the conjunction over the selected events. |
| `StateStore.Store.Apply` | src/state.rs:446-623 | The update in place leaves what the observations so far leave, is one step of the functional model, and makes known exactly the domains that the event names. |
| `StateStore.Store.Meaning` | src/state.rs:446-662 | The records of a store are the summary of its history and are consistent. |
| `StateStore.Store.CreateRuleset` | src/state.rs:448-467 | The new state is the functional one. |
| `StateStore.Store.AddRulePathBeneath` | src/state.rs:468-504 | The new state is the functional one. |
| `StateStore.Store.AddRuleNetPort` | src/state.rs:505-527 | The new state is the functional one. |
| `StateStore.Store.CreateDomain` | src/state.rs:528-566 | The new state is the functional one, with the parent made known. |
| `StateStore.Store.ApplyDenial` | src/state.rs:625-662 | The new state is the functional one, also when domain, parent and other party coincide; the domain, its parent and a sandboxed other party become known, and no others. |
| `StateStore.Store.FreeDomain` | src/state.rs:582-590 | The new state is the functional one. |
| `StateStore.Store.FreeRuleset` | src/state.rs:591-603 | The new state is the functional one. |
| `StateStore.Store.EnforceDomain` | src/state.rs:604-621 | The new state is the functional one. |
| `Recency.KeyIffDenial` | src/aggregate.rs:584-635 | An event has an aggregation key exactly when it is a denial, and the key is the one of its kind that names each of its identifying facts. |
| `Identity.KeysAgree` | src/aggregate.rs:584-635 | Two denials have equal keys if and only if they are of one kind and agree on the domain and every identifying field of that kind; path name, time and peer process play no part. |
| `Identity.FewIffKeys` | src/aggregate.rs:499-533 | Counting distinct keys is counting the identities of the events. |
| `Recency.AggregateIsSuffix` | src/aggregate.rs:499-533 | The retained keys, in order, are the last `capacity` of all distinct keys in order of last observation. |
| `Recency.RetainedIffListed` | src/aggregate.rs:499-533 | A key is retained exactly when fewer than `capacity` distinct keys were observed after its last observation. |
| `Recency.TalliesRecord` | src/aggregate.rs:499-533 | A retained tally holds the saturated number of observations since its insertion, the first timestamp of those and the last event. |
| `Recency.AggregateMeaning` | src/aggregate.rs:499-533 | Membership, contents, distinctness and bound of the recency list for every history. |
| `Aggregator.DenialAggregator.Build` | src/aggregate.rs:364-387 | An aggregator is built exactly for a capacity other than zero whose reservation succeeds, and the error names the failed check. |
| `Aggregator.DenialAggregator.ObserveEntry` | src/aggregate.rs:499-533 | The map goes on realizing the recency list of the history; an entry is returned exactly for a denial, and it is the retained one of its identity, with that event as its latest and the saturated number of denials of that identity since it was put in. |
| `Aggregator.DenialAggregator.NextIngestionSequence` | src/aggregate.rs:535-550 | The number returned exceeds every stamp, also when the counter is at its limit, and nothing but stamps changes. |
| `Aggregator.DenialAggregator.Compact` | src/aggregate.rs:536-545 | Stamps are renumbered in the same order and leave room below the limit. |
| `Aggregator.DenialAggregator.LeastRecent` | src/aggregate.rs:514-521 | The entry chosen for eviction has the smallest stamp. |
| `Aggregator.OldestIsFirst` | src/aggregate.rs:514-521 | The entry with the smallest stamp is the least recently observed key. |
| `Aggregator.EntriesMeaning` | src/aggregate.rs:499-550 | After any run, compactions included, there is an entry for exactly the identities with fewer than `capacity` others observed since, with the saturated number of denials of that identity since its insertion, the timestamps, the latest event and its same-execution and logging flags. |
| `Collector.InitialInv` | src/collector.rs:603-625 | The prepared collector satisfies the invariant. |
| `CollectorProofs.StepKeeps` | src/collector.rs:702-944 | Every step of worker, callback, consumer and shutdown keeps the account of deliveries, notices and terminal errors. |
| `CollectorProofs.SendKeepsDeliveries` | src/collector.rs:807-826 | A send that never waits keeps the account: an accepted sample takes the pending notice with it, and one that is not accepted leaves a notice owed. |
| `CollectorProofs.ReadKeepsDeliveries` | src/collector.rs:702-761 | A delivery read moves the first outcome in flight to the consumer; splitting a paired entry loses neither the notice nor its delivery. |
| `CollectorProofs.ReportKeepsTerminal` | src/collector.rs:549-558 | A terminal send whose result is ignored loses nothing: there is always room for it. |
| `CollectorLaws.DroppedIffFull` | src/collector.rs:802-827 | In every run, a sample offered while somebody can receive is dropped if and only if the entries accepted and not yet taken are as many as the configured capacity; otherwise it is queued last with the notice owed. |
| `CollectorLaws.NoLossWithinCapacity` | src/collector.rs:606-606 | A run that offers no more samples than the capacity loses none, however late they are read. |
| `CollectorLaws.ReceivesNext` | src/collector.rs:702-748 | A receive returns the next outcome called for, and finds no delivery exactly when all have been returned. |
| `CollectorLaws.ReceivesTerminal` | src/collector.rs:763-789 | It then returns the next terminal error sent, the stop exactly when none is left and the worker is gone, and otherwise nothing. |
| `CollectorLaws.ClosedTakesNoMore` | src/collector.rs:792-805 | Once the collector is closed, at most the sample being sent is still offered. |
| `CollectorLaws.ClosedPollsNoMore` | src/collector.rs:907-944 | Once it is closed, a worker outside a poll begins no further one and does not report one that failed. |
| `CollectorLaws.ReportsHaveCauses` | src/collector.rs:526-599 | A panic is reported only if there was one, and always by a worker that has ended; a poll failure only if a poll failed, and never once a callback has panicked. |
| `CollectorProofs.LossAccounting` | src/collector.rs:702-827 | In every reachable state what the consumer got from the queue is a prefix of what the callback attempts call for, and all of it once the queue is drained. |
| `CollectorProofs.ExpectedCounts` | src/collector.rs:802-827 | What is called for holds the accepted samples once each in order, and one notice for every maximal run of drops that an acceptance closes. |
| `CollectorProofs.ExpectedPlacement` | src/collector.rs:751-761 | The notice for a run of drops stands directly before the next accepted delivery, and no other delivery has one. |
| `CollectorProofs.ExpectedUnchanged` | src/collector.rs:802-827 | What is called for stays the same if and only if every further sample is dropped. |
| `CollectorProofs.EndOfRun` | src/collector.rs:907-944 | A worker that ends while its collector lives has sent a reason, after the notice owed for a final run of drops; the notice is missing if and only if the run ended in drops and in a panic that left the worker function before any report. |
| `CollectorProofs.LostNotice` | src/collector.rs:578-600 | A reachable run that ends in a drop and reports only the panic. |
| `CollectorProofs.TerminalComplete` | src/collector.rs:607-609 | The three-slot terminal channel never refuses a send, and errors are received once each in the order sent. |
| `CollectorProofs.StopIsFinal` | src/collector.rs:763-789 | After the worker's stop has been returned, every later receive returns it again. |
| `CollectorProofs.DeliveriesFirst` | src/collector.rs:702-748 | When a receive reads the terminal channel, everything accepted before its own delivery read has been returned; nothing else is waiting if and only if every sample offered between the two reads was dropped. |
| `CollectorProofs.OvertakenDelivery` | src/collector.rs:731-748 | A reachable run in which a poll failure is received before an accepted delivery. |
| `CollectorParts.Parts.constructor` | src/collector.rs:603-625 | The parts start as the machine's initial state. |
| `CollectorParts.Parts.EnterCallback` | src/collector.rs:802-805 | One step; the sample goes on exactly while the collector is wanted. |
| `CollectorParts.Parts.Send` | src/collector.rs:807-826 | One step that keeps the invariant; the callback fails exactly when the receiver is gone; otherwise the sample is dropped if and only if as many entries as the capacity are waiting, and else is the last of the queue. |
| `CollectorParts.Parts.CatchPanic` | src/collector.rs:526-539 | One step: the panic is kept and the callback fails. |
| `CollectorParts.Parts.TakePanic` | src/collector.rs:540-550 | One step: the mailbox is emptied and a poll result is looked at only without a panic. |
| `CollectorParts.Parts.ReportLossBeforePanic` | src/collector.rs:551-556 | One step: the owed notice is sent and cleared. |
| `CollectorParts.Parts.ReportPanic` | src/collector.rs:557-558 | One step: the panic is sent last. |
| `CollectorParts.Parts.ReloadRunning` | src/collector.rs:928-929 | One step: a failed poll is reported only while the collector is wanted. |
| `CollectorParts.Parts.ReportLossBeforeFailure` | src/collector.rs:930-935 | One step: the owed notice is sent before the failure. |
| `CollectorParts.Parts.ReportFailure` | src/collector.rs:936-941 | One step: the failure is sent. |
| `CollectorParts.Parts.ReportUncaught` | src/collector.rs:596-599 | One step: a panic that left the worker function is sent. |
| `CollectorParts.Parts.ReadDeliveries` | src/collector.rs:702-708 | One step that keeps the invariant: the pending slot, then the queue. |
| `CollectorParts.Parts.ReadTerminal` | src/collector.rs:763-789 | One step that keeps the invariant: an error, the stop of a worker that is gone, or nothing. |
| `CollectorParts.Parts.Close` | src/collector.rs:792-796 | One step: the worker is told to stop. |
| `DomainTree.CollectChildren` | lltop/src/tui/model.rs:88-99 | Every parent's children, each listed once in ascending order, and no others. |
| `DomainTree.ParentsListed` | lltop/src/tui/model.rs:88-96 | A domain is listed below a recorded domain exactly when that is its recorded parent, and else at the root. |
| `DomainTree.VisitTop` | lltop/src/tui/model.rs:109-123 | One turn of the loop keeps what is placed, waiting and closed, and makes progress also on cyclic parents. |
| `DomainTree.Append` | lltop/src/tui/model.rs:101-124 | Everything reachable from the start is put out once, in preorder. |
| `DomainTree.PushChildren` | lltop/src/tui/model.rs:114-121 | Children are pushed in reverse with the last sibling marked. |
| `DomainTree.AppendRest` | lltop/src/tui/model.rs:139-145 | What the roots do not reach is put out once too, and without cycles there is nothing left to do. |
| `DomainTree.DomainTree` | lltop/src/tui/model.rs:82-146 | Every domain exactly once for any parent relation; a row deeper than one level comes after its parent's row and extends its trail; everything the roots reach comes first, with its true trail and in preorder by ascending ID, whatever cycles there are elsewhere; without cycles that is everything. |
| `DomainTree.AllReached` | lltop/src/tui/model.rs:126-138 | Without cycles the roots reach every domain. |
| `DomainTree.AcyclicAllRooted` | lltop/src/tui/model.rs:126-138 | Without cycles every domain hangs from a root. |
| `DomainTree.RootedIsListing` | lltop/src/tui/model.rs:82-146 | The rows put out for what the roots reach are a complete preorder listing of it. |
| `DomainTree.PreorderUnique` | lltop/src/tui/model.rs:82-146 | There is only one complete preorder listing, so the contract determines the output. |
| `BatchLines.DenialLineSplits` | lltop/src/batch.rs:464-482 | Every denial line splits on spaces into its nine tokens, or ten for the kinds that name another party. |
| `BatchReader.DenialRead` | lltop/src/batch.rs:464-482 | Kind, domain, blockers, target, count, age, both flags and the other party are read back from a denial line, each under its own label. |
| `BatchReader.TargetRead` | lltop/src/batch.rs:401-462 | The target gives back the path, the other task or the socket name, byte for byte. |
| `BatchReader.PortsRead` | lltop/src/batch.rs:409-435 | A denied bind shows the source port, a denied connect the destination port, anything else both. |
| `BatchReader.AgeRead` | lltop/src/batch.rs:383-392 | The age is the whole seconds between the two times, and whole minutes from an hour on. |
| `BatchReader.DomainRead` | lltop/src/batch.rs:278-298 | A domain line gives back the identifier, parent, ruleset version, creator and weakest `no_new_privs` fact, and which of them are not known; an identifier of zero, which is none, reads as the root. |
| `BatchReader.DropRead` | lltop/src/batch.rs:169-176 | A drop line gives back the ruleset and its version. |
| `BatchReader.StatsRead` | lltop/src/batch.rs:484-497 | A statistics line gives back every counter under its own name. |
| `BatchLines.DomainTopicOf` | lltop/src/batch.rs:278-298 | The domain a domain line is about can be read from its text. |
| `BatchLines.DropTopicOf` | lltop/src/batch.rs:169-176 | The ruleset a drop line is about can be read from its text. |
| `BatchLines.TopicsDistinct` | src/event/mod.rs:142-146 | Lines about different domains or rulesets are about different topics. |
| `BatchLines.BlockersSpaceFree` | lltop/src/batch.rs:316-374 | No blocker text contains a space, for any request type and mask. |
| `BatchLines.TargetSpaceFree` | lltop/src/batch.rs:401-462 | No target text contains a space, for any captured bytes. |
| `BatchLog.Untouched` | lltop/src/batch.rs:209-266 | `apply` leaves every domain outside the affected ones as it was. |
| `BatchLog.IdentityFrame` | lltop/src/batch.rs:268-276 | Only freeing a ruleset changes its final identity, and a final identity never goes away. |
| `BatchLog.FinalIdentityMeaning` | lltop/src/batch.rs:268-276 | After any history a ruleset has a final identity exactly when it was freed, with the greatest version that freeing it reported. |
| `BatchLog.DomainLinesLast` | lltop/src/batch.rs:141-167 | There is one line for each affected domain that looks different, showing it as it is. |
| `BatchLog.OutputLogs` | lltop/src/batch.rs:108-191 | The lines of one observation carry a faithful log of one state to a faithful log of the next. |
| `BatchLog.OutputIsReport` | lltop/src/batch.rs:108-191 | The lines are one for each domain in the state that looks different, ascending, one for a freed ruleset whose final identity changed, one for a denial, and the statistics last unless there is nothing else and no count moved. |
| `BatchLog.MixedEnd` | lltop/src/batch.rs:141-158 | Recounting only the affected domains gives the count over all domains. |
| `BatchLog.MixedBound` | lltop/src/batch.rs:153-157 | The running count never passes the final one on the way up. |
| `BatchLog.KindsAddUp` | lltop/src/batch.rs:83-89 | The denials of the five kinds add up to all denials. |
| `Batch.AffectedDomainIds` | lltop/src/batch.rs:209-266 | Exactly the domains that the observation names, kind by kind, once each, ascending. |
| `DomainIds.Dedup` | lltop/src/batch.rs:263-265 | Removing equal neighbours of a sorted list leaves the same set, strictly ascending. |
| `Batch.CountStep` | lltop/src/batch.rs:149-158 | Following one domain moves the count by what it changed, upward never past the new count. |
| `Batch.Batch.CountDenial` | lltop/src/batch.rs:83-89 | The total and the one counter of the kind go up, saturating. |
| `Batch.Batch.EmitDomains` | lltop/src/batch.rs:141-167 | The lines of the affected domains; a counter that was exact is exact again whenever the new count fits it. |
| `Batch.Batch.EmitDenial` | lltop/src/batch.rs:129-137 | There is a line exactly for a denial, which shows the entry now retained for it, and every denial is counted; the counters are the saturated numbers of denials in the history. |
| `Batch.Batch.EmitDrop` | lltop/src/batch.rs:169-176 | The drop line, exactly when the freed ruleset's final identity changed. |
| `Batch.Batch.Process` | lltop/src/batch.rs:108-191 | After any run the last line on each domain shows it as it is, the last on each freed ruleset names its final version, the last statistics line shows the counters; each observation puts out exactly one line for each domain that looks different, for a ruleset freed and for a denial, and the statistics after them, and none at all if and only if nothing looks different, nothing was denied and no domain count moved; the domain counter equals a recount for as long as the number of allocated domains has fitted it. |
| `Escape.Escape` | lltop/src/batch.rs:300-314 | The loop's output can be read back to the bytes and the omission mark, and holds only protocol characters. |
| `Escape.EscapeRoundTrip` | lltop/src/batch.rs:300-314 | Bytes and omission mark are recovered for every value. |
| `Escape.EscapedExcludes` | lltop/src/batch.rs:300-314 | No whitespace, control character or protocol punctuation appears. |
| `Escape.PlainUnchanged` | lltop/src/batch.rs:300-314 | Letters, digits and the four plain marks stand for themselves. |
| `Masks.MaskPartition` | src/event/mod.rs:327-348 | Known and unknown bits are disjoint and make up the mask, and the known names carry exactly the known bits. |
| `Masks.KnownNamesMembers` | src/event/mod.rs:338-348 | A name is listed exactly when the table has it and its bit is set. |
| `BlockerText.BlockerTextInjective` | lltop/src/batch.rs:316-374 | In both renderings equal text means equal request type and equal mask, and the converse. |
| `BatchLines.NetworkTextInjective` | lltop/src/batch.rs:344-374 | Equal network text means equal request type and equal mask, and the converse. |
| `BlockerText.AccessPartsInjective` | lltop/src/tui/format.rs:13-23 | The shared list of names and unknown bits determines the mask. |
| `BlockerText.PartsInjective` | src/event/mod.rs:461-473 | Classification and its parts lose neither request type nor mask. |
| `BlockerText.FilesystemTableSuitable` | src/event/access_names.rs:6-24 | The filesystem name table meets the conditions of the text results. |
| `BlockerText.NetworkTableSuitable` | src/event/access_names.rs:27-32 | The network name table meets them too. |
| `BlockerText.FilesystemBits` | src/event/access_names.rs:6-24 | Each filesystem bit alone is shown by its own name. |
| `BlockerText.NetworkBits` | src/event/access_names.rs:27-32 | Each network bit alone is shown by its own name. |
| `Captured.New` | src/event/string.rs:149-180 | Exactly the values valid for the origin are accepted, unchanged; an interior NUL is reported at its first position and before any other fault. |
| `Display.WriteUnit` | src/event/string.rs:251-270 | What is written for a character or an invalid byte reads back to its bytes whatever follows it, and holds nothing unsafe. |
| `Display.Format` | src/event/string.rs:296-301 | What is printed can be read back to the value. |
| `Display.UnitsEncode` | src/event/string.rs:205-216 | The split into characters and invalid bytes loses nothing. |
| `Display.DisplayRoundTrip` | src/event/string.rs:205-301 | Bytes and omission mark are recovered from the printed text for every valid value of every origin, although an ellipsis in the data is printed raw. |
| `Display.DisplayInjective` | src/event/string.rs:296-301 | Different values of one origin print differently. |
| `Display.DisplaySafe` | src/event/string.rs:205-301 | Nothing unsafe is displayed, whatever the bytes and the origin, provided the characters that escapes are made of are safe. |
| `Display.SafeUnchanged` | src/event/string.rs:251-301 | Text without backslashes and unsafe characters is shown as it is. |
| `Numbers.ReadIffEncoded` | src/wire.rs:149-165 | In both byte orders, bytes are read as a number exactly when they encode it. |
| `WireLayout.DecodeIffLaidOut` | src/wire.rs:290-461 | A record decodes to an event if and only if the event meets every identifier, task and captured-bytes rule and the record holds its fields where the producer's layout puts them, whatever padding and the bytes after a terminator hold. |
| `WireLayout.ContextRead` | src/wire.rs:270-287 | The common denial header decodes exactly to what it holds. |
| `WireLayout.PathRead` | src/wire.rs:181-192 | A path field and its flag decode exactly to a valid path. |
| `WireLayout.CommandRead` | src/wire.rs:218-227 | A command field decodes exactly to a valid command. |
| `WireLayout.AbstractNameRead` | src/wire.rs:194-216 | A length and a name decode exactly to a valid name. |
| `WireLayout.MembershipRead` | src/wire.rs:254-268 | Zero means outside any domain, and any other accepted value is a valid identifier. |
| `WireRoundTrip.RoundTrip` | src/bpf/event.h:164-286 | Storing any well-formed event into a record with any earlier content, in either byte order, decodes to that event. |
| `WireRoundTrip.PayloadFits` | src/bpf/event.h:201-286 | The fields of every kind lie apart from each other and inside the record. |
| `WireErrors.RejectedIff` | src/wire.rs:137-461 | A record is rejected with an error if and only if that is its length error, its kind error, or the fault found by the first failing check of its kind in reading order, at that check's own offset and under its own field name. |
| `WireErrors.ReachableErrors` | src/wire.rs:137-461 | Only a wrong length gives a length error, a complete record never lacks a field, and the only captured-bytes errors are an unterminated command and an omission mark on a path that fits. |
| `Capture.ProbeReadKernelStr` | src/bpf/landlock_observability.bpf.c:171-173 | The helper's contract: what fits is copied and terminated, and the length counts the terminator. |
| `Capture.CapturePath` | src/bpf/landlock_observability.bpf.c:165-178 | Succeeds exactly when the source is readable, and leaves its first 256 bytes padded with NULs and the flag set exactly when there were more. |
| `Capture.PathRecovered` | src/wire.rs:167-192 | A captured path decodes to the first 256 bytes of its source, marked as omitting some exactly when the source is longer. |
| `Capture.CaptureAbstractName` | src/bpf/landlock_observability.bpf.c:121-158 | Succeeds exactly for an unbound peer or a readable abstract address of valid length, and leaves the exact name. |
| `Capture.AbstractNameRecovered` | src/wire.rs:194-216 | A captured name decodes byte for byte, its NULs included. |
| `Capture.AbstractNamesDistinct` | src/bpf/landlock_observability.bpf.c:134-157 | Two addresses give the same name only when their lengths and bytes agree. |
| `Wrap.Wrap` | lltop/src/tui/format.rs:102-144 | The loop ends and returns the lines of the recursive definition. |
| `Wrap.CandidateEnd` | lltop/src/tui/format.rs:109-126 | The scan finds the longest prefix that fits, or one character. |
| `Wrap.SplitPrefersSeparators` | lltop/src/tui/format.rs:127-137 | A line ends at the last separator of the most preferred kind that fits. |
| `Wrap.LinesCut` | lltop/src/tui/format.rs:102-144 | Every line but the last is cut off what is left of the text, too wide for it, at the last separator of the most preferred kind in the longest part that fits. |
| `Wrap.LinesConcat` | lltop/src/tui/format.rs:102-144 | The lines put together are the text. |
| `Wrap.LinesFit` | lltop/src/tui/format.rs:102-144 | Every cut line is nonempty and fits its width or is one character; the last line fits. |
| `Wrap.TrailingEmptyLine` | lltop/src/tui/format.rs:102-144 | With additive widths, the last line is empty if and only if the text is empty or ends in a character wider than the line it would stand on. |
| `Wrap.OverWideExample` | lltop/src/tui/format.rs:102-144 | A text that wraps to itself and an empty line. |
| `Privilege.CheckSingleThreaded` | src/privilege.rs:136-155 | Makes one listing of the tasks and succeeds exactly when it shows one; any other number is reported as such, and a failed listing as a failed inspection. |
| `Privilege.ClearBounding` | src/privilege.rs:196-221 | Success means nothing inspectable is left in the bounding set; nothing else changes, and an already cleared set is not touched. |
| `Privilege.VerifyReduced` | src/privilege.rs:223-251 | Success means the credentials are exactly the expected ones, and a verification error means they are not. |
| `Privilege.PreflightMinimization` | src/privilege.rs:395-416 | Success means minimization has what it needs, a missing-capability error means it does not, and nothing is changed. |
| `Privilege.RemoveAll` | src/privilege.rs:458-464 | Each step that clears or changes a set comes directly after a listing of exactly one task; the first call that fails, a listing of any other number included, is the last one made and decides the error. |
| `Privilege.FinishPolicy` | src/privilege.rs:441-469 | Success from a minimized or pending policy means verified empty; failure leaves either a retryable policy with its capability sets unchanged or a pending one; a pending policy is refused explicitly and only verified in cleanup; no bounding capability is removed once the set is cleared; every change comes directly after a listing of exactly one task, nothing is called after the first call that fails, which decides the error, and another number of tasks leaves the policy minimized. |
| `Privilege.DropPolicy` | src/privilege.rs:385-432 | Dropping a minimized or pending policy ends verified empty or in abort. |
| `Privilege.Minimize` | src/privilege.rs:337-359 | Ends with exactly the two setup capabilities, with nothing changed, with verified empty credentials, or in abort; without the needed authority nothing is changed; every change, of the cleanup too, comes directly after a listing of exactly one task; the first call that fails decides the error and only the cleanup follows it, and that only once `no_new_privs` is set. |
| `Privilege.Privileges.Prepare` | src/collector.rs:165-178 | Preparation is refused after final removal, changes nothing when setup fails, and otherwise leaves credentials that the policy describes. |
| `Privilege.Lifetime` | src/privilege.rs:337-469 | Over any number of preparations with any failures, a process that minimized ends aborted or verified empty, prepares at most one collector, never gains a permitted, inheritable, ambient or bounding capability, removes no bounding capability after minimizing, and changes credentials only in steps that come directly after a listing of exactly one task. |

## Left out

- BPF loading, attachment, polling and BTF diagnosis: foreign calls; a poll is a step that runs callbacks and may fail.
- The remaining BPF handlers: field copies from kernel structures; the layout they fill is modelled.
- The projection of checked ports (src/bpf/landlock_observability.bpf.c:100-118): a few comparisons.
- Terminal drawing, themes, mouse handling, selection and the event loops.
- Builders, accessors, error text, panic payloads and the conversion to socket addresses.
- Real time: a timeout is any delay between the two reads of a receive.
- Memory orderings: every access to a shared flag or channel is one atomic step.
- Unicode tables: categories and display widths are parameters; normalisation is not modelled.
- The order in which hash maps are walked: results are stated independently of it.
- The UTF-8 byte offsets of wrapping: every cut falls between characters, so text is a sequence of characters.
- Allocation failure, other than the reservation that the aggregator reports.
- Writing the batch lines to a stream and its I/O errors.
- Collector.Step: dropping the two receivers of a collector is one step.
- Privilege.Kernel: capabilities numbered 64 and above cannot be inspected by the source and are left alone by every result.
- Wrap.TrailingEmptyLine: assumes additive widths, which is what the condition is about; the other wrapping results do not.
