# Verified model of the OPC UA interop adapters

The repository is a set of adapters around OPC UA stacks: a Rust, a Go and a C# adapter that drive clients and
servers through one command contract, and the scripts that judge a run. The stacks cannot be seen from here. What
the adapters do themselves can: protocols, codecs and transformations, some of them written two or three times. This
project models those parts in Dafny and proves what holds of every input and every run. `dafny verify dfyconfig.toml`
checks all of it.

The stack stays behind small interfaces: a stream of events, a function that answers requests, a codec with function
fields, a set of nodes. A deadline is a step that may happen at any time; an answer of a server is a parameter.

| Modules | What they are about |
|---|---|
| `Alarms`, `AlarmActions` | ConditionRefresh and Acknowledge/Confirm/AddComment (OPC UA Part 9): what all three adapters compute |
| `RustAlarms`, `GoAlarms`, `CsAlarms`, `RoundRobin` | the three implementations: an index list into a log, a channel that is written back into, a log with a cursor |
| `PublishLoop` | N publish workers that share a list of acknowledgements |
| `History` | HistoryRead continuation points: the Rust server and the Rust, Go and C# clients |
| `PubSubValues`, `PubSubMasks`, `PubSubDesc`, `PubSubUadp`, `PubSubJson`, `PubSubConvert` | PubSub NetworkMessages (OPC UA Part 14) and their descriptions |
| `Matrix` | row-major matrices |
| `NodeIds`, `Pem`, `Base64`, `Text` | NodeId and ExpandedNodeId texts, PEM over Base64 (section 4 of RFC 4648) |
| `Push` | push certificate management (section 7.10 of OPC UA Part 12), Go and C# |
| `AddNodes`, `PubSubConfig`, `ContentFilter`, `Verdict` | AddNodes batches, the PubSub configuration file, event where-clauses (section 7.7.1 of OPC UA Part 4), the run verdict |

Each imperative part is a method or a class whose contract ties it to a function of its inputs or of its history, and
the lemmas are about that function. Where a claim is false of the code, a lemma says exactly when it holds.

Where code and documentation differ, the model follows the code:

- The container contract (docs/CONTAINER_CONTRACT.md:1016) has `repeatStatusCode` null unless the event of the first
  Acknowledge arrived. The Go and C# adapters always keep to that (`GoAlarms.AlarmRun.Run`, `CsAlarms.AlarmLog.Run`).
  The Rust adapter repeats the call after every Good Acknowledge, so it keeps to it exactly when a Good Acknowledge got
  its event. It breaks the rule whenever a wanted Acknowledge is answered Good and no event that the client receives
  says that a condition has been acknowledged (`RustAlarms.OpAlarms`).
- The three adapters read a condition id differently: Rust takes a NodeId that is not null, Go any NodeId, C# also an
  ExpandedNodeId that is not null. Which NodeIds are null is a parameter of each stack.
  `Alarms.AlikeIffPortable` says for which events the difference does not show in what a refresh reports;
  `Alarms.ExpandedIdShows` is an event for which it does.
- The raw history reads of Rust and C# stop after 8 pages, that of Go after 64. They report the same exactly when 8 pages
  are enough (`History.RawClientsAgree`); 17 values in pages of 2 are too many (`History.RawClientsDiffer`). At the end
  Rust releases the point of the last page and C# the last point issued (`History.ReleasesAgree`).
- With `--scenario continue` the event read of C# starts at a continuation point that is given, that of Go at the null
  point (`History.EventClientsAgree`).
- The C# adapter waits for the RefreshEnd by scanning its log for a new event. A RefreshEnd that arrives between the
  processing and the scan of a turn is passed over, and the wait goes on until another event or the deadline
  (`CsAlarms.PassedOver`).
- The Rust event filter puts the And element last. Element 0 is the root, so with both flags given the severity does not
  count (`ContentFilter.RustWhere`). The Go filter sends the severity in 16 bits (`ContentFilter.GoSeverityExact`).
- Apply together with cancel is refused by the Go push command, while C# applies. An empty `--remove-certificate` is a
  step in C# and none in Go. These are the only differences in the steps (`Push.AdaptersAgree`); an input for each is in
  `Push.ApplyWithCancelDiffers` and `Push.EmptyRemoveDiffers`. An empty `--add-certificate`, `--update-certificate` or
  `--delete-certificate` is an input error in C# and no step in Go, so it is not among the flags of the model.
- The PEM scanner of the Rust adapter loses a block when a begin marker starts in the text before it, even one that only
  the dashes of the block's own marker complete (`Pem.FoundIffMarkerFree`, `Pem.StraddlingLead`).

Content masks are integers: `PubSubMasks.OrBit` sets a bit and `PubSubMasks.Bit` tests one, as the code does with `|=`
and `&`. What a mask must hold is given as a list of bits, lowest first, and `PubSubMasks.MaskOf` is the integer of it.

## Model

| member | source | states |
|---|---|---|
| `Alarms.CollectedIsLastPerCondition` | adapters/async-opcua/src/client.rs:2108-2137 | what a refresh window collects is the last event of every condition in it, in the order of first appearance |
| `Alarms.LastPerConditionIsUnique` | adapters/async-opcua/src/client.rs:2108-2137 | contents and order determine that list: there is only one |
| `Alarms.RefreshedSnoc` | own/go-opcua/client_events.go:473-498 | what one more event does to the refresh: nothing after the RefreshEnd, otherwise it marks the start or end or replaces or appends its condition |
| `Alarms.RefreshMarks` | adapters/async-opcua/src/client.rs:2001-2120 | a refresh starts with the first event of type 2787 and ends with the first one of type 2788, both of namespace 0; C# takes an ExpandedNodeId of these as well |
| `Alarms.RefreshedStays` | adapters/dotnet/src/ClientAlarms.cs:262-298 | once the RefreshEnd is in, later events change neither the conditions nor the marks |
| `Alarms.RefreshedKeys` | adapters/async-opcua/src/client.rs:2096-2137 | every refreshed entry is about a condition, and no condition is listed twice |
| `Alarms.SameReadingIffPortable` | adapters/dotnet/src/ClientAlarms.cs:66-71 | whatever the stacks call null, the three adapters read an event the same way if and only if no ExpandedNodeId marks the refresh and the condition is not named by a NodeId that is null to Rust or C# or by an ExpandedNodeId that is not null to C# |
| `Alarms.SameRefresh` | own/go-opcua/client_events.go:463-498 | readers that mark the same events and tell the same conditions apart collect the same list with the same marks |
| `Alarms.AdaptersAgree` | adapters/dotnet/src/ClientAlarms.cs:262-298 | on the same portable events the Rust, Go and C# adapters refresh the same conditions and agree on start and end seen |
| `Alarms.NotPortableShows` | adapters/dotnet/src/ClientAlarms.cs:66-71 | an event that is not portable, alone in a refresh, makes the adapters report different conditions or marks |
| `Alarms.AlikeIffPortable` | adapters/dotnet/src/ClientAlarms.cs:262-298 | all streams of some events are refreshed alike by the three adapters if and only if each of these events is portable |
| `Alarms.ExpandedIdShows` | adapters/dotnet/src/ClientAlarms.cs:66-71 | an event whose condition is named by an ExpandedNodeId is refreshed by C# and not by Rust and Go |
| `Alarms.CanonicalTextIdentifies` | adapters/async-opcua/src/nodeid.rs:27-33 | the canonical NodeId text, which Go and C# compare, identifies conditions with non-null identifiers |
| `AlarmActions.SuccessIsComplete` | adapters/async-opcua/src/client.rs:2289-2345 | a successful run completed every wanted action; after a call that failed none follows; a run without success has such a call |
| `AlarmActions.SelectTarget` | own/go-opcua/client_events.go:513-523 | the target is the first condition with the name, or the first retained one; none only if there is no such condition |
| `AlarmActions.SelectedIs` | own/go-opcua/client_events.go:513-523 | the target is the first condition whose name is the given one, or without a name the first one with `retain` true |
| `AlarmActions.CallOkGrows` | adapters/async-opcua/src/client.rs:2300-2343 | what was true of a call (latest EventId sent, first matching follow-up reported) stays true whatever arrives later |
| `AlarmActions.CallsMean` | adapters/async-opcua/src/client.rs:2320-2332 | an Acknowledge is answered by the first event with `acked` true, a Confirm by the first with `confirmed` true, an AddComment by the first with the comment; a Good call without an event had no such one |
| `AlarmActions.NoAnswerGrows` | adapters/async-opcua/src/client.rs:2320-2332 | events that did not answer an action still do not when more have arrived |
| `RustAlarms.AlarmStore.constructor` | adapters/async-opcua/src/client.rs:2096-2106 | an empty store before a refresh |
| `RustAlarms.AlarmStore.BeginRefresh` | adapters/async-opcua/src/client.rs:2256-2258 | the refresh starts at the end of what was received so far |
| `RustAlarms.AlarmStore.Add` | adapters/async-opcua/src/client.rs:2108-2137 | one more event: the fields of the store are those that the events so far lead to, and the log only grows |
| `RustAlarms.StoredRepresents` | adapters/async-opcua/src/client.rs:2096-2137 | in every reachable state the log holds the condition events, the indices are in range and stand for the refreshed conditions, the marks are those of the window, and end seen is phase 2 |
| `RustAlarms.StoredBegin` | adapters/async-opcua/src/client.rs:2256-2258 | asking for the refresh touches nothing but the phase |
| `RustAlarms.AlarmStore.Record` | adapters/async-opcua/src/client.rs:2122-2136 | a condition event is logged and, while refreshing, replaces or extends the list of its condition |
| `RustAlarms.AlarmStore.FindCondition` | adapters/async-opcua/src/client.rs:2128-2131 | the first place of a condition in the list, none only if it is not there |
| `RustAlarms.AlarmStore.Take` | adapters/async-opcua/src/client.rs:2139-2145 | the events of the alarm item of a message are added in order, no others |
| `RustAlarms.AlarmStore.Latest` | adapters/async-opcua/src/client.rs:2147-2152 | the last logged event of a condition |
| `RustAlarms.AlarmStore.FindFollowUp` | adapters/async-opcua/src/client.rs:2320-2332 | the first event of the condition from the mark on that answers the action, none only if there is none |
| `RustAlarms.ListedDistinct` | adapters/async-opcua/src/client.rs:2096-2137 | in every reachable state the listed conditions are distinct and every logged event is about a condition |
| `RustAlarms.Drain` | adapters/async-opcua/src/client.rs:2155-2160 | draining empties the queue: everything that was queued when it began is taken in, in order, and nothing is lost |
| `RustAlarms.Receiver.TryRecv` | adapters/async-opcua/src/client.rs:2155-2160 | the next message in order; none is said only of an empty queue |
| `RustAlarms.OwnIs` | adapters/async-opcua/src/client.rs:2139-2145 | an event is taken in exactly if it came under client handle 1 |
| `RustAlarms.LatestNow` | adapters/async-opcua/src/client.rs:2300-2308 | the latest event of the condition among all that were queued when the method is called |
| `RustAlarms.WaitForEnd` | adapters/async-opcua/src/client.rs:2162-2182 | true exactly if the RefreshEnd has been seen; nothing is lost |
| `RustAlarms.WaitForFollowUp` | adapters/async-opcua/src/client.rs:2320-2332 | the first event from the mark on that answers the action, none only if there is none when the wait ends; nothing is lost |
| `RustAlarms.Perform` | adapters/async-opcua/src/client.rs:2296-2343 | the EventId sent is that of the latest event of the target among all that were queued at the call, the follow-up is the first matching one after the mark, a missing one was not in the log, and the Acknowledge is repeated after every Good status |
| `RustAlarms.RunActions` | adapters/async-opcua/src/client.rs:2291-2345 | actions are called in order, each only after the completion of all before it; success is the completion of all that were called; the Acknowledge is repeated exactly if it was Good; every call knew of all condition events queued at the start |
| `RustAlarms.NoAckNoEvent` | adapters/async-opcua/src/client.rs:2320-2332 | an Acknowledge gets no event if no event received says acknowledged |
| `RustAlarms.Refresh` | adapters/async-opcua/src/client.rs:2256-2270 | the window starts after everything that was queued; a refused refresh does not end; an accepted one ends exactly if the RefreshEnd was seen |
| `RustAlarms.OpAlarms` | adapters/async-opcua/src/client.rs:2256-2345 | the whole command: conditions and marks are those of the refresh window, the target is chosen from them, every call reports the answer of the server, every call and every missing event is accounted for in the log, no event is lost; the documented rule for the repeated call is met exactly when a Good Acknowledge got its event, and is broken by a Good Acknowledge when no event received says acknowledged; nothing that was queued before the refresh is in its window |
| `RoundRobin.OrderConserves` | own/go-opcua/client_events.go:320-350 | handing out event by event conserves the events of all lists as a multiset |
| `RoundRobin.ListOrderKept` | own/go-opcua/client_events.go:320-350 | when nothing arrives, the events of each list come out in list order |
| `RoundRobin.EveryListInOrder` | own/go-opcua/client_events.go:320-350 | in every run with any arrivals, what was handed out of a list followed by its rest in the queue is the list, and every list is queued at most once |
| `RoundRobin.HandedFromArrived` | own/go-opcua/client_events.go:320-350 | every event handed out comes from a list that has arrived |
| `RoundRobin.HandRotates` | own/go-opcua/client_events.go:331-336 | handing out takes the first event of the first list and rotates the rests |
| `RoundRobin.OneListInOrder` | own/go-opcua/client_events.go:320-350 | a single list comes out in its order |
| `RoundRobin.OrderIsByRounds` | own/go-opcua/client_events.go:320-350 | the exact order: the heads of all lists, then the same for the rests |
| `RoundRobin.RotateTotal` | own/go-opcua/client_events.go:331-336 | every call takes one event off the number pending |
| `GoAlarms.AlarmRun.HandOut` | own/go-opcua/client_events.go:331-345 | one event is taken from the head list, its rest goes to the back of the channel into the place that was left, and the latest event of its condition is noted |
| `GoAlarms.AlarmRun.Ready` | own/go-opcua/client_events.go:321-330 | notifications without events are dropped, an error or the deadline ends the wait, nothing else is lost or reordered |
| `GoAlarms.AlarmRun.Next` | own/go-opcua/client_events.go:320-350 | one event per successful call: the first of the first list on the channel, with whatever arrived during the call behind it; handed out plus pending plus still to come is conserved; the pending count falls; a call without success takes nothing |
| `GoAlarms.RunIsOrder` | own/go-opcua/client_events.go:320-350 | successful calls without arrivals between them hand out a prefix of the round-robin order |
| `GoAlarms.ReachedTraced` | own/go-opcua/client_events.go:320-350 | whatever happens to the channel (arrivals, drops, events handed out, in any order) is a run of the round-robin queue |
| `GoAlarms.ListsComeOutInOrder` | own/go-opcua/client_events.go:320-350 | in every run of the channel, with arrivals at any moment, every event handed out belongs to one of the lists, and those of each list are a prefix of that list in its order |
| `GoAlarms.OneInFlightInOrder` | own/go-opcua/client_events.go:320-350 | if events are handed out only while one list is on the channel, handed out, pending and still to come stay in the order of arrival |
| `GoAlarms.OneInFlightInTheEnd` | own/go-opcua/client_events.go:320-350 | such a run hands out the lists one after the other |
| `GoAlarms.LatestIndex` | own/go-opcua/client_events.go:342-345 | the map of latest events holds the last event of each condition |
| `GoAlarms.AlarmRun.WaitFor` | own/go-opcua/client_events.go:353-363 | returns at the first event of the condition that matches; fails only without one |
| `GoAlarms.AlarmRun.Perform` | own/go-opcua/client_events.go:390-407 | the call carries the EventId of the latest of all events handed out before it and reports the first matching event after it, or that none came |
| `GoAlarms.AlarmRun.Refresh` | own/go-opcua/client_events.go:463-498 | the slice indexed by id is the refreshed conditions of the events handed out since the refresh, with the marks seen |
| `GoAlarms.Note` | own/go-opcua/client_events.go:480-497 | one event of the refresh: mark, replace by index or append |
| `GoAlarms.AlarmRun.Act` | own/go-opcua/client_events.go:531-557 | one action of the sequence, with the repeated Acknowledge only after its event |
| `GoAlarms.AlarmRun.RunActions` | own/go-opcua/client_events.go:531-558 | the three actions in order, stopping at the first that is not completed |
| `GoAlarms.AlarmRun.Run` | own/go-opcua/client_events.go:503-559 | the whole command: refreshed conditions and marks or nothing if the refresh was refused, target, calls and outcome; the repeated call is reported exactly as documented |
| `CsAlarms.DrainedRepresents` | adapters/dotnet/src/ClientAlarms.cs:262-298 | after any number of processed events the list plus dictionary are the refreshed conditions, the marks and the latest events are those of the log |
| `CsAlarms.LatestIndex` | adapters/dotnet/src/ClientAlarms.cs:281-287 | the latest event of a condition is the last one in the log that counts: marks of the refresh do not |
| `CsAlarms.AlarmLog.Process` | adapters/dotnet/src/ClientAlarms.cs:266-296 | one event moves the cursor by one and changes the variables as the log demands |
| `CsAlarms.AlarmLog.TakeIn` | adapters/dotnet/src/ClientAlarms.cs:268-295 | what one event changes, with or without a refresh going on |
| `CsAlarms.AlarmLog.Drain` | adapters/dotnet/src/ClientAlarms.cs:262-298 | everything that has arrived is processed; an end that was seen stays seen |
| `CsAlarms.AlarmLog.Refresh` | adapters/dotnet/src/ClientAlarms.cs:354-362 | the refresh starts at the end of the log as it was and everything that has arrived is processed; an accepted refresh without its end has run out of time |
| `CsAlarms.AlarmLog.WaitForEnd` | adapters/dotnet/src/ClientAlarms.cs:309-331 | the wait ends early exactly with the first turn that scans something new after the RefreshEnd was processed, otherwise when the time is up |
| `CsAlarms.PassedOver` | adapters/dotnet/src/ClientAlarms.cs:309-331 | a RefreshEnd that arrives between the processing and the scan of a turn does not end the wait if nothing arrives after it |
| `CsAlarms.AlarmLog.WaitForFollowUp` | adapters/dotnet/src/ClientAlarms.cs:309-331 | the first matching event at or after the index, none only if the log has none when the time is up |
| `CsAlarms.AlarmLog.Perform` | adapters/dotnet/src/ClientAlarms.cs:419-431 | the EventId is the latest in the whole log as it was at the call, the follow-up the first match from the later count on |
| `CsAlarms.AlarmLog.Act` | adapters/dotnet/src/ClientAlarms.cs:433-476 | one action of the sequence, with the repeated Acknowledge only after its event |
| `CsAlarms.AlarmLog.RunActions` | adapters/dotnet/src/ClientAlarms.cs:433-477 | the three actions in order, stopping at the first that is not completed |
| `CsAlarms.AlarmLog.Run` | adapters/dotnet/src/ClientAlarms.cs:354-478 | the whole command: the refresh starts at the end of the log, conditions and marks are those of its window, an accepted refresh without its end has run out of time, then target, calls and outcome; the repeated call is reported exactly as documented |
| `PublishLoop.Loop.Take` | adapters/dotnet/src/ClientSession.cs:367-372 | all queued acknowledgements go with the next request, and the queue is empty |
| `PublishLoop.Loop.Receive` | adapters/dotnet/src/ClientSession.cs:373-416 | an answer sends the carried acknowledgements, a fault or cancellation drops them, an answer with data is delivered and held by the worker, nothing else is |
| `PublishLoop.Loop.Queue` | adapters/dotnet/src/ClientSession.cs:417-423 | a delivery with data is queued for acknowledgement |
| `PublishLoop.Loop.Run` | adapters/dotnet/src/ClientSession.cs:363-423 | any interleaving of any number of workers with any answers: the state is that of the schedule and conserved |
| `PublishLoop.RunConserves` | adapters/dotnet/src/ClientSession.cs:363-423 | in every interleaving every delivery with data is in exactly one place: queued, in flight, sent or dropped |
| `PublishLoop.NeverTwiceNorEarly` | adapters/dotnet/src/ClientSession.cs:363-423 | at every moment nothing has left the client more often than it was delivered, and with distinct deliveries nothing leaves twice |
| `PublishLoop.KeepAlivesAreNot` | adapters/dotnet/src/ClientSession.cs:412-423 | a number that came only with keep-alives is never acknowledged |
| `PublishLoop.DeliveredIsData` | adapters/dotnet/src/ClientSession.cs:412-423 | a delivery in the history is an answer with data to a waiting request |
| `PublishLoop.DeliveredExactly` | adapters/dotnet/src/ClientSession.cs:412-423 | the deliveries of a run are the numbers of the answers with data to waiting requests, each once and in the order of the schedule |
| `PublishLoop.DeliveryIsKept` | adapters/dotnet/src/ClientSession.cs:412-423 | every answer with data to a waiting request has its place at every later moment |
| `PublishLoop.SentExactly` | adapters/dotnet/src/ClientSession.cs:373-411 | what was sent is what the answered requests carried, what was dropped is what the failed ones carried, in order |
| `PublishLoop.Round` | adapters/dotnet/src/ClientSession.cs:363-423 | one round of a worker: the whole queue is sent or lost with its request, and an answer with data leaves exactly its own number queued |
| `PublishLoop.RunGrows` | adapters/dotnet/src/ClientSession.cs:363-423 | histories only grow |
| `History.HistoryReadRawModified` | adapters/async-opcua/src/server.rs:707-762 | each node gets its own answer: unsupported, invalid point, or the page from its offset with the next point; a page holds only samples between the two times, both included, and a read of all values every one of them |
| `History.Filter` | adapters/async-opcua/src/server.rs:721-731 | the samples in the optional time range, which `InRangeIs` gives by their times |
| `History.InRangeSplits` | adapters/async-opcua/src/server.rs:721-731 | the filter keeps a sample, at its place, exactly if its time is neither before the start nor after the end |
| `History.InRangeIs` | adapters/async-opcua/src/server.rs:725-729 | a sample is kept exactly if start <= time <= end, as far as these are given |
| `History.InstantIs` | adapters/async-opcua/src/server.rs:721-731 | a range with both ends at one time returns exactly the samples of that time |
| `History.GoContinue` | own/go-opcua/client_history.go:88-134 | all pages from the null point, their items put together, the status of the last, and the last point issued, which is released and sent again, with the statuses of both; a fault of a page, of the release or of the read after it is an error |
| `History.RustFollow` | adapters/async-opcua/src/client.rs:2521-2560 | pages until one is not Good or has no point; the point of the last Good page is released, the null point if it has none, and the last point issued by a Good page is sent again |
| `History.RustContinue` | adapters/async-opcua/src/client.rs:2516-2560 | the same with eight pages at most, two values each unless told otherwise |
| `History.CsRawContinue` | adapters/dotnet/src/ClientSubscriptions.cs:735-765 | the same pages in C#; the last point issued by a Good page is released even when it is used up, the null point if there is none |
| `History.GoRawContinue` | own/go-opcua/client_history.go:192-223 | 64 pages at most, two values each unless told otherwise |
| `History.CsContinue` | adapters/dotnet/src/ClientHistoryEvents.cs:285-331 | pages until a Bad one or the limit; the last point of the pages before the Bad one is released and sent again |
| `History.FollowedIsPages` | own/go-opcua/client_history.go:93-110 | a client that does not stop at Good pages reads exactly the pages of the range |
| `History.PagesAreTheRead` | adapters/async-opcua/src/server.rs:742-761 | the values of the pages put together are the values in range in order, up to the page limit |
| `History.PagesCount` | adapters/async-opcua/src/server.rs:742-761 | the number of requests is the number of pages or the limit; asking for 0 values gives one page |
| `History.PageCountIs` | adapters/async-opcua/src/server.rs:746-751 | the number of pages is the length over the page size rounded up, and one for nothing |
| `History.PagesAreFull` | adapters/async-opcua/src/server.rs:750-757 | every page but the last is full, every issued point lies strictly inside the range, only the last page can be without one |
| `History.PointsIncrease` | adapters/async-opcua/src/server.rs:752-756 | issued points strictly increase |
| `History.PagingIsUnpaged` | adapters/async-opcua/src/server.rs:716-762 | with enough requests paging gives exactly the unpaged read and ends without a point |
| `History.LimitsAgree` | own/go-opcua/client_history.go:93-110 | two page limits show the same pages, and the same values, exactly when the lower one covers the pages |
| `History.RawClientsAgree` | own/go-opcua/client_history.go:192-223 | the raw read of Go gives the same pages and values as that of Rust exactly when eight pages are enough; C# has the limit of Rust |
| `History.RawClientsDiffer` | adapters/async-opcua/src/client.rs:2517-2522 | of 17 values in pages of two Rust reads 16 and Go 17 |
| `History.GoReadsSixtyFourPages` | own/go-opcua/client_history.go:192-223 | in pages of two Go reads all of 128 values, and of 129 the first 128 in 64 pages |
| `History.FirstPages` | own/go-opcua/client_history.go:192-223 | a client with a limit of k pages reads the first k times n of at least as many values |
| `History.EventClientsAgree` | adapters/dotnet/src/ClientHistoryEvents.cs:285-305 | the event reads of Go and C# give the same pages exactly when no continuation point is given, it is the start, or no page may be read |
| `History.ZeroIsTwoInRawReads` | adapters/dotnet/src/ClientHistoryEvents.cs:143-148 | asked for 0 values, an event read and a raw read give the same pages exactly for at most two values |
| `History.ServerPages` | adapters/async-opcua/src/server.rs:707-762 | following the points of the server reads the pages of the samples in range |
| `History.RustRawRead` | adapters/async-opcua/src/client.rs:2516-2560 | the Rust command against the server: all samples in range exactly if eight pages hold them; the point of the last page is released, the last one issued sent again |
| `History.CsRawRead` | adapters/dotnet/src/ClientSubscriptions.cs:735-765 | the C# command against the server reads the pages that Rust reads; the last point issued is released and sent again |
| `History.ReleasesAgree` | adapters/dotnet/src/ClientSubscriptions.cs:758-765 | Rust and C# release the same point exactly when there is one page or the limit cuts the pages off |
| `History.GoRawRead` | own/go-opcua/client_history.go:88-134 | the Go command against the server: an error exactly for a fault at its end, otherwise all samples in range exactly if 64 pages hold them |
| `PubSubMasks.MaskBits` | own/go-opcua/pubsub_desc.go:497-500 | every bit of a mask tests as it was set |
| `PubSubMasks.MaskOr` | own/go-opcua/pubsub_desc.go:757-766 | or-ing with a bit sets it and changes no other |
| `PubSubMasks.MaskNumber` | own/go-opcua/pubsub_desc.go:757-800 | the number of a mask: 1, 2, 4, ... for the members that are there |
| `PubSubMasks.Mark` | own/go-opcua/pubsub_desc.go:757-800 | or-ing a bit into an integer mask if its member is there |
| `PubSubValues.BuildRows` | own/go-opcua/pubsub_desc.go:386-395 | the row-major matrix of a description; an index past the end exactly when there are too few elements |
| `PubSubValues.Walk` | own/go-opcua/pubsub_desc.go:231-254 | the elements of a matrix in row-major order and its dimensions, none without rows |
| `PubSubValues.ValueConvertibleIff` | own/go-opcua/pubsub_desc.go:368-404 | a value converts exactly when it is null or its type is known, its elements are readable and fill the dimensions |
| `PubSubValues.DescribedValue` | own/go-opcua/pubsub_desc.go:220-260 | describing a converted value gives its normal form; a matrix with rows keeps its dimensions and loses elements past them |
| `PubSubValues.DescribedIsStable` | own/go-opcua/pubsub_desc.go:220-404 | a described value reads back as one that is described the same |
| `PubSubValues.NormalValueIsNormal` | own/go-opcua/pubsub_desc.go:220-404 | normalising a value twice changes nothing |
| `PubSubValues.TypeRoundTrip` | own/go-opcua/pubsub_desc.go:161-178 | the type names of the table are read back as their types |
| `PubSubValues.PlainCodecIsLawful` | own/go-opcua/pubsub_desc.go:161-178 | the laws asked of a codec can be met, and the type table meets its own |
| `PubSubDesc.FieldIsNormal` | own/go-opcua/pubsub_desc.go:448-476 | describing the model of a field gives its normal form: DataValue members only where asked for |
| `PubSubDesc.NormalFieldIsNormal` | own/go-opcua/pubsub_desc.go:689-724 | a normal field stays as it is |
| `PubSubDesc.MessageIsNormalUadp` | own/go-opcua/pubsub_desc.go:543-595 | describing the model of a UADP DataSetMessage gives its normal form; `DescribedMeansUadp`, `DescribedFieldUadp` and `DescribedValueUadp` say what that is |
| `PubSubDesc.DescribedMeansUadp` | own/go-opcua/pubsub_desc.go:543-595 | what comes back: `KeyFrame` and `Variant` where nothing was said, the other names as they were, the writer id under the payload header, 16 bits of status and sequence number, all fields of key and delta frames and none of Event and KeepAlive messages |
| `PubSubDesc.DescribedFieldUadp` | own/go-opcua/pubsub_desc.go:580-592 | a field of a key frame is named by its position and has no index, one of a delta frame is named by its index and shows it |
| `PubSubDesc.DescribedValueUadp` | own/go-opcua/pubsub_desc.go:578-592 | status and picoseconds of a field are shown exactly under the DataValue encoding |
| `PubSubDesc.MessageDefaults` | own/go-opcua/pubsub_desc.go:647-671 | a message without a type is a key frame and one without an encoding holds variants |
| `PubSubDesc.MessageMeans` | own/go-opcua/pubsub_desc.go:647-671 | which name gives which type and which encoding, both directions; valid unless refused |
| `PubSubDesc.MessageMasks` | own/go-opcua/pubsub_desc.go:840-882 | the numbers of the UADP and JSON masks of a message, from the members that are there |
| `PubSubDesc.FieldMask` | own/go-opcua/pubsub_desc.go:689-724 | the encoding mask of a DataValue as a number; name and index as given |
| `PubSubDesc.FieldContentMask` | own/go-opcua/pubsub_desc.go:822-826 | a member counts in the field content mask exactly if some field has it; raw data never does |
| `PubSubDesc.NormalMessageStaysUadp` | own/go-opcua/pubsub_desc.go:802-862 | a normal UADP DataSetMessage stays as it is |
| `PubSubDesc.ShiftUpDown` | own/go-opcua/pubsub_desc.go:850-853 | shifting a status up and down again keeps its lower 16 bits |
| `PubSubDesc.ConvertibleIff` | own/go-opcua/pubsub_desc.go:802-838 | a DataSetMessage converts exactly when its type, encoding, time, values and field times are known |
| `PubSubDesc.PublisherRoundTrip` | own/go-opcua/pubsub_desc.go:122-153 | a printed publisher id reads back as itself |
| `PubSubDesc.PublisherMeans` | own/go-opcua/pubsub_desc.go:134-153 | a publisher id converts exactly if it is a JSON text, or 64 bits of digits with or without quotes under one of four type names, and to which of them |
| `PubSubUadp.DescribedIsNormal` | own/go-opcua/pubsub_desc.go:497-597 | describing the UADP message of a description gives the explicit normal form, whatever the metadata names |
| `PubSubUadp.HeaderNumber` | own/go-opcua/pubsub_desc.go:757-800 | the number of the UADP mask; the payload header counts unless it is refused |
| `PubSubUadp.NormalIsNormal` | own/go-opcua/pubsub_desc.go:728-800 | the UADP normal form converts and normalising it again changes nothing |
| `PubSubUadp.ConvertibleIff` | own/go-opcua/pubsub_desc.go:728-800 | a description converts to a UADP message exactly when its publisher id, time, promoted fields and messages do |
| `PubSubJson.DescribedIsNormal` | own/go-opcua/pubsub_desc.go:603-641 | describing the JSON message of a description gives its own normal form: UInt64 numbers, writer ids always, full status, both version numbers |
| `PubSubJson.HeaderMeans` | own/go-opcua/pubsub_desc.go:740-749 | the number of the JSON mask: both headers always |
| `PubSubJson.DescribedMeans` | own/go-opcua/pubsub_desc.go:620-622 | a JSON message comes back with its type in full, as DataValue, valid and without picoseconds |
| `PubSubJson.DescribedNumbers` | own/go-opcua/pubsub_desc.go:620-632 | writer id always, sequence number and status uncut |
| `PubSubJson.DescribedFields` | own/go-opcua/pubsub_desc.go:633-636 | every field comes back under its own name, with its members and without an index, whatever the message type |
| `PubSubJson.NormalIsNormal` | own/go-opcua/pubsub_desc.go:728-755 | the JSON normal form converts and normalising it again changes nothing |
| `PubSubJson.ConvertibleIff` | own/go-opcua/pubsub_desc.go:728-755 | a description converts to a JSON message exactly when its publisher id and messages do |
| `PubSubConvert.BuildVariant` | own/go-opcua/pubsub_desc.go:368-404 | the Variant of a description value, with both ways to fail |
| `PubSubConvert.DescribeVariant` | own/go-opcua/pubsub_desc.go:220-260 | the description of a Variant |
| `PubSubConvert.BuildField` | own/go-opcua/pubsub_desc.go:689-724 | each member of a field sets its bit in the integer mask of the value and in that of the message |
| `PubSubConvert.BuildFields` | own/go-opcua/pubsub_desc.go:827-831 | all fields of a message with their integer mask, in which a bit is set exactly when some field has its member, the raw-data bit never; the first failure decides |
| `PubSubConvert.StatusAndMasks` | own/go-opcua/pubsub_desc.go:840-881 | the integer masks of a DataSetMessage in either mapping and the shifted status |
| `PubSubConvert.BuildMessage` | own/go-opcua/pubsub_desc.go:802-838 | the model of a DataSetMessage: its type and encoding by their names, with a default where none is given, and its masks by their numbers |
| `PubSubConvert.HeaderMask` | own/go-opcua/pubsub_desc.go:757-800 | the integer mask of a UADP header: a bit is set exactly when its member is there, the payload header by default |
| `PubSubConvert.HeaderMaskJson` | own/go-opcua/pubsub_desc.go:740-749 | the integer mask of a JSON header: both headers always, publisher and class id when they are there |
| `PubSubConvert.DescribeField` | own/go-opcua/pubsub_desc.go:448-476 | the description of a field, its DataValue members by testing the bits of the mask |
| `PubSubConvert.BuildUadp` | own/go-opcua/pubsub_desc.go:728-800 | the UADP message of a description, or the first failure |
| `PubSubConvert.BuildJson` | own/go-opcua/pubsub_desc.go:728-755 | the JSON message of a description, or the first failure |
| `PubSubConvert.DescribeFieldsUadp` | own/go-opcua/pubsub_desc.go:577-594 | names by position or index, nothing for KeepAlive and Event |
| `PubSubConvert.DescribeMessageUadp` | own/go-opcua/pubsub_desc.go:543-595 | the description of a UADP DataSetMessage bit by bit |
| `PubSubConvert.DescribeUadp` | own/go-opcua/pubsub_desc.go:497-597 | the description of a UADP message |
| `PubSubConvert.DescribeMessageJson` | own/go-opcua/pubsub_desc.go:618-639 | the description of a JSON DataSetMessage |
| `PubSubConvert.DescribeJson` | own/go-opcua/pubsub_desc.go:603-641 | the description of a JSON message |
| `PubSubConvert.NormaliseUadp` | own/go-opcua/pubsub_desc.go:497-800 | building and describing a UADP message is the normaliser |
| `PubSubConvert.NormaliseJson` | own/go-opcua/pubsub_desc.go:603-755 | building and describing a JSON message is the normaliser |
| `Matrix.BuildMatrix` | own/go-opcua/fixture.go:113-130 | fails exactly for a wrong number of items, an unreadable item or no row; otherwise every item is in its row-major place |
| `Matrix.FlattenRows` | own/go-opcua/pubsub_desc.go:386-395 | flattening the rows gives back the elements they were made of |
| `Matrix.RowsFlatten` | own/go-opcua/pubsub_desc.go:231-254 | the rows of a flattened matrix are its rows |
| `Matrix.RowsAt` | own/go-opcua/pubsub_desc.go:388-392 | element (i, j) is element i * c + j |
| `Matrix.FlattenValue` | own/go-opcua/client_codec.go:162-176 | a list of lists is joined, anything else stays, an empty result is null |
| `Matrix.BuildThenFlatten` | own/go-opcua/client_codec.go:162-176 | for positive dimensions building and flattening is the identity |
| `Base64.DecodeEncode` | adapters/async-opcua/src/nodeid.rs:7-15 | decoding inverts encoding on every byte string |
| `Base64.EncodeDecode` | adapters/async-opcua/src/nodeid.rs:11-15 | decoding is strict: what decodes is the encoding of what it decodes to |
| `Base64.AlphabetIs` | adapters/async-opcua/src/nodeid.rs:7-9 | the alphabet: A to Z, a to z, 0 to 9, plus and slash |
| `Base64.EncodeByGroup` | adapters/async-opcua/src/nodeid.rs:7-9 | three bytes are four characters, group by group (section 4 of RFC 4648) |
| `Base64.EncodeRest` | adapters/async-opcua/src/nodeid.rs:7-9 | one byte left over is two characters and two equals signs, two bytes are three and one |
| `Pem.PemBlocks` | adapters/async-opcua/src/pki.rs:30-45 | the byte strings of all blocks with the tag |
| `Pem.WrapKey` | adapters/async-opcua/src/pki.rs:74-82 | the key in lines of 64 characters between the markers |
| `Pem.LinesAt` | adapters/async-opcua/src/pki.rs:77-80 | every 65th character of the body ends a line and so does the last; between them is the text |
| `Pem.WrapThenScan` | adapters/async-opcua/src/pki.rs:67-83 | wrapping a byte string and scanning it gives back exactly that byte string |
| `Pem.BlocksOfFile` | adapters/async-opcua/src/pki.rs:30-45 | a text of several blocks gives all of them in order, with any leads in which no begin marker starts and any bodies in which no end marker starts |
| `Pem.FoundIffMarkerFree` | adapters/async-opcua/src/pki.rs:30-45 | if no end marker comes before its own, a block that decodes is found if and only if no begin marker starts in the text before it, and is lost otherwise |
| `Pem.AllFoundIffMarkerFree` | adapters/async-opcua/src/pki.rs:30-45 | the same for a whole file: all its blocks are found if and only if no begin marker starts in the text before any of them |
| `Pem.DashedBody` | adapters/async-opcua/src/pki.rs:38-43 | a body with a dash in it gives no bytes |
| `Pem.StraddlingLead` | adapters/async-opcua/src/pki.rs:30-45 | a lead that merely does not contain the marker is not enough: cut before its last dashes it makes the next block disappear |
| `NodeIds.FmtExpandedNodeId` | adapters/async-opcua/src/nodeid.rs:36-48 | the canonical text of an ExpandedNodeId |
| `NodeIds.FullText` | adapters/async-opcua/src/nodeid.rs:17-48 | the full text of every kind of identifier, with `svr=`, `nsu=` and `ns=` where they belong |
| `NodeIds.FindIdentifierSep` | adapters/async-opcua/src/nodeid.rs:123-130 | the first occurrence of the first of the markers i, s, g, b that occurs at all |
| `NodeIds.NodeIdRoundTrip` | adapters/async-opcua/src/nodeid.rs:133-143 | a NodeId survives printing and parsing exactly when its identifier is not a null string |
| `NodeIds.FmtNodeIdInjective` | adapters/async-opcua/src/nodeid.rs:27-33 | the canonical text identifies a NodeId with a non-null identifier |
| `NodeIds.SeparatorFound` | adapters/async-opcua/src/nodeid.rs:123-130 | the separator is found behind the URI exactly when no marker up to the identifier's own is in the URI and no `;i=` in a string identifier |
| `NodeIds.ExpandedRoundTrip` | adapters/async-opcua/src/nodeid.rs:145-170 | an ExpandedNodeId survives printing and parsing if and only if its identifier is not null and it has no URI, or namespace 0 and a separable non-empty URI |
| `NodeIds.AcceptedIsPreserved` | adapters/async-opcua/src/nodeid.rs:145-170 | everything the parser accepts is preserved: formatting after parsing is idempotent |
| `NodeIds.StandardLawful` | adapters/async-opcua/src/nodeid.rs:7-25 | Base64 byte strings meet what the round trips need of the codec |
| `Push.GoOptions` | own/go-opcua/client_push.go:104-144 | apply and cancel exclude each other; creating or deleting without apply implies cancel |
| `Push.CsOptions` | adapters/dotnet/src/ClientPush.cs:108-111 | apply wins over cancel, which creating or deleting implies |
| `Push.Session.Do` | own/go-opcua/client_push.go:203-216 | a step records its status and the command goes on exactly if it was Good |
| `Push.Session.GoChanges` | own/go-opcua/client_push.go:315-366 | the change steps up to ResetToServerDefaults in their order, stopping at the first that fails; which flag asks for which step is in `GoStepsFollowFlags` |
| `Push.Session.GoFinish` | own/go-opcua/client_push.go:289-312 | diagnostics also after a failed apply; the trust list again only if all went well |
| `Push.Session.GoRun` | own/go-opcua/client_push.go:271-312 | the whole command is the run of its options on the server |
| `Push.Session.CsChanges` | adapters/dotnet/src/ClientPush.cs:264-342 | the same change steps behind one flag; which flag asks for which step is in `CsStepsFollowFlags` |
| `Push.Session.CsRun` | adapters/dotnet/src/ClientPush.cs:228-387 | the whole C# command is the run of its options on the server |
| `Push.GoPush` | own/go-opcua/client_push.go:80-312 | from flags to steps and success; refused exactly for apply together with cancel, and then without any step; every step has its own flag, and a success did the step of every flag |
| `Push.CsPush` | adapters/dotnet/src/ClientPush.cs:48-387 | from flags to steps and success; every step has its own flag, and a success did the step of every flag |
| `Push.CarriedInOrder` | own/go-opcua/client_push.go:315-366 | the steps of a run are wanted ones in the fixed order, and only the last can have failed |
| `Push.NothingAfterFailure` | own/go-opcua/client_push.go:256-366 | after a failed step nothing follows but the diagnostics of a failed ApplyChanges |
| `Push.NeverBoth` | own/go-opcua/client_push.go:282-288 | ApplyChanges and CancelChanges are never both called |
| `Push.SuccessIsComplete` | own/go-opcua/client_push.go:303-312 | the trust list is read again, Good, exactly if the run succeeds; a successful run did every step of its options, which the two lemmas below give flag by flag |
| `Push.GoStepsFollowFlags` | own/go-opcua/client_push.go:257-366 | for every server and flags: a step is there only if its own flag is, and is there for every flag when all went well; cancel is implied by creating or deleting without apply |
| `Push.CsStepsFollowFlags` | adapters/dotnet/src/ClientPush.cs:264-387 | the same of C#, where an empty `--remove-certificate` is a step and nothing is refused |
| `Push.FullRun` | own/go-opcua/client_push.go:257-366 | with every flag and only Good answers, the thirteen steps of both adapters in their order |
| `Push.CreatedIsCancelled` | own/go-opcua/client_push.go:141-144 | a successful run that created or deleted without apply has cancelled |
| `Push.DiagnosticsWhen` | own/go-opcua/client_push.go:289-302 | diagnostics are read exactly when asked for and nothing failed before or apply was attempted |
| `Push.LeftPending` | own/go-opcua/client_push.go:256-366 | a successful run leaves a transaction open exactly when it updated a certificate and neither applied nor cancelled |
| `Push.AdaptersAgree` | adapters/dotnet/src/ClientPush.cs:264-373 | same flags and answers give the same steps in Go and C# if and only if apply and cancel are not both given and there is no empty remove flag that the run gets to |
| `Push.EmptyRemoveDiffers` | own/go-opcua/client_push.go:315-366 | an input with an empty remove flag for which the steps differ |
| `Push.ApplyWithCancelDiffers` | own/go-opcua/client_push.go:104-106 | an input with apply and cancel for which the steps differ |
| `Push.RemoveReached` | own/go-opcua/client_push.go:315-366 | a run gets to RemoveCertificate exactly when the trust list was read and a certificate to add was added |
| `Push.TrustListFile.ReadAll` | adapters/dotnet/src/ClientPush.cs:461-503 | the whole file exactly if no read failed, nothing otherwise; the file is closed either way |
| `AddNodes.Server.Add` | adapters/async-opcua/src/server.rs:773-822 | one item: the first failing check decides, a refused item changes nothing but the counter |
| `AddNodes.Server.AddNodes` | adapters/async-opcua/src/server.rs:766-825 | a batch is its items one after the other |
| `AddNodes.BatchesCompose` | adapters/async-opcua/src/server.rs:772-824 | several batches are one run of their items |
| `AddNodes.IdsAreFresh` | adapters/async-opcua/src/server.rs:772-824 | over any run the ids given out are new, pairwise distinct and in the namespace, and the space grows by exactly them |
| `AddNodes.RefusedChangesNothing` | adapters/async-opcua/src/server.rs:782-818 | a refused item leaves nodes and references as they were; an accepted one is linked to its parent |
| `AddNodes.AcceptedIff` | adapters/async-opcua/src/server.rs:774-818 | an item is accepted exactly if its id, requested or generated, is in the namespace and free, its parent is there and its class and attributes are good; each refusal has its own condition |
| `AddNodes.CounterIs` | adapters/async-opcua/src/server.rs:774-779 | the counter counts the items that ask for a generated id, accepted or not, and wraps at 32 bits |
| `AddNodes.GeneratedDiffer` | adapters/async-opcua/src/server.rs:774-779 | no two items of a run less than 2^32 apart are offered the same generated id |
| `AddNodes.ReachesInitial` | adapters/async-opcua/src/server.rs:789-814 | every node reaches a node of the initial space by finitely many parent references |
| `PubSubConfig.ResolveNamespaces` | own/go-opcua/server_pubsub.go:121-154 | succeeds exactly when every `nsu=` string is well formed with a known URI, in any order of members, and replaces exactly those |
| `PubSubConfig.ResolveUri` | own/go-opcua/server_pubsub.go:124-136 | `nsu=U;R` becomes `ns=I;R` with the index I of U, and is not read when U is unknown |
| `PubSubConfig.NoSemicolon` | own/go-opcua/server_pubsub.go:124-130 | `nsu=` without a semicolon is not read |
| `PubSubConfig.ResolvedValue` | own/go-opcua/server_pubsub.go:121-154 | leaves no `nsu=` string, keeps the shape and all other strings, and is idempotent |
| `PubSubConfig.MoveUnicastAddress` | own/go-opcua/server_pubsub.go:184-212 | succeeds exactly when all addresses are URLs with one URL and there are no readers; the last address moves to the connection and none is left behind |
| `PubSubConfig.ConfigureKeys` | own/go-opcua/server_pubsub.go:301-359 | succeeds exactly when every listed group is acceptable; sets the local sources and switches on the services they need |
| `PubSubConfig.GroupSource` | own/go-opcua/server_pubsub.go:306-346 | static keys, own key service, nothing yet for a remote one, or a push ring |
| `PubSubConfig.StartSksClient` | own/go-opcua/server_pubsub.go:377-405 | pulls exactly the groups without keys, if there is a remote service and no own one |
| `PubSubConfig.EverySourceOnce` | own/go-opcua/server_pubsub.go:301-405 | what is skipped is exactly what is pulled: an id gets as many sources as it is listed |
| `PubSubConfig.DistinctIds` | own/go-opcua/server_pubsub.go:301-405 | with distinct ids every id is listed once |
| `PubSubConfig.OneSourceEach` | own/go-opcua/server_pubsub.go:301-405 | with distinct ids every listed group gets exactly one source, and it is the one its settings ask for |
| `PubSubConfig.TheSourceIs` | own/go-opcua/server_pubsub.go:301-405 | the source is static exactly with keys of its own, else this server with `serveSks`, else a remote service with a client for it, else the key push |
| `PubSubConfig.CheckGroups` | own/go-opcua/server_pubsub.go:276-294 | passes exactly when every non-empty SecurityGroupId in use is known |
| `PubSubConfig.ConfigurePubSub` | own/go-opcua/server_pubsub.go:156-273 | a file is accepted exactly when every `nsu=` string names a known namespace, the configuration decodes, its groups are acceptable, the key services they need can be switched on, and its connections have one destination and only listed ids; every connection is then the moved one and the key sources are the local ones |
| `ContentFilter.GoWhere` | own/go-opcua/client_events.go:49-85 | a well-formed filter that passes exactly the events of the type and of the severity sent in 16 bits |
| `ContentFilter.CsWhere` | adapters/dotnet/src/ClientHistoryEvents.cs:58-96 | a well-formed filter that passes exactly the events asked for |
| `ContentFilter.BothPass` | own/go-opcua/client_events.go:49-85 | an event passes the filter exactly if it is of the type or a subtype and at least as severe as asked for |
| `ContentFilter.RustWhere` | adapters/async-opcua/src/client.rs:1843-1868 | well formed exactly without both flags; with both, only the type counts |
| `ContentFilter.GoSeverityExact` | own/go-opcua/client_events.go:66-74 | the Go filter means what was asked for exactly when the severity fits in 16 bits |
| `ContentFilter.RustSeverityIgnored` | adapters/async-opcua/src/client.rs:1860-1868 | with both flags in Rust the severity makes no difference only when it is 0 |
| `ContentFilter.WellFormedHasValue` | own/go-opcua/client_events.go:46-48 | a well-formed filter can be evaluated from every element |
| `Verdict.Convert` | scripts/write-results.py:69-99 | the results in order, and per waiver id whether some record reproduced it |
| `Verdict.Problems` | scripts/interop_result.py:70-83 | the problems are exactly the failures and infrastructure errors, with a gate those that involve it, the stale waivers and too few passes |
| `Verdict.Judge` | scripts/interop_result.py:70-83 | the run is good exactly when no result failed, every waiver reproduces in some record and enough results pass |
| `Verdict.OnePassIsEnough` | scripts/interop_result.py:70-83 | with the usual floor: exactly when also some result passed |
| `Verdict.OrderDoesNotMatter` | scripts/write-results.py:69-99 | the verdict is the same for every order of the records |
| `Verdict.Summarize` | scripts/interop_result.py:63-67 | the summary counts each outcome |
| `Verdict.SummaryAddsUp` | scripts/interop_result.py:63-67 | the counts add up to the number of results |

## Left out

- Sessions, secure channels, sockets, MQTT and UDP, endpoint selection, reverse connect: thin use of stacks that are not shown.
- Clocks: a timeout may strike at any step, so nothing is said about how long a wait lasts.
- Text of times, GUIDs, floating-point numbers and JSON strings: a codec with laws (printing what was read back prints the same).
- X.509, signatures, key generation, TLS, PKI directories, ready files and logging: foreign calls or I/O.
- The stacks' own UADP, JSON, XML and binary encoders. The boxing of Go slices of bytes as a ByteString is part of the model of PubSub values.
- The continuation-point store of the Rust stack: a point is its offset, or one the server does not know; releasing a point is only the choice of the point that is sent.
- Failures of the stack behind `configurePubSub` when a data set or a connection is added and the MQTT version and key-frame settings of a connection.
- The resolution of namespace URIs of a `push` type against the server, and the content of the push results.
- Subscriptions, reads, writes, browsing, method calls and event subscriptions other than their filter: one stack call each.
- Capability documents, argument tables, status-name tables and the layout of the result JSON: data.
- PublishLoop: the calls of the notification handlers after a delivery are not modelled, because their order across workers is not promised.
- PubSubDesc.PublisherRoundTrip: the publisher id constructor of the stack is taken to keep the number it is given, so numbers wider than their type are not cut.
- Push.GoOptions: the other input errors of the push flags (an unknown group or type, a file that cannot be read, a number or key format that does not fit) are not modelled, because they are checks of one flag each that end the command before any step.
- GoAlarms.AlarmRun.HandOut: taking a list from the channel of 4096 places and writing its rest back is one step. In between the client library may fill the place that was left, and then the write back waits; this can happen only with all 4096 places taken.
- Push.TrustListFile.ReadAll: an error of the closing call is not modelled, because the source ignores it.
- History.GoContinue: a page whose items the client cannot decode also ends the command in the source; pages hold items here.
