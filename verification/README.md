# A verified model of libevent's core and of the list in `inc/list.h`

The repository builds on libevent 2.0. This project models the parts of it where something can go wrong that no single
function shows: an event loop that other threads interrupt, changes to file descriptors that are saved up, DNS messages
with compression pointers, buffers made of linked chains, bandwidth limits with timers and locks, a hash table that is
rebuilt in place, and a tagged wire format. It proves, for every input and for every run, that each of these does what
its simple description says.

| file | models | main results |
|---|---|---|
| `EventQueues.dfy`, `EventTimeouts.dfy`, `EventLoop.dfy` | the queues, timeouts and loop of `event.c` | `ExpireAll`, `NoLostWakeup`, `SleepOnTime`, `EventBase.Take`, `Run` |
| `EventRuns.dfy` | whole runs of the loop | `ActivationSeen`, `RunInOrder`, `OneQueueAtATime`, `BreakStops`, `SleepsTooLong` |
| `EventTimers.dfy` | the life of one event over whole runs | `RunsAgain`, `KeepsRhythm`, `DeletedIsSilent`, `TimeoutStays` |
| `EventBackend.dfy` | the loop with its fd map and epoll | `AllWatched`, `CountsAre`, `KernelsAgree`, `Run` |
| `Changelist.dfy` | the fd map, the changelist and epoll | `ApplyOneExact`, `DirectExact`, `Run` |
| `DnsName.dfy`, `DnsCompression.dfy` | domain names on the wire | `NameParse`, `CompressionRoundTrip`, `RepeatedName`, `SharedSuffix`, `DnsnameToLabels` |
| `DnsMessage.dfy`, `DnsRoundTrip.dfy`, `DnsReplies.dfy`, `DnsServer.dfy` | DNS responses, written and read | `ReplyRoundTrip`, `PtrRoundTrip`, `MessageReads`, `SentWhole`, `FormatResponse`, `ReplyParse` |
| `DnsRequests.dfy` | requests in flight and waiting | `DnsBase.Find`, `DnsBase.Pump`, `DnsBase.Suspend` |
| `DnsRuns.dfy` | whole runs of the request queues | `Run`, `NobodyWaitsInVain`, `NoOvertaking`, `FirstCome`, `NeverOverfull` |
| `EvBlocks.dfy`, `EvBuffer.dfy`, `EvBufferRun.dfy` | evbuffers, with their chains on the heap | `EvBufferRun.Run` and one method for each operation |
| `EvSearch.dfy` | searching an evbuffer | `SearchRange`, `SearchEolCrLf` |
| `RateLimit.dfy`, `RateGroup.dfy` | token buckets, suspension, groups | `CreditExact`, `TakenBound`, `Group.NotStranded`, `Group.RefillTwice` |
| `RateRuns.dfy` | whole runs of a group | `Run`, `GroupBound`, `FairUse`, `SuspendedBriefly`, `StaysStopped`, `RunThenRefill` |
| `HashTable.dfy` | the hash table of `ht-internal.h` | `RelinkInPlace`, `BadWhenOverfull`, the methods of `HashSet` |
| `Tagging.dfy` | tagged records | `StreamRoundTrip`, `PeekIsDrained`, `PeekTellsPresence` |
| `ListHead.dfy` | the list of `inc/list.h` | a method for each operation, `PrependKeeps` |
| `Common.dfy`, `Lists.dfy` | shared vocabulary | |

`dafny verify dfyconfig.toml` checks everything.

## How the model relates to the source

* Code that changes things step by step is a class or a method with the same loops and branches; what it computes is
  given by a function or a predicate that is defined without it.
* A lock becomes a step: a method that runs under a lock is one step, and a driver (`EventLoop.Run`,
  `EventBackend.Run`, `RateRuns.Run`) takes any steps in any order. The loop thread gives up the base lock while it waits and while a callback runs, so each
  of these is a point where other threads can come in. The drain callback is two steps, since it reads the wake-up fd
  before it takes the lock.
* A driver returns the trace of its run: the state after each step. A predicate (`Did`) says step by step how one state
  leads to the next, and the results about runs are about such traces.
* Clocks, random numbers, what the kernel reports, and which try-locks fail are parameters.
* Where the code and its comments disagree, the code is followed. The comment on the format in `event_tagging.c` says that
  integers are big-endian; the code writes the least significant nibble, and the least significant seven bits of a tag,
  first. The comment on `name_parse` knows of labels and pointers only; the code takes the reserved lengths 64 to 191 for
  pointers too.

Some promises hold only under a condition, which is stated as an equivalence, most with an input at which they fail:

* A domain name comes back from the encoder and the decoder unchanged if and only if it has no empty label before its end
  (`JoinLabels`, `CompressionRoundTrip`); a trailing dot is lost (`TrailingDotLost`).
* The encoder writes its terminating zero without looking for room. It goes one octet past the end of the buffer if and
  only if the name does not end in a pointer, its last label is not empty, and this label fills the buffer
  (`TerminatorBeyond`, `ZeroBeyond`). The encoder of the model may be called wherever what it writes fits.
* The divide-first update of a bucket gives the capped sum if and only if the limit is not above the maximum, or the ticks
  make up for the wrap-around (`CreditExact`); a limit above the maximum grows on (`CreditAbove`).
* The wait for the next timeout is computed from a time that was noted before the callbacks ran, but starts after them. It
  ends within a millisecond of the deadline if and only if the callbacks took less than what rounding and the longest wait
  leave over (`SleepOnTime`); a callback that runs for five seconds makes the loop five seconds late (`SleepsTooLong`, and
  `SlowRun`, which gets there).
* The announced length of a record tells whether the record can be consumed if and only if the sum of length and header
  does not wrap around to something that is there, and the length is not the one that reads as an error
  (`PeekTellsPresence`, `PeekWraps`).
* `list_prepend` always leaves a ring, of the head, the first node and the new one. It keeps the nodes of the list if and
  only if there was at most one (`PrependKeeps`); with two, the second is lost (`PrependLoses`).
* The hash table is sound for its own check if and only if it holds no more than the load limit of the largest table
  (`BadWhenOverfull`).

## Model

| member | source | states |
|---|---|---|
| EventQueues.InsertInsertedOk | libevent/event.c:2591-2630 | after putting an event on the inserted list, every flag still mirrors its queue and the counters count what is queued |
| EventQueues.RemoveInsertedOk | libevent/event.c:2521-2557 | the same after taking it off |
| EventQueues.InsertActiveOk | libevent/event.c:2591-2630 | the same for the active queue of the event's priority |
| EventQueues.RemoveActiveOk | libevent/event.c:2521-2557 | the same for taking it off |
| EventQueues.InsertTimeoutOk | libevent/event.c:2591-2630 | the same for the heap or a common-timeout list, which stays sorted |
| EventQueues.RemoveTimeoutOk | libevent/event.c:2521-2557 | the same for taking it off |
| EventQueues.InsertInOrder | libevent/event.c:2560-2588 | the search from the end finds the place behind the last deadline that is not later |
| EventQueues.DelOk | libevent/event.c:2215-2286 | deleting an event takes it off every queue and keeps flags, queues and counters in step |
| EventQueues.ActivateOk | libevent/event.c:2307-2345 | activating does too; an event that is active already only collects the reason |
| EventTimeouts.RetimeOk | libevent/event.c:2107-2183 | setting a timeout anew, wherever the event was, keeps flags, queues and counters in step |
| EventTimeouts.RetimeFronts | libevent/event.c:2107-2183 | it keeps every common list looked after, except the one the event now heads |
| EventTimeouts.ScheduleOk | libevent/event.c:1145-1155 | putting the front event of that list into the heap mends this |
| EventTimeouts.DelFronts | libevent/event.c:2215-2286 | deleting an event keeps every list looked after |
| EventTimeouts.ActivateFronts | libevent/event.c:2307-2345 | so does activating any event |
| EventTimeouts.FireFronts | libevent/event.c:2494-2518 | so does the expiry of any event, front events included |
| EventTimeouts.TimeoutProcess | libevent/event.c:2494-2518 | exactly the heap events whose deadline has come become active because of it, leave every other queue and are otherwise as they were; events that become active go behind those that are |
| EventTimeouts.CommonCallback | libevent/event.c:1157-1177 | the same for the due events of the list, and the rest of the list is looked after again |
| EventTimeouts.ExpireAll | libevent/event.c:2494-2518 | the heap and the callbacks of the front events together do this to exactly the user events whose deadline has come, as one sorted collection would: each is active by its timeout, is neither added nor timed, and keeps deadline, common timeout, priority and kind |
| EventLoop.NoLostWakeup | libevent/event.c:1600-1636 | in every state that satisfies the invariant: if the loop thread sleeps and the wake-up fd is not readable, then no event is active, no callback is deferred, no break is wanted, the backend knows every fd, and the sleep ends less than a millisecond after any timeout at either level, plus the time since the cached time was noted, which is nothing when times are not cached |
| EventLoop.QuietKeeps | libevent/event.c:2215-2286 | a call that takes events off the queues and sets no earlier deadline keeps the invariant without waking anybody |
| EventLoop.WokenKeeps | libevent/event.c:2029-2038 | any other call keeps it by waking the loop thread, even if a wake-up is pending already |
| EventLoop.PollKeeps | libevent/event.c:1588-1626 | going to sleep keeps it, whatever the cached time |
| EventLoop.SleepOnTime | libevent/event.c:2398-2432 | when the loop goes to sleep, the sleep ends where the first deadline, the cached time and the current time put it, and within a millisecond of the deadline if and only if the sleep began late by less than what rounding and the longest wait leave over |
| EventLoop.Run | libevent/event.c:1555-1661 | any interleaving of calls and loop steps, with or without cached times, also when the backend fails, is interrupted, or reports only some of what is ready: each step does what `Did` says, the base ends in the last state of the trace, and in no state of it a wake-up has been lost |
| EventLoop.EventBase.constructor | libevent/event.c:552-654 | a new base satisfies the invariant |
| EventLoop.EventBase.Notify | libevent/event.c:2029-2038 | one write for any number of wake-ups until the fd has been drained |
| EventLoop.EventBase.EventAdd | libevent/event.c:2045-2190 | exactly this user event changes, and how; a failure of the fd map changes nothing; the loop thread is woken if the first deadline moves forward or an fd changes |
| EventLoop.EventBase.EventDel | libevent/event.c:2215-2286 | the event is off every queue, nothing else changes, no wake-up is lost |
| EventLoop.EventBase.EventActive | libevent/event.c:2307-2345 | the event is at the end of its queue unless it was active already, nothing else changes, no wake-up is lost and no priority inverted |
| EventLoop.EventBase.DeferSchedule | libevent/event.c:2376-2394 | one more deferred callback, no wake-up lost |
| EventLoop.EventBase.LoopBreak | libevent/event.c:1508-1524 | the break is noted, no wake-up lost |
| EventLoop.EventBase.StartLoop | libevent/event.c:1555-1586 | only one thread can be in the loop |
| EventLoop.EventBase.PollStart | libevent/event.c:1588-1626 | the loop returns 1 exactly when no user event is on any queue, none is active and nothing is deferred; otherwise it polls when something is due or waits, from now on, for exactly the time from the cached time to the first deadline, rounded up to a millisecond and cut at 35 minutes |
| EventLoop.TimeoutNext | libevent/event.c:2398-2432 | it polls exactly when a deadline has come by the time it looks at, and else waits for exactly the time from then to the first deadline, rounded up to a millisecond and cut; counted from that time, the wait ends less than a millisecond after every deadline, and not before the first unless cut |
| EventLoop.EventBase.PollEnd | libevent/event.c:1626-1643 | exactly the events the backend reports and those that are due become active; a wake-up that is reported makes its event active, one that is not stays to be read; the time is noted |
| EventLoop.EventBase.PollFails | libevent/event.c:1626-1632 | when the backend fails, the loop returns -1 and no event changes |
| EventLoop.EventBase.Choose | libevent/event.c:1428-1448 | the queues are looked at in order, and the ones passed are empty |
| EventLoop.EventBase.Take | libevent/event.c:1330-1388 | no priority inversion: the first event of its queue is taken, and no active event has a better priority, whatever callbacks and other threads have activated; the other active events keep their order; what it makes of a persistent event over a run is stated by `EventTimers.RunsAgain` |
| EventLoop.NextRun | libevent/event.c:1257-1310 | a persistent event is never set to a time that has passed; one that ran by its timeout keeps its rhythm, unless it is late by more than its period, and is never set later than a period from now |
| EventLoop.EventBase.CallbackEnds | libevent/event.c:1375-1387 | after a break, or an activation of better priority, the queue is left |
| EventLoop.EventBase.FrontCallbackRuns | libevent/event.c:1157-1177 | the callback of a front event, run between other threads' calls, fires exactly the due events of its list |
| EventLoop.EventBase.DrainRead | libevent/event.c:2749-2759 | the fd is emptied without the lock, and still no wake-up is lost |
| EventLoop.EventBase.DrainClear | libevent/event.c:2761-2763 | then the pending flag is cleared, and still no wake-up is lost |
| EventLoop.EventBase.NextDeferred | libevent/event.c:1397-1411 | deferred callbacks are taken one at a time |
| EventLoop.EventBase.DeferredEnds | libevent/event.c:1411-1421 | at most 16 of them before the loop polls again |
| EventRuns.ActivationSeen | libevent/event.c:1313-1390 | over any run: whenever the loop thread sleeps and nobody has woken it, every user event that was active at some time has since, while active, been taken for its callback, or deleted, or had the timeout that made it active set anew |
| EventRuns.RunInOrder | libevent/event.c:2591-2630 | over any run: whoever is taken for its callback while another event is active, and has been since some time, is of a better priority or was ahead of it in its queue already then; only an event whose deadline comes while it is active loses its place |
| EventRuns.OneQueueAtATime | libevent/event.c:1428-1465 | over any run: between two waits the loop thread runs user events of one priority only |
| EventRuns.BreakStops | libevent/event.c:1508-1524 | over any run: after a break has been asked for, at most one more callback is started until the loop is started again, and none if a callback was running |
| EventRuns.DeferredBound | libevent/event.c:1397-1421 | over any run: at most sixteen deferred callbacks are run between two waits |
| EventRuns.LeavesWhenDone | libevent/event.c:1588-1626 | the loop thread leaves the loop on its own only after a break, or when no user event is on any queue and nothing is deferred |
| EventRuns.SleepsTooLong | libevent/event.c:1600-1636 | in every run in which a callback, started when the time had just been noted, adds a one-second timer to its own event and runs five seconds, the loop then sleeps until five seconds after the deadline |
| EventRuns.SlowRun | libevent/event.c:1600-1636 | there is such a run |
| EventTimers.SilentUntilAdded | libevent/event.c:1330-1388 | over any run: an event that is on no queue is taken for its callback only after somebody has added it or made it active |
| EventTimers.DeletedIsSilent | libevent/event.c:2215-2286 | so after `event_del` |
| EventTimers.OnceOnly | libevent/event.c:1330-1388 | so after an event that is not persistent has run |
| EventTimers.AddSets | libevent/event.c:2107-2183 | adding with a timeout sets the deadline from the noted time, and withdraws an activation exactly if a timeout has brought it |
| EventTimers.TimeoutStays | libevent/event.c:2107-2183 | over any run: a timeout stays pending, with its deadline, until that has come, its event runs, or the user deletes the event or sets its timeout anew |
| EventTimers.RunsAgain | libevent/event.c:1257-1310 | over any run: once a persistent event has been added with a period, it has its timeout pending again whenever it is taken for its callback, a period after its last deadline if it ran by that and the time is not past, and otherwise a period from now; if the fd map refuses it, it only stops being active |
| EventTimers.KeepsRhythm | libevent/event.c:1267-1306 | over any run: when the deadline of such an event comes and it is taken after that, the next one is a period after it, however late the callback is, while that is not past |
| EventTimers.StartsAnew | libevent/event.c:1267-1306 | over any run: when it was not active at some time and its deadline has not come since, the next one is a period from when it is taken |
| EventBackend.Watch | libevent/evmap.c:263-331 | the fd map lists exactly the added events, each once; the answer is -1 exactly when a count of readers or writers would not fit in 16 bits, and 1 exactly when the event is the first to wait for something; what the kernel watches is still right unless it is 1 |
| EventBackend.Unwatch | libevent/evmap.c:336-387 | the same when an event is taken off: the answer is 1 exactly when it was the last to wait for something |
| EventBackend.Flush | libevent/epoll.c:386-404 | after it the kernel watches every fd for what the listed events wait for, the wake-up fd among them |
| EventBackend.ReadyOn | libevent/evmap.c:389-406 | exactly the listed events that wait for what is reported become active |
| EventBackend.Loop.constructor | libevent/event.c:2766-2840 | a new loop, whose fd map knows the wake-up fd |
| EventBackend.Loop.Add | libevent/event.c:2045-2190 | an event is added with the one answer that the added events call for, and refused exactly when that is -1; loop, fd map and kernel stay in step, and the kernel is not touched |
| EventBackend.Loop.Remove | libevent/event.c:2215-2286 | so for deleting one |
| EventBackend.Loop.Poll | libevent/epoll.c:386-407 | changes are applied before the lock is released, so that the kernel is up to date when the wait begins, and is not touched when there is no wait |
| EventBackend.Loop.Report | libevent/epoll.c:419-443 | exactly the added events that wait for what the kernel reports are reported to the loop; events that time out leave the fd map |
| EventBackend.Loop.Go | libevent/event.c:1257-1388 | a persistent event that is added again goes back into the fd map, with the one answer that the added events call for, and events that are taken off the queues leave it; the kernel is not touched |
| EventBackend.CountsAre | libevent/evmap.c:263-387 | the counts of readers and writers kept for an fd are the numbers of added events that wait to read and to write there |
| EventBackend.KernelsAgree | libevent/epoll.c:386-404 | at most one kernel set is up to date with the added events |
| EventBackend.AllWatched | libevent/event.c:1600-1636 | while the loop thread waits, the kernel watches the wake-up fd for reading; while nobody has woken it, the kernel watches every fd for exactly what the added events wait for |
| EventBackend.Run | libevent/event.c:1555-1661 | this holds at every moment of every run of the loop with its backend; each call or report amounts to the one step of the loop that the added events determine, the fd map lists the added events, and the kernel changes only when the loop goes to wait, to exactly what they wait for |
| Changelist.ApplyOneExact | libevent/epoll.c:174-330 | applying a change makes the registration exactly what the change asks for, whatever the kernel held, retries included |
| Changelist.FirstCallSucceeds | libevent/epoll.c:174-330 | while the kernel holds what the change calls old, the first system call succeeds |
| Changelist.AddSound | libevent/evmap.c:647-675 | a queued addition keeps the changelist leading from what the kernel has to what is wanted |
| Changelist.DelSound | libevent/evmap.c:678-726 | so does a queued deletion |
| Changelist.IoBase.MakeSpace | libevent/evmap.c:202-229 | the size, 32 at first, is doubled the least number of times that puts it above the slot |
| Changelist.IoBase.GetOrConstruct | libevent/evmap.c:616-645 | one entry for each fd, and its index points back to it |
| Changelist.IoBase.IoAdd | libevent/evmap.c:263-331 | the counts count the events, 1 is returned exactly when the backend was told, and the set that is changed at once gets exactly the new directions |
| Changelist.IoBase.IoDel | libevent/evmap.c:336-387 | the same for a deletion, and the directions that are no longer wanted |
| Changelist.IoBase.ApplyChanges | libevent/epoll.c:333-349 | after it the kernel watches exactly what is wanted |
| Changelist.IoBase.RemoveAll | libevent/evmap.c:560-579 | no entry is left and no fd points to one |
| Changelist.IoBase.Dispatch | libevent/epoll.c:386-404 | both together |
| Changelist.Run | libevent/evmap.c:559-726 | after any run, the events of each fd are those of a backend that has no changelist, and the kernel's interest set is the one that this backend, applying every change at once, had at the last dispatch |
| Changelist.DirectExact | libevent/epoll.c:351-383 | the set of the backend that applies every change at once is, after any run, exactly what the listed events wait for |
| DnsName.ReadsUnique | libevent/evdns.c:943-997 | a name field has one reading |
| DnsName.NameParse | libevent/evdns.c:943-997 | the decoder halts on every packet, pointer cycles included, and accepts exactly the fields that have a reading with no more jumps than octets and room in the output, with that reading as result |
| DnsName.JoinLabels | libevent/evdns.c:1586-1649 | splitting a name into labels and joining them gives it back if and only if it has no empty label before its end |
| DnsName.LabelledReads | libevent/evdns.c:1586-1649 | what is appended for a suffix reads back as its labels, its pointer goes backwards, and the new table entries are true |
| DnsName.EncodeReads | libevent/evdns.c:1586-1649 | the same for one call of the encoder |
| DnsName.AppendedDecodes | libevent/evdns.c:1586-1649 | the field decodes to the name, whatever is appended later |
| DnsName.CompressionRoundTrip | libevent/evdns.c:1519-1649 | any list of names written through one table: each decodes from its own offset, in the final message, to its labels up to the first empty one, to itself if and only if it is plain, and every pointer goes strictly backwards |
| DnsName.TrailingDotLost | libevent/evdns.c:1586-1649 | `a.` is written as one label and decodes to `a` |
| DnsName.TerminatorBeyond | libevent/evdns.c:1586-1649 | an encoding ends at most one octet past the buffer, and there if and only if it ends in a label that is not empty and fills the buffer |
| DnsName.ZeroBeyond | libevent/evdns.c:1586-1649 | the name `a` is written as three octets where there are two |
| DnsName.LabelTable.GetPos | libevent/evdns.c:1546-1555 | the position of the first equal suffix, or -1 |
| DnsName.LabelTable.Add | libevent/evdns.c:1558-1571 | the suffix is noted unless the table is full; what that is for is stated by `DnsCompression.SuffixesNoted` |
| DnsName.DnsnameToLabels | libevent/evdns.c:1586-1649 | the loop that fills the buffer writes exactly the specified octets, or returns the specified error |
| DnsCompression.SuffixesNoted | libevent/evdns.c:1586-1649 | after one call that leaves the table not full, every suffix of the name is found in it, at the offset of its label or where it was noted before, and so are the suffixes of whatever is noted |
| DnsCompression.RepeatedName | libevent/evdns.c:1610-1615 | in any list of names written through one table that is not full, a name that was written before is written as two octets, a pointer to its earlier field or the same pointer as that |
| DnsCompression.SharedSuffix | libevent/evdns.c:1610-1615 | there, a name that ends like an earlier one takes at most two octets more than what comes before that end |
| DnsCompression.EncodeWorks | libevent/evdns.c:1586-1649 | a name of at most 255 octets with labels of at most 63 is written wherever it fits without compression, in no more than that |
| DnsCompression.EncodesExactly | libevent/evdns.c:1586-1649 | without anything to point to, exactly these names are written, if they fit |
| DnsRoundTrip.QueryRead | libevent/evdns.c:1663-1690 | a query carries its id, the flags 0x0100 and one question, whose name reads back at offset 12 and whose type and class stand at the end |
| DnsRoundTrip.ResponseHeader | libevent/evdns.c:1889-1901 | every response, whole or truncated, starts with the id of the request, the flags, and the numbers of records in its sections |
| DnsRoundTrip.FlagsBitwise | libevent/evdns.c:1889-1893 | the flags are those of the query with the response bit and the bits of the error code set |
| DnsRoundTrip.TruncatedBitwise | libevent/evdns.c:1953-1957 | truncation sets one bit and leaves the others |
| DnsRoundTrip.ItemReads | libevent/evdns.c:1926-1951 | a record that is written reads back: name, type, class, time to live, and its data |
| DnsRoundTrip.AnswersRead | libevent/evdns.c:1081-1155 | reading the answer section collects exactly the matching records, whatever lies between them |
| DnsRoundTrip.CollectClosed | libevent/evdns.c:1081-1155 | what is collected is the concatenation of the matching data, cut at 32 addresses, with the least time to live of the records read |
| DnsRoundTrip.SoaReads | libevent/evdns.c:1165-1181 | the data of an SOA record, two names, with or without pointers, and five numbers, reads back, and its last number is the minimum |
| DnsRoundTrip.PlainAuthorityFits | libevent/evdns.c:1157-1190 | SOA records whose names have no pointers can be read wherever they stand |
| DnsRoundTrip.AuthorityRead | libevent/evdns.c:1157-1190 | reading the authority section gives the least of the times to live of its SOA records and of their minimum fields, and passes over all other records |
| DnsRoundTrip.ReplyRoundTrip | libevent/evdns.c:1001-1196 | a formatted response of at most 512 octets to a question for A or AAAA carries the id of the query and is parsed to exactly the addresses in its matching records, in order, cut at 32, with their least time to live, and to the target of its first alias record, if that is wanted and comes before the reply is full; where nothing matches, with the time of the authority section |
| DnsRoundTrip.TruncatedReported | libevent/evdns.c:1877-1971 | a response that does not fit is parsed as truncated |
| DnsReplies.PtrRoundTrip | libevent/evdns.c:1113-1123 | a formatted response to a reverse lookup is parsed to the name in its first PTR record, with the time to live of that record, whatever comes before it; without such a record there is no answer, and the time is that of the authority section |
| DnsReplies.ErrorReported | libevent/evdns.c:1034-1037 | a response with an error code other than that of a missing name gives the client that code and nothing else |
| DnsReplies.QueryIgnored | libevent/evdns.c:1032-1033 | a query that comes back is not taken for an answer |
| DnsReplies.WrongNameRejected | libevent/evdns.c:1047-1079 | nothing of a response about another name is used |
| DnsReplies.PartialAddressRejected | libevent/evdns.c:1092-1150 | nothing of a response is used in which a matching record that is read does not hold whole addresses |
| DnsReplies.MessageReads | libevent/evdns.c:1877-1971 | a response that is sent whole is its header, its questions and the records of its three sections, each where the one before ends, and nothing else |
| DnsReplies.SentWhole | libevent/evdns.c:1953-1957 | a response that would fit in 512 octets without compression is sent whole, and none that is sent whole is longer |
| DnsReplies.OwnerPointer | libevent/evdns.c:1924-1931 | in a response to one question, a record for the name asked for starts with a pointer to the question |
| DnsReplies.RequestBuilt | libevent/evdns.c:1663-1690 | a query is built exactly for names of at most 255 octets with labels of at most 63 |
| DnsReplies.RefusesBadName | libevent/evdns.c:1904-1911 | a response to a question for any other name is refused, with -2 if it is too long and -1 if a label is |
| DnsServer.FormatResponse | libevent/evdns.c:1877-1971 | the code that fills the buffer computes the specified message, of which `ResponseHeader`, `MessageReads`, `SentWhole` and `OwnerPointer` say what it is |
| DnsServer.ReplyParse | libevent/evdns.c:1001-1196 | the code that walks the packet computes the specified outcome, on every packet; `ReplyRoundTrip`, `PtrRoundTrip` and the rejections say what that is |
| DnsRequests.DnsBase.constructor | libevent/evdns.c:3843-3905 | a new base allows 64 requests in flight, has 13 lists, all empty, and nothing waits |
| DnsRequests.DnsBase.Find | libevent/evdns.c:478-493 | looking in one list is looking at all requests in flight |
| DnsRequests.DnsBase.PickId | libevent/evdns.c:1304-1315 | there is always a free id, and one is found |
| DnsRequests.DnsBase.PickServer | libevent/evdns.c:1321-1353 | none exactly when there is none; the first from the head on that is up, if any is, and else the one after the head; the ring is turned, to the one behind it or, when all are down, to it |
| DnsRequests.PickFirst | libevent/evdns.c:1321-1353 | if any nameserver is up, the one that is picked is the first such from the head on, and the ring goes on behind it |
| DnsRequests.DnsBase.Submit | libevent/evdns.c:2697-2789 | the request is in flight, with a free id and at the end of its list, exactly when there is room and a nameserver, and else is the last to wait; nothing else changes |
| DnsRequests.DnsBase.Pump | libevent/evdns.c:734-759 | exactly as many requests as wait and as there is room for are sent off, from the front, in turn to the nameservers of the ring, each into the list of its id; nothing else changes |
| DnsRequests.DnsBase.Finish | libevent/evdns.c:648-697 | exactly this request is gone from its list, and then the queue has been pumped |
| DnsRequests.DnsBase.SetMaxInflight | libevent/evdns.c:3330-3358 | the limit is the argument, or 1 if that is less; every request in flight is hung into the list its id now belongs in, one after the other; nothing else changes |
| DnsRequests.DnsBase.Suspend | libevent/evdns.c:2374-2436 | all requests wait, those that were in flight before those that waited, in the reverse of their order in the table |
| DnsRuns.Run | libevent/evdns.c:648-759 | any run: each call does what `Did` says, which is the whole new state; at every moment the live requests are those submitted and not finished, each in exactly one list, without a nameserver exactly when it waits, with distinct ids in flight, and the counters are the lengths of the lists |
| DnsRuns.NobodyWaitsInVain | libevent/evdns.c:734-759 | over any run: once nobody waits in vain, that is, once a request waits only while the table is full or there is no nameserver, it stays so until nameservers are added or the table is resized |
| DnsRuns.NoOvertaking | libevent/evdns.c:734-759 | over any run: as long as a request waits, one that waits behind it is not sent off and does not get ahead of it, whatever is submitted, finished, resized or suspended in between |
| DnsRuns.FirstCome | libevent/evdns.c:2774-2789 | over any run: a request that is submitted and has to wait while another waits stays behind it |
| DnsRuns.SuspendedFirst | libevent/evdns.c:2374-2436 | when all nameservers go, the requests that were in flight wait ahead of those that waited |
| DnsRuns.NeverOverfull | libevent/evdns.c:734-759 | over any run: until the table is resized, no more requests are in flight than it allows |
| DnsRuns.TakeTurns | libevent/evdns.c:1321-1353 | while all nameservers are up, each is picked once, in the order of the ring, before the first is picked again |
| EvBuffer.Evbuffer.ChainInsert | libevent/buffer.c:291-319 | the octets of a chain are appended; an empty chain is replaced |
| EvBuffer.Evbuffer.Add | libevent/buffer.c:1544-1633 | the octets are appended, in place, after realigning, or in a new chain |
| EvBuffer.Evbuffer.Prepend | libevent/buffer.c:1637-1716 | the octets go to the front |
| EvBuffer.Evbuffer.Drain | libevent/buffer.c:959-1026 | exactly the first octets go |
| EvBuffer.Evbuffer.Copyout | libevent/buffer.c:1044-1088 | the first octets, and nothing changes |
| EvBuffer.Evbuffer.RemoveBytes | libevent/buffer.c:1030-1042 | what is returned and what is left is what there was |
| EvBuffer.Evbuffer.AddBuffer | libevent/buffer.c:867-909 | all of one buffer goes behind the other; nothing is lost or shared |
| EvBuffer.Evbuffer.PrependBuffer | libevent/buffer.c:913-955 | all of one buffer goes before the other |
| EvBuffer.Evbuffer.RemoveBuffer | libevent/buffer.c:1094-1181 | the first octets of one go behind the other, whole chains being moved where possible |
| EvBuffer.Evbuffer.Pullup | libevent/buffer.c:1184-1293 | the contents stay, and the first octets now lie in one block |
| EvBuffer.Evbuffer.FreeTrailing | libevent/buffer.c:272-286 | no chain without data is left, and the result points behind the last |
| EvBuffer.Evbuffer.AdvanceLastWithData | libevent/buffer.c:654-667 | the slot goes past exactly the chains with data that follow it, up to the first without, and their number is returned |
| EvBufferRun.Run | libevent/buffer.c:821-1293 | any run of these operations on two buffers leaves in them, and hands out call by call, what the same operations on two byte sequences do; the chains stay linked, distinct and apart, `total_len` is the length, and `last` and `last_with_datap` designate the last chain with data |
| EvSearch.PtrSet | libevent/buffer.c:2450-2493 | the cursor goes to the wanted octet, or nowhere exactly when there is none |
| EvSearch.PtrMemcmp | libevent/buffer.c:2501-2533 | 0 exactly when the octets from the cursor on are the given ones, across chains |
| EvSearch.SearchRange | libevent/buffer.c:2543-2605 | the least position from the start on at which the needle occurs and fits before the end, and -1 exactly when there is none, for every division into chains |
| EvSearch.FindEolChar | libevent/buffer.c:1328-1352 | the two searches in each stretch of 128 octets find the first CR or LF |
| EvSearch.FindEol | libevent/buffer.c:1355-1374 | the same across chains |
| EvSearch.SearchEolCrLf | libevent/buffer.c:1426-1498 | the least index that is LF or starts CR LF, and its length, or -1 exactly when there is none |
| RateLimit.CreditExact | libevent/bufferevent_ratelim.c:73-110 | in 64-bit arithmetic, dividing first gives the capped sum, if and only if the limit is not above the maximum or the ticks make up for the wrap-around |
| RateLimit.CreditAbove | libevent/bufferevent_ratelim.c:73-110 | a limit of 5 with a maximum of 3 and a rate of 1 becomes 6 after a tick |
| RateLimit.UpdateExact | libevent/bufferevent_ratelim.c:73-110 | an update adds the ticks since the last, up to the maximum, and nothing when the clock went back |
| RateLimit.TakenBound | libevent/bufferevent_ratelim.c:199-295 | over any run in which each take is at most what was allowed, the total is at most the maximum and the rate for each tick that has passed, even when the clock goes back and forth |
| RateGroup.Bufferevent.Suspend | libevent/bufferevent.c:65-76 | the backend runs a direction exactly when it is enabled and not suspended |
| RateGroup.Bufferevent.Unsuspend | libevent/bufferevent.c:78-89 | the same |
| RateGroup.Bufferevent.Refill | libevent/bufferevent_ratelim.c:396-441 | a direction stays suspended exactly when its bucket is still exhausted, and then the timer is set again |
| RateGroup.Bufferevent.OwnLimit | libevent/bufferevent_ratelim.c:113-124 | the bucket is brought up to date |
| RateGroup.Bufferevent.Decrement | libevent/bufferevent_ratelim.c:275-295 | the direction is suspended exactly when its bucket is exhausted, and a suspended direction has its timer pending, also when the other direction is suspended |
| RateGroup.Bufferevent.SetRateLimit | libevent/bufferevent_ratelim.c:559-635 | each direction is suspended exactly when the new bucket is exhausted, with the timer pending then; the same configuration object changes nothing |
| RateGroup.Reset | libevent/bufferevent_ratelim.c:49-70 | a fresh bucket holds one tick's rate; one in use keeps any limit that is not above the new maximum, and is cut to it otherwise |
| RateGroup.Group.constructor | libevent/bufferevent_ratelim.c:638-666 | the least share is at most either rate, the bucket holds one tick's rate, and no limit is below the floor |
| RateGroup.Group.Suspend | libevent/bufferevent_ratelim.c:352-373 | exactly the members whose locks can be had are suspended, and every member that waits is known to the group, whichever try-locks fail |
| RateGroup.Group.Unsuspend | libevent/bufferevent_ratelim.c:487-503 | exactly the members whose locks can be had are unsuspended, from any starting point, and the group comes back if and only if there was another |
| RateGroup.Group.Refill | libevent/bufferevent_ratelim.c:528-556 | a suspended group stays so exactly when it is still short of a share; exactly the lockable members of a group that comes back are unsuspended, and it stays pending exactly when one was locked |
| RateGroup.Group.Decrement | libevent/bufferevent_ratelim.c:297-307 | the group is suspended exactly when its bucket is exhausted, and exactly its lockable members with it; it comes back otherwise |
| RateGroup.Group.Share | libevent/bufferevent_ratelim.c:226-252 | the share, and the suspension of a member that had missed it |
| RateGroup.ShareIsEven | libevent/bufferevent_ratelim.c:226-252 | a share above the least one is an even part of what is left: all members can use theirs, with less than an octet for each left over |
| RateGroup.Group.JoinStart | libevent/bufferevent_ratelim.c:732-765 | a member that joins is known to the group before the group lock is given up |
| RateGroup.Group.JoinEnd | libevent/bufferevent_ratelim.c:767-773 | even if the group has been unsuspended in between, the member is not forgotten |
| RateGroup.Group.Leave | libevent/bufferevent_ratelim.c:785-806 | a bufferevent that leaves is not suspended for the group |
| RateGroup.Group.NotStranded | libevent/bufferevent_ratelim.c:473-526 | in every reachable state a direction that is enabled but does not run waits for something other than bandwidth, or has its timer pending, or is known to the group |
| RateRuns.Run | libevent/bufferevent_ratelim.c:226-806 | any run, with any locks held, in which bufferevents are made, live on their own, are suspended for other reasons, join, leave and come back: each step does what `Did` says, the group ends in the last moment of the trace, at no moment a member is stranded, the backends run exactly the directions that are enabled and not suspended, and if each share is used before the next is asked for, no limit is at any moment below one minus the least share |
| RateGroup.Group.UseShare | libevent/bufferevent_ratelim.c:226-260 | when each share is used before the next is asked for, limits that are not below one minus the least share stay so |
| RateGroup.Group.RefillTwice | libevent/bufferevent_ratelim.c:528-556 | then a suspended group is unsuspended after at most two ticks |
| RateRuns.RunThenRefill | libevent/bufferevent_ratelim.c:528-556 | after any such run, two refills that each see a tick, with any locks held at each, bring the bucket up to date twice and leave the group not suspended; the least share is the one asked for, or the lower rate if that is less |
| RateRuns.GroupBound | libevent/bufferevent_ratelim.c:226-307 | over any run, what the members of a group use together, and what its bucket still holds, is at most one rate and one for each tick that has passed |
| RateRuns.FairUse | libevent/bufferevent_ratelim.c:226-307 | when each share is used before the next is asked for, what they use is less than that and one least share, which is the one asked for, or the lower rate if that is less |
| RateRuns.SuspendedBriefly | libevent/bufferevent_ratelim.c:528-556 | over any run in which each share is used before the next is asked for, a direction that stays suspended sees fewer than two refills that credit a tick |
| RateRuns.SuspensionStops | libevent/bufferevent_ratelim.c:352-373 | over any run: the step that suspends a direction of the group stops it in every member whose lock is free |
| RateRuns.StaysStopped | libevent/bufferevent_ratelim.c:352-373 | over any run: while the direction is suspended, a member in which it was stopped does not run it, whatever else happens to the member, unless it leaves |
| HashTable.Relink | libevent/ht-internal.h:328-346 | the fresh table holds the same elements, each once and in the bucket of its hash |
| HashTable.RelinkInPlace | libevent/ht-internal.h:346-365 | so does the table that is stretched and sorted out in place, and the loop ends |
| HashTable.HashSet.Find | libevent/ht-internal.h:139-163 | an element is found exactly when it is in the set |
| HashTable.HashSet.NextPrime | libevent/ht-internal.h:322-327 | the next prime for which the size is below the load limit |
| HashTable.HashSet.Grow | libevent/ht-internal.h:312-371 | the set stays, on both paths, and the load limit is above the size unless the table is the last |
| HashTable.HashSet.Insert | libevent/ht-internal.h:166-178 | the element is added to the set, however many there are |
| HashTable.HashSet.RemoveElement | libevent/ht-internal.h:202-215 | the element is gone from the set, and whether it was there |
| HashTable.RepIsBad | libevent/ht-internal.h:384-417 | 0 exactly for a representation that is sound |
| HashTable.BadWhenOverfull | libevent/ht-internal.h:384-417 | which that of a set is, if and only if the set is no larger than the load limit of the last table |
| Tagging.IntRoundTrip | libevent/event_tagging.c:115-137 | a number is read back, whatever follows it |
| Tagging.IntOnWire | libevent/event_tagging.c:115-136 | a number takes no more nibbles than it needs, and the first says how many |
| Tagging.IntExample | libevent/event_tagging.c:115-136 | 0x52 is written 0x12 0x50: the least significant nibble first |
| Tagging.TagRoundTrip | libevent/event_tagging.c:172-233 | so is a tag, from at most five octets |
| Tagging.TagExample | libevent/event_tagging.c:172-192 | 300 is written 0xac 0x02: the least significant seven bits first |
| Tagging.RecordRoundTrip | libevent/event_tagging.c:247-304 | so is a record of any kind, and exactly the rest is left |
| Tagging.StreamRoundTrip | libevent/event_tagging.c:392-596 | so is any sequence of records |
| Tagging.PeekIsDrained | libevent/event_tagging.c:393-455 | for a record that can be consumed, the length that is announced is the length that is drained if and only if it does not wrap; in a buffer below 2 GB it always is |
| Tagging.PeekTellsPresence | libevent/event_tagging.c:393-455 | the announced length is at most what is there exactly when the record can be consumed, if and only if it does not wrap to something that is there, and is not read as an error |
| Tagging.PeekWraps | libevent/event_tagging.c:393-455 | six octets that announce a record of five, which cannot be consumed |
| Tagging.EncodeIntInternal | libevent/event_tagging.c:115-136 | the loop over nibbles fills the array with the specified octets |
| Tagging.DecodeIntInternal | libevent/event_tagging.c:306-341 | the loop from the last nibble to the first computes the specified number |
| Tagging.EncodeTagInternal | libevent/event_tagging.c:172-192 | the loop computes the specified octets |
| Tagging.DecodeTagInternal | libevent/event_tagging.c:195-233 | the loop computes the specified tag, kept to 32 bits |
| ListHead.Node.constructor | inc/list.h:47-51 | a new node is a ring by itself |
| ListHead.ListAdd | inc/list.h:75-83 | a node put between two neighbours of a ring gives a ring |
| ListHead.ClistAdd | inc/list.h:98-101 | it goes to the front |
| ListHead.ListAddTail | inc/list.h:111-114 | it goes to the back |
| ListHead.ListDel | inc/list.h:135-142 | the node is out of the ring, the others keep their order |
| ListHead.ListEmpty | inc/list.h:149-152 | true exactly when the list holds nothing |
| ListHead.ListSplice | inc/list.h:155-178 | what one list holds goes to the front of what another holds |
| ListHead.ListPrepend | inc/list.h:85-88 | the result is a ring of the head, the first node if there is one, and the new node |
| ListHead.PrependKeeps | inc/list.h:85-88 | it holds what the list held if and only if that was at most one node |
| ListHead.PrependLoses | inc/list.h:85-88 | of a list of two nodes, the second is lost |

## Left out

- Edge-triggered events: the changelist theorem is for level-triggered ones, since the change from two directions to one does not set the edge flag.
- Signals, `timeout_correct`, `event_base_once`, and the loop flags other than non-blocking: `EventBase.LeaveLoop` stands for a loop that its flags end.
- The heap of `minheap-internal.h` is a set of which only a minimum is looked at; that file is not part of this model.
- DnsName.NameParse: a label that runs past the packet fails at once, where the code copies what lies beyond and fails in the next round.
- DnsRoundTrip.AuthorityRead: an SOA record whose data is not two names and five numbers makes the parser read past it, and is not covered; the authority section is only read when no answer matches.
- DnsServer.FormatResponse: the buffer has one octet behind its 1500, for the terminating zero that the encoder writes unchecked; `TerminatorBeyond` says when it is used, and what lies there in the program is not modelled.
- DNS requests: retransmission, probes of nameservers, searches through domain suffixes, and the two-way links of the request rings, which are sequences here.
- DnsRequests.DnsBase.PickId: random draws are replaced by a scan; that the draws end with probability one is not stated.
- Evbuffers: space that is reserved and committed, reading and writing sockets, references, files, pinned chains, callbacks and the counters for them; allocation never fails, and freed chains are simply unlinked. The block of a chain is a sequence of fixed length in a field. Ends of lines in the styles other than CRLF.
- EvBuffer.Evbuffer.RemoveBuffer: the two lengths together do not exceed the range of `size_t`, which memory guarantees.
- EvBuffer.Evbuffer.ChainInsert: no empty chain is put behind others, since only reserved space leads to that.
- EvBuffer.Evbuffer.FreeTrailing: for the same reason at most one chain, the only one, is empty.
- Rate limits: changes of a group's configuration, and refunds, which can lift a bucket above its maximum; `CreditExact` says what an update does then.
- The hash table: replacement, clearing and iteration. Buckets are sequences, so the relinking of `hte_next` is not modelled at the level of pointers.
- HashTable.HashSet.NextPrime: a size at or above the last load limit makes the loop read behind the table of primes, so it is excluded; `MayGrow` shows that an insertion never asks for one.
- HashTable.HashSet.Grow: the same, for a table that is not the last.
- Tagging: the buffers are byte sequences, and a tag that goes on for more than five octets, beyond what the code has pulled up, is decoded from the buffer. Comparing the tag with the wanted one is left to the caller.
- HTTP, RPC, OpenSSL, filters, other backends, logging and configuration: mostly plumbing.
