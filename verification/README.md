# A verified model of the cclaw SDK's state machines

This project models, in Dafny, the parts of the SDK whose correctness depends on hand-written state: the
event bus, the run queue, hot-reload generations, the segmented session log, context construction, the
reading of streamed model responses, and Base64. It proves what those parts promise, for every input and,
where threads are involved, for every interleaving of their critical sections.

## How it is organised

Each concurrent part comes in four layers.

- A `...Core` module holds the state as a value and one function per critical section, with the branches and
  constants of the C code.
- A `...Invariant` or `...Theorems` module says what holds between critical sections and proves that every
  section keeps it.
- A `...World` module adds the threads. `Next` is one critical section of one thread; handlers, tasks and the
  building of a generation happen between two steps, so anything may come in between. `Run` is any finite
  sequence of steps, and the main lemmas are about every state it reaches.
- A class (`EventBus`, `TopicTable`, `RunQueue`, `RuntimeBuilder`) stores the same state as the C structures do:
  slot records with circular mailboxes, a probed table with tombstones, a ring with membership flags, linked
  lists of nodes, redundant counters. Its methods are loops over these structures, and each is proved to do to
  the abstract state exactly what the function of `...Core` says.

The sequential parts pair a class or a method with the function that specifies it, in the same way
(`SessionLog`, `SummaryCache`, `StreamContext`, `SseParser`, `StreamLoop`, `AppendHistoryRangeSanitized`,
`ChooseHistory`, `TokenEstimate`, `EncodeText`, `DecodeText`), and a `...Theorems` module proves what the
function means.

Some state is history: it records what has happened and no branch reads it. Slots remember what they were
offered and what was handed over, the bus its log of events and a count of guards taken, the queue the serial
numbers of executed tasks, the generations how often each was destroyed.

## What does not hold as one might expect

Where a natural property is false of the code, the code is modelled as it is, a lemma gives the run or the
input that shows it, and the exact condition is proved.

- A publisher that sleeps on a full mailbox reads the slots behind it after it wakes up. One of them may have
  been given to another subscription by then, which receives an event of a topic it never asked for
  (`StaleSelection`). `UnwantedIff` says for every step when this happens and `RunWantedIff` for every run.
- Publishers that sleep may overtake each other, and a subscription then gets its events out of order
  (`OrderLost`); `RunInOrderIff` says exactly when. However often publishers sleep, nothing is left out and
  nothing is offered twice (`NothingLeftOut`, `OfferedAtMostOnce`). Runs without the blocking policy are never
  affected (`NeverSleeps`, `OfferedIsPublished`).
- The run queue registers a session as soon as it looks at one of its jobs, even if the job does not start, and
  forgets it only when a job of it finishes. The table of sessions can fill up with idle ones, and jobs that no
  limit blocks are then cancelled (`IdleSessionsStarve`). `RunQueueScan.WorkConserving` says, from the state
  before a scan, exactly which jobs it cancels and which one it starts.
- An append whose file synchronization fails returns an error with the batch in the log, so a retry duplicates
  it (`RetryDuplicates`); `AppendRecords` says exactly when.
- A batch of more than 8 MB is written but can never be read again, and with it its segment and every older
  message of its session (`OverlongLineUnreadable`). `LoadMessages` is right exactly if no segment it visits
  holds such a line.
- A clear that fails while it removes files may leave old segments without their manifest; `Clear` says exactly
  when what is left is still a log.
- Where the provider finds the blocks of a text may depend on how the text was cut into chunks
  (`SplitDependent`): it looks for two newlines first and for two CRLFs only if there are none. It never depends
  on the cut exactly for texts in which no pair of CRLFs stands before a pair of newlines (`CutsAgreeIff`).
- On a given cut the provider and the line parser agree exactly if, in the blocks up to the first ending, no data
  line keeps a carriage return behind the one that the provider removes and none stands behind a line that ends
  the event for the parser alone, and if no line ends an event behind the last separator (`FramersAgree`;
  `ParserDelivers` without a protocol, `UntidyDiffers` for a text that fails). Lines with carriage returns at
  their ends only, and empty CRLF lines behind CRLF lines only, are a simple sufficient condition (`TidyAgree`).
  At the end of a stream the provider drops a last block without a separator (`FramersAgreeAtEnd`).
- A reload that has committed gives up its lease and then writes to the builder's log. Destroy does not wait for
  that and may have freed the builder (`ReloaderOvertaken`); `DestroyIsLastIff` says exactly when nothing uses the
  builder any more.
- FINISHED is the last thing the runtime sees of all streams exactly if no event that can arrive makes the
  protocol send anything behind it (`FinishedOnceIff`).
- The token estimate is additive to within one token at character boundaries and only there
  (`AdditiveIffBoundary`): a text cut inside a character may swallow bytes of the next part.
- Re-encoding decoded Base64 gives the text back exactly for canonical texts (`ReencodeIff`): the decoder also
  takes '-', '_', whitespace, and quads with spare bits set.
- The handle of a slot becomes valid again when the slot has been closed a multiple of 65535 times
  (`HandleAfterRun`).

## Model

| member | source | states |
|---|---|---|
| `EventBusTheorems.SerialOrderedDelivery` | cclaw/core/src/core/cc_event_bus.c:219-331 | In every reachable state at most one worker serves a slot; events handed over followed by the mailbox are a subsequence of the events offered to the subscription, and all of them if no policy lost one; no mailbox exceeds its capacity, and no capacity the maximum |
| `EventBusPolicies.OverflowLoss` | cclaw/core/src/core/cc_event_bus.c:265-289 | In every reachable state, a step that offers an event to a subscription puts it behind the rest if there is room; a full mailbox is unchanged (drop newest), loses its oldest and takes the event (drop oldest), or has its newest replaced by it (coalesce); only a blocking subscription can be refused, and its mailbox then stays as it is |
| `EventBusPolicies.KeepsNewest` | cclaw/core/src/core/cc_event_bus.c:270-283 | In every reachable state the mailbox of a drop-oldest subscription is a suffix of the events offered to it |
| `EventBusPolicies.LossIsCounted` | cclaw/core/src/core/cc_event_bus.c:265-280 | Each loss counter counts for its own policy alone: it is zero in every run that never uses the policy |
| `EventBusTheorems.OfferedIsPublished` | cclaw/core/src/core/cc_event_bus.c:602-616 | Until a publisher first has to wait, what an active subscription was offered is exactly the log of published events since it subscribed, restricted to its topic, in order; nothing was refused |
| `EventBusStale.StaleSelection` | cclaw/core/src/core/cc_event_bus.c:247-263 | Why the condition of the previous row is needed: a reachable run in which a publisher sleeps, a slot it still has to visit is unsubscribed and reused, and the new subscriber receives an event of a topic it never subscribed to |
| `EventBusOffers.UnwantedIff` | cclaw/core/src/core/cc_event_bus.c:247-263 | In every reachable state, a step offers a subscription an event that it does not want exactly if it wakes a publisher that has the slot in its stored selection, goes on to it with no blocking mailbox in between, and finds it active and not interested; the condition is read off the state before the step |
| `EventBusOffers.RunWantedIff` | cclaw/core/src/core/cc_event_bus.c:605-616 | Throughout a run every active subscription has only been offered events it wants, exactly if no step of the run wakes a publisher that reaches such a slot |
| `EventBusOffers.StepOffers` | cclaw/core/src/core/cc_event_bus.c:239-616 | What every step offers to every subscription, read off the state before it: the published event, the woken publisher's event, or nothing; topic and policy stay, and a new subscription starts with no offers |
| `EventBusOffers.NothingLeftOut` | cclaw/core/src/core/cc_event_bus.c:605-616 | In every reachable state, however often publishers have slept, each event published since an active subscription was made and wanted by it has been offered to it or is held by a sleeping publisher that has yet to deal with it |
| `EventBusOrder.OfferedAtMostOnce` | cclaw/core/src/core/cc_event_bus.c:239-284 | In every reachable state, however often publishers have slept, no active subscription has been offered an event twice, and only published events |
| `EventBusOrder.RunInOrderIff` | cclaw/core/src/core/cc_event_bus.c:605-616 | Throughout a run every active subscription has been offered its events in the order in which they were published, exactly if no step of the run wakes a publisher that reaches a slot with an event older than the last one offered there |
| `EventBusOrder.OrderLost` | cclaw/core/src/core/cc_event_bus.c:247-263 | A reachable run that loses the order: two publishers sleep on the same mailbox and the later one wakes up first |
| `EventBusOffers.NeverSleeps` | cclaw/core/src/core/cc_event_bus.c:461-461 | If no subscription of a run uses the blocking policy, which is also the default, no publisher of the run ever sleeps |
| `EventBusTheorems.NoStrandedMail` | cclaw/core/src/core/cc_event_bus.c:175-217 | The ready ring holds exactly the slots that are active, not being served, and have mail; none twice |
| `EventBusDispatch.NoOvertaking` | cclaw/core/src/core/cc_event_bus.c:175-217 | No step of any reachable state lets one slot that waits for a worker be overtaken by another |
| `EventBusDispatch.ServesFirst` | cclaw/core/src/core/cc_event_bus.c:297-311 | An idle worker takes the slot that has waited longest, its oldest event and its own handler |
| `EventBusDispatch.SyncDelivers` | cclaw/core/src/core/cc_event_bus.c:535-557 | A synchronous publish delivers to exactly the active subscriptions that want the event, each once, in slot order, with their own handler and generation |
| `EventBusDispatch.SyncStopped` | cclaw/core/src/core/cc_event_bus.c:538-541 | A synchronous publish that a shutdown overtakes delivers nothing and changes no slot |
| `EventBusDispatch.PublishResult` | cclaw/core/src/core/cc_event_bus.c:239-263 | What a publish that slept returns: its first failure, a timeout or, at shutdown or if the subscription changed, a cancellation; the slots behind do not change it |
| `EventBusTheorems.WorkerExit` | cclaw/core/src/core/cc_event_bus.c:297-303 | A worker leaves only after shutdown, and then any mailbox that is not empty belongs to a busy slot that some other worker is serving |
| `EventBusTheorems.GuardsNeverTaken` | cclaw/core/src/core/cc_event_bus.c:113-118 | No defensive guard is ever taken in any run: no release of a dead envelope, no full ring, no in-flight count that is already zero, no stale generation in a delivery report |
| `EventBusTheorems.DirectoryIsScan` | cclaw/core/src/core/cc_event_bus.c:445-456 | In every reachable state the selection for a topic is the set of active slots with that topic or none, a topic is listed exactly if some slot subscribes to it, and at most 64 of the 128 entries are in use |
| `EventBusSections.MatchingIsScan` | cclaw/core/src/core/cc_event_bus.c:602-607 | The bits selected for a publish are exactly what a scan over the active slots would find |
| `EventBusSections.DirectoryHasRoom` | cclaw/core/src/core/cc_event_bus.c:447-452 | The topics listed have disjoint nonempty subscriber sets, so there are at most as many as slots and the directory has room |
| `EventBusTheorems.SubscribeFailsOnlyWhenFull` | cclaw/core/src/core/cc_event_bus.c:420-452 | Subscribe is cancelled exactly at shutdown and exceeds its limit exactly if no slot is free; the error for a full topic directory is unreachable |
| `EventBusDispatch.SubscribeEffect` | cclaw/core/src/core/cc_event_bus.c:439-468 | A new subscription has the topic, handler, policy (blocking by default) and capacity (the default for zero, at most sixteen) it asked for and nothing of an earlier owner; no other slot changes |
| `EventBusDispatch.TermsStay` | cclaw/core/src/core/cc_event_bus.c:457-466 | For as long as a subscription stays, so do its handler, policy, capacity and topic |
| `EventBusTheorems.EnvelopeConservation` | cclaw/core/src/core/cc_event_bus.c:105-133 | The reference count of a live envelope is the number of its occurrences in all mailboxes plus the threads that hold it, and is positive; an envelope that nobody holds is gone |
| `EventBusTheorems.EventConservation` | cclaw/core/src/core/cc_event_bus.c:239-331 | matched = delivered + in flight + queued + dropped newest + dropped oldest + coalesced + discarded + refused + waiting, in every reachable state; the last two are zero until a publisher first waits |
| `EventBusTheorems.UnsubscribeIsFinal` | cclaw/core/src/core/cc_event_bus.c:474-529 | Once an unsubscribe has returned OK, no thread delivers to that subscription or has a delivery to it pending, in that state and every later one, in both modes |
| `EventBusTheorems.UnsubscribeOk` | cclaw/core/src/core/cc_event_bus.c:509-528 | The first attempt frees the slot exactly if nothing is in flight; then the subscription is closed, the generation moves on, and a second call with the same handle changes nothing |
| `EventBusDispatch.UnsubscribeTimesOut` | cclaw/core/src/core/cc_event_bus.c:509-520 | An unsubscribe that runs out of time leaves its slot reserved and its handle good for a retry |
| `EventBusTheorems.SubscribeGivesIdleSlot` | cclaw/core/src/core/cc_event_bus.c:424-438 | A slot is handed out only if no worker serves it, no synchronous delivery to it is pending, and no unsubscribe on it is unfinished |
| `EventBusTheorems.StaleHandle` | cclaw/core/src/core/cc_event_bus.c:525-526 | After k closings of a slot the generation is (g - 1 + k) mod 65535 + 1, which is g again exactly if k is a multiple of 65535 |
| `EventBusHandles.GenerationStep` | cclaw/core/src/core/cc_event_bus.c:474-529 | In every state that keeps the invariant, a step moves the generation of a slot on exactly if it is an unsubscribe of that slot that finds nothing in flight, at once or when it wakes up; no other step changes a generation |
| `EventBusHandles.HandleAfterRun` | cclaw/core/src/core/cc_event_bus.c:483-486 | A handle that was good at some point of a run is good at its end exactly if the run has closed its slot a multiple of 65535 times since; otherwise an unsubscribe with it changes nothing |
| `EventBusWorld.NextInv` | cclaw/core/src/core/cc_event_bus.c:239-671 | Every critical section of every thread keeps the whole invariant (slots, ring, directory, reference counts, order, conservation, pending deliveries, closed subscriptions) |
| `TopicTable.TopicTable.Lookup` | cclaw/core/src/core/cc_event_bus.c:135-173 | Probing with tombstones finds a topic exactly if the represented map has it; creating stores an empty set in the first tombstone of the chain or the never-used entry behind it, and fails exactly if 128 topics are listed |
| `TopicTable.TopicTable.AddBit` | cclaw/core/src/core/cc_event_bus.c:453-453 | Setting a bit in an entry updates the map at the entry's topic and nowhere else |
| `TopicTable.TopicTable.RemoveSlot` | cclaw/core/src/core/cc_event_bus.c:490-503 | Clearing a bit everywhere, leaving tombstones, removes the slot from every topic and drops the topics without subscribers |
| `TopicTable.AbsentAfter` | cclaw/core/src/core/cc_event_bus.c:144-172 | A never-used entry ends the search: a topic not met up to it is nowhere in the table |
| `TopicTable.ContentsUpdate` | cclaw/core/src/core/cc_event_bus.c:164-172 | Storing an entry in a free place or in its own changes the represented map at that topic only |
| `TopicTable.ClearedContents` | cclaw/core/src/core/cc_event_bus.c:492-503 | Turning emptied entries into tombstones keeps the entries unique and drops exactly the emptied topics |
| `CircularBuffer.WindowPush` | cclaw/core/src/core/cc_event_bus.c:229-237 | Writing behind the window of a circular buffer appends to its contents |
| `CircularBuffer.WindowPop` | cclaw/core/src/core/cc_event_bus.c:219-227 | Advancing the head removes the first element of the contents |
| `CircularBuffer.WindowReplaceLast` | cclaw/core/src/core/cc_event_bus.c:274-277 | Overwriting the newest cell replaces the last element of the contents and nothing else |
| `EventBus.EventBus.constructor` | cclaw/core/src/core/cc_event_bus.c:346-402 | A new bus represents the initial state: free slots of generation 1, empty ring, table and log, normalised capacity |
| `EventBus.EventBus.ReadyPush` | cclaw/core/src/core/cc_event_bus.c:175-185 | Appends a deliverable slot that is not in the ring yet; otherwise no change |
| `EventBus.EventBus.ReadyPop` | cclaw/core/src/core/cc_event_bus.c:187-201 | Removes entries up to the first deliverable one and returns it |
| `EventBus.EventBus.ReadyRemoveSlot` | cclaw/core/src/core/cc_event_bus.c:203-217 | Rebuilds the ring in place without the slot, in order |
| `EventBus.EventBus.MailboxPush` | cclaw/core/src/core/cc_event_bus.c:229-237 | Appends one envelope and takes a reference |
| `EventBus.EventBus.MailboxPop` | cclaw/core/src/core/cc_event_bus.c:219-227 | Removes and returns the oldest envelope |
| `EventBus.EventBus.EnvelopeRelease` | cclaw/core/src/core/cc_event_bus.c:113-118 | Drops one reference; the last one frees the envelope; on a dead envelope only the fault count changes |
| `EventBus.EventBus.Coalesce` | cclaw/core/src/core/cc_event_bus.c:273-280 | The newest queued envelope is replaced in place, with both reference counts and the metric adjusted |
| `EventBus.EventBus.Append` | cclaw/core/src/core/cc_event_bus.c:270-286 | Appends at the tail, after dropping the oldest envelope if the mailbox is full |
| `EventBus.EventBus.Enqueue` | cclaw/core/src/core/cc_event_bus.c:260-288 | What follows the wait loop, for all four policies |
| `EventBus.EventBus.PublishFrom` | cclaw/core/src/core/cc_event_bus.c:605-618 | The publish loop from any slot on, up to its end or to the first full mailbox that blocks |
| `EventBus.EventBus.Publish` | cclaw/core/src/core/cc_event_bus.c:595-619 | Asynchronous publish: nothing after shutdown, otherwise the loop over the selected slots |
| `EventBus.EventBus.Wake` | cclaw/core/src/core/cc_event_bus.c:247-263 | A waiting publisher goes on: timeout first, then shutdown, then a changed subscription, then the mailbox |
| `EventBus.EventBus.WorkerTake` | cclaw/core/src/core/cc_event_bus.c:295-311 | One pass of a worker under the lock: takes an event, or leaves exactly at shutdown with an empty ring, or waits |
| `EventBus.EventBus.WorkerFinish` | cclaw/core/src/core/cc_event_bus.c:315-329 | The report after a handler: slot idle, reference dropped, slot back in the ring if it has mail |
| `EventBus.EventBus.SnapshotSubscribers` | cclaw/core/src/core/cc_event_bus.c:537-557 | Synchronous publish pins every selected active slot and lists the deliveries in slot order |
| `EventBus.EventBus.ReportDelivery` | cclaw/core/src/core/cc_event_bus.c:561-571 | A synchronous delivery is unpinned if the generation is still the same |
| `EventBus.EventBus.FindFree` | cclaw/core/src/core/cc_event_bus.c:424-434 | Finds the first slot that is free in all four respects, or none |
| `EventBus.EventBus.Subscribe` | cclaw/core/src/core/cc_event_bus.c:418-471 | Subscribe as one step: status, handle and new state |
| `EventBus.EventBus.Deactivate` | cclaw/core/src/core/cc_event_bus.c:488-508 | The first half of unsubscribe: out of table, wildcard set and ring, mailbox drained, events counted as discarded |
| `EventBus.EventBus.Retire` | cclaw/core/src/core/cc_event_bus.c:521-526 | The second half: slot freed, next generation, zero skipped |
| `EventBus.EventBus.Unsubscribe` | cclaw/core/src/core/cc_event_bus.c:474-528 | Invalid slot, stale handle, wait, or done, each with its state |
| `RunQueueTheorems.Accounting` | cclaw/core/src/app/cc_run_queue.c:182-252 | In every reachable state the pending, in-flight, completed and total counters, lane_in_flight and every session's in_flight equal recounts of the job list, and submitted = completed + pending + in flight |
| `RunQueueTheorems.LimitsHold` | cclaw/core/src/app/cc_run_queue.c:583-604 | The lane, session, pending-per-session and total limits hold at every moment |
| `RunQueueEffects.LimitsAre` | cclaw/core/src/app/cc_run_queue.c:127-165 | The lane and session limits are the configured numbers; one that is not positive, or missing, is one |
| `RunQueueTheorems.FifoPerSessionAndLane` | cclaw/core/src/app/cc_run_queue.c:345-374 | The scan starts a job only if no job in front of it with the same session and lane is pending |
| `RunQueueScan.WorkConserving` | cclaw/core/src/app/cc_run_queue.c:345-374 | One scan in terms of the state before it: it starts the first pending job with room in both limits and a place in the session table; of the jobs in front of it, or of all, it cancels exactly the pending ones whose session has no entry when the table, with the new sessions of the pending jobs before the session's first one, is full; all others stay |
| `RunQueueTheorems.QuietScan` | cclaw/core/src/app/cc_run_queue.c:345-374 | When a scan starts nothing, every job still pending is tracked and blocked by its lane or session limit in the state it leaves behind, and a cancelled one finds no place in a full table |
| `RunQueueStarvation.IdleSessionsStarve` | cclaw/core/src/app/cc_run_queue.c:354-361 | The table can fill up with idle sessions: a reachable state of the default configuration in which a job with a free lane and an idle session, with one job running in all, is cancelled by the next scan |
| `RunQueueTheorems.RunsAtMostOnce` | cclaw/core/src/app/cc_run_queue.c:407-443 | No task is called twice, and none that was completed while pending is ever called |
| `RunQueueResults.CollectedResult` | cclaw/core/src/app/cc_run_queue.c:407-443 | In every reachable state a collector waits until its job is completed and is then handed what the job's own worker came back with: the result of its task, or cancelled if the task was never called or the job was dropped while pending |
| `RunQueueResults.OutcomeCounts` | cclaw/core/src/app/cc_run_queue.c:241-252 | Finished is the number of dropped and reported jobs, cancelled the number of dropped ones and of those reported as cancelled |
| `RunQueueEffects.CalledUncancelled` | cclaw/core/src/app/cc_run_queue.c:423-431 | A task is called only by the worker that was given its job, and only if the job has not been cancelled by then |
| `RunQueueEffects.Retention` | cclaw/core/src/app/cc_run_queue.c:314-337 | A completed job stays as it is until it is collected or abandoned, or a submission or status query finds that it has been over for the time to live; its time of completion is that of the step that completed it |
| `RunQueueEffects.AbandonedGone` | cclaw/core/src/app/cc_run_queue.c:435-441 | No job is ever both over and abandoned: an abandoned run leaves nothing behind |
| `RunQueueEffects.SubmitStatus` | cclaw/core/src/app/cc_run_queue.c:583-640 | When a submission is refused and with which status, and what an accepted one leaves: the purged list with each older job of the session superseded as its action says, and the new job with the first candidate id that is free within eight retries |
| `RunQueueEffects.InterruptEffects` | cclaw/core/src/app/cc_run_queue.c:768-815 | Interrupting a session, a run or, at shutdown, everything, job by job: pending jobs are over as cancelled, running ones told to stop, all others untouched |
| `RunQueueEffects.AbandonEffect` | cclaw/core/src/app/cc_run_queue.c:837-863 | Abandoning marks and stops a running job and removes any other; an unknown id changes nothing |
| `RunQueueEffects.PurgeEffect` | cclaw/core/src/app/cc_run_queue.c:314-337 | A purge keeps exactly the jobs that are not over for the time to live, in order, and all if there is none |
| `RunQueueTheorems.RunningStays` | cclaw/core/src/app/cc_run_queue.c:837-863 | A job that a worker serves is in the list, running, and is served by that worker alone |
| `RunQueueTheorems.NothingStartsAfterShutdown` | cclaw/core/src/app/cc_run_queue.c:865-898 | Once the shutdown flag is set nothing is pending, the flag stays, and every running job was running before |
| `RunQueueTheorems.SteeredSession` | cclaw/core/src/app/cc_run_queue.c:260-280 | A session fed only by STEER and INTERRUPT has at most one unfinished uncancelled job, after any run |
| `RunQueueWorld.NextInv` | cclaw/core/src/app/cc_run_queue.c:345-898 | Every locked region of every thread keeps the counters, limits, order, at-most-once and worker invariants |
| `RunQueue.RunQueue.constructor` | cclaw/core/src/app/cc_run_queue.c:452-501 | A new queue represents the empty state |
| `RunQueue.RunQueue.FindOrCreate` | cclaw/core/src/app/cc_run_queue.c:182-203 | Finds a session's entry or creates it in the table if there is room |
| `RunQueue.RunQueue.LeaveSession` | cclaw/core/src/app/cc_run_queue.c:206-217 | A session's count goes down; an entry left idle is overwritten by the last one |
| `RunQueue.RunQueue.PendingCount` | cclaw/core/src/app/cc_run_queue.c:220-234 | Counts the pending jobs of a session by walking the list |
| `RunQueue.RunQueue.CompletePending` | cclaw/core/src/app/cc_run_queue.c:241-252 | A pending job becomes completed and cancelled, and the counters follow |
| `RunQueue.RunQueue.CancelMatching` | cclaw/core/src/app/cc_run_queue.c:260-280 | Completes the pending jobs and cancels the running ones of a session, or of all sessions, in list order |
| `RunQueue.RunQueue.FindJob` | cclaw/core/src/app/cc_run_queue.c:283-289 | The first job with an id |
| `RunQueue.RunQueue.TakeJob` | cclaw/core/src/app/cc_run_queue.c:292-312 | Unlinks the first job with an id, with tail and totals adjusted; no change if there is none |
| `RunQueue.RunQueue.Unlink` | cclaw/core/src/app/cc_run_queue.c:298-309 | The linked list represents the old one without the i-th job, and so do its counters |
| `RunQueue.RunQueue.Purge` | cclaw/core/src/app/cc_run_queue.c:314-337 | Drops exactly the completed jobs whose time to live is over |
| `RunQueue.RunQueue.FindRunnable` | cclaw/core/src/app/cc_run_queue.c:345-374 | The scheduler's scan on the linked list: which job starts, which are cancelled, which sessions are entered |
| `RunQueue.RunQueue.FinishRunning` | cclaw/core/src/app/cc_run_queue.c:381-399 | A running job completes: lane, session and counters follow |
| `RunQueue.RunQueue.Finish` | cclaw/core/src/app/cc_run_queue.c:435-441 | The worker's region after a task: the job completes, a cancelled result is counted, an abandoned job is discarded |
| `RunQueue.RunQueue.Submit` | cclaw/core/src/app/cc_run_queue.c:583-640 | Submit in full: shutdown, limits, action, id retries, append |
| `RunQueue.RunQueue.InterruptSession` | cclaw/core/src/app/cc_run_queue.c:768-790 | Pending jobs of a session completed, running ones cancelled |
| `RunQueue.RunQueue.InterruptRun` | cclaw/core/src/app/cc_run_queue.c:793-815 | The same for one job, or not found |
| `RunQueue.RunQueue.Abandon` | cclaw/core/src/app/cc_run_queue.c:837-863 | A completed job is removed, a pending one completed and removed, a running one only cancelled |
| `RunQueue.RunQueue.CollectOnce` | cclaw/core/src/app/cc_run_queue.c:718-744 | A completed job's result is handed out and the job removed; an unknown one is an error; otherwise the collector waits |
| `RunQueue.RunQueue.Shutdown` | cclaw/core/src/app/cc_run_queue.c:868-882 | The flag is set, every pending job completed and every running one cancelled |
| `GenerationTheorems.RefsAreLeases` | cclaw/core/src/app/cc_runtime_builder.c:124-170 | In every interleaving a generation's refs equal its outstanding leases, the reloader's included, and the retired list holds exactly the retired generations with refs > 0, each once |
| `GenerationTheorems.DestroyedAtMostOnce` | cclaw/core/src/app/cc_runtime_builder.c:144-170 | A generation is destroyed at most once, and never while leased or current |
| `GenerationTheorems.DestroyLeavesNothing` | cclaw/core/src/app/cc_runtime_builder.c:1180-1218 | Once destroy has finished, every generation ever built has been destroyed exactly once, and no thread leases or reclaims one |
| `GenerationTheorems.DrainedMeansIdle` | cclaw/core/src/app/cc_runtime_builder.c:1131-1162 | Destroy passes its check exactly if no lease is out, no reload runs and no reclaim is under way |
| `GenerationTheorems.DestroyIsLastIff` | cclaw/core/src/app/cc_runtime_builder.c:1054-1055 | When destroy has passed its check: in every continuation of the run no thread uses the builder once destroy has finished, exactly if no reload that has committed is still about to write to the log |
| `GenerationTheorems.GoneOrLogging` | cclaw/core/src/app/cc_runtime_builder.c:1131-1180 | From its check on, destroy only competes with such reloads: every other thread is done with the builder |
| `GenerationTheorems.ReloaderOvertaken` | cclaw/core/src/app/cc_runtime_builder.c:1054-1055 | A run in which a reload commits and gives up its lease and destroy passes its check before the reload has written to the log |
| `GenerationTheorems.ReloadOutcome` | cclaw/core/src/app/cc_runtime_builder.c:1018-1065 | A failed reload leaves the builder as it was and destroys what it built; one that commits makes it current, raises the id by one and retires the old generation |
| `GenerationTheorems.NoLeaseAfterShutdown` | cclaw/core/src/app/cc_runtime_builder.c:1074-1084 | Once shutdown has been requested it stays requested, and in no later state of the run is there a lease or a reload that was not there at the request; no generation is built or published any more |
| `GenerationTheorems.OneControllerRun` | cclaw/core/src/app/cc_runtime_controller.c:156-303 | The controller has at most one active run; it leases the generation whose id it records, which is not destroyed meanwhile; a stopped controller has none |
| `GenerationTheorems.NoRunAfterStop` | cclaw/core/src/app/cc_runtime_controller.c:190-299 | Once the controller has been told to stop, no run of it starts any more in any later state, and once stopped it stays stopped |
| `GenerationTheorems.NextInv` | cclaw/core/src/app/cc_runtime_builder.c:124-1218 | Every locked region of leases, reloads, reclaims, destroy and controller keeps the invariant |
| `RuntimeBuilder.RuntimeBuilder.constructor` | cclaw/core/src/app/cc_runtime_builder.c:820-835 | The initial generation is current and unleased |
| `RuntimeBuilder.RuntimeBuilder.Acquire` | cclaw/core/src/app/cc_runtime_builder.c:124-142 | A lease on the current generation, unless there is none or the builder shuts down |
| `RuntimeBuilder.RuntimeBuilder.Release` | cclaw/core/src/app/cc_runtime_builder.c:144-170 | A lease is given back; the last one on a retired generation takes it off the list and starts a reclaim |
| `RuntimeBuilder.RuntimeBuilder.Unlink` | cclaw/core/src/app/cc_runtime_builder.c:154-157 | Walks the linked retired list and takes one generation out |
| `RuntimeBuilder.RuntimeBuilder.BeginReload` | cclaw/core/src/app/cc_runtime_builder.c:910-923 | Claims the reload and leases the current generation, or is refused |
| `RuntimeBuilder.RuntimeBuilder.Commit` | cclaw/core/src/app/cc_runtime_builder.c:1018-1040 | Publishes the new generation and pushes the old one on the retired list, exactly if nothing changed meanwhile |
| `RuntimeBuilder.RuntimeBuilder.EndReload` | cclaw/core/src/app/cc_runtime_builder.c:1061-1064 | The reload claim is given up |
| `RuntimeBuilder.RuntimeBuilder.IsDrained` | cclaw/core/src/app/cc_runtime_builder.c:1133-1140 | A recount of refs over current and retired generations |
| `RuntimeBuilder.RuntimeBuilder.DetachAll` | cclaw/core/src/app/cc_runtime_builder.c:1180-1186 | Current and retired generations leave the builder together |
| `RuntimeBuilder.RuntimeBuilder.RequestShutdown` | cclaw/core/src/app/cc_runtime_builder.c:1074-1084 | The flag is set, nothing else |
| `SegmentedStore.SessionLog.LoadMessages` | cclaw/adapters/src/storage/cc_json_segmented_store.c:1172-1232 | The last n messages ever appended, oldest first (all of them for n <= 0), across segment rolls, exactly if no segment that is visited holds a line over 8 MB; otherwise an error |
| `SegmentedStore.OverlongLineUnreadable` | cclaw/adapters/src/storage/cc_json_segmented_store.c:1064-1071 | A segment with a batch over the read limit, which append does write, can never be read again, wherever it stands: the session is readable exactly if the limit is positive and the newer segments alone satisfy it, and the result then comes from these |
| `SegmentedStore.SessionLog.AppendRecords` | cclaw/adapters/src/storage/cc_json_segmented_store.c:1589-1668 | A batch is at the end of the log exactly if the manifests it needs were saved and the file took the line; the result is OK exactly if the file was synchronized too; an error comes with the batch in the log exactly if the line was appended and its synchronization failed; a new segment is begun exactly if the current one holds something and would grow past its limit |
| `SegmentedStore.RetryDuplicates` | cclaw/adapters/src/storage/cc_json_segmented_store.c:1027-1030 | The failing input: after a failed synchronization the retry puts the batch into the log twice |
| `SegmentedStore.HoldsAppended` | cclaw/adapters/src/storage/cc_json_segmented_store.c:976-1035 | Appending a line that fits, or to an empty segment, keeps files and log in step and every segment with two or more lines within segment_bytes |
| `SegmentedStore.SessionLog.Roll` | cclaw/adapters/src/storage/cc_json_segmented_store.c:998-1013 | The next segment becomes current and is empty unless the manifest was not replaced; the log is unchanged |
| `SegmentedStore.SessionLog.Create` | cclaw/adapters/src/storage/cc_json_segmented_store.c:554-596 | An existing log is untouched; OK exactly if the writes that are needed succeed |
| `SegmentedStore.SessionLog.Clear` | cclaw/adapters/src/storage/cc_json_segmented_store.c:1421-1448 | After the removal nothing is left of the log, whatever fails then; a removal that fails leaves exactly the files it had not reached, which are still a log exactly if the manifest is kept or no segment behind the first is left |
| `SegmentedStore.SessionLog.SaveManifest` | cclaw/adapters/src/storage/cc_json_segmented_store.c:366-408 | A manifest is replaced or not; the result is OK exactly if it was replaced and its directory synchronized |
| `SegmentedStore.SessionLog.LoadSegmentLines` | cclaw/adapters/src/storage/cc_json_segmented_store.c:1041-1087 | A segment file split into its nonempty lines, or the error for an overlong one or for a large file without any newline |
| `SegmentedStore.SessionLog.ParseMessageRecords` | cclaw/adapters/src/storage/cc_json_segmented_store.c:1114-1165 | Prepends a line's messages, newest first, up to the limit; a line that fails its length or checksum test is an error |
| `SegmentedStore.SessionLog.ReadSegment` | cclaw/adapters/src/storage/cc_json_segmented_store.c:1209-1216 | Reading a segment's lines backwards collects the last messages of the segment up to the limit |
| `SegmentedStore.SessionLog.InOrder` | cclaw/adapters/src/storage/cc_json_segmented_store.c:1224-1228 | The collected vector is reversed in place |
| `SegmentedLog.BatchIsSound` | cclaw/adapters/src/storage/cc_json_segmented_store.c:1482-1587 | Every batch line that is written passes the reader's own length and checksum test and gives back its records |
| `SegmentedDamage.OneByteShows` | cclaw/adapters/src/storage/cc_json_segmented_store.c:108-116 | Changing any single byte changes the checksum: each round of the hash can be undone |
| `SegmentedDamage.DamageIsNoticed` | cclaw/adapters/src/storage/cc_json_segmented_store.c:1134-1145 | A batch line whose records were changed in one byte, or in their length, is refused |
| `SegmentedDamage.OtherLines` | cclaw/adapters/src/storage/cc_json_segmented_store.c:1114-1165 | A line that append has not written: a single record is read, anything else is an error |
| `SegmentedCodec.CodecExists` | cclaw/adapters/src/storage/cc_json_segmented_store.c:1482-1587 | What the model asks of the encoding (records and their envelopes can be read back, and envelope lines have no newline) can be met |
| `SegmentedLog.SplitJoin` | cclaw/adapters/src/storage/cc_json_segmented_store.c:1041-1087 | Writing lines and splitting the file again gives the lines back, exactly if none exceeds the read limit |
| `SegmentedLog.ReadJoin` | cclaw/adapters/src/storage/cc_json_segmented_store.c:1058-1084 | The same for a whole file, with the check for a large file without newlines |
| `SegmentedLog.SplitCRLF` | cclaw/adapters/src/storage/cc_json_segmented_store.c:1064-1084 | A file with CRLF line ends reads the same |
| `HistorySanitizer.CountMatched` | cclaw/core/src/app/cc_context_builder.c:697-711 | The first pass over the answers: how many calls are matched and where the run of tool messages ends |
| `HistorySanitizer.AppendValidToolGroup` | cclaw/core/src/app/cc_context_builder.c:682-732 | Appends a complete group's assistant message and first answers, or nothing |
| `HistorySanitizer.AppendHistoryRangeSanitized` | cclaw/core/src/app/cc_context_builder.c:744-772 | The loop over a range appends exactly what the specification function keeps |
| `SanitizerTheorems.SanitizedIsWellFormed` | cclaw/core/src/app/cc_context_builder.c:744-772 | For any history, each tool message that comes out sits directly behind an assistant message whose calls have distinct ids and one answer each; commands and system messages are gone |
| `SanitizerTheorems.FixedIffWellFormed` | cclaw/core/src/app/cc_context_builder.c:744-772 | The sanitizer leaves a history unchanged exactly if it is well-formed |
| `SanitizerTheorems.Idempotent` | cclaw/core/src/app/cc_context_builder.c:744-772 | Sanitizing twice changes nothing more |
| `SanitizerTheorems.SanitizedIsSubsequence` | cclaw/core/src/app/cc_context_builder.c:744-772 | Nothing is invented, repeated or reordered |
| `SanitizerTheorems.SanitizeConcat` | cclaw/core/src/app/cc_context_builder.c:744-772 | A history may be cut and sanitized in parts wherever the second part does not start with a tool message |
| `SanitizerTheorems.KeepsCompleteGroups` | cclaw/core/src/app/cc_context_builder.c:682-732 | A calling message with the tool messages behind it survives, in any surroundings, exactly if the group is complete |
| `SanitizerTheorems.KeepsPlainMessages` | cclaw/core/src/app/cc_context_builder.c:744-772 | Every plain user and assistant message is kept, in order |
| `SanitizerTheorems.CommandIff` | cclaw/core/src/app/cc_context_builder.c:650-670 | A user message is a command, and not sent, exactly if its first character other than blank, tab, CR and LF is a slash |
| `SanitizerTheorems.PlainIff` | cclaw/core/src/app/cc_context_builder.c:744-772 | The messages sent as they are: users' messages that are no commands, and assistants' without calls |
| `SanitizerTheorems.CompleteIff` | cclaw/core/src/app/cc_context_builder.c:697-717 | The matched count reaches the number of calls exactly if the group is complete |
| `SanitizerTheorems.GroupIs` | cclaw/core/src/app/cc_context_builder.c:682-732 | A kept group is its assistant message with one answer per call |
| `SanitizerTheorems.RuntimeHistoryIsFixed` | cclaw/core/src/app/cc_agent_runtime.c:850-868 | Histories of the runtime's atomic batches, with nonempty call ids and no commands, are returned unchanged |
| `SanitizerTheorems.CutHistory` | cclaw/core/src/app/cc_agent_runtime.c:850-868 | A load limit that cuts a batch in two costs only the orphaned tool message |
| `ContextBudget.BuildSuffixCosts` | cclaw/core/src/app/cc_context_builder.c:108-132 | The suffix array equals the naive sums, or the total does not fit an int |
| `ContextBudget.ChooseHistory` | cclaw/core/src/app/cc_context_builder.c:818-926 | Fixed part, reserve, kept history and summary stay within the window exactly if the fixed part and the reserve alone do; without a summary no longer suffix of the history fits beside them; a summary is used exactly if it was made, the fixed part leaves room, and it fits the window together with the recent messages |
| `TokenEstimate.TokenEstimate` | cclaw/core/src/util/cc_token_counter.c:14-66 | The loop computes the estimate defined on byte sequences |
| `TokenEstimate.EstimateIsRunSum` | cclaw/core/src/util/cc_token_counter.c:14-66 | The estimate is one token per multi-byte character plus, for each maximal ASCII run, a quarter of its length rounded up |
| `TokenText.TextEstimate` | cclaw/core/src/util/cc_token_counter.c:14-66 | For any text in UTF-8, with the encoding written out independently: a quarter, rounded up, of each maximal run of ASCII characters plus one for every other character |
| `TokenText.OneCharacter` | cclaw/core/src/util/cc_token_counter.c:45-58 | A single character of two, three or four bytes is one token |
| `TokenEstimate.AdditiveIffBoundary` | cclaw/core/src/util/cc_token_counter.c:14-66 | est(a) + est(b) - 1 <= est(a + b) <= est(a) + est(b) holds for all b exactly if a ends at a character boundary |
| `SummaryCache.SummaryCache.Lookup` | cclaw/core/src/app/cc_context_builder.c:359-381 | A hit returns the key's value and moves it to the front of the list; a miss changes nothing |
| `SummaryCache.SummaryCache.Store` | cclaw/core/src/app/cc_context_builder.c:383-431 | The key gets the value and moves to the front; a full cache loses its last key |
| `SummaryCache.SummaryCache.PickVictim` | cclaw/core/src/app/cc_context_builder.c:400-421 | The slot of the key, else the first unused one, else the one used longest ago, by timestamps |
| `SummaryCacheTheorems.HoldsMostRecent` | cclaw/core/src/app/cc_context_builder.c:359-431 | After any run of lookups and stores the cache lists the four most recently used keys in order of last use, none twice |
| `SummaryCacheTheorems.HoldsLastStored` | cclaw/core/src/app/cc_context_builder.c:359-431 | A listed key has the value last stored for it |
| `SseFramers.StreamContext.Append` | cclaw/adapters/src/llm/cc_http_llm_provider.c:345-377 | The pending buffer grows by the data, or is unchanged and the limit error reported |
| `SseFramers.StreamContext.ForwardChunks` | cclaw/adapters/src/llm/cc_http_llm_provider.c:380-397 | Chunks are passed on one by one; a finished chunk marks the stream |
| `SseFramers.StreamContext.ProcessEvent` | cclaw/adapters/src/llm/cc_http_llm_provider.c:449-481 | The data lines of a block are joined by newlines and dispatched as one payload |
| `SseFramers.StreamContext.ProcessBuffer` | cclaw/adapters/src/llm/cc_http_llm_provider.c:489-518 | Blocks are dispatched from the front until the stream finishes or no separator is left; the tail is moved to the front of the buffer |
| `SseFramers.StreamContext.Body` | cclaw/adapters/src/llm/cc_http_llm_provider.c:558-577 | One body callback: no effect after the end, an error at the limit, otherwise append and dispatch |
| `SseFramers.SseParser.ProcessLine` | cclaw/core/src/app/cc_sse_parser.c:78-109 | An empty line flushes, a comment is skipped, a data line is added |
| `SseFramers.SseParser.Feed` | cclaw/core/src/app/cc_sse_parser.c:136-162 | Byte by byte: newlines process the line, everything else extends it |
| `SseFramers.SseParser.Finish` | cclaw/core/src/app/cc_sse_parser.c:169-184 | A half line is processed and the last event flushed |
| `SseData.ParserSkips` | cclaw/core/src/app/cc_sse_parser.c:78-109 | For the parser, a line that does not start with the literal "data:" changes nothing; if it has nothing but carriage returns, it delivers the event |
| `SseData.ParserTakes` | cclaw/core/src/app/cc_sse_parser.c:93-109 | A line "data:" + v adds v without one leading space and without carriage returns at its end, behind a newline if there is text already |
| `SseData.ProviderSkips` | cclaw/adapters/src/llm/cc_http_llm_provider.c:458-475 | For the provider, a line that does not start with the literal "data:" can be taken out of a block anywhere without changing its payload |
| `SseData.ProviderTakes` | cclaw/adapters/src/llm/cc_http_llm_provider.c:458-475 | A line "data:" + v adds v without one leading space and without one carriage return at its end, behind a newline if there is text already |
| `SseData.NamedEvent` | cclaw/adapters/src/llm/cc_http_llm_provider.c:449-481 | For both, an event with a name line has its data alone as payload |
| `SseData.DoneEnds` | cclaw/adapters/src/llm/cc_http_llm_provider.c:422-426 | The payload [DONE] ends the stream and is never handed to the protocol |
| `SseAgreement.FramersAgree` | cclaw/adapters/src/llm/cc_http_llm_provider.c:489-577 | For every text, every split into chunks within the pending limit and every protocol: the provider dispatches what the line parser delivers, up to and including the first payload that ends the stream, exactly if a scan over the lines finds that up to there no data line keeps a carriage return after one has been removed, none stands behind a line that is empty for the parser and follows data, and no such empty line follows data behind the last separator |
| `SseAgreement.AgreeingText` | cclaw/adapters/src/llm/cc_http_llm_provider.c:489-577 | On a text without a pair of CRLFs before a pair of newlines that passes the scan as a whole, they agree for every split |
| `SseAgreement.TidyAgree` | cclaw/adapters/src/llm/cc_http_llm_provider.c:489-518 | Such a text passes the scan if carriage returns stand only before newlines and empty CRLF lines only behind CRLF lines, and what follows its last separator then passes too |
| `SseAgreement.ParserDelivers` | cclaw/core/src/app/cc_sse_parser.c:136-162 | The line parser delivers exactly the payloads of the blocks between blank lines, exactly if the text passes the scan |
| `SseAgreement.FinishDelivers` | cclaw/core/src/app/cc_sse_parser.c:169-184 | For every split, with its finish it delivers the payloads of the blocks and of what stands behind the last separator, exactly if all of these pass the scan |
| `SseAgreement.FramersAgreeAtEnd` | cclaw/adapters/src/llm/cc_http_llm_provider.c:585-595 | If nothing has finished the stream, the parser's finish delivers what stands behind the last separator and the provider drops it: they agree exactly if the blocks pass the scan and no data line with text stands there |
| `SseTheorems.UniformIsTidy` | cclaw/adapters/src/llm/cc_http_llm_provider.c:489-518 | LF-only and CRLF-only texts are such texts |
| `SseTheorems.BodyEffect` | cclaw/adapters/src/llm/cc_http_llm_provider.c:489-577 | For every split of a text without a pair of CRLFs before a pair of newlines, the dispatched payloads are those of its complete blocks up to the first ending, and the rest is pending |
| `SseTheorems.BodyCut` | cclaw/adapters/src/llm/cc_http_llm_provider.c:489-577 | For every text and every split, the dispatched payloads are those of the blocks that the pieces make, up to the first ending |
| `SseTheorems.FramesExtend` | cclaw/adapters/src/llm/cc_http_llm_provider.c:489-518 | Separators already found stay when more text arrives, even if a CRLF pair is cut, on every text without a pair of CRLFs before a pair of newlines |
| `SseTheorems.FinishedOnce` | cclaw/adapters/src/llm/cc_http_llm_provider.c:380-441 | If no protocol event sends chunks behind FINISHED, the runtime sees FINISHED at most once and nothing later |
| `SseTheorems.FinishedOnceIff` | cclaw/adapters/src/llm/cc_http_llm_provider.c:380-441 | FINISHED is the last thing the runtime ever sees, for all streams, exactly if no event that can arrive makes the protocol send anything behind it |
| `SseTheorems.UncleanEventShows` | cclaw/adapters/src/llm/cc_http_llm_provider.c:380-397 | In particular an event of one line with chunks behind FINISHED is passed on as it is |
| `SseMixedEnds.SplitDependent` | cclaw/adapters/src/llm/cc_http_llm_provider.c:497-503 | A text that shows the difference: one event in one piece and two in two pieces |
| `SseMixedEnds.CutsAgreeIff` | cclaw/adapters/src/llm/cc_http_llm_provider.c:489-518 | The blocks of a text are the same for every way of cutting it exactly if no pair of CRLFs stands before a pair of newlines |
| `SseMixedEnds.UntidyDiffers` | cclaw/core/src/app/cc_sse_parser.c:78-109 | A text that fails the scan, and the difference it makes: an empty CRLF line behind a plain newline ends an event for the parser and not for the provider |
| `ToolStream.StreamLoop.FindSlot` | cclaw/core/src/app/cc_agent_runtime.c:941-954 | The first slot with the index or the nonempty id |
| `ToolStream.StreamLoop.StartTool` | cclaw/core/src/app/cc_agent_runtime.c:956-992 | A new slot in the first free place, or the error for a missing name, a repeated key or a ninth call |
| `ToolStream.StreamLoop.ForwardChunk` | cclaw/core/src/app/cc_agent_runtime.c:1092-1110 | The byte limit is applied before a chunk has any effect, and stays applied |
| `ToolStream.StreamLoop.Callback` | cclaw/core/src/app/cc_agent_runtime.c:1127-1269 | The effect of one chunk on text, thinking, calls and flags |
| `ToolStream.StreamLoop.ExecutePending` | cclaw/core/src/app/cc_agent_runtime.c:1004-1057 | All calls are checked before the first runs; they run in slot order to the first failure; then the slots are cleared |
| `ToolStreamTheorems.Reassembly` | cclaw/core/src/app/cc_agent_runtime.c:956-1240 | After every accepted stream the slots are the calls in start order, each with the concatenation of the deltas that went to it, ended if its end was seen; no two calls share an index or an id; if no chunk names two calls, the arguments are simply all the deltas that name the call |
| `ToolStreamTheorems.AcceptedIff` | cclaw/core/src/app/cc_agent_runtime.c:956-1240 | A stream is accepted exactly if it keeps to the byte limit, every start has a name, a key of its own and a place among eight, and every delta and end names a call that is still open |
| `ToolStreamTheorems.Transcript` | cclaw/core/src/app/cc_agent_runtime.c:1127-1260 | After any accepted stream the text is all text in order, the thinking all thinking, and the end has been seen exactly if it was sent |
| `ToolStreamTheorems.Refusal` | cclaw/core/src/app/cc_agent_runtime.c:956-1110 | With which status a chunk is refused: a limit for too many bytes or a ninth call, otherwise a model error; once the byte limit is exceeded everything is refused |
| `ToolStreamTheorems.IndexedStreams` | cclaw/core/src/app/cc_agent_runtime.c:941-954 | Streams that name calls by index and repeat the id or leave it out, as the providers send them, have no chunk that names two calls |
| `ToolStreamTheorems.RunsOnlyComplete` | cclaw/core/src/app/cc_agent_runtime.c:1004-1057 | After every accepted stream, calls run in start order, each at most once, and none unless all were ended with object arguments |
| `ToolStreamTheorems.ExecutionOutcome` | cclaw/core/src/app/cc_agent_runtime.c:1004-1057 | The first call that was not ended, or whose arguments (an empty object if there were none) are refused, decides the result and keeps all from running; otherwise calls run up to the first failure, which is the result, and the slots are free again |
| `ToolStreamTheorems.ExecutedPrefix` | cclaw/core/src/app/cc_agent_runtime.c:1035-1056 | What runs is a prefix that ends with the first failure |
| `ToolStreamTheorems.SyncReplay` | cclaw/core/src/app/cc_agent_runtime.c:1279-1370 | Replaying a complete response succeeds exactly if it has at most eight named calls without a repeated nonempty id and keeps to the byte limit; the slots are then its calls, with empty arguments read as an empty object |
| `ToolStreamTheorems.SyncExecutes` | cclaw/core/src/app/cc_agent_runtime.c:1279-1370 | What is executed after a replay is the response's own list of calls |
| `Base64.DigitTable` | cclaw/core/src/util/cc_base64.c:7-8 | The digits are the alphabet of section 4 of RFC 4648 |
| `Base64.DigitsAndIndices` | cclaw/core/src/util/cc_base64.c:15-25 | The index inverts the alphabet; '-' and '_' are further characters for 62 and 63 |
| `Base64.SextetsAre` | cclaw/core/src/util/cc_base64.c:68-76 | Shifts and masks cut three bytes into their sextets |
| `Base64.OctetsAre` | cclaw/core/src/util/cc_base64.c:164-172 | Shifts and masks cut four sextets into their bytes |
| `Base64.EncodeText` | cclaw/core/src/util/cc_base64.c:38-88 | The loop fills its buffer exactly with the encoding, padding included |
| `Base64.CountClean` | cclaw/core/src/util/cc_base64.c:116-123 | The first pass rejects bad characters and counts the rest |
| `Base64.DecodeText` | cclaw/core/src/util/cc_base64.c:101-179 | The second pass computes the decoding and never writes outside its buffer |
| `Base64Theorems.RoundTrip` | cclaw/core/src/util/cc_base64.c:38-179 | decode(encode(x)) = x for every byte string |
| `Base64Theorems.DecodesIff` | cclaw/core/src/util/cc_base64.c:101-179 | Decode succeeds exactly on texts whose characters, without whitespace, form quads with at most two padding characters at the very end |
| `Base64Theorems.WhitespaceIgnored` | cclaw/core/src/util/cc_base64.c:116-147 | Whitespace may be inserted anywhere without effect |
| `Base64Theorems.ReencodeIff` | cclaw/core/src/util/cc_base64.c:38-179 | encode(decode(t)) = t exactly for canonical texts of the standard alphabet: no whitespace and no spare bits set |
| `Base64Theorems.RunIsQuads` | cclaw/core/src/util/cc_base64.c:145-174 | The decoder's loop works quad by quad, whatever it has output before |

## Left out

- Allocation failures, and overflow of `size_t`, `int` and 64-bit counters except where an error branch tests for it (suffix costs, summary fit, the Base64 and stream limits in characters).
- Wake-ups and liveness: condition variables, thread creation and joining, flush and the waiting half of every shutdown. Steps say what may happen, not that it does.
- Real time: a timeout may strike at any wait, and the run queue's clock is any sequence of numbers.
- Two concurrent unsubscribers of one handle, and two concurrent destroyers of one builder.
- Metrics that no branch reads: hash collisions, latencies, waiting time, high-water marks, active topics and subscribers.
- Subscriber bit sets are sets of slot numbers, and the mailbox cells of a slot are a value inside its record; the ready ring, the slot array and the topic table are arrays.
- EventBus.EventBus.Publish: redaction of secrets in the event text is left out.
- RuntimeBuilder.RuntimeBuilder.Commit: takes a base that is not on the retired list; every reload's base is current when it commits, and GenerationTheorems.NextInv shows that the current generation is never on the list.
- RuntimeBuilder.RuntimeBuilder.Release: takes a generation that the builder created; the branch for a generation without an owner is left out.
- What a committed reload reads of its new generation for its report, without a lease on it.
- What a generation is made of: building, validating and destroying tools, plugins and providers is one step that succeeds or fails.
- Run ids: the generated candidates are a parameter, so that repeated ids and a generator that gives up are covered; the strength of the generator is not.
- Tasks and tool executions: a task returns any status between two steps; ToolStream.StreamLoop.ExecutePending takes the result of a tool as a function of the call.
- SegmentedStore.SessionLog: JSON is a parameter, an encoding of records and batch lines that can be read back and has no newlines (SegmentedCodec.CodecExists shows one); a file append happens fully or not at all, and only its synchronization may fail after it. Torn writes, media files, manifests' other fields, the mapping from session ids to directories and the check that a batch has one session id are left out.
- ContextBudget.ChooseHistory: whether the history exceeds the compression threshold is a parameter (the code compares with a floating-point product); making the summary, the persistent summary store and cancellation are left out.
- HistorySanitizer: copying of messages; text, artifacts and times of a message are one opaque value.
- SseFramers.StreamContext.Body: newline-delimited JSON framing, HTTP status handling and callbacks that fail are left out; a protocol is any function from payloads to chunks.
- NUL characters in streamed text, where the two framers of the source stop at different places.
- ToolStream.StreamLoop.Callback: the cancellation token, which is tested before anything else, a failing application callback and published observations are left out.
- Provider request and response formats, HTTP, SQLite, file-system ports, plugins, skills, configuration, the in-memory stores and the tool pool: plumbing, or the same shapes with easier properties.
