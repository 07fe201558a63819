# TestingHQ: a verified model

TestingHQ fires synthetic mail at an intake pipeline and then has to say truthfully what became of it.
This project models the places where state, time, ordering and arithmetic decide whether it can, and
proves what the code promises there. `dafny verify dfyconfig.toml` checks all of it.

Time is a `real`. A sleep of d moves an injected clock by d (`Clocks.Clock`); where another process may
use up time, the clock may also drift forward by any amount (`Clocks.WallClock`). Threads are interleaved
atomic steps, one per stretch of code that holds a lock, and a run is any sequence of steps. Network,
files and the content checks of a record are parameters: a server answers within its timeout, a file is
a text that grows, a content check is a boolean.

| file | what it models |
|---|---|
| `Intake`, `IntakePipeline`, `Threading` | the reference intake pipeline: deduplication, threading, tickets that merge when a parent arrives late; and what that promises over every order of arrival |
| `HttpReadback`, `Pagination` | the HTTP readback adapter: pacing, retries, deadline, pages |
| `Signatures`, `Settling`, `ReadBackAll` | the settling loop: what SETTLED entitles the tool to claim of the lookups made, its hard budget, and exactly when a run on a constant store settles |
| `Json`, `JsonGrammar`, `Strings`, `MailboxLines`, `Mailbox` | the mailbox adapter: an append-only sink read piece by piece, and the JSON it takes |
| `RateLimit`, `TokenBuckets` | the token bucket, as locked steps and as an object that sleeps |
| `Plans`, `OpenLoop`, `ClosedLoop` | load plans, the open-loop schedule and its gate, the closed-loop pacer |
| `Executor`, `LoadRun` | the worker pool and one live run, as protocols |
| `LoadReport` | buckets, percentiles, the first persistent bad window |
| `Tags`, `Stamps`, `Strays`, `Ledger`, `Redelivery`, `LoopCheck` | printing and finding tags, owners of strays, exactly-once accounting, redelivery scenarios, the mail-loop verdict |
| `Decimal`, `Reals`, `Clocks`, `Sorting`, `Wrappers` | small shared parts |

Where the code mutates an object (the pipeline, the adapters, the bucket, the pacer, the pool, the live
run) the model is a class whose methods are proved against functions on values; what the code promises is
then proved about those functions, over whole runs.

## What the proofs found

- A plan-sized default `max_wait` counts one request a tag. On a store that answers at once and never
  changes a run settles exactly when two polls' requests fit (`ReadBackAll.ReadBackAll`), so the default is
  enough whenever a poll takes at most a request for each tag of the plan: that is so for lookups that end
  on their first page, and which those are depends on the paging and the records of a tag
  (`ReadBackAll.OneRequestATagIff`). With page numbers and no page size every tag that has a record takes two
  requests, and 200 such tags at the default rate end UNSETTLED (`ReadBackAll.DefaultFallsShort`).
- Threading does not depend on arrival order for exactly those sets of messages in which no delivered
  reply has an undelivered parent and a delivered earlier ancestor (`Threading.OrderIsIrrelevantIffGapFree`).
- `split_tag` undoes `make_tag` exactly for prefixes that start with no blank, hold no newline and do not
  end in a dash before a seed that is not negative (`Tags.SplitUndoesMakeIff`); two different tags print
  alike only through such a dash (`Tags.TagsCollideIff`).
- With a page size parameter, a server that ignores it and serves smaller pages loses records without
  `partial` being set (`Pagination.SizedListingIsFaithfulIff`).
- A closed-loop plan with a warmup longer than a nanosecond and no ramp steps makes the pacer ask for a
  sleep that is not positive; no other accepted plan does (`ClosedLoop.RunsThatGetStuck`).
- The cause NO_TIME says that no change was seen only after two complete polls; with fewer, a change seen
  by the poll that was cut short is still reported as NO_TIME (`Settling.CauseIsExact`).
- LOOP-SAFE without a qualifier is sound exactly for listings that are not partial; a listing that stopped
  at its page limit does not change the headline (`LoopCheck.SoundIffNotPartial`). What it can hide is a reply
  without a tag of its own (`LoopCheck.OnlyUntaggedRepliesHide`).
- A mailbox sink is read in full at any refresh points exactly when each line is blank or holds one object
  (`Mailbox.AnyLooksReadItIffGood`); two objects on one line are accepted one by one and refused together
  (`Mailbox.TwoObjectsOnOneLine`).
- Left alone, a closed-loop worker is offered the whole plan up to a nanosecond of the top rate for each boundary
  it crosses (`ClosedLoop.OfferAlone`), and however many workers there are never more than it by more than one slot,
  a nanosecond of the top rate and a sliver a slot (`ClosedLoop.OfferedLoadIsWithinPlan`).
- Closed-loop record indices are distinct but may have gaps (`LoadRun.ClosedLoopMaySkipIndices`).

## Model

| member | source | states |
|---|---|---|
| Threading.FiledUnderNearest | examples/pipeline_demo.py:160-161 | the search through In-Reply-To and reversed References finds the nearest known ancestor of a message, and nothing exactly when no ancestor is known |
| Threading.DeliveryKeepsInv | examples/pipeline_demo.py:145-205 | one delivery keeps, in every state: records and `ticket_of` agree, one record per id, replies wait for their parent or are on their nearest ancestor's ticket, groups stay on tickets of their own |
| Threading.DeliveryKeepsPlace | examples/pipeline_demo.py:193-205 | a waiting or placed reply stays so whoever arrives, also when the newcomer is its parent or lies between it and its nearest ancestor |
| Threading.RunKeepsInv | examples/pipeline_demo.py:145-205 | the invariant holds after every sequence of deliveries with any repeats, and the received messages are exactly the delivered ones |
| Threading.OneRecordPerMessage | examples/pipeline_demo.py:145-187 | over every run with repeats each delivered message has exactly one record, nothing else has one, and `ticket_of` names that record's ticket |
| Threading.ReplyJoinsParent | examples/pipeline_demo.py:145-205 | whatever the order of arrival, a message received along with its parent is on its parent's ticket |
| Threading.ThreadsNeverShare | examples/pipeline_demo.py:145-205 | two messages on one ticket belong to one thread, whatever has been delivered |
| Threading.WholeThreadsAreTickets | examples/pipeline_demo.py:145-205 | once their ancestors are in, two messages share a ticket if and only if they share a thread |
| Threading.TogetherStaysTogether | examples/pipeline_demo.py:193-205 | tickets only merge: messages on one ticket stay together through every further delivery |
| Threading.GapFreeTickets | examples/pipeline_demo.py:145-205 | for a set of messages without gaps the partition into tickets is the one given by each message's topmost delivered ancestor |
| Threading.GapMakesOrderMatter | examples/pipeline_demo.py:154-187 | a delivered reply with an undelivered parent and a delivered earlier ancestor makes two orders of the same messages disagree |
| Threading.OrderIsIrrelevantIffGapFree | examples/pipeline_demo.py:145-205 | the partition into tickets is independent of arrival order if and only if the delivered set has no such gap |
| Intake.TicketNamesDiffer | examples/pipeline_demo.py:189-191 | different ticket numbers print as different ticket names |
| Intake.ReceiveFilesOnce | examples/pipeline_demo.py:145-187 | in any state: a message whose id is known changes nothing; any other, also one without an id, adds one record, keeps those filed so far, is known by its id from then on, and opens an acknowledged ticket if and only if nothing it refers to is known |
| IntakePipeline.MergeOneMore | examples/pipeline_demo.py:193-205 | renaming one orphan's ticket after the others equals renaming all of them at once |
| IntakePipeline.Pipeline.Receive | examples/pipeline_demo.py:145-187 | the object's new state is the value model's, the reply tells a duplicate from a filed message, and only fresh records are added |
| IntakePipeline.Pipeline.FileRecord | examples/pipeline_demo.py:155-173 | the ticket is the nearest ancestor's or a new one, one record is appended and it waits under its parent exactly when no ancestor is known |
| IntakePipeline.Pipeline.Learn | examples/pipeline_demo.py:193-205 | the new id is known and every record and every id of the orphans' tickets moves to its ticket |
| IntakePipeline.Pipeline.MergeOrphans | examples/pipeline_demo.py:193-205 | the loop over the waiting records, which renames as it goes, amounts to one renaming of their original tickets |
| IntakePipeline.Pipeline.Lookup | examples/pipeline_demo.py:228-230 | the records returned are those that carry the tag, in arrival order |
| HttpReadback.HttpAdapter.BindClock | testinghq/pipeline/adapters.py:852-866 | a different clock forgets the pacing slot, the same clock keeps it, and the deadline is set |
| HttpReadback.HttpAdapter.Pace | testinghq/pipeline/adapters.py:873-888 | a request start is at least one interval after the one before, and no slot past the deadline is waited for |
| HttpReadback.HttpAdapter.Attempt | testinghq/pipeline/adapters.py:899-931 | one attempt starts before the deadline or is refused without effect, ends within the shortest timeout of it, and on a server that answers at once starts exactly at the next slot |
| HttpReadback.HttpAdapter.Perform | testinghq/pipeline/adapters.py:899-952 | at most retry_max + 1 requests, all of them spaced and before the deadline; a reply that is neither a failure nor a 429 nor a 5xx is the answer and ends it, any other is retried; it gives up only after retry_max + 1 retryable replies, a reply that asks for more than 300s, or with no room left in the budget; without a deadline the first final reply among the attempts is the answer |
| HttpReadback.HttpAdapter.PlanRetry | testinghq/pipeline/adapters.py:934-952 | there is no further attempt if and only if none is left or the reply asks for more than 300s; otherwise the pause is at least what the reply asks for, at most the backoff, and over before the deadline |
| HttpReadback.HttpAdapter.BackoffDoubles | testinghq/pipeline/adapters.py:890-895 | the backoff starts at the base and doubles with each attempt up to its cap |
| HttpReadback.HttpAdapter.Collect | testinghq/pipeline/adapters.py:1021-1081 | at most max_pages times (retry_max + 1) requests, all before the deadline; the result is what the server's replies add up to, page by page and retries apart, whatever the server, and an error is one of its replies or retries that were used up; on a server that answers at once its last request goes out one interval a page after the first, or it is given up when that is not before the deadline |
| HttpReadback.HttpAdapter.Fetch | testinghq/pipeline/adapters.py:1096-1098 | a lookup is logged with its answer, its time and the exchanges that are its own |
| Pagination.ListingIsFaithful | testinghq/pipeline/adapters.py:1021-1081 | against a server slicing a fixed list, the listing is the whole list unless `partial`, and with `partial` it is what exactly max_pages pages hold, for link, page and page-size paging |
| Pagination.ListingReadsPages | testinghq/pipeline/adapters.py:1021-1081 | the listing is its first k pages in order, where every page before the k-th looked full and the k-th did not or was the max_pages-th; `partial` is set if and only if that one looked full |
| Pagination.OneRequestIffFewRecords | testinghq/pipeline/adapters.py:1053-1074 | a lookup takes one request if and only if one page is allowed, or without paging, or the list ends on its first linked page, or fewer than 100 records with a page size, or no record without one |
| Pagination.SizedListingIsFaithfulIff | testinghq/pipeline/adapters.py:1021-1081 | with a page-size parameter the listing is faithful if and only if the server's page has at least 100 records or one page holds everything |
| Signatures.SameSignatureIffSameRecords | testinghq/pipeline/common.py:522-526 | two answers have one signature if and only if they hold the same records in any order |
| Settling.SettledIsSound | testinghq/pipeline/common.py:638-743 | from a complete poll on that began at least the quiet window before the end, every lookup made of any tag, also by a poll cut short, answered exactly the records reported up to order and nothing for a tag reported missing; at least two complete polls asked every tag since |
| Settling.CauseIsExact | testinghq/pipeline/common.py:746-798 | the cause is NO_TIME if and only if fewer than two polls were complete or no change was ever seen; with two or more, NO_TIME means that every poll read the final state |
| Settling.SettledByQuietSince | testinghq/pipeline/common.py:661-710 | deciding by the one remembered start `quiet_since` is deciding whether any such stretch exists |
| Settling.OneMorePoll | testinghq/pipeline/common.py:661-685 | a further poll moves `quiet_since` and the record of change exactly as the loop does |
| Settling.UnsettledMeansOutOfTime | testinghq/pipeline/common.py:638-743 | a run that did not settle lasted at least max_wait, or its adapter gave up a lookup for want of budget |
| Settling.ConstantFromSomePollSettles | testinghq/pipeline/common.py:638-743 | a store that is constant from some poll on settles, whatever it did before, once two complete polls have read it and the quiet window fits into the budget, unless a lookup was given up sooner |
| Settling.StopsOnlyWithoutRoom | testinghq/pipeline/common.py:638-743 | a run that neither settled nor was cut short made polls until no interval was left before the deadline |
| Settling.DefaultBudgetFits | testinghq/pipeline/common.py:264-344 | the default budget exceeds two polls and an interval of up to 10s, and the quiet window even when the last poll stops one pacing interval early |
| Settling.ResolvesTo | testinghq/pipeline/common.py:264-344 | a max_wait that was given is kept exactly; otherwise it is a minute, or two polls of the plan and the quiet window and a quarter more, up to the next whole second |
| Settling.DefaultIsEnough | testinghq/pipeline/common.py:264-344 | two polls and the quiet window fit in the default when a poll takes at most one request for each tag of the plan, wherever the pacing slot stands |
| ReadBackAll.Distinct | testinghq/pipeline/common.py:610-613 | each tag once, in the order first seen |
| ReadBackAll.PollOnce | testinghq/pipeline/common.py:643-659 | a poll's lookups are logged in order; the answers held afterwards are theirs, and those held before for every tag not answered; on a steady store it is complete if and only if its last request's turn comes before the deadline |
| ReadBackAll.Watch | testinghq/pipeline/common.py:638-743 | the loop goes on, an interval after each poll, until the state has held for the quiet window or the budget is gone, and then stops at once, with its variables standing for the lookups made, poll by poll; on a steady store with two complete polls if and only if they fit |
| ReadBackAll.ConcludesByTheRule | testinghq/pipeline/common.py:694-743 | what the loop concludes from its variables is what the rule says of the polls made and of the lookups of a poll cut short |
| ReadBackAll.ReadBackAll | testinghq/pipeline/common.py:529-743 | the polls are all the lookups this run made and the outcome is the rule applied to what they answered; it polls on until the state has held or the time is gone, so a run that did not settle and was not cut short lasted max_wait; it ends within max_wait + 0.05s and no request starts at or after the deadline; on a store that answers at once and never changes, whatever the adapter and its paging, the records reported are the store's and, if the quiet window fits, the run settles if and only if two polls' requests fit; so does every default max_wait for at least as many tags as a poll takes requests |
| ReadBackAll.OneRequestATagIff | testinghq/pipeline/adapters.py:1053-1074 | a poll takes no more requests than there are tags if and only if one page is allowed or the paging lets each tag's records end on the first page |
| ReadBackAll.DefaultFallsShort | testinghq/pipeline/common.py:264-344 | 200 tags with a record each, looked up by page number without a page size at the default rate: the default of 132s ends UNSETTLED for want of time on a correct, constant store |
| Json.ScanValueExtends | testinghq/pipeline/adapters.py:1275-1280 | a JSON value that cannot grow is the same value in every longer text |
| Json.NoBeginningIsJson | testinghq/pipeline/adapters.py:1275-1285 | no strict beginning of an object that ends where its text ends is a JSON text |
| JsonGrammar.LoadsIff | testinghq/pipeline/adapters.py:1275-1280 | `json.loads` takes exactly the texts of the grammar of RFC 8259 (with Python's NaN and Infinity), blanks around them included, each for the value it spells |
| JsonGrammar.FoundIsSpelt | testinghq/pipeline/adapters.py:1275-1280 | whatever value the scanner finds at a place, the text there spells it |
| JsonGrammar.SpeltIsFound | testinghq/pipeline/adapters.py:1275-1280 | and any value spelt there is found, a number if nothing follows that would make it longer |
| MailboxLines.BeginningOfEntry | testinghq/pipeline/adapters.py:1255-1293 | whatever has arrived of a line that will hold one object is blank, no JSON text, or the whole object with only blanks to come |
| Mailbox.ReadsOn | testinghq/pipeline/adapters.py:1255-1297 | from wherever a reader of a good sink stands, consuming up to any byte raises nothing and leaves only an unfinished line that is not yet an object |
| Mailbox.IncrementalReadingIsWholeReading | testinghq/pipeline/adapters.py:1227-1297 | for an append-only sink of lines that are blank or one object, any refresh points and any modification times give the records, order and line count of one pass over the text, and of the lines themselves |
| Mailbox.AnyLooksReadItIffGood | testinghq/pipeline/adapters.py:1227-1297 | a sink of lines is read in full, without an error and whatever the refresh points, if and only if each line is blank or holds one object |
| Mailbox.ReplacedIsReadAfresh | testinghq/pipeline/adapters.py:1227-1253 | another file, one shorter than what was read, or one of the same length written since, whatever it holds, is read as by an adapter that has read nothing |
| Mailbox.OtherwiseReadsOn | testinghq/pipeline/adapters.py:1227-1253 | any other file is read on from the offset by the reader as it stands, and an unchanged one changes nothing |
| Mailbox.MissingSinkIsEmpty | testinghq/pipeline/adapters.py:1228-1234 | a sink that is not there holds nothing, also when it was read before, and is no error |
| Mailbox.ErrorNamesTheLine | testinghq/pipeline/adapters.py:1261-1293 | an error names the first line that is neither blank nor an object, by its number, and says whether it is JSON at all |
| Mailbox.UnfinishedLineIsNoError | testinghq/pipeline/adapters.py:1261-1293 | after good lines, text without a newline is an error only when it is JSON and no object |
| Mailbox.NoByteTwice | testinghq/pipeline/adapters.py:1227-1297 | over any sequence of refreshes of a sink that grows, whatever its lines hold and however many of them raised, each record held was read from bytes of its own, in order, before the offset |
| Mailbox.TwoObjectsOnOneLine | testinghq/pipeline/adapters.py:1261-1297 | two objects on one line are accepted read by read and refused in one pass |
| Mailbox.MailboxAdapter.TakePiece | testinghq/pipeline/adapters.py:1261-1297 | one piece moves offset, line number, open line, records and index as the value model says, error cases included |
| Mailbox.MailboxAdapter.ConsumeChunk | testinghq/pipeline/adapters.py:1255-1297 | the loop over the pieces is the value model's, up to the first piece that raises |
| Mailbox.MailboxAdapter.Refresh | testinghq/pipeline/adapters.py:1227-1253 | the reset rules and the read of the new bytes are the value model's, and the index stays the records filtered by tag |
| Mailbox.MailboxAdapter.Fetch | testinghq/pipeline/adapters.py:1363-1367 | a lookup returns the records that carry the tag, in the order read, or the error the refresh raised |
| RateLimit.StepConserves | testinghq/core/ratelimit.py:66-136 | one locked step grants and keeps no more than it had, its reading earns, and one shortest wait's worth for a sliver |
| RateLimit.WindowBound | testinghq/core/ratelimit.py:66-136 | over any interleaving and any clock readings, also backwards, the tokens granted in every window are at most a full bucket, the integral of the rate over the greatest reading, and a sliver a grant; the count stays within the bucket |
| TokenBuckets.TokenBucket.ChangeRate | testinghq/core/ratelimit.py:74-81 | the new state is the value model's step; a rate that is not positive is refused without effect |
| TokenBuckets.TokenBucket.TimeUntil | testinghq/core/ratelimit.py:83-91 | the wait is the time in which the deficit is earned, zero when the tokens are there |
| TokenBuckets.TokenBucket.TryTake | testinghq/core/ratelimit.py:93-103 | tokens are taken if and only if they are there, and nothing waits |
| TokenBuckets.TokenBucket.Acquire | testinghq/core/ratelimit.py:105-136 | alone, a thread sleeps at most once, on an additive clock for exactly the deficit, and the state after is a run of locked passes ending in a grant |
| Plans.StagesOfARun | testinghq/barrage/runner.py:126-145 | the stages of every accepted plan have positive rates and durations, never slow down, end at the target rate, and fill the run if and only if there is no warmup or the warmup has steps |
| Plans.RampClimbsEvenly | testinghq/barrage/runner.py:126-137 | the warmup climbs evenly from nothing to the target rate, in steps of one height and one length |
| Plans.IntegralSplits | testinghq/barrage/report.py:224-235 | the planned integral adds up over adjacent windows, for any stages |
| Plans.IntegralAtLeast | testinghq/barrage/runner.py:126-145 | between two moments of a plan that never slows down the plan asks for at least the rate in force at the first |
| OpenLoop.ArrivalSchedule | testinghq/barrage/runner.py:162-180 | the loops over stages and steps build the schedule that the lemmas below are about |
| OpenLoop.EveryArrivalIsAtHome | testinghq/barrage/runner.py:162-180 | each arrival is numbered by its place and lies inside its own stage, at least half an interval before that stage's end |
| OpenLoop.ArrivalsAreSpaced | testinghq/barrage/runner.py:162-180 | the schedule is strictly increasing: gaps are 1/rate inside a stage and at least 0.5/rate across a boundary |
| OpenLoop.ArrivalsMatchThePlan | testinghq/barrage/runner.py:162-180 | the number of arrivals differs from the planned integral by at most half a request a stage, with rounding half to even |
| OpenLoop.PlannedIsTheIntegral | testinghq/barrage/report.py:224-235 | what the schedule counts as planned is the plan's integral over any window that holds all stages |
| OpenLoop.PlannedOfARun | testinghq/barrage/runner.py:126-145 | a run asks for its hold at the target rate and, for its warmup, half of what the target rate would give and half a step more |
| OpenLoop.GateNeverWaits | testinghq/barrage/runner.py:410-436 | as long as no arrival is more than half an interval late the gate of capacity 2 always has a token, also where the last ramp step and the hold share a gate |
| OpenLoop.OnTimeRunHasNoGateWaits | testinghq/barrage/runner.py:317-335 | for every plan a run accepts, a run that stays on time has no gate wait |
| ClosedLoop.NeverStuckIffStagesReachTheEnd | testinghq/barrage/runner.py:374-402 | no reading makes a taker ask for a sleep that is not positive if and only if the stages reach the end of the run to within the tolerance |
| ClosedLoop.RunsThatGetStuck | testinghq/barrage/runner.py:126-145 | among accepted plans exactly those with a warmup longer than the tolerance and no ramp steps get stuck |
| ClosedLoop.StepStaysWithinPlan | testinghq/barrage/runner.py:374-402 | every step of the bucket keeps grants within what the staircase plan has asked for |
| ClosedLoop.OfferedLoadIsWithinPlan | testinghq/barrage/runner.py:338-402 | at any time the slots handed out number at most one, the plan's integral so far, a nanosecond of the top rate, and a sliver a slot |
| ClosedLoop.OfferAlone | testinghq/barrage/runner.py:374-451 | a worker on its own whose sends take no time has at any moment been offered at least the plan's integral so far, and by the end of the run the whole plan, but for a nanosecond of the top rate for each boundary crossed |
| ClosedLoop.NothingLeftToOffer | testinghq/barrage/runner.py:374-402 | a pacer that keeps up and hands out no more has offered the plan but for that tolerance |
| ClosedLoop.Pacer.Take | testinghq/barrage/runner.py:374-402 | `take` terminates with the remaining stage boundaries as measure, numbers slots in take order, takes each before the run's end at the rate of the stage in force and, in a run its stages fill, within the plan; it is over only if it was before, was stopped, the run has ended, or the next token of the last stage would come too late; it asks for a sleep that is not positive only if the stages end before the run |
| ClosedLoop.Pacer.Look | testinghq/barrage/runner.py:377-402 | one pass of the loop takes a token, ends for one of those reasons, or moves to a later stage; a lone taker on an additive clock keeps up with the plan at every pass |
| Executor.StepKeepsInv | testinghq/barrage/executor.py:86-127 | every atomic step of submitters, workers and shutdown keeps: each future in one place and never lost on its way, started at most once, tracked until it can no longer start, cancelled only once the pool is closed, one sentinel a worker |
| Executor.LifeOfAFuture | testinghq/barrage/executor.py:86-127 | in one step a pending future is started by the worker that took it or cancelled by a shutdown that lists it, a cancelled one is let go, a running one is finished by its worker, and nothing else happens to a future |
| Executor.EveryAcceptedTaskRuns | testinghq/barrage/executor.py:86-109 | a pool that is not shut down and has come to rest has called every task it accepted exactly once |
| Executor.OpenPoolComesToRest | testinghq/barrage/executor.py:86-109 | and it comes to rest: unless it is given more to do it has a bounded number of steps |
| Executor.QueueIsInOrder | testinghq/barrage/executor.py:86-109 | of two items in the queue the first leaves first |
| Executor.RunAtMostOnceOrCancelled | testinghq/barrage/executor.py:86-127 | over every interleaving a submitted function is called at most once, exactly when its future ran, and never once its future was cancelled |
| Executor.ShutdownLeavesNothingPending | testinghq/barrage/executor.py:112-127 | after a cancelling shutdown every accepted future is over or running, also one put behind the sentinels, and as many sentinels are left as workers are still running one |
| Executor.EveryWorkerExits | testinghq/barrage/executor.py:86-127 | once nothing can move every future has ended and every worker has consumed its one sentinel |
| Executor.ClosedPoolComesToRest | testinghq/barrage/executor.py:86-127 | no interleaving of a closed pool has more steps than its measure |
| Executor.PoolExecutor.Submit | testinghq/barrage/executor.py:103-109 | the locked part accepts a new future, or refuses without effect once the pool is closed |
| Executor.PoolExecutor.GetItem | testinghq/barrage/executor.py:86-91 | a worker takes the head of the queue, and a sentinel ends it |
| Executor.PoolExecutor.StartTask | testinghq/barrage/executor.py:92-95 | the future found is pending or cancelled, never anything that raises, and its function is called exactly when it was pending |
| Executor.PoolExecutor.FinishTask | testinghq/barrage/executor.py:96-101 | the result is set on a running future |
| Executor.PoolExecutor.StartShutdown | testinghq/barrage/executor.py:119-122 | the locked part closes the pool and takes the pending set |
| Executor.PoolExecutor.CancelPending | testinghq/barrage/executor.py:123-125 | a future that has not started is cancelled, and one that has is left alone |
| LoadRun.StepKeepsInv | testinghq/barrage/runner.py:250-307 | every step of dispatcher, workers and finaliser keeps numbering, one sender a slot, the slots' contents, the count of calls and the final records |
| LoadRun.RecordsOfARun | testinghq/barrage/runner.py:250-307 | over every interleaving: one record per arrival in an uninterrupted open loop, distinct ascending indices always, the hook called at most once an index and only for records that end completed or abandoned; a record is sent if and only if its request was picked up before the deadline and within the queue limit, dropped if and only if before the deadline and too long after it was due, not dispatched if and only if never or not before the deadline, and completed with what the hook answered; nothing changes after the run is finalised |
| LoadRun.NoRequestIsForgotten | testinghq/barrage/runner.py:250-307 | at every moment before the run is finalised, a request not decided about waits for a worker, one dispatched is being sent unless its hook raised, and an index taken is recorded or held |
| LoadRun.NothingIsCutShort | testinghq/barrage/runner.py:556-569 | a run finalised before its deadline, not interrupted and with no hook that raised, has abandoned nothing: each request was completed, dropped from the backlog, or seen only at or after the deadline |
| LoadRun.AtRestAllIsDone | testinghq/barrage/runner.py:410-451 | an open loop does not get stuck: when only the stop is left to move, the plan has been dispatched or interrupted and every send submitted is over |
| LoadRun.InFlightAtMostConcurrency | testinghq/barrage/runner.py:410-451 | at every moment at most as many calls of the hook are out as there are workers |
| LoadRun.SchedulesAreCounted | testinghq/barrage/runner.py:162-180 | the schedule of every plan numbers its arrivals from 0, as the run requires |
| LoadRun.ClosedLoopMaySkipIndices | testinghq/barrage/runner.py:439-451 | a closed-loop run whose only record has index 1 |
| LoadRun.LiveRun.BeginSend | testinghq/barrage/runner.py:281-294 | the first locked stretch of a send is the protocol's step, keeps its invariant over the heap, and says to call the hook if and only if the run is not closed, the deadline has not come and, in an open loop, the request is no later than the queue limit |
| LoadRun.LiveRun.AppendArrival | testinghq/barrage/runner.py:431-434 | the dispatcher's append is the protocol's step |
| LoadRun.LiveRun.AppendTakenSlot | testinghq/barrage/runner.py:445-449 | a closed-loop worker's append is the protocol's step and is refused once the run is closed |
| LoadRun.LiveRun.EndSend | testinghq/barrage/runner.py:296-300 | the second locked stretch is the protocol's step and keeps its invariant |
| LoadRun.LiveRun.AppendNeverSent | testinghq/barrage/runner.py:417-425 | past the deadline the loop over the arrivals still owed is one step of the protocol |
| LoadRun.LiveRun.FinaliseRun | testinghq/barrage/runner.py:302-307 | closing the run is the protocol's last step, and the records returned are the ones promised of every run: one per arrival or distinct indices, and each true to the calls of the hook |
| LoadReport.PercentileIsNearestRank | testinghq/barrage/report.py:104-113 | the percentile is an observed value v with at least n·f values at most v and fewer than n·f below it |
| LoadReport.PercentileIsMonotone | testinghq/barrage/report.py:104-113 | it does not depend on the order of the values and does not fall as f grows |
| LoadReport.MembersLieInside | testinghq/barrage/report.py:275-281 | a bucket's members are the sent samples of its key, and those dispatched at or after the origin lie in its interval |
| LoadReport.SeriesConserves | testinghq/barrage/report.py:275-323 | the sums over buckets of count, errors, shed, dropped and each status class are the run's totals |
| LoadReport.ColumnsSay | testinghq/barrage/report.py:244-323 | of every bucket: where it begins, whether it is of the hold, that its classes add up to its count, and that its errors are those without a response, the 5xx and the 429s |
| LoadReport.MedianSays | testinghq/barrage/report.py:104-130 | the latency a bucket is judged by is the median of its responses whose latency is known, and there is none only when there is no such response |
| LoadReport.TargetSays | testinghq/barrage/report.py:300-305 | without a plan a bucket targets the highest rate one of its samples was meant for, or, when nothing was sent in it, what the bucket before it did |
| LoadReport.ExpectedIsThePlan | testinghq/barrage/report.py:224-323 | the sum of `expected` is the plan's integral over the series, for any bucket width and any stages |
| LoadReport.ExpectedCoversThePlan | testinghq/barrage/report.py:286-301 | from the run's start on that sum is the whole plan but for at most a nanosecond of its top rate |
| LoadReport.PlannedIntegral | testinghq/barrage/report.py:224-235 | the loop computes the plan's integral over the window |
| LoadReport.Bucketize | testinghq/barrage/report.py:244-323 | an error for a width that is not positive; otherwise from the origin or, without one, from the earliest send, as many buckets as the samples and the plan need, each the one its key defines |
| LoadReport.SpansAddUp | testinghq/barrage/report.py:286-301 | the spans of the buckets add up to the plan's time between the origin and the end of the series, a last short bucket counted in part |
| LoadReport.FindKnee | testinghq/barrage/report.py:400-441 | the least index that starts `persistence` bad buckets in a row, with its first reason, and nothing if and only if no index does; bad is shedding, falling behind for no fault of the client, or slowing against the hold's first two medians |
| LoadReport.TroubleSays | testinghq/barrage/report.py:340-397 | a bucket is bad if and only if the threshold's share of it failed, or it lags behind its plan unexcused by busy workers, or it is slower than the hold began, and the first of these is its reason |
| LoadReport.BaselineIsTheHolds | testinghq/barrage/report.py:331-337 | the latency baseline comes from the hold and never from the ramp: from its earliest buckets with a median, two unless there are fewer |
| LoadReport.BusyWorkersDoNotFallBehind | testinghq/barrage/report.py:334-371 | a closed loop that sent what its workers could at the latency seen is not falling behind, however much was planned |
| Tags.PrintedReadsBack | testinghq/pipeline/messages.py:46-99 | a printed seed and index read back as themselves |
| Tags.OneTailPoint | testinghq/pipeline/messages.py:46-87 | a text that splits into prefix and tail at two dashes has them side by side, the second being a sign |
| Tags.TagsCollideIff | testinghq/pipeline/messages.py:90-99 | two tags print alike if and only if they are equal or one prefix is the other with a dash and the seeds are opposite |
| Tags.MakeTagIsInjective | testinghq/pipeline/messages.py:90-99 | prefixes that do not end in a dash print apart |
| Tags.SplitUndoesMakeIff | testinghq/pipeline/messages.py:76-99 | `split_tag` gives back prefix, seed and index if and only if the prefix starts with no blank, holds no newline, and does not end in a dash before a seed that is not negative (one dash alone is fine) |
| Stamps.SearchTag | testinghq/pipeline/messages.py:102-138 | the scan of the lines and the search loop for markers find what the definition of a stored tag says |
| Stamps.StampedTagIsFound | testinghq/pipeline/messages.py:102-196 | the tag stamped into a body that carried neither a marker nor a tag header is the tag found |
| Strays.MadeTagIsFound | testinghq/pipeline/messages.py:90-196 | so is every printed tag whose prefix holds no bracket and no line break |
| Strays.MinterIsUnique | testinghq/pipeline/ledger.py:142-153 | `minted_by` names a prefix if and only if it is the one in the family that minted the tag |
| Strays.LongestMinter | testinghq/pipeline/ledger.py:142-153 | in any family `minted_by` names the longest prefix that minted the tag, and nothing if and only if none did |
| Strays.MintingAgreesWithSplitting | testinghq/pipeline/ledger.py:142-153 | `minted_by` and `split_tag` agree on every prefix without newline that does not end in a dash |
| Strays.ScenarioTagsAreDisjoint | testinghq/pipeline/redeliver.py:795-797 | no tag of one scenario is a tag of another |
| Strays.OwnersAreRight | testinghq/pipeline/redeliver.py:852-867 | a tag is a finding against a scenario if and only if that scenario's prefix minted it, however the run's prefix looks |
| Strays.RunTagsHaveNoOwner | testinghq/pipeline/redeliver.py:852-867 | a tag under the run's own prefix is in the family and belongs to no scenario |
| Strays.ClassifyStrays | testinghq/pipeline/ledger.py:162-194 | the loop publishes the records of each class in listing order |
| Strays.ClassesHold | testinghq/pipeline/ledger.py:162-194 | a listed record is the run's own if and only if its tag was sent or its ticket was found, and otherwise untagged, extra or another run's by whether its tag is stamped and a prefix of the family minted it |
| Strays.StrayTagSays | testinghq/pipeline/ledger.py:119-133 | a stray's tag is its tag field if that has the printed shape, else what its body or then its subject stores, and only then a label that is no tag of ours |
| Strays.ClassesPartition | testinghq/pipeline/ledger.py:162-194 | every listed record is in exactly one of own, extra, other run and untagged |
| Strays.AttributeStrays | testinghq/pipeline/redeliver.py:862-874 | each scenario that ran gets its own strays up to the cap, and the rest are unattributed |
| Strays.OwnedByHolds | testinghq/pipeline/redeliver.py:862-874 | a scenario that ran owns exactly the extra records whose tag its prefix minted, and those of no such scenario are unattributed |
| Strays.OwnersPartition | testinghq/pipeline/redeliver.py:862-874 | every extra record has exactly one owner or is unattributed |
| Ledger.TallySent | testinghq/pipeline/ledger.py:251-286 | the loop over the sent messages sorts them into their classes in order |
| Ledger.Account | testinghq/pipeline/ledger.py:202-337 | the published accounting: the tally of the sent messages, the strays of a listing capped beside exact counts, and whether the store was searched |
| Ledger.BalancedIff | testinghq/pipeline/ledger.py:202-371 | a ledger balances, in word and in flag, if and only if the readback settled and did not fail, every message sent has exactly one record of the right content, and a whole listing holds no stray of the run |
| Ledger.VerdictSays | testinghq/pipeline/ledger.py:340-371 | when each of the other verdicts is given, for every run, in terms of what was sent, found and listed |
| Ledger.ExactlyOnceCountsTheRight | testinghq/pipeline/ledger.py:251-286 | `exactly_once` counts the messages with one record that is right in content, and no others |
| Ledger.ListsHold | testinghq/pipeline/ledger.py:251-286 | `wrong` holds the messages with one record of wrong content, `missing` those with none, `duplicated` those with more, under all their tickets |
| Ledger.CapKeepsTheFirst | testinghq/pipeline/ledger.py:304-315 | the artifact lists the first 200 strays and no more |
| Ledger.AccountConserves | testinghq/pipeline/ledger.py:251-286 | each message is in exactly one class, and `produced` is exactly_once plus wrong plus the duplicates' counts |
| Ledger.SentPartition | testinghq/pipeline/ledger.py:251-286 | the four classes part the sent messages, repeats included |
| Redelivery.RepeatTwice | testinghq/pipeline/redeliver.py:313-368 | each message twice with one tag and id: pair by pair without a gap, otherwise originals, one wait, retries |
| Redelivery.EachComesTwice | testinghq/pipeline/redeliver.py:313-368 | each message comes exactly twice, the same both times, back to back without a gap and otherwise its retry after all the originals |
| Redelivery.GapIsWaitedForOnce | testinghq/pipeline/redeliver.py:313-368 | the gap is waited for once, between the last original and the first retry, however many messages there are |
| Redelivery.RepliesComeFirst | testinghq/pipeline/redeliver.py:403-459 | reply-first delivers both replies before the message they answer |
| Redelivery.ThreadComesInOrder | testinghq/pipeline/redeliver.py:462-518 | references delivers a thread in order, each reply answering the message before it |
| Redelivery.PlanIsLinked | testinghq/pipeline/redeliver.py:371-576 | in every selection of scenarios each reply lists its full ancestry, its parent is delivered, and one tag is one message |
| Redelivery.LookupFindsOne | examples/pipeline_demo.py:145-230 | over any redelivery schedule with distinct ids and tags a lookup by tag finds exactly one record of each message delivered |
| Redelivery.ScenariosAreDeliverySafe | testinghq/pipeline/redeliver.py:529-576 | against the reference pipeline any selection of scenarios in any order leaves one record a message and replies on their parents' tickets, and the accounting finds nothing missing and nothing duplicated |
| Redelivery.AncestryOf | testinghq/pipeline/redeliver.py:243-261 | the climb with its seen set ends for every scenario, circles included, and returns the ancestors root first |
| Redelivery.AncestryIsReferences | testinghq/pipeline/redeliver.py:251-261 | for linked deliveries that ancestry is the References the reply was stamped with |
| LoopCheck.CountNew | testinghq/pipeline/loop.py:542-552 | the loop over a counter computes the new records |
| LoopCheck.NewIsTheDifference | testinghq/pipeline/loop.py:542-552 | the new records are exactly the multiset difference |
| LoopCheck.NewIsInOrder | testinghq/pipeline/loop.py:542-552 | they are a subsequence of the listing |
| LoopCheck.NewIsWhatWasAppended | testinghq/pipeline/loop.py:542-552 | on a sink that only grew they are what was appended, in order |
| LoopCheck.MergeOutbound | testinghq/pipeline/loop.py:568-588 | each tag gets its lookup's records and then the enumerated ones laid to it, and the rest are unattributed |
| LoopCheck.MergedHolds | testinghq/pipeline/loop.py:568-588 | a record is in a tag's list if and only if its lookup found it or the enumeration lays it to the tag |
| LoopCheck.UnclaimedHolds | testinghq/pipeline/loop.py:568-588 | a record is unattributed if and only if it was enumerated and belongs to nothing sent |
| LoopCheck.PlainLoopSafe | testinghq/pipeline/loop.py:683-756 | LOOP-SAFE without a qualifier is said if and only if the readback settled, nothing is unattributed, the sink could be listed, and no message has a finding or an unchecked reply |
| LoopCheck.HeadlineSays | testinghq/pipeline/loop.py:683-756 | every verdict and every qualifier, for every run: LOOP-SAFE if and only if the readback settled and did not fail, all new mail is attributed, and no judged message was answered or opened a ticket it may not open; LOOPS-DETECTED if and only if it settled and one of these fails; the qualifier by the sink and whether it can be listed |
| LoopCheck.ResultSays | testinghq/pipeline/loop.py:450-533 | the result of one message, every part of it: whether it opened a ticket, whether it was answered or that is unknown, and each finding |
| LoopCheck.AttributeSays | testinghq/pipeline/loop.py:555-566 | a record with a tag that was sent belongs to that tag, any other to the first message its In-Reply-To and then its References name, and to nothing only when they name none |
| LoopCheck.LoopSafeIsSound | testinghq/pipeline/loop.py:1046-1071 | over a sink that only grew and was listed to its end, every record appended since the baseline belongs to the precursor, no judged message was answered and, unless allowed, none opened a ticket |
| LoopCheck.SoundIffNotPartial | testinghq/pipeline/loop.py:741-756 | for sinks that only grew, a listing that is a beginning of them and lookups that find every tagged record, LOOP-SAFE without a qualifier can be relied on if and only if the listing was not partial |
| LoopCheck.OnlyUntaggedRepliesHide | testinghq/pipeline/loop.py:1046-1071 | under LOOP-SAFE every record listed beyond the baseline belongs to the precursor and no record of the sink, listed or not, carries a judged message's tag |
| LoopCheck.PartialListingHidesAReply | testinghq/pipeline/loop.py:741-756 | with a listing that stopped after its first record an untagged answer to the bait leaves LOOP-SAFE standing, while every lookup is right |

## Left out

- Header parsing of Message-IDs, machine-mail detection, classification, defect switches and the HTTP handler of the demo: a message's ids and references are given, and all defects are off.
- Replies that name the demo's own acknowledgements: the threads delivered are made of the messages sent.
- Content checks of a stored record: taken as a boolean per message and record.
- URL building, header secrets, JSON decoding of responses and `next_path` together with `page_param` in the HTTP adapter: a request is its paging parameters and a response the records it carries.
- Retry-After parsing and the jitter of a backoff: any delay in the range the code allows.
- Drift of the readback clock between two calls: the readback's clock moves by sleeping and by requests only.
- A `bind_clock` of an adapter other than the HTTP one: such an adapter does not hear of the deadline.
- `readback_verdict`, the all-404 rule and all advice texts of the readback.
- Blanks outside ASCII at the ends of a mailbox line, and lines of a sink that are truncated and regrown past the old offset on the same file: assumed not to occur.
- The warning about very long sinks and the mapping of a record's fields.
- Values of JSON strings and numbers: kept as written, since only acceptance and extent decide what is read.
- `shutdown(cancel_pending=False)` of the pool: not used by the repository.
- The serial executor: its runs are the interleavings of one worker in which the dispatcher waits for each send.
- ClosedLoop.Pacer.Take: for the plans of `ClosedLoop.RunsThatGetStuck`, whose stages end before the run, no bound on the load is stated: with a clock that drifts a token can be earned at the last rate after the last stage has ended.
- LoadReport.Bucketize: of a bucket's latencies only the median service latency is kept, the one that is judged.
- LoadReport.FindKnee: `persistence` is at least 1, as in the repository's constant, and the detail texts are left out.
- Digits and blanks outside ASCII in tags.
- Message-IDs with angle brackets or blanks of their own: ids are bare.
- Building the machine-mail corpus and the wait for the precursor's reply in the loop check.
- Artifact writing, report formatting, dry runs, command line and configuration.
