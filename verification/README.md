# Verified model of the agents platform's core

This project models the parts of `agents_system` whose correctness spans several
functions or a whole run, and proves what the code promises about them:

- **Proactive delivery** (`proactive.py`): a leased queue driven by any number of
  dispatchers that may stall, be cancelled, outlive their lease and read any
  clock. `Delivery` is the step system, one action for what a method body does
  between two awaits; `ProactiveQueue` and `Dispatcher` are the classes, each of
  whose methods is proved to be a step or a legal run of it; `Allowance` is what
  the rate limits let through.
- **Audit** (`audit/sink.py`, migration 005): the producer, drainer and shutdown
  of the sink with its loss accounting (`AuditSinks`), and the allocation of
  sequence numbers by concurrent flushes under row locks (`AuditSequence`,
  `SequenceAllocation`).
- **The agent turn** (`agent/graph.py`, `agent/context.py`, `usage.py`): repair of
  unanswered tool calls (`Repair`), trimming to a token budget (`Context`,
  `CurrentTurn`), the model's input (`Request`), the node machine with its limits
  (`Turn`), the threads that hold whole turns (`Threads`), the ledger and the
  per-user budget gate (`Usage`, `Budget`).
- **Text** (`agent/untrusted.py`, `agent/reasoning.py`): untrusted-data blocks that
  can be read back under an exact size bound (`Untrusted`, `UntrustedReading`,
  `UntrustedMarker`, over `Lines`), and the stripping of balanced reasoning
  blocks (`Reasoning`).
- **Recurrences and per-user data** (`schedules.py`, `user_memory.py`, `scope.py`):
  `QuietHours`, `Recurrences`, `Schedules`, `FactText`, `UserMemory`, `Injection`,
  `FactMemory`, over the keyed store `Scope` and the stable sort `Sorting`.

Code that updates objects or loops is modelled by classes and methods with the
same fields and loops; each method is proved against a function or predicate
over values (`AfterClaim`, `Stripped`, `IsTrim`, `Remembered`, ...), and the laws
are proved about those. A system that many parties drive is a datatype of
actions with `Enabled` and `Apply`; `Legal` lists of actions are its runs, and
the main theorems speak of every legal list.

Time is an integer number of microseconds and a zone is a fixed offset. Token
cost is an arbitrary natural number per message. Model replies, tool outcomes,
provider answers, clocks, database failures and random draws are parameters or
actions, so that the theorems hold for all of them.

## Where the code and its promises part

Each of these is proved, with the exact condition under which the promise holds:

- Quiet hours: `quiet_until` keeps only the hour and minute of the configured end.
  It is the first instant that is not quiet exactly when that end is a whole
  minute (`QuietHours.QuietUntilExact`, `QuietHours.SecondsInEndLoseADay`). That no
  send is started for a claim made in quiet hours needs no such condition.
- Untrusted blocks: the cap bounds the whole text for every list of n blocks
  exactly when n is at most 1 000 000 004 (`UntrustedReading.SizeBoundExact`). A
  block whose content is not empty is omitted when fewer than 13 characters of
  room are left, even if its content would fit uncut (`UntrustedReading.PlaceIsLongest`,
  `UntrustedReading.FitsUncutButIsLeftOut`).
- The dollar cap: a turn whose summed input or output tokens exceed 100 000 000 has
  no cost, although each of its calls is plausible. The gate then counts nothing
  for the running turn (`Budget.UsdGateExact`, `Budget.LongTurnEscapesUsdCap`). The
  comments call a count at that limit implausible; the code accepts it, and so does
  the model.
- A turn that stops at the tool-call limit leaves its last calls unanswered, and
  its thread is stored so; it is the one way a completed turn can
  (`Turn.TurnAddsWholeRounds`). The repair before the next model call answers them.

## Model

| member | source | states |
|---|---|---|
| ProactiveQueue.InMemoryProactiveQueue.Enqueue | src/agents_system/proactive.py:199-217 | the message is last in the list and nothing else changes |
| ProactiveQueue.InMemoryProactiveQueue.ExpireLeases | src/agents_system/proactive.py:219-231 | every message whose lease has run out, and no other, becomes ambiguous; exactly those are returned |
| ProactiveQueue.InMemoryProactiveQueue.Claim | src/agents_system/proactive.py:233-252 | expires leases first; claims the due message due soonest, the first of equals, and notes the claim time; none exactly when none is due |
| ProactiveQueue.InMemoryProactiveQueue.AttemptsSince | src/agents_system/proactive.py:254-270 | the loop's count is the number of other messages of the scope that were attempted since then |
| ProactiveQueue.InMemoryProactiveQueue.Finish | src/agents_system/proactive.py:272-281 | the message takes the final status whoever asks; no other message changes |
| ProactiveQueue.InMemoryProactiveQueue.Defer | src/agents_system/proactive.py:283-291 | the message goes back to the queue whoever asks and whatever its status, even when it was already ambiguous, and its claim time is forgotten; no other message changes |
| ProactiveQueue.LeaseRunsOut | src/agents_system/proactive.py:219-252 | a claim with a lease becomes ambiguous from the instant the lease has run out, and not before |
| ProactiveQueue.DueFromItsTime | src/agents_system/proactive.py:233-252 | a queued message is due from its time on, and at once when it has none |
| ProactiveQueue.LapsedOfExact | src/agents_system/proactive.py:219-231 | what expiring returns are exactly the messages it made ambiguous, as they are then |
| ProactiveQueue.FinishReleases | src/agents_system/proactive.py:272-281 | a finished message has its status and error and holds no lease; nothing else changes |
| ProactiveQueue.DeferReleases | src/agents_system/proactive.py:283-291 | a deferred message is due from the given time on and holds no lease; nothing else changes |
| QuietHours.InsideExact | src/agents_system/proactive.py:307-320 | the start belongs to the period and the end does not, around midnight or not |
| QuietHours.QuietUntilExact | src/agents_system/proactive.py:307-320 | None exactly outside quiet hours, wrapping midnight or not; inside, the first instant after now that is not quiet if and only if the configured end is a whole minute |
| QuietHours.SecondsInEndLoseADay | src/agents_system/proactive.py:307-320 | a period ending at 07:00:30 asked at 07:00:10 answers a day late |
| Delivery.InvPreserved | src/agents_system/proactive.py:219-291 | the inductive invariant that safety rests on is kept by every step of every dispatcher, live or late |
| Delivery.DeliveryIsSafe | src/agents_system/proactive.py:494-547 | over every run: per message at most one provider call ends in anything but a 429; a queued message has had none and no live dispatcher; no call is started for a claim made in quiet hours, nor for one whose permission, recipient or channel was refused |
| Delivery.CheckBoundsBurst | src/agents_system/proactive.py:254-270 | a message that passes its check joins no burst larger than the limit |
| Delivery.RateLimitHolds | src/agents_system/proactive.py:567-600 | over every run, of the messages of a recipient or a runtime that passed the check in their present claim and may have been sent, those whose claim times fit one window never exceed the limit |
| Allowance.RivalsAreCounted | src/agents_system/proactive.py:254-270 | in every state the invariant allows, what a check counts are exactly the other messages of the scope that are neither queued nor failed and whose present claim is not older than the window |
| Allowance.RecipientCheckExact | src/agents_system/proactive.py:567-600 | outside quiet hours the recipient's check passes if and only if fewer rivals than the limit are counted; otherwise the message waits for the recheck |
| Allowance.RuntimeCheckExact | src/agents_system/proactive.py:567-600 | the runtime's check passes if and only if fewer rivals than the limit are counted; otherwise the message waits for the recheck |
| Allowance.GoesOutExact | src/agents_system/proactive.py:567-600 | outside quiet hours a batch of new due messages can be sent at one instant, in some run from the empty system, if and only if no recipient and no runtime has more of it than its limit |
| Allowance.LimitIsReached | src/agents_system/proactive.py:567-600 | every limit of at least one is reached: as many messages of its scope as it allows pass their check within one window |
| Dispatcher.HeldUntilQuietEnds | src/agents_system/proactive.py:575-600 | a message held for quiet hours is due again from the first instant that is not quiet, and not before, when the end is a whole minute |
| Dispatcher.ProactiveDispatcher.Guard | src/agents_system/proactive.py:567-600 | lets the message through if and only if it is not quiet and fewer other messages than each limit were attempted in its window; otherwise the first check that fails says when the message is due again and what the reason is |
| Dispatcher.ProactiveDispatcher.Dispatch | src/agents_system/proactive.py:494-547 | refused, held or sent, in this order: the outcome and the new queue are fixed by the refusal, the guard and the reply, and what happened is a legal run of the protocol |
| Dispatcher.OutcomeIsStatus | src/agents_system/proactive.py:494-547 | the status an outcome reports is the one the message now has, queued when it was deferred or rate limited; no other message changes |
| Dispatcher.ReplyDecides | src/agents_system/proactive.py:522-547 | accepted is sent, rejected is failed, anything unknown is ambiguous, and a 429 queues the message again for when the provider said, with its claim time forgotten |
| Dispatcher.ProactiveDispatcher.RunOnce | src/agents_system/proactive.py:475-492 | idle exactly when nothing is due, and then only leases expire; otherwise one message is claimed and delivered as above, in one legal run of the protocol with one new claim |
| AuditSequence.Counts | src/agents_system/audit/sink.py:359-359 | how often each id occurs in the batch |
| AuditSequence.ReserveRanges | src/agents_system/audit/sink.py:360-368 | one upsert for each distinct id, in sorted order and each row locked once, raises its counter by its count, touches no other and returns the first number of the range |
| AuditSequence.Assign | src/agents_system/audit/sink.py:370-374 | the ranges are handed out in queue order |
| AuditSequence.ReserveSequences | src/agents_system/audit/sink.py:336-374 | the number of an event is its id's counter before, plus its place among the batch's events of that id; the rows are locked in sorted order |
| SequenceAllocation.BatchIsConsecutive | src/agents_system/audit/sink.py:336-374 | a batch gives each of its ids one consecutive range, in batch order |
| SequenceAllocation.NumbersAreGapFree | src/agents_system/audit/sink.py:22-42 | with any number of concurrent flushes that commit or roll back, the committed numbers of every id are exactly seed + 1 .. counter, in commit order |
| SequenceAllocation.SeedIsLeast | alembic/versions/005_audit_sequence.py:91-98 | a seeded counter is the least one at or above what it was and every number of the stored history; exactly the ids of the table and the history have one |
| SequenceAllocation.SequenceNumbersAreUnique | alembic/versions/005_audit_sequence.py:75-98 | in every run after the migration, numbers of one id strictly rise and none repeats a number of the history |
| SequenceAllocation.WaitingRises | src/agents_system/audit/sink.py:347-358 | a flush that holds what another one wants only ever wants something later in the sort order |
| SequenceAllocation.NoDeadlock | src/agents_system/audit/sink.py:341-368 | in every reachable state the wait-for relation has no cycle, and while a flush is open some flush can lock or commit |
| AuditSinks.AuditSink.Record | src/agents_system/audit/sink.py:251-291 | accepted into the queue if and only if the sink is open and the queue below its maximum, otherwise counted; nothing else changes |
| AuditSinks.AuditSink.TakeQueued | src/agents_system/audit/sink.py:238-245 | everything queued, in order, and the queue is empty |
| AuditSinks.AuditSink.LoopHead | src/agents_system/audit/sink.py:297-328 | waits, or on shutdown closes and sweeps the queue into the batch in one step |
| AuditSinks.AuditSink.Wake | src/agents_system/audit/sink.py:304-321 | takes the event that came; flushes exactly at 50 events or when the interval has passed with something pending |
| AuditSinks.AuditSink.FlushReturned | src/agents_system/audit/sink.py:330-333 | the batch is gone, and counted when its flush failed |
| AuditSinks.AuditSink.StopBegin | src/agents_system/audit/sink.py:198-200 | only tells the drainer to stop: until it has swept, events are still accepted |
| AuditSinks.AuditSink.StopEnd | src/agents_system/audit/sink.py:210-230 | closes the sink and counts what is pending and what is queued |
| AuditSinks.NoSilentLoss | src/agents_system/audit/sink.py:172-230 | over every run the accepted events are, in order, the settled batches, then what is pending, then what is queued; the counter is exactly the rejected events and the batches not written; the database holds exactly the batches whose commit landed |
| AuditSinks.EachIsCommittedOrCounted | src/agents_system/audit/sink.py:376-410 | committed and counted events together are the settled ones, and overlap exactly where a commit landed and its flush then failed or was cancelled |
| AuditSinks.StopLeavesNothing | src/agents_system/audit/sink.py:182-230 | after stop nothing is queued or pending, then and ever after, and stored plus counted is everything given plus that overlap |
| AuditSinks.CleanStopDropsNothing | src/agents_system/audit/sink.py:187-193 | a drainer that ended by itself leaves stop nothing to count |
| AuditSinks.MemoryIsBounded | src/agents_system/audit/sink.py:251-328 | over every run the queue keeps to its maximum, and what is pending to a batch, or to a batch and the queue after the last sweep |
| Repair.CloseUnansweredToolCalls | src/agents_system/agent/graph.py:206-240 | the loops build the specified history: each message, then an error reply for each of its calls without one |
| Repair.OriginalsStay | src/agents_system/agent/graph.py:206-240 | every original stands, in order, followed by what it lacked |
| Repair.OnlyInterruptionsAdded | src/agents_system/agent/graph.py:230-239 | all that is added are error replies to calls that had no reply |
| Repair.RepairFillsIn | src/agents_system/agent/graph.py:206-240 | the outcome without reference to how it is built: all originals in order, and right after each one failed reply, with the reason, for each of its calls that had none, in call order |
| Repair.RepairAnswers | src/agents_system/agent/graph.py:206-240 | after the repair every tool call is answered in the run of replies right after it |
| Repair.RepairKeepsPairing | src/agents_system/agent/graph.py:206-240 | where every reply had its call, every reply still has |
| Repair.RepairIsIdentityOnAnswered | src/agents_system/agent/graph.py:206-240 | a history whose calls are answered comes back unchanged |
| Repair.RepairIsIdempotent | src/agents_system/agent/graph.py:206-240 | repairing twice is repairing once, whatever the reasons |
| Context.Units | src/agents_system/agent/context.py:91-108 | the loops cut the history into its indivisible units |
| Context.UnitsAreTheHistory | src/agents_system/agent/context.py:91-108 | the units, joined, are the history |
| Context.ChooseTail | src/agents_system/agent/context.py:144-159 | the loop keeps the longest run of newest units that fits beside the anchor, and never less than the newest one |
| Context.ChooseHead | src/agents_system/agent/context.py:161-171 | earlier history is kept only with the whole current turn, from the first user message from which everything fits |
| Context.TrimHistory | src/agents_system/agent/context.py:111-182 | the outcome meets the trimming rules stated declaratively, with its figures |
| Context.OverBudgetExact | src/agents_system/agent/context.py:122-182 | for every history a request exceeds the budget if and only if fixed cost, latest user message and newest unit do |
| Context.WindowIsUnique | src/agents_system/agent/context.py:133-174 | the rules determine what is kept |
| Context.KeepsTheMost | src/agents_system/agent/context.py:133-174 | no choice of the same shape that fits keeps more of the current turn or of what came before |
| Context.StartsOnUserMessage | src/agents_system/agent/context.py:167-171 | a trimmed history starts on a user message if it has one |
| Context.KeptAreTwoStretches | src/agents_system/agent/context.py:173-175 | what is kept are two stretches of the history, unchanged and in order |
| CurrentTurn.TrimKeepsTheTurn | src/agents_system/agent/context.py:133-175 | for every budget the latest user message and the newest message are kept; before the former and behind it only the oldest go, and anything before it is kept only with all that follows it |
| Context.TrimKeepsWellFormed | src/agents_system/agent/context.py:91-108 | trimming separates no call from its reply and no reply from its call |
| Context.RepairThenTrimIsValid | src/agents_system/agent/graph.py:479-518 | whatever a turn left behind, once repaired and trimmed every call is answered, and no reply lost its call |
| Request.Build | src/agents_system/agent/graph.py:479-518 | what is sent is the repaired history trimmed by the rules, all of it when everything fits; it is well formed; the untrusted blocks are left out exactly when the request fits without them and not with them; it breaks the cap exactly when the least it must hold does |
| Turn.RunTools | src/agents_system/agent/graph.py:617-785 | one reply per call in order, errors and calls counted; nothing is kept exactly when some call aborts the turn |
| Turn.ModelStepExact | src/agents_system/agent/graph.py:440-560 | what one visit of the model says and asks of the provider, with the gate's two refusals and the retry of a malformed call; the turn ends, runs all the calls or stops at the limit by whether there are calls and one was still allowed |
| Turn.LimitsClose | src/agents_system/agent/graph.py:794-838 | each limit ends the turn with its own reply and changes nothing else |
| Turn.RoundIsCounted | src/agents_system/agent/graph.py:669-846 | each call gets one reply of its own id, an error unless it returned; timed-out and failed calls, not blocked ones, count as errors, and the model is asked again exactly while they are below their limit |
| Turn.StepsAreCounted | src/agents_system/agent/graph.py:841-861 | which node a turn is at, and its counters, against the steps taken |
| Turn.TurnEnds | src/agents_system/agent/graph.py:1763-1769 | for every model and tool behaviour: at most max_tool_calls tool rounds, at most 2 * max_tool_calls + 2 steps, below the recursion limit; an ended turn ends in a reply that asks for no tool; one that has not ended can go on |
| Turn.BoundIsReached | src/agents_system/agent/graph.py:1763-1769 | some turn takes exactly 2 * max_tool_calls + 2 steps |
| Turn.TurnAddsWholeRounds | src/agents_system/agent/graph.py:794-861 | a turn only appends; all calls of a finished turn are answered if and only if it did not stop at the tool-call limit; no reply lacks its call |
| Threads.Thread.Load | src/agents_system/agent/graph.py:1028-1045 | the history when it could be read; otherwise no messages, and no history to save onto |
| Threads.Thread.Save | src/agents_system/agent/graph.py:1047-1064 | sends the turn exactly when its session may begin a save: the read succeeded and there is something to save |
| Threads.CompletedIsWhole | src/agents_system/agent/graph.py:1859-1861 | a completed turn is saved as what follows the history, and ends in a reply without tool calls |
| Threads.CutOffIsAnswered | src/agents_system/agent/graph.py:1790-1833 | a timed-out turn, cut off after any step, is saved with everything it said, every call answered, and its apology last |
| Threads.TurnKeepsWhatItSaid | src/agents_system/agent/graph.py:1790-1861 | what is saved is all the run said after the history; cut off, that with a failed reply for each call that had none right after it, and the apology |
| Threads.CutOffBetweenRounds | src/agents_system/agent/graph.py:1790-1833 | cut off where no call waits for a reply, the thread is the run's messages and the apology |
| Threads.ThreadsHoldWholeTurns | src/agents_system/agent/graph.py:985-1064 | over every run with failed reads and with saves that fail, overlap or land late, a stored thread is a sequence of distinct turns of that thread, none of which failed to read it; each holds all that a legal run on its history and input said, ends in a reply without tool calls and, if it timed out, has every call answered |
| Threads.UndisturbedThreadsHoldAll | src/agents_system/agent/graph.py:985-1064 | as long as no save lands between the beginning and the landing of another one of its thread, a thread holds all turns that landed, in landing order |
| Threads.NextTurnReadsAll | src/agents_system/agent/graph.py:1028-1045 | a turn that starts after others of its thread have landed undisturbed is given all of their messages, in landing order |
| Threads.LandingLosesNothingExact | src/agents_system/agent/graph.py:1047-1064 | the next landing appends its turn to all that is stored if and only if no other save of the thread has landed since it began |
| Usage.InMemoryUsageLedger.Totals | src/agents_system/usage.py:145-151 | the sums over the records of the window, with nothing for what was not reported, and how many turns there are and how many without a price |
| Usage.InMemoryUsageLedger.ReachedCap | src/agents_system/usage.py:213-238 | none exactly while the daily and monthly dollars and tokens, with the pending usage, are each below their own limit; otherwise the first cap reached in checking order, with its limit and what is used |
| Budget.UsageIsKnownExactly | src/agents_system/agent/graph.py:274-307 | a turn's token sums are known if and only if every one of its requests reported counts from 0 to 100 000 000; otherwise nothing is pending |
| Budget.SumsAdd | src/agents_system/agent/graph.py:300-305 | one report more adds its input, output and total tokens to the sums of the same name |
| Budget.PriceOfAMillion | src/agents_system/agent/graph.py:356-361 | a million tokens read cost the input price, a million written the output price |
| Budget.PricedAdds | src/agents_system/agent/graph.py:356-361 | prices of tokens add up |
| Budget.PendingIsExact | src/agents_system/agent/graph.py:1889-1897 | what the gate counts for the running turn is what its calls amount to |
| Budget.UsdGateExact | src/agents_system/agent/graph.py:332-361 | the gate decides by the true cost, for every ledger and limit, if and only if the turn's sums are within 100 000 000 tokens or cost nothing |
| Budget.LongTurnEscapesUsdCap | src/agents_system/agent/graph.py:332-361 | 120 dollars spent in one turn do not reach a cap of 100 |
| Budget.DaysCutTime | src/agents_system/usage.py:105-109 | UTC days cut time into windows |
| Budget.NoCallStartsAtCap | src/agents_system/agent/graph.py:471-478 | no model call starts once the ledger's total and the turn's own calls have reached a cap |
| Budget.TurnOvershoot | src/agents_system/agent/graph.py:1878-1946 | what a turn records overshoots a cap by less than its last call |
| Budget.RecordedTotalIsBounded | src/agents_system/agent/graph.py:1878-1946 | over any turns of a subject one after the other, across days and months, the recorded total of the current window exceeds a cap by less than one call's usage |
| Untrusted.RenderUntrustedBlocks | src/agents_system/agent/untrusted.py:84-145 | the refusals, and otherwise the specified text, with a boundary that occurs in no source or content |
| UntrustedReading.PlaceIsLongest | src/agents_system/agent/untrusted.py:119-136 | when a block is left out, and that a kept one keeps as much of its content as fits |
| UntrustedReading.FitsUncutButIsLeftOut | src/agents_system/agent/untrusted.py:127-130 | two characters that fit uncut into five characters of room are left out |
| UntrustedReading.FillIsGreedy | src/agents_system/agent/untrusted.py:117-136 | the cap is filled in order: a block is kept if and only if the blocks kept before it leave it room, also behind an omitted one; it holds the longest prefix of its content that fits, marked exactly when it was cut; the names of all others are noted in order |
| UntrustedReading.RenderingIsUndone | src/agents_system/agent/untrusted.py:33-39 | reading the text line by line with its boundary gives exactly the kept source and body pairs, in order, for any content; kept are those of the first max_blocks for which there was room, omitted all others |
| UntrustedMarker.MarkerIsRead | src/agents_system/agent/untrusted.py:66-71 | the line about omitted sources tells the first five names, in order, and how many there are |
| UntrustedReading.SizeWithinCap | src/agents_system/agent/untrusted.py:74-81 | the whole text keeps to total_max_chars for up to 1 000 000 004 blocks |
| UntrustedReading.CrowdOverflows | src/agents_system/agent/untrusted.py:74-81 | for every larger number of blocks there is a list that exceeds it |
| UntrustedReading.SizeBoundExact | src/agents_system/agent/untrusted.py:67-81 | the bound holds for all lists of n blocks if and only if n is at most 1 000 000 004 |
| Reasoning.FindBlockEnd | src/agents_system/agent/reasoning.py:60-87 | the loop finds what the depth-counting scan finds |
| Reasoning.BlockEndExact | src/agents_system/agent/reasoning.py:60-87 | text that starts with the tag has a block end at n if and only if its first n characters are a well-nested block |
| Reasoning.BlockEndWhateverFollows | src/agents_system/agent/reasoning.py:60-87 | for every well-nested block and every suffix the end found is the block's length |
| Reasoning.StripText | src/agents_system/agent/reasoning.py:90-118 | the loop ends and gives the specified text, which StrippedExact fixes; text that no block leads comes back byte for byte |
| Reasoning.StripLeftExact | src/agents_system/agent/reasoning.py:107-107 | only invisible characters go from the front, and all of them |
| Reasoning.RemovesExactlyTheBlocks | src/agents_system/agent/reasoning.py:90-118 | what is left is the rest if and only if the text is a run of well-nested blocks followed by a rest that does not start with the tag |
| Reasoning.StrippedExact | src/agents_system/agent/reasoning.py:90-118 | a reply that blocks lead becomes the rest behind them from its first to its last visible character, and nothing if and only if a block is never closed or nothing visible follows; any other comes back as it is |
| Reasoning.StripIsTrimmed | src/agents_system/agent/reasoning.py:118-118 | only invisible characters go from the ends, and all of them |
| Reasoning.StrippedNeverLeads | src/agents_system/agent/reasoning.py:90-118 | the first visible characters of the result are never the opening tag |
| Reasoning.StrippingIsIdempotent | src/agents_system/agent/reasoning.py:90-118 | stripping twice is stripping once |
| Reasoning.NoReasoningSurvives | src/agents_system/agent/reasoning.py:121-143 | for every shape of content no text in it starts with the tag, and stripping again changes nothing; every part stays in its place with all else it holds |
| Recurrences.NextAfter | src/agents_system/schedules.py:196-213 | the nine-day search finds the closed form and never reaches its end |
| Recurrences.NextRunIsLeast | src/agents_system/schedules.py:196-213 | the next daily or weekly run is the least wall-clock occurrence strictly after the given instant |
| Recurrences.FollowingIsNextGridPoint | src/agents_system/schedules.py:215-229 | for an interval, the least grid point after the due one that lies strictly after now |
| Recurrences.FollowingIsNextWindow | src/agents_system/schedules.py:215-229 | a claim that was due moves the schedule to the first window after now, and to no other: the first wall-clock occurrence, or for an interval the first point of its grid |
| Schedules.InMemoryScheduleStore.ClaimDue | src/agents_system/schedules.py:381-398 | claims a due schedule that none comes before by time and id, of any subject, and moves it, and nothing else about it, to its first window after now; none exactly when none is due |
| Schedules.NextDueHasWaitedLongest | src/agents_system/schedules.py:381-398 | no due schedule has an earlier window; among equal windows no other id comes first |
| Schedules.IdOrderExact | src/agents_system/schedules.py:392-394 | ids are compared by the first character in which they differ, a prefix before what it starts |
| Schedules.InMemoryScheduleStore.Record | src/agents_system/schedules.py:400-415 | notes the result on a schedule that is still there; nothing else changes |
| Schedules.InMemoryScheduleBackend.Add | src/agents_system/schedules.py:332-337 | stores the schedule exactly when its owner holds fewer than the maximum |
| Schedules.InMemoryScheduleBackend.Remove | src/agents_system/schedules.py:339-342 | removes that schedule and says whether there was one |
| Schedules.ScheduledTurnRunner.RunOnce | src/agents_system/schedules.py:704-736 | one claim, one execution and one record of the runs below, or idle |
| Schedules.OnlyStartedTurnsDeliver | src/agents_system/schedules.py:738-801 | a reply is delivered exactly when the turn was started, said something and was accepted; a turn that was not started has no effect |
| Schedules.ReasonsAreExact | src/agents_system/schedules.py:738-801 | each reason is given exactly when its check is the first that fails; which of them count as skipped |
| Schedules.LabelIsReadable | src/agents_system/schedules.py:719-724 | the recorded status tells the outcome and its reason apart from every other |
| Schedules.RunIsClaimThenRecord | src/agents_system/schedules.py:704-736 | what a worker does is a claim and a record of the runs below, and what it delivers was started |
| Schedules.WindowsAdvance | src/agents_system/schedules.py:381-398 | over every run of any workers and clocks the claimed windows of a schedule strictly increase; a turn is started only for a window that was due, within its grace and not in quiet hours |
| Schedules.NoWindowIsLeftOut | src/agents_system/schedules.py:215-229 | over every run the window after a claim, claimed next or still waiting, is the first one after the instant of that claim: no occurrence and no point of the grid lies between |
| Schedules.GridNeverDrifts | src/agents_system/schedules.py:215-229 | over every run an interval schedule stays on the grid of its first window, and nobody holds more schedules than allowed |
| Schedules.RecordKeepsWindows | src/agents_system/schedules.py:400-415 | recording notes the result and the time, changes no window, no other schedule and nothing else, and revives no deleted schedule |
| Scope.InMemoryScopeProvider.Put | src/agents_system/scope.py:75-76 | the row is set in its place or added last; no other table and no other subject changes |
| Scope.InMemoryScopeProvider.Delete | src/agents_system/scope.py:81-82 | the row is gone; no other table and no other subject changes |
| Scope.InMemoryScopeProvider.AllRows | src/agents_system/scope.py:99-107 | exactly the rows of every subject, each once, one owner's after another's and each owner's in its order |
| Scope.InMemoryScopeProvider.Sweep | src/agents_system/scope.py:109-121 | exactly the expired rows of the table go, for every subject, and their number is returned |
| Scope.PutThenGet | src/agents_system/scope.py:75-79 | a read after a write gives what was written under that key and what was there under any other |
| Scope.DeleteThenGet | src/agents_system/scope.py:78-82 | a read after a delete gives nothing under that key and what was there under any other |
| Scope.PutKeepsOrder | src/agents_system/scope.py:75-76 | a key that is there keeps its place, a new one goes last |
| Scope.DeleteKeepsOrder | src/agents_system/scope.py:81-82 | only the row of the key goes, the others stay in order |
| Scope.SweepKeepsKeysUnique | src/agents_system/scope.py:109-121 | a sweep leaves every key at most one row |
| Scope.SweepThenGet | src/agents_system/scope.py:109-121 | a row survives a sweep exactly when it has not expired |
| Scope.SweepGoesRowByRow | src/agents_system/scope.py:109-121 | each row goes or stays by itself, and those that stay keep their order |
| Sorting.SortedIsStable | src/agents_system/user_memory.py:201-201 | elements that the order does not tell apart keep theirs |
| FactText.NormalizeIsStable | src/agents_system/user_memory.py:101-103 | stored text is one line of the same words in order with single spaces between them, and normalizing it again changes nothing |
| FactText.BlankSeparates | src/agents_system/user_memory.py:101-103 | a blank of any kind separates words |
| FactText.Utf8SizeExact | src/agents_system/user_memory.py:220-222 | the size checked is the number of bytes of an encoding from which every character can be read back |
| UserMemory.PurgeLeavesLive | src/agents_system/user_memory.py:203-209 | a purge leaves exactly the rows that have not expired |
| UserMemory.EvictionCuts | src/agents_system/user_memory.py:248-254 | evicting the first candidates in eviction order cuts the memory to its maximum, keeps the new fact and ranks no evicted fact above a survivor |
| UserMemory.LeastUsedGo | src/agents_system/user_memory.py:179-181 | an evicted fact was used no more than a surviving one, among equally used no more recently, then written no later |
| UserMemory.NewFactLivesForItsTime | src/agents_system/user_memory.py:228-246 | the stored fact holds the text, expires its time to live from now or never, and keeps age and uses of a live fact of the same text only |
| UserMemory.RememberedAgain | src/agents_system/user_memory.py:228-246 | a fact remembered again before it expires keeps its id, age and uses, and costs no other live fact its place |
| UserMemory.InMemoryFactBackend.Remove | src/agents_system/user_memory.py:150-155 | those rows are gone, and the number of the given ids that had one is returned |
| UserMemory.InMemoryFactBackend.Touch | src/agents_system/user_memory.py:157-162 | the uses of exactly these facts rise by one |
| FactMemory.UserFacts.Evict | src/agents_system/user_memory.py:248-254 | what is left is the live facts cut to the maximum, fairly |
| FactMemory.UserFacts.StoreFact | src/agents_system/user_memory.py:228-246 | the new fact is stored, at most the maximum of facts remain, all of them live, the others unchanged, none evicted without need or out of rank |
| FactMemory.UserFacts.Remember | src/agents_system/user_memory.py:211-226 | accepted exactly when the normalized text is not empty and within its bytes; the stored fact has that text and its time to live; refused without any change; no other subject's rows change |
| FactMemory.UserFacts.List | src/agents_system/user_memory.py:191-201 | exactly the live facts, newest first |
| FactMemory.UserFacts.Forget | src/agents_system/user_memory.py:256-259 | that fact is gone and no other, and whether there was one is told |
| FactMemory.UserFacts.InjectionBlock | src/agents_system/user_memory.py:264-298 | the block of the facts picked in rank order; with mark_used exactly those count as used |
| FactMemory.BlockIsNotCut | src/agents_system/user_memory.py:290-298 | the block is valid untrusted data, and its own cap never cuts it |
| Injection.PickedFits | src/agents_system/user_memory.py:274-289 | the injected text keeps to its limit and holds stored facts only, in rank order |
| Injection.PickedIsFull | src/agents_system/user_memory.py:274-289 | no fact that was left out would still fit |
| Injection.PickedIsGreedy | src/agents_system/user_memory.py:281-289 | in rank order a fact is picked if and only if the block with it and those picked before it keeps to the limit |
| Injection.BlockHoldsWholeFacts | src/agents_system/user_memory.py:281-298 | the lines of the injected text are the picked facts, each one whole |

## Left out

- Postgres backends, row-level security, the outbox claim query and the SQL guard: only the upsert and row-lock semantics that the sink and migration 005 state are modelled.
- The agent loader, the tool interceptor, permissions and deploy grants: booleans or outcomes that a step is given.
- LangGraph, LangChain and asyncio internals, provider calls, logging and metrics: free steps. One action stands for what runs between two awaits; awaits that never yield are not split further.
- AuditSink.drain: it holds events outside the pending batch, so that the accounting does not cover it.
- The audit of expired leases: `claim` discards what its own expiry returns, so nothing is claimed about auditing each of them once.
- Daylight-saving changes and zone databases: fixed offsets only. Calendar months are any division of time into windows.
- Random boundaries and ids: the boundary factory yields, sooner or later, one that does not occur; ids are distinct. Correlation ids are their places in string order. A message of the queue is also known by its position in the list, which only grows.
- The preamble of the untrusted blocks is a parameter: any one line that does not start like a BEGIN line.
- The digest that turns a fact into its id is a parameter, so that two texts with the same digest are one fact, as in the code.
- Budget.RecordedTotalIsBounded: speaks of turns one after the other with every call reported, because concurrent turns see the ledger without each other, and a call without usage makes the running turn count as nothing.
- Budget.TurnOvershoot: costs are reals; floating-point rounding is not modelled.
- Usage.InMemoryUsageLedger.Totals: the order in which records are listed is not modelled.
- Scope.InMemoryScopeProvider.AllRows: the order of the owners is not modelled, because the store is a map from owners to tables. Each provider of the model holds tables of one row type.
- Schedules.InMemoryScheduleStore.ClaimDue: two due schedules of different subjects with the same time and the same id may be claimed in either order.
- Allowance.GoesOutExact: windows are not negative. With a negative one a check counts nothing and everything passes; LimitIsReached asks the same.
- Threads.ThreadsHoldWholeTurns: how the checkpointer appends is not modelled further than that a save reads what is stored and later writes it back with the turn; LandingLosesNothingExact says when that loses a turn.
- Dispatcher.ProactiveDispatcher.RunOnce: the class runs one dispatcher without interleaving; interleavings are the subject of Delivery.
- Turn: metadata of messages, audit events and the text of tool results beyond what the counters need.
- Schedule creation rules, memory-policy ordering, settings validators, export rows and string descriptions: single-branch checks.
