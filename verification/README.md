# A verified model of the review agent

The agent polls a repository for opened pull requests and for comments that mention it, queues a trigger
for each, and lets workers claim triggers, run a paid review engine and post what it found. Several
daemons share one SQLite file, and with it one token budget. This project models the two parts whose
correctness is hardest to see, and the small algorithms around them, and proves what they promise.

**The spending protocol.** `Model` holds the rows of the shared file and the statements that read and
change them. `Store`, `Queue`, `Budget`, `Runs` and `Worker` are the classes over them: each method is one
transaction, proved against a function of the tables it found. `Protocol` is the state machine whose steps
are those transactions, taken by any number of owners in any order, with crashes and lapsed leases and with
clocks that need not agree with the order of the steps. `History` and `Limits` state what holds over all its
runs, `Delivery` exactly when what was reviewed is posted, given up, owed or lost, and `Issuing` which numbers its
findings are given; `Accounting` states what one run of a worker leaves, and that its transactions are steps of
the protocol.

**The text scanner and its inverses.** `Lines` and `Scanner` are the agent's own idea of prose: fences, block
quotes, indented code and code spans, with the code-span pattern written out as a search. `Prose` and
`Spans` say by the characters alone which lines and spans those are, and `Acting` what acts in them. `Edits` is the
transformation theorem the rest needs: replacing prose characters by inert text moves no block and no span.
`Mention`, `Sanitise` and `Fencing` use it to show that rewritten text holds nothing that acts, exactly when the
rewriting can be undone, and that fences and code spans cannot be left from inside.

**Around them.** `Breaker` and `Config` (calibration and limits), `Pacing` (intervals per pull request),
`Numbering` (finding numbers over rounds), `Exclusions` (withheld paths grouped for a reader), `Text` and
`Stamp` (timestamps that sort), `Classifier`, `Daemon` and `Polling` (watermarks over poll cycles), `Policy`
(one authority for a shared budget), `Ending` (the taxonomy of failures), `Wrappers` (`Option`), `Numbers`.

Where the source changes state, the model is a class with the same fields, or a loop, and its contract ties
the new state to a specification function; the lemmas are about those functions.

## What the proofs found

- `neutralise` works on every body exactly for handles that are not empty, do not overlap themselves (an inner
  `@` after a character that blocks nothing, followed by text that goes on like the handle) and are not completed
  by the entity it writes; or that hold a backtick, of which prose has one at most:
  `Mention.NeutraliseWorksExactlyFor`, for handles of one line, with a failing body for every other one. Every
  account name is good (`Mention.AccountNamesAreGood`). The loader checks the handle before it strips leading
  `@`s (`config/github_triggers.py:61-68`), so a configured `"@"` is an empty one.
- `sanitise` can be undone from what it wrote exactly when the prose held no `&lt;` of its own, because only `#`
  before a digit is escaped and `&` is not: `Sanitise.SanitisedReadsBack`. Both `<` and `&lt;` are written as `&lt;`
  (`Sanitise.SanitisingMergesTexts`).
- The sanitiser's pattern for `@` is ASCII and the detector's ignores case, and with it reads four signs beyond
  ASCII as `i`, `s` and `k`. So sanitised text can still mention an account, exactly if its name starts with one of
  the three: `Acting.StillMentionsExactly`. What `neutralise` rewrites cannot.
- The worker folds waiting triggers on the ground that the review's comment "is either posted or owed"
  (`worker.py:514-531`). Neither need be so. A worker whose lease lapsed after it recorded its run finds nothing to
  settle, discards the run and folds all the same; if the next holder gives the row up, the run is lost and what
  waited is closed without an answer (`Delivery.DisplacedRunIsLost`). The sweep alone loses a run whose item is at
  its last lapsed attempt (`Delivery.SweepLosesARun`). And a limit raised after a run was given up takes its stamp
  back at the next failed post, while `INSERT OR IGNORE` adds no item (`Delivery.RaisedLimitLosesARun`). The exact
  conditions, for each transaction and over all interleavings, are `Delivery.AccountedStep` and
  `Delivery.StaysAccounted` for a run that was posted, given up or owed, and `Delivery.PursuedStep`,
  `Delivery.StaysPursued` and `Delivery.RecordedEndsAccounted` for a run that was recorded.
- Two workers of one pull request that read the same history hand out the same finding number exactly when both
  have a new finding: `Numbering.SameHistorySharesNumbers`. Over the protocol, a review's new numbers are above
  everything issued exactly when nothing was issued above what it read, or none of its findings is new:
  `Issuing.NewNumbersAreAbove`.
- Failed posts of a run can be counted past the limit: by two workers that post it, the first under a lapsed
  lease (`Runs.TwoPostersExceedTheLimit`), and by one worker that gives it up and crashes before closing its row,
  so that the trigger is reviewed again (`Accounting.ReviewedAgainExceedsTheLimit`). The exact conditions are
  `Delivery.PostsStayWithin`, over every run of the protocol, and `Accounting.VisitsKeepLimit`, over claims worked
  off one after another.
- Loading refuses a file whose run does not fit in a day, because "no run could ever be admitted", and takes the day for
  the tightest of the windows (`config/budget.py:421-428`). The session can be tighter: a file that is let through
  admits anything at all exactly when its run fits in the share of the session
  (`Limits.AdmitsSomethingExactlyWhen`, `Limits.SmallSessionAdmitsNothing`).
- A failure that was not measured settles at the worker's own `max_run_tokens` while admission reserved the
  published one, so the two agree exactly when the numbers do: `Accounting.UnmeasuredSettlesAtReservation`. They
  differ exactly under a governor that complies with a policy of another ceiling:
  `Accounting.OnlyComplyingSettlesElsewhere`.
- A later trip of the breaker with an earlier clock ends the hold of the one before:
  `History.EarlierClockEndsTheHold`; `History.HoldSurvives` gives the exact condition.
- The code span of an empty path is two bare backticks, which later text with two backticks in a row joins:
  `Fencing.CodeIsOneSpan` says exactly when.
- `strip_non_prose` keeps offsets and not lines: a code span over several lines has its line breaks blanked
  too (`triggers/mention.py:28, 76-96`). The model follows the code.
- The calibration of a breaker tripped every `k` recovery periods turns at `max(min(9k, 90), 1)`.

## Model

| member | source | states |
|---|---|---|
| Scanner.BlankFencedBlocks | src/pr_review_agent/triggers/mention.py:51-73 | the one pass over the lines blanks exactly what the fence rules say, line by line |
| Scanner.BlankFencedSplit | src/pr_review_agent/triggers/mention.py:51-73 | a fence left open by the first lines governs the rest: the scan of two parts is the scan of the whole |
| Scanner.StripKeepsOffsets | src/pr_review_agent/triggers/mention.py:76-96 | the strip has the body's length, and each character is the body's at the same offset or blanked |
| Prose.FenceIsOpen | src/pr_review_agent/triggers/mention.py:51-73 | the fence remembered before a line is the one opened outside any whole block before it and not closed since, by as many or more of its characters and nothing after them; none exactly where the lines before are whole blocks and lines outside any |
| Prose.BlocksLeaveProse | src/pr_review_agent/triggers/mention.py:76-95 | of the lines of a body exactly those are kept that are outside every fenced block, open none, do not start with `>` after at most three spaces, and start with neither four spaces nor a tab; every other line is as many spaces |
| Spans.SpansAreBlanked | src/pr_review_agent/triggers/mention.py:28-96 | blanked are exactly the characters inside a span: opened by as many backticks as can be paired, closed by the next as many, and starting outside the spans before |
| Prose.StripLeavesProse | src/pr_review_agent/triggers/mention.py:76-96 | a character is left exactly when its line is prose, by the shapes above, and it is in no span of the prose; otherwise it is a space |
| Prose.MentionByCharacters | src/pr_review_agent/triggers/mention.py:99-113 | a mention is exactly an `@` and the handle, read without case, after no letter, digit or `_/.@-`, and before no letter, digit, `_` or `-` |
| Prose.MentionIsProse | src/pr_review_agent/triggers/mention.py:111-113 | a mention that is found stands in a prose line of the body, outside its spans |
| Prose.QuotedIsNoMention | src/pr_review_agent/triggers/mention.py:1-16 | a body whose every line is quoted, fenced or indented code has no mention of any handle |
| Prose.MentionedInALine | src/pr_review_agent/triggers/mention.py:111-113 | a body without backticks has a mention exactly when one of its prose lines, read alone, has one |
| Edits.LineKindStable | src/pr_review_agent/triggers/mention.py:22-27 | an inert edit inside a line changes none of fence marker, block quote and indented code |
| Edits.CodeSpanAroundEdit | src/pr_review_agent/triggers/mention.py:28 | an inert edit anywhere in a text moves the end of the first code span by the edit's length and finds no other |
| Edits.SpansEdit | src/pr_review_agent/triggers/mention.py:28-96 | replacing one unblanked inert character by inert text moves no code span |
| Edits.KeptEdit | src/pr_review_agent/triggers/mention.py:51-96 | replacing one kept inert character by inert text moves no block |
| Edits.StripEdits | src/pr_review_agent/triggers/mention.py:76-96 | for any number of prose edits, the strip of the edited body is the edited strip of the body |
| Mention.Neutralise | src/pr_review_agent/triggers/mention.py:133-151 | editing the list of characters in place, match by match, yields the body with the entity at each match |
| Mention.FindMentionsFindsAll | src/pr_review_agent/triggers/mention.py:99-113 | for a handle that does not overlap itself, iterating over the matches, each skipped whole, finds every mention |
| Acting.NeutralisedShowsTheSame | src/pr_review_agent/triggers/mention.py:30-151 | each character of the body is written as itself, or, if it is an `@`, as its own character reference |
| Mention.NeutralisedHasNoMention | src/pr_review_agent/triggers/mention.py:133-151 | rescanning a neutralised body finds no mention, for every body and every good handle |
| Mention.NoMentionUnchanged | src/pr_review_agent/triggers/mention.py:111-151 | a body in which nothing is detected is returned unchanged |
| Mention.NeutraliseIdempotent | src/pr_review_agent/triggers/mention.py:133-151 | neutralising twice is neutralising once |
| Mention.EmptyHandleIsNotNeutralised | src/pr_review_agent/triggers/mention.py:133-151 | with an empty handle the neutralised `"@@"` still holds a mention |
| Mention.OverlapShows | src/pr_review_agent/triggers/mention.py:99-113 | two mentions nearer to each other than the handle is long occur only for a handle that overlaps itself |
| Mention.OverlapIsNotNeutralised | src/pr_review_agent/triggers/mention.py:133-151 | a handle that overlaps itself leaves the second of two overlapping mentions, because a match is skipped whole |
| Mention.CompletingIsNotNeutralised | src/pr_review_agent/triggers/mention.py:133-151 | a handle that the written entity completes is found where it was not before |
| Mention.NeutraliseWorksExactlyFor | src/pr_review_agent/config/github_triggers.py:61-68 | of the handles of one line that the loader hands over, neutralising works on every body exactly for those that are not empty, do not overlap themselves and are not completed by the entity, or hold a backtick |
| Mention.AccountNamesAreGood | src/pr_review_agent/config/github_triggers.py:61-68 | a handle that is not empty and holds neither `@` nor `&` is one of them |
| Sanitise.SanitiseText | src/pr_review_agent/sanitise.py:61-76 | one pass over the matches of the strip writes the escape of every match into the original text |
| Sanitise.SanitisedIsInert | src/pr_review_agent/sanitise.py:41-76 | rescanning finds no acting `@`, no `GH-` reference and no `<`; every `#` before a digit is the one inside an escape |
| Sanitise.ReadBackIsWithLt | src/pr_review_agent/sanitise.py:58-76 | reading every entity in the prose of what was written as its character, from that text alone, gives the original text, but with `<` for each `&lt;` its prose held |
| Sanitise.SanitisedReadsBack | src/pr_review_agent/sanitise.py:58-76 | the original text is read back exactly when its prose held no `&lt;`; otherwise what is read back is shorter |
| Sanitise.SanitisingMergesTexts | src/pr_review_agent/sanitise.py:53-58 | `<` and `&lt;` are sanitised to the same text |
| Acting.ActingIsEscaped | src/pr_review_agent/sanitise.py:41-76 | escaped are exactly the characters that act by themselves: an `@` before a letter or digit that continues nothing, the hyphen of a `GH-` reference, a `#` before a digit, and every `<` |
| Acting.NothingActs | src/pr_review_agent/sanitise.py:1-25 | in the prose of what was written nothing of that is left but a `#` behind the `&` of an entity |
| Acting.InertIsUnchanged | src/pr_review_agent/sanitise.py:61-76 | a text in whose prose nothing acts is written as it is |
| Acting.StillMentionsExactly | src/pr_review_agent/sanitise.py:43-48 | of account names, exactly those that start with i, s or k are still mentioned by some sanitised text, read by the agent's own detector |
| Fencing.BacktickRuns | src/pr_review_agent/engine/prompt.py:228-241 | the longest of the runs collected is the longest run of backticks the text has |
| Fencing.LongestRunIsLongest | src/pr_review_agent/engine/prompt.py:228-241 | no backticks in a row anywhere in the text are more than the longest run |
| Fencing.FenceText | src/pr_review_agent/engine/prompt.py:221-225 | the block written is the fence of one more backtick than the longest run, and at least three |
| Fencing.FencedIsInescapable | src/pr_review_agent/engine/prompt.py:221-225 | read by the agent's scanner, the block is blanked whole, is open until its last line and closed by it, and later lines are scanned as if it were absent |
| Fencing.CodeShows | src/pr_review_agent/report.py:277-288 | between the fences stands the path, with `?` for exactly what is not printable, and around it nothing but backticks and spaces |
| Fencing.CodeStaysOnItsLine | src/pr_review_agent/report.py:278-283 | a path with a newline is shown on one line |
| Fencing.CodeIsOneSpan | src/pr_review_agent/report.py:277-287 | the code span a path is shown in is matched as one whole span exactly unless the path is empty and two backticks in a row follow, whatever the path and whatever follows |
| Breaker.TripTimesIsAfterTrips | src/pr_review_agent/breaker.py:88-112 | stored trips at least `k` whole recovery periods apart, and less than `k + 1`, are the arithmetic sequence of `k` |
| Breaker.TripsMonotone | src/pr_review_agent/breaker.py:88-112 | the sequence stays in 1..100, never changes direction, and strictly falls above the turning point |
| Breaker.TripsConverge | src/pr_review_agent/breaker.py:88-112 | for every spacing and start the calibration reaches one fixed value no larger than the turning point |
| Breaker.CalibratedAtMost | src/pr_review_agent/breaker.py:115-122 | a calibrated limit is at least one token and never above the larger of one and the configured limit |
| Breaker.TripSound | src/pr_review_agent/budget.py:456-483 | a trip keeps the stored calibration in 1..100 whatever the clocks |
| Breaker.TripLeaves | src/pr_review_agent/breaker.py:105-112 | a trip leaves the whole part of nine tenths of the recovered calibration, or 1, and refuses claims for exactly five hours |
| Breaker.PointsRecovered | src/pr_review_agent/breaker.py:88-102 | one point is recovered for each whole five hours since the last trip, none before it, up to 100 |
| Breaker.CalibratedIsPercentage | src/pr_review_agent/breaker.py:115-122 | a calibrated limit is that percentage of the limit, rounded down, or 1 |
| Config.AdoptedIsValid | src/pr_review_agent/config/budget.py:331-340 | a valid file under another valid file's pool numbers meets every limit that loading checks |
| Config.ValidExactlyWhen | src/pr_review_agent/config/budget.py:346-429 | what loading lets through, in the file's own numbers: 700 ceilings of a run within the week's tokens times the percentage, and 100 within the weekly limit times a contributor's |
| Config.LimitsOfTheFile | src/pr_review_agent/config/budget.py:281-343 | in the file's own numbers: the session and weekly limits are the share of the plan's, the daily a seventh of the share of the week, a contributor's the percentage of the weekly limit, each rounded down |
| Pacing.LastReservedAt | src/pr_review_agent/pacing.py:48-51 | the latest reservation of the pull request, or none if it has none |
| Pacing.PacedExactlyWhen | src/pr_review_agent/pacing.py:58-137 | a pull request may be reviewed exactly when it has no reservation, or none younger than the file's seconds for this kind of trigger and fewer in the last day than the file's cap |
| Budget.QuotientIsPercent | src/pr_review_agent/budget.py:770-776 | comparing the exact quotient with a rung of the ladder is comparing whole percentages |
| Budget.AllowsIsAffords | src/pr_review_agent/budget.py:675-708 | what is decided from the worst utilisation and the tightest remainder is what every window would say by itself |
| Budget.Governor.MeasureHeadroom | src/pr_review_agent/budget.py:631-660 | the loop over the windows returns the rung of the worst utilisation and the remainder no window undercuts |
| Budget.Governor.Admit | src/pr_review_agent/budget.py:345-403 | admits exactly when enabled, not tripped, affordable in every window and paced; then closes the lost predecessor and appends the reservation, else writes nothing |
| Budget.Governor.Settle | src/pr_review_agent/budget.py:405-454 | closes the owner's open reservations of the trigger and no other row; true exactly when there was one |
| Budget.Governor.Trip | src/pr_review_agent/budget.py:456-483 | decays the recovered calibration and holds claims from the trip on |
| Budget.Governor.AdmittedMode | src/pr_review_agent/budget.py:597-614 | the rung of an open reservation the claim holds, and nothing exactly when it holds none |
| Queue.EnqueuedNumbered | src/pr_review_agent/queue.py:93-102 | an enqueue keeps rows keyed by their trigger and distinctly numbered |
| Queue.FirstInOrder | src/pr_review_agent/queue.py:121-135 | the first row of the ordered candidates the worker admits comes before every other admissible one |
| Queue.OldestIsTaken | src/pr_review_agent/queue.py:121-135 | a row is taken exactly when it waits, of a pull request without a live lease, is admitted, and every other such row has a later `enqueuedAt`, or the same and a larger row number |
| Queue.NewRowWaits | src/pr_review_agent/queue.py:93-135 | a new row is enqueued at the clock of its enqueue, waits at once unless a lease on its pull request is live, comes after every row enqueued no later, and changes none |
| Queue.ReviewQueue.Enqueue | src/pr_review_agent/queue.py:220-236 | adds a pending row exactly when the key is unknown, and changes nothing otherwise |
| Queue.ReviewQueue.SelectClaimable | src/pr_review_agent/queue.py:121-135 | lists exactly the claimable rows, none enqueued before the one it follows, and in the order of their numbers at the same instant |
| Queue.ReviewQueue.Admit | src/pr_review_agent/worker.py:401-419 | a publication is admitted unconditionally and reserves nothing; anything else is the governor's decision |
| Queue.ReviewQueue.AdmitFirst | src/pr_review_agent/queue.py:257-280 | stops at the first row admitted on the ledger as it was; the refused ones leave the ledger untouched |
| Queue.ReviewQueue.Claim | src/pr_review_agent/queue.py:238-280 | refines a pure choice: leases the earliest claimable row admissible on the starting ledger, so a refused row blocks none behind it; nothing only if none is admissible |
| Queue.SweptExactly | src/pr_review_agent/queue.py:101-109 | a claim first gives up exactly on this repository's rows that have no attempt left and are waiting or under a lapsed lease, so that every row left open has an attempt or a live lease |
| Queue.ReviewQueue.Finish | src/pr_review_agent/queue.py:383-391 | closes the row exactly if this owner holds it, and says so |
| Queue.ReviewQueue.ReleaseUnattempted | src/pr_review_agent/queue.py:291-307 | hands the row back with its attempt uncounted exactly if this owner holds it |
| Queue.ReviewQueue.Fold | src/pr_review_agent/queue.py:309-339 | closes exactly the waiting triggers of the same pull request and command that the review answered, and counts them |
| Protocol.AdmittedRows | src/pr_review_agent/budget.py:221-241 | an admission closes the trigger's open rows, keeps what every row was reserved for, and appends one open row |
| Protocol.HeldIsCounted | src/pr_review_agent/budget.py:268-281 | the settle's row count is positive exactly when an open reservation is held |
| Protocol.SettledCount | src/pr_review_agent/queue.py:291-307 | a settle never raises the reservations counted against a trigger, and a usage limit uncounts the one it closes |
| Protocol.ReservationKeepsTables | src/pr_review_agent/budget.py:360-403 | claim and reservation together keep one open reservation per trigger, held by the row's owner, within its attempts |
| Protocol.SettlerSound | src/pr_review_agent/worker.py:813-872 | a settling worker that still holds its row has left no reservation open for it |
| Protocol.StepSound | src/pr_review_agent/queue.py:104-188 | every transaction, by any owner and under any clock, keeps the joint invariant of queue, ledger, breaker and workers |
| Protocol.RunSound | src/pr_review_agent/store.py:251-263 | the joint invariant holds over every interleaving of transactions, crashes and lapsed leases |
| History.TablesAgree | src/pr_review_agent/store.py:251-263 | over every run: at most one open reservation per trigger and it is the last made; its owner holds the row, or the row was given up; a publication has none; claimed exactly with owner and lease; attempts within their bound, and they bound the reservations not ended by a usage limit |
| History.DisplacedSettleFails | src/pr_review_agent/budget.py:405-454 | a worker whose row another owner holds settles nothing, and its settle returns false |
| History.HoldSurvives | src/pr_review_agent/budget.py:456-483 | over any run after a trip its hold still stands exactly when the last trip since has a clock no earlier |
| History.NoReviewWhileHeld | src/pr_review_agent/breaker.py:84-86 | over any run after a trip, until its hold ends, no worker of any daemon claims anything but a publication, unless a later trip with an earlier clock ended the hold |
| History.EarlierClockEndsTheHold | src/pr_review_agent/budget.py:473-478 | trips at 10 and then at 0: the hold of the first ends early |
| History.QueueStepKeeps | src/pr_review_agent/queue.py:104-188 | no transaction loses a row, changes a trigger or reopens a finished row; only a claim writes a lease |
| History.RunKeeps | src/pr_review_agent/queue.py:146-154 | over every run `done` and `abandoned` are absorbing, and ledger rows are only appended and never change once closed |
| History.StepOneLive | src/pr_review_agent/queue.py:121-142 | one transaction keeps one live lease per pull request, as seen no earlier than any clock used |
| History.OneWorkerPerPull | src/pr_review_agent/queue.py:121-142 | over every run, at every instant no earlier than any claim's clock, at most one row per pull request is under a live lease, even with clocks out of order |
| History.LaterIsNotClaimedFirst | src/pr_review_agent/queue.py:111-135 | over every run a trigger enqueued after another, and no earlier by its clock, is not claimed by any worker while the other is claimable and admitted |
| Limits.WindowsGovern | src/pr_review_agent/budget.py:662-734 | the windows a file measures are five hours, a week and a day for everybody, and a week for one contributor |
| Limits.AdmissibleFits | src/pr_review_agent/budget.py:675-708 | an admitted ceiling fits in every window's limit with all that is committed in it, whatever the breaker's state |
| Limits.AdmittedExactlyWhen | src/pr_review_agent/budget.py:345-403 | in the file's own numbers: admitted exactly when enabled, not tripped, paced, and with room over five hours, a week, a day and a contributor's week: the run fits in the calibrated limit, and other kinds than mentions find less than 85 % spent |
| Limits.AdmitsSomethingExactlyWhen | src/pr_review_agent/config/budget.py:408-428 | under a file that loading lets through some run is admitted, on some ledger, exactly when the ceiling of a run is within the share of the plan's session |
| Limits.SmallSessionAdmitsNothing | src/pr_review_agent/config/budget.py:421-428 | a file with a session of 100 tokens and a ceiling of 200 is let through and admits nothing on any ledger |
| Limits.StepKeepsCharge | src/pr_review_agent/budget.py:345-454 | no transaction raises what any interval of a window's length is charged above the limit |
| Limits.SlidingWindowSafe | src/pr_review_agent/budget.py:243-249 | over every run, every interval of a window's length holds at most the larger of one and the limit, plus what runs in it settled above their reservations; the same for one contributor |
| Limits.PlanIsKept | src/pr_review_agent/config/budget.py:281-343 | over every run under files whose session and weekly shares stay within given products of tokens and percentage: any five hours, any week and any day hold at most that share, and a seventh for the day, plus overruns |
| Limits.ContributorIsKept | src/pr_review_agent/config/budget.py:302-311 | the same for one contributor: any week holds at most the percentage of the share of the plan's week, plus overruns |
| Limits.AdmissionChargesItsCeiling | src/pr_review_agent/budget.py:221-249 | an admission raises each window's usage by exactly its own ceiling: closing the lost predecessor neither refunds nor charges |
| Limits.SettleExchangesItsReservation | src/pr_review_agent/budget.py:243-281 | a settle exchanges one reservation for the run's cost, in exactly the windows that count it |
| Limits.DailyCapHolds | src/pr_review_agent/pacing.py:104-137 | with a cap, every interval of a day holds at most that many reservations of a pull request, over every run |
| Limits.ReviewsAreSpaced | src/pr_review_agent/pacing.py:85-102 | over every run a reservation is at least the mention interval, or for other triggers the ordinary one, after every earlier one of its pull request |
| Runs.PublicationNamesItsRun | src/pr_review_agent/runs.py:177-200 | the item made for a run names that run by its key, with its head, its pull request, its actor and its command |
| Runs.RunStore.Record | src/pr_review_agent/runs.py:243-290 | stores and returns the run; a repeated key keeps what was learnt by posting it |
| Runs.RecordedAgain | src/pr_review_agent/runs.py:66-76 | a run recorded again is the new one in what was reviewed, and the old one in its pull request and in what posting taught; other runs stay |
| Runs.RunStore.Unpublished | src/pr_review_agent/runs.py:292-303 | a run exactly if it is recorded, unposted and not given up |
| Runs.RunStore.MarkPublished | src/pr_review_agent/runs.py:333-365 | stamps an unstamped run, and says whether it did |
| Runs.RunStore.PublishFailed | src/pr_review_agent/runs.py:367-384 | counts one failure of an unposted run; true exactly when the run is given up |
| Runs.HighWater | src/pr_review_agent/runs.py:130-136 | at least every number recorded by a review of the pull request, and one of them or zero; descriptions do not count |
| Runs.OneChange | src/pr_review_agent/runs.py:99-107 | one record, post or counted failure keeps runs stamped exactly at the limit, and within it exactly unless it counts a failure of an unposted run already given up |
| Runs.FailedPostsBounded | src/pr_review_agent/runs.py:99-110 | over any interleaving of changes by any number of workers, no run is counted past the limit exactly when none is counted that was given up and is not posted |
| Runs.TwoPostersExceedTheLimit | src/pr_review_agent/worker.py:738-811 | two workers offered the same run, each counting its failed post, pass a limit of one |
| Worker.HeldAtMostOnce | src/pr_review_agent/store.py:251-263 | under the constraint `ledger_open` a claim holds one open reservation or none, so the mode lookup and the settle agree |
| Worker.ReviewWorker.EndFree | src/pr_review_agent/worker.py:598-623 | settles at exactly zero and abandons the row, if held |
| Worker.ReviewWorker.PostOrGiveUp | src/pr_review_agent/worker.py:787-811 | an accepted post stamps the run, a failed one is counted; true exactly when the run needs posting no longer |
| Worker.ReviewWorker.Attempt | src/pr_review_agent/worker.py:533-596 | takes the course that the world's answers determine; free refusals settle at zero and abandon, and exactly a completed review is recorded, its findings numbered from what was read before (`Issuing.ReviewIsNumbered`) |
| Worker.ReviewWorker.SettlePublishAndFinish | src/pr_review_agent/worker.py:813-872 | without a reservation to settle nothing else changes; with one the run is posted, counted or owed, and then the row is closed |
| Worker.ReviewWorker.PublishRecorded | src/pr_review_agent/worker.py:738-785 | nothing changes if a run is waiting and the lease has lapsed; otherwise the item is posted or counted and closed or handed back |
| Worker.ReviewWorker.RunOne | src/pr_review_agent/worker.py:434-492 | a claim that holds no reservation changes nothing; one that does leaves exactly the tables of its course |
| Worker.ReviewWorker.RunOnce | src/pr_review_agent/worker.py:421-432 | claims what the queue's choice says, and runs it to its end |
| Worker.ClaimIsHeld | src/pr_review_agent/worker.py:434-476 | a worker that has just claimed a review holds the one open reservation for it |
| Accounting.CourseEndsWell | src/pr_review_agent/worker.py:292-333 | no run ends as lost, only the usage limit returns an attempt, and every free refusal abandons its row |
| Accounting.SettledExactlyOnce | src/pr_review_agent/worker.py:434-492 | on every path the held reservation, and no other row, is closed, once |
| Accounting.FreeUntilEngineStarts | src/pr_review_agent/worker.py:292-333 | a run costs zero unless its engine started, the worker's own ceiling if it started and was not measured, and what was measured otherwise |
| Accounting.UnmeasuredSettlesAtReservation | src/pr_review_agent/worker.py:541-578 | a claim reserves the ceiling of the budget it was admitted under; an unmeasured run of it closes that row, at its reservation exactly when the worker's own ceiling is the same, whatever the budget says by then |
| Accounting.OnlyComplyingSettlesElsewhere | src/pr_review_agent/budget.py:316-336 | an unmeasured run settles elsewhere than at its reservation exactly under a governor that complies with a published policy of another ceiling |
| Accounting.OnlyTheAccountLimitIsFree | src/pr_review_agent/worker.py:680-710 | the breaker is tripped, and the attempt handed back, exactly at the account's usage limit |
| Accounting.ReasonTellsTheCause | src/pr_review_agent/worker.py:292-370 | each reason on the ledger is written exactly on its one cause, among the answers of GitHub, the checkout, the pre-flight, the engine and the teardown |
| Accounting.ConfidenceTellsTheMeasure | src/pr_review_agent/worker.py:292-333 | a cost is what the engine reported, or exactly nothing for a free ending, or marked as not available |
| Accounting.SettlementIsASample | src/pr_review_agent/worker.py:645-700 | lines are kept exactly for completed reviews, not for descriptions, and what the checkout started from exactly for completed runs |
| Accounting.RowIsLeftUnheld | src/pr_review_agent/worker.py:813-881 | on every path the row of a run with its reservation is left without owner and lease, in the status the course says, with its attempt given back only at the usage limit; without the reservation only a free refusal closes it |
| Accounting.RetriedUnlessDeterministic | src/pr_review_agent/worker.py:292-370 | the row is done exactly for a completed review, abandoned exactly when another attempt would end alike or the review failed, and offered again otherwise |
| Accounting.OtherRowsAreLeftAlone | src/pr_review_agent/queue.py:170-188 | a run closes no row enqueued after it started, nor of another head, command or pull request, nor a publication |
| Accounting.RecordedRunClosesWaiting | src/pr_review_agent/worker.py:514-531 | every foldable trigger that waited when a recorded run started is done when it ends, even if the run was discarded |
| Accounting.RecordedRunIsAccountedFor | src/pr_review_agent/worker.py:813-872 | a worker that has recorded its run leaves it published, given up or owed: with its reservation exactly unless the post failed below the limit while its item was closed, without it exactly if it was so before |
| Accounting.PublicationEndsItsRun | src/pr_review_agent/worker.py:738-785 | under a live lease the item is closed exactly when nothing is left to post, is handed back with its attempt otherwise, and spends nothing |
| Accounting.VisitsAreRuns | src/pr_review_agent/worker.py:738-872 | the runs that a visit leaves are those the worker's own transactions leave, with its reservation or without |
| Accounting.VisitKeepsLimit | src/pr_review_agent/worker.py:738-872 | posting a recorded run always keeps every run within the limit; a review exactly unless its post fails for a run already given up and never posted |
| Accounting.VisitsKeepLimit | src/pr_review_agent/runs.py:99-107 | over any visits, crashed or not, every run stays within the limit exactly when no given-up run is reviewed again with a failing post |
| Accounting.ReviewedAgainExceedsTheLimit | src/pr_review_agent/worker.py:854-872 | one worker that gives a run up and crashes before closing its row counts it past a limit of one |
| Accounting.RunIsProtocol | src/pr_review_agent/worker.py:434-492 | what a run leaves is what its transactions leave as steps of the protocol |
| Accounting.RestIsProtocol | src/pr_review_agent/worker.py:813-872 | what a worker that has recorded its run leaves, from any tables other workers left it, with its reservation or without, is what its transactions leave as steps of the protocol |
| Accounting.PublicationIsProtocol | src/pr_review_agent/worker.py:738-785 | what the post of a recorded run leaves is what its look-up, count and close leave as steps of the protocol; under a lapsed lease it is a crash |
| Accounting.ClaimIsProtocol | src/pr_review_agent/queue.py:238-280 | a claim taken is a step the protocol allows, and leaves the same tables |
| Delivery.AccountedStep | src/pr_review_agent/worker.py:738-872 | one transaction, by any worker: a run that is posted, given up or owed stays so exactly unless its item is swept or closed while it is neither posted nor given up, or its stamp is taken back while its item is closed; and one that is not becomes so exactly by a post that ends it, a first offer, or a record while an item waits |
| Delivery.StaysAccounted | src/pr_review_agent/worker.py:738-872 | over every interleaving a run stays posted, given up or owed exactly if no transaction loses it |
| Delivery.PostedForGood | src/pr_review_agent/runs.py:90-95 | a posted run stays posted over every run of the protocol |
| Delivery.PursuedStep | src/pr_review_agent/worker.py:655-672 | one transaction: something is still to come, or has come, of a recorded run exactly unless the transaction drops it |
| Delivery.WaysToDrop | src/pr_review_agent/worker.py:813-872 | a run is dropped only by a crash, a settle without a reservation, an offer whose item exists, a failed post under a raised limit, or the close of its row or of its item |
| Delivery.StaysPursued | src/pr_review_agent/worker.py:655-672 | over every interleaving something is still to come, or has come, of a recorded run exactly if no transaction drops it |
| Delivery.RecordedEndsAccounted | src/pr_review_agent/worker.py:655-672 | over every run from the empty tables: a recorded run that was never dropped, whose row is closed and which no worker has in hand, is posted, given up or owed |
| Delivery.FoldedIsAnswered | src/pr_review_agent/worker.py:514-531 | over every run from the empty tables a fold closes what waited for a recorded run, of which something is still to come, or has come, if no transaction dropped it, and afterwards exactly if the fold does not |
| Delivery.PostsStayWithin | src/pr_review_agent/runs.py:99-107 | over every run of the protocol under one limit, no run is counted past it exactly when no failed post is counted of a run already given up and not posted |
| Delivery.SweepLosesARun | src/pr_review_agent/queue.py:104-109 | the sweep of a claim loses an owed run whose item is at its last lapsed attempt |
| Delivery.RaisedLimitLosesARun | src/pr_review_agent/worker.py:787-811 | a run given up under a limit of one, whose post fails again under a limit of five, loses its stamp, gets no item, and is lost when its row is closed |
| Delivery.DisplacedRunIsLost | src/pr_review_agent/worker.py:813-838 | a displaced worker discards its run and folds what waited; the next holder gives the row up, and the run is neither posted, given up nor owed |
| Numbering.Assign | src/pr_review_agent/numbering.py:29-52 | the two loops keep the first valid claim of each issued number and number the rest above the high water |
| Numbering.RoundIsNumbered | src/pr_review_agent/numbering.py:29-52 | the numbers of a round are positive and distinct, and at most the high water exactly for the honoured claims |
| Numbering.NewNumbersAreConsecutive | src/pr_review_agent/numbering.py:46-52 | the new findings take the next numbers in order and without a gap |
| Numbering.NumbersAreNeverReissued | src/pr_review_agent/runs.py:130-136 | over rounds of reviews under distinct keys, each reading what the one before recorded, the high water never falls, and a new number was on no earlier finding of the pull request |
| Numbering.SameHistorySharesNumbers | src/pr_review_agent/numbering.py:46-52 | two rounds that read the same history share a new number exactly when each has a new finding |
| Numbering.RepeatedKeyLowersHighWater | src/pr_review_agent/runs.py:66-76 | recording a key again can lower the high water |
| Issuing.ReviewIsNumbered | src/pr_review_agent/worker.py:546-662 | of the run a worker leaves of a completed review: a finding keeps the number it carries exactly if some issued number of its pull request reaches it and no earlier finding carries it; every other is numbered above all that is issued, and no two alike |
| Issuing.DescriptionNumbersFromOne | src/pr_review_agent/worker.py:542-548 | the findings of a description are numbered from 1, whatever was issued and whatever they carried |
| Issuing.ReviewIsARound | src/pr_review_agent/worker.py:640-672 | a review recorded by a worker is a round of `Numbering`, and posting it changes no issued number |
| Issuing.DescriptionIssuesNothing | src/pr_review_agent/runs.py:130-136 | a recorded description leaves what every pull request has issued as it was |
| Issuing.NewNumbersAreAbove | src/pr_review_agent/numbering.py:29-52 | numbers given from an older reading are above all that is issued exactly when nothing was issued above what was read, or no finding is new |
| Issuing.NumbersAreFresh | src/pr_review_agent/worker.py:546-662 | over every run of the protocol that records no key twice: a new number of a review was given to no finding of its pull request before, unless another round of it was recorded since the review read the history |
| Exclusions.GroupIsHighest | src/pr_review_agent/workspace/exclusions.py:59-69 | a path's group is the shortest of its directories that nothing kept lies under, or itself if it has none |
| Exclusions.Omitted | src/pr_review_agent/workspace/exclusions.py:42-73 | the loops list exactly the groups, in order, each with its size, and one file by its own name |
| Exclusions.NamedDirectoriesAreHighest | src/pr_review_agent/workspace/exclusions.py:45-51 | a named directory holds nothing kept, and every directory above it does |
| Exclusions.NamedDirectoriesAreDisjoint | src/pr_review_agent/workspace/exclusions.py:45-51 | no named directory lies inside another |
| Exclusions.EachPathIsCoveredOnce | src/pr_review_agent/workspace/exclusions.py:42-73 | every withheld path is covered by exactly one entry |
| Exclusions.KeptPathsAreNotCovered | src/pr_review_agent/workspace/exclusions.py:45-51 | no entry covers a path the review was shown |
| Exclusions.SharedEntryIsSharedDirectory | src/pr_review_agent/workspace/exclusions.py:59-69 | two withheld files share an entry exactly when a directory nothing was read under holds both |
| Exclusions.CountsAddUp | src/pr_review_agent/workspace/exclusions.py:70-73 | the counts add up to the number of withheld files |
| Stamp.StampIsOrderEmbedding | src/pr_review_agent/_time.py:35-49 | stored timestamps compare as strings exactly as their instants do in time, with and without a fraction |
| Stamp.StampReadsBack | src/pr_review_agent/_time.py:35-61 | parsing a stored timestamp gives the instant it was written for, with and without a fraction |
| Stamp.GitHubReadsBack | src/pr_review_agent/_time.py:52-61 | parsing a whole second as GitHub writes it, with `Z`, gives the instant |
| Stamp.FractionOrder | src/pr_review_agent/_time.py:35-49 | the one field of variable width keeps the order, because `+` sorts before `.` |
| Store.OnlyTheFirstAdopts | src/pr_review_agent/store.py:415-457 | after one repository adopted the unqualified watermarks no later one inherits any |
| Store.AdoptedExactly | src/pr_review_agent/store.py:415-457 | unless any watermark is qualified, afterwards there are exactly the stems' new names whose stem had one, each with its instant |
| Store.AdvancedInAnyOrder | src/pr_review_agent/store.py:459-474 | advances of one watermark commute: it ends at the highest of what was stored and offered, in any order, and no other watermark moves |
| Store.SqliteStore.AdvanceWatermark | src/pr_review_agent/store.py:459-474 | moves the named watermark to the later of stored and offered, and returns it |
| Store.SqliteStore.AdoptLegacyWatermarks | src/pr_review_agent/store.py:415-457 | renames the unqualified rows and deletes them, or changes nothing once any row is qualified |
| Classifier.OwnCommentStartsNoReview | src/pr_review_agent/triggers/classifier.py:160-178 | a comment the agent neutralised is never accepted, whichever account posted it |
| Classifier.AcceptedExactlyWhen | src/pr_review_agent/triggers/classifier.py:113-192 | accepted exactly when fresh, by an allowed person, and a ready pull request or a new mention on an open one; the trigger names the item's author, pull request, head and key, and a mention's command |
| Classifier.FreshnessIsMonotone | src/pr_review_agent/triggers/classifier.py:113-179 | a later watermark only refuses what is older than it, and decides everything else alike |
| Classifier.EventsAreNotPublications | src/pr_review_agent/triggers/classifier.py:113-192 | an accepted event is never a publication item, by kind or by key |
| Classifier.KeysTellItemsApart | src/pr_review_agent/triggers/classifier.py:123-190 | a pull request and a comment, or items of two repositories whose names hold no colon, never share a key |
| Classifier.KeyNamesTheEvent | src/pr_review_agent/triggers/classifier.py:123-190 | two items, of repositories whose names hold no colon, share a key exactly when they are the same comment, or the same head of the same pull request |
| Classifier.EventsOfOneRepositoryAreApart | src/pr_review_agent/triggers/classifier.py:123-190 | the same for any two items of one repository, whatever it is called |
| Daemon.Daemon.Since | src/pr_review_agent/daemon.py:348-355 | the stored watermark, or `now`, which it then stores |
| Daemon.Daemon.SeedWatermarks | src/pr_review_agent/daemon.py:208-245 | adopts unqualified rows if it may, and seeds what is still unset |
| Daemon.Daemon.Offer | src/pr_review_agent/daemon.py:341-346 | an accepted item is enqueued and counted exactly when its key is new; a refused one changes nothing |
| Daemon.Daemon.Sweep | src/pr_review_agent/daemon.py:302-307 | one pass enqueues every accepted item in order, keeps the newest instant, and counts the rows it added |
| Daemon.Daemon.PullRequests | src/pr_review_agent/daemon.py:294-309 | the loop enqueues what is accepted in order, remembers what is open, and advances to the newest instant |
| Daemon.Daemon.Comments | src/pr_review_agent/daemon.py:311-339 | the nested loops are one pass over both payloads against one watermark |
| Daemon.Daemon.Process | src/pr_review_agent/daemon.py:279-292 | the comments are filtered by the pull requests this very cycle reported |
| Polling.PollEnqueuesExactly | src/pr_review_agent/daemon.py:279-346 | a poll that finds both payloads changed adds exactly the keys of what asks in them: ready pull requests by allowed people, and mentions by allowed people, in comments not posted by the agent, on pull requests this poll reported, each no older than its own watermark |
| Polling.CompleteCycleIsProcessed | src/pr_review_agent/daemon.py:294-339 | a cycle that is not cut short is what a leg of the daemon does |
| Polling.WatermarkMovesForward | src/pr_review_agent/store.py:459-474 | over any cycles of any repositories each watermark is exactly the highest of its seed and of the instants its cycles saw in payloads processed to the end; a clock counts only as the seed of an unset mark |
| Polling.NothingOlderThanSeed | src/pr_review_agent/daemon.py:208-226 | over any cycles of any watermarks every row that appears has the trigger of an item that was accepted, no older than the seed of its own watermark |
| Polling.EligibleItemsAreNeverLost | src/pr_review_agent/triggers/classifier.py:60-74 | every eligible item of a processed payload no older than the watermark in force has a row under its key from then on, and the key names no other event (`Classifier.KeyNamesTheEvent`) |
| Polling.EventsHaveTheirOwnRows | src/pr_review_agent/triggers/classifier.py:60-74 | eligible items of one payload that are different events have a row each, from then on |
| Polling.RowIsItsEvents | src/pr_review_agent/triggers/classifier.py:60-74 | the row an item's key names was made for an item of the very same event, as long as no repository has a colon in its name |
| Polling.RestartDecidesPullsAlike | src/pr_review_agent/triggers/classifier.py:113-132 | a restarted daemon, which knows nothing open and nothing posted, decides pull requests alike |
| Polling.OtherLegsAreApart | src/pr_review_agent/daemon.py:279-292 | cycles of the other leg, and of other repositories, whose names hold no colon, have none of a payload's keys |
| Polling.ReplayReachesTheSameState | src/pr_review_agent/daemon.py:294-346 | replaying a cycle that crashed anywhere between its enqueues and the advance, under rules that decide its items alike and after any cycles of other watermarks, reaches the same triggers and watermarks; at once and with the same clock, the same state |
| Policy.ResolveBudget | src/pr_review_agent/daemon.py:358-413 | refuses a second authority and a complier without one; an authority publishes its pool numbers |
| Policy.Settings.ReloadConfig | src/pr_review_agent/daemon.py:131-206 | a broken file changes nothing; otherwise the role is kept, the governor reloads, and an authority republishes |
| Policy.AuthorityNeverChanges | src/pr_review_agent/daemon.py:358-413 | over any starts, reloads and stops the published authority never changes, and every running authority is that repository |
| Policy.PolicyIsLastPublished | src/pr_review_agent/store.py:482-499 | the store holds the pool numbers published last |
| Policy.CompliersFollowTheAuthority | src/pr_review_agent/budget.py:316-336 | a complier's next admission is weighed against the numbers published last, under its own other settings, and within every limit that loading checks |

## Left out

- GitHub, its client, conditional requests and payload mapping: a payload is any sequence of items. The ETag is stored before the payload is processed, so whether a crashed cycle's payload is offered again is not modelled; what a replay does is.
- Git, checkouts and the engine: a world that answers with a line count, a review or one of the failure kinds.
- SQLite itself: each transaction is one atomic step on the tables. `adopt_legacy_watermarks` and `fold` count and rename as their statements say; migrations, WAL and busy timeouts are left out.
- Worker.ReviewWorker.RunOne: runs its transactions without other workers' between them; `Protocol` lets any transaction come between, and `Accounting.RunIsProtocol` and `Accounting.RestIsProtocol` tie the two. The check of the lease before a recorded run is posted is there only as the `Crash` of a worker that fails it.
- Budget.Governor.MeasureHeadroom: compares exact quotients, where the source divides floating-point numbers.
- Worker.ReviewWorker.Attempt: takes the fitted prediction of `preflight` as an answer of the world; the tokens-per-line fit is floating-point arithmetic over one comparison. The notices and log lines are left out, and so is the incremental base.
- Runs.HighWater: counts every recorded review; purging, which nothing calls, would hide rows.
- Numbering.NumbersAreNeverReissued: and Issuing.NumbersAreFresh require that no key is recorded twice, because recording one again can free numbers (`Numbering.RepeatedKeyLowersHighWater`); and that no other round is recorded between a review's reading and its record, because then both can hand out a number (`Numbering.SameHistorySharesNumbers`).
- Mention.NeutraliseWorksExactlyFor: is exact for handles of one line; of handles with a line break it is proved that the good ones work (`Mention.NeutralisedHasNoMention`), and so do those with a backtick (`Mention.TickIsNeutralised`), and not that the rest fail.
- Mention.NeutralisedHasNoMention: ignores case as Python does for ASCII letters and for the four other characters it folds onto one; other letters of a handle are compared as they are, here and in every lemma about handles. The verb after a mention is an input of the classifier.
- Stamp.StampIsOrderEmbedding: is about instants already in UTC; the conversion from other zones and the refusal of naive ones are the library's, and so are the other shapes that `fromisoformat` reads. Elsewhere instants are microseconds.
- Protocol: gives every queue the same lease and attempt bound, and takes usage tokens to be non-negative.
- Ledger rows from before the repository and pull request were recorded on them, which pacing ignores.
- Engine and model names, comment ids and sources, descriptions and findings beyond their numbers: stored and read back unchanged.
- Report layout, notices, supervision, signals, logging, the command line and skill installation: no deep property.
- Configuration parsing beyond the cross-field limits of the budget: field checks.
