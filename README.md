# Bulk cleanup, evaluation formatting and the attachment allow-list, in Dafny

This project models three parts of a Discord moderation bot.

- **The `clean` cog** (`bot/exts/moderation/clean.py`) deletes messages in bulk.
  - It validates the command's arguments and normalises the scope and the time bounds.
  - It builds a deletion predicate out of optional tests.
  - It enumerates candidates, either from the bot's message cache or from channel histories.
  - It deletes what matched: bulk calls of at most 100 messages up to the first message too old for bulk deletion (14 days, judged by snowflake id), then one call per remaining message.
  - It reports the result to the moderation log.
  - A single `cleaning` flag keeps one session running at a time. The `clean stop` command and the cog's error handler clear it, and the loops poll it to notice cancellation.
- **The snekbox cog** (`bot/exts/utils/snekbox.py`).
  - It turns an evaluation's return code into a message and a status emoji.
  - It splits the `timeit` line off the output.
  - It sanitises, numbers and truncates the output, and decides when the full output goes to the paste service.
  - It keeps one evaluation job per author in flight.
- **The extension allow-list** of the filtering cog (`ExtensionsList.actions_for` in `bot/exts/filtering/_filter_lists/extension.py`).
  - It works out which attachment extensions no triggered allow-filter covers.
  - It exempts text-like files in evaluation output.
  - It chooses the direct message for the author and records the blocked files in the filter context.

Layout, one module per file:

- `wrappers.dfy`: `Option`, `Result`.
- `pystr.dfy`: the Python string operations the code relies on (`strip`, `split`, `join`, `replace`, `count`, `rfind`, `lower`, decimal formatting).
- `clean_model.dfy`: converters, validation, normalisation, the predicate.
- `clean_deletion.dfy`: the snowflake age test, grouping by channel, the deletion plan and what it removes, the modlog report.
- `clean_schedule.dfy`: what the loops do when the run is interrupted.
- `clean_cog.dfy`: the cog itself, a class whose methods update the flag and record the platform calls.
- `snekbox.dfy`: the formatting functions, plus the `EvalJobs` class holding the jobs table.
- `extension.dfy`: the allow-list decision, plus the `FilterContext` and `ExtensionsList` classes that `actions_for` updates.

### How interruption is modelled

The cog runs as a coroutine, and other coroutines run only while it is suspended at an `await`. The model numbers the awaits of the cog.

An `Env` names at most one interruption at a given await. It is either:

- `Cancel(at)`: another coroutine clears the flag, as `clean stop` does, or the error handler of another invocation;
- `Failure(at)`: the awaited call raises a platform error other than `NotFound`.

The `Env` also gives the set of message ids that are already gone when a single deletion reaches them, and the clock in milliseconds.

Each deletion loop is proved against a plan. `Plan(mappings, now)` is the list of bulk and single deletion calls the loop would make if nothing intervened. Each loop issues a prefix of that plan, exactly as long as the schedule allows. What the loop returns is the outcome of that prefix:

- every message in a bulk call counts as deleted, even when the call met `NotFound`;
- a single deletion counts only if the message was still there.

Sending a notice, the modlog upload, the modlog entry and the check-mark reaction are awaits too, and each may raise. A busy notice that raises reaches the error handler, which clears the flag of the session already running. A raise in the closing steps, after the flag is cleared, ends the session as `Finished` with the error in its `raised` field; the deletions it made stay done.

## Model

| member | source | states |
|---|---|---|
| CleanModel.ResolveChannels | bot/exts/moderation/clean.py:44 | every word is converted in order; the conversion succeeds exactly when every word names a text channel, and otherwise the error is the first word that does not |
| CleanModel.ConvertChannels | bot/exts/moderation/clean.py:40-44 | `*` means all channels; otherwise the channels of the whitespace-separated words, or the first word that does not convert |
| CleanModel.ConvertRegex | bot/exts/moderation/clean.py:50-58 | an argument that is not a non-empty single-line text between backticks is refused with the missing-backticks error; otherwise the inner text is compiled, and a compile failure is the regex error |
| CleanModel.ConvertRegexRoundTrip | bot/exts/moderation/clean.py:52-56 | wrapping a non-empty single-line pattern that compiles in backticks converts back to exactly that pattern |
| CleanModel.ValidateInput | bot/exts/moderation/clean.py:99-115 | input is accepted exactly when it is consistent: traverse within the message limit, no message limit together with channels, two message limits in one channel, not both users and bots-only, no second limit without a first; an over-large traverse is always the error reported |
| CleanModel.ValidateInputNamesTheRule | bot/exts/moderation/clean.py:99-115 | each violated rule, when the earlier ones hold, is the error reported, in the order the checks are written |
| CleanModel.CleanGroupDefaults | bot/exts/moderation/clean.py:455-465 | with no traverse, users, limits, regex or channels the group shows help; otherwise traverse defaults to the message limit with a first limit and to 10 without one, and the cache is used by default exactly for `*` |
| CleanModel.Normalise | bot/exts/moderation/clean.py:368-382 | with no channels the scope is the first message limit's channel, else the second's, else the invoking channel; message limits become their creation times; two bounds come out sorted |
| CleanModel.NonEmpty | bot/exts/moderation/clean.py:155 | the empty attributes are dropped and every non-empty one is kept |
| CleanModel.BuildPredicate | bot/exts/moderation/clean.py:168-186 | at most four tests, and none exactly when no criterion is active |
| CleanModel.AcceptsAppend | bot/exts/moderation/clean.py:186 | a list of tests accepts a message exactly when each part accepts it |
| CleanModel.PredicateMeaning | bot/exts/moderation/clean.py:132-186 | the predicate accepts a message exactly when each active criterion holds: bot author, author among the users, a regex match somewhere in the haystack, `first <= created <= second` with two bounds, `created >= first` with one |
| CleanModel.NoCriteriaAcceptsAll | bot/exts/moderation/clean.py:182-183 | without criteria every message is accepted |
| CleanModel.JoinOccurs | bot/exts/moderation/clean.py:155 | every joined piece occurs in the joined text |
| CleanModel.AttributeSearched | bot/exts/moderation/clean.py:142-158 | every non-empty attribute of the message occurs in the text the regex searches |
| CleanModel.FieldTextsHas | bot/exts/moderation/clean.py:150-152 | every field's name and value are among the collected texts |
| CleanModel.EmbedTextsHas | bot/exts/moderation/clean.py:145-152 | every field value of every embed is among the collected texts |
| CleanModel.FieldValueSearched | bot/exts/moderation/clean.py:142-158 | every non-empty embed field value occurs in the searched text |
| CleanDeletion.SnowflakeAge | bot/exts/moderation/clean.py:246-247 | a message id below the cut-off snowflake is exactly a creation time more than 14 days before now |
| CleanDeletion.OlderIsDownwardClosed | bot/exts/moderation/clean.py:246-247 | if a message is too old for bulk deletion, so is every message with a smaller id |
| CleanDeletion.OlderStaysOlder | bot/exts/moderation/clean.py:246-247 | a message too old for bulk deletion stays so at every later time |
| CleanDeletion.AddMessageLookup | bot/exts/moderation/clean.py:208 | appending a message to the mappings extends its channel's list by it and leaves the other lists unchanged |
| CleanDeletion.GroupLookup | bot/exts/moderation/clean.py:207-209 | each channel's list is the matching messages of that channel, in examination order |
| CleanDeletion.AddMessageKeys | bot/exts/moderation/clean.py:208 | appending adds the message's channel to the keys |
| CleanDeletion.AddMessageFlatten | bot/exts/moderation/clean.py:208 | appending adds exactly that message to the multiset of grouped messages |
| CleanDeletion.AddMessageWellGrouped | bot/exts/moderation/clean.py:208 | appending keeps every key once and every message under its own channel |
| CleanDeletion.GroupWellGrouped | bot/exts/moderation/clean.py:200-211 | the mappings hold each channel once, each message under its own channel, the keys are the channels of the messages, and together the lists are a permutation of the messages |
| CleanDeletion.CutIndex | bot/exts/moderation/clean.py:274-282 | the cut point is the first message too old for bulk deletion, or the end |
| CleanDeletion.Present | bot/exts/moderation/clean.py:256-258 | what single deletions remove are messages of the list that were still there |
| CleanDeletion.OutcomeAppend | bot/exts/moderation/clean.py:290 | the result of two runs of calls is the concatenation of their results |
| CleanDeletion.OutcomeOfPrefix | bot/exts/moderation/clean.py:261-307 | a prefix of the calls removes a prefix of what all of them remove |
| CleanDeletion.BatchesCover | bot/exts/moderation/clean.py:284-299 | the bulk calls report every batched message as deleted, in order, whether or not the call met `NotFound` |
| CleanDeletion.BatchesShape | bot/exts/moderation/clean.py:284-299 | there are ceil(n/100) bulk calls to the channel, each with 1 to 100 messages, all but the last with exactly 100 |
| CleanDeletion.BatchesSplit | bot/exts/moderation/clean.py:286-291 | batching a prefix of whole batches and then the rest is batching the whole |
| CleanDeletion.ChannelPlanShape | bot/exts/moderation/clean.py:270-305 | per channel, every message before the cut point is deleted and, from the cut point on, exactly those still present |
| CleanDeletion.IndividuallyOutcome | bot/exts/moderation/clean.py:249-259 | individual deletion returns exactly the messages still present, in order |
| CleanDeletion.ExampleOneHundredFifty | bot/exts/moderation/clean.py:284-299 | 150 young messages give bulk calls of 100 and 50, and all 150 are deleted |
| CleanDeletion.ExampleCutAtThird | bot/exts/moderation/clean.py:279-305 | if the third of five messages is the first old one, one bulk call takes two messages and three single calls follow |
| CleanDeletion.PlanPrefix | bot/exts/moderation/clean.py:270 | the plan for the first channels is where the full plan starts |
| CleanDeletion.ChannelOutcome | bot/exts/moderation/clean.py:270-305 | a channel never reports more than it holds; with nothing missing it reports all of it |
| CleanDeletion.PrefixThenPresent | bot/exts/moderation/clean.py:284-305 | the bulk part plus the present remainder never exceeds the channel; with nothing missing it is the channel |
| CleanDeletion.PlanOutcome | bot/exts/moderation/clean.py:261-307 | a full run never reports more than was found; with nothing missing it reports every found message, channel by channel |
| CleanDeletion.PlanDeletesAll | bot/exts/moderation/clean.py:261-307 | with nothing missing, a full run deletes exactly the matched messages, as a multiset |
| CleanDeletion.PresentLength | bot/exts/moderation/clean.py:256-258 | single deletions never report more than they were given; with nothing missing they report all of it |
| CleanDeletion.BulkOnlyYoung | bot/exts/moderation/clean.py:279-289 | no bulk call carries a message too old for bulk deletion |
| CleanDeletion.BatchInOutcome | bot/exts/moderation/clean.py:288-290 | every message of an issued bulk call is in the result |
| CleanDeletion.IndividualOnlyOld | bot/exts/moderation/clean.py:279-304 | for a newest-first list, everything from the cut point on, all of it deleted singly, is too old for bulk deletion; a history read with an `after` bound is oldest first and does not meet this |
| CleanDeletion.BatchAt | bot/exts/moderation/clean.py:286-291 | the q-th bulk call holds messages 100q to 100q+99 |
| CleanDeletion.LastBatch | bot/exts/moderation/clean.py:295-299 | the leftover call holds the messages after the last full batch |
| CleanDeletion.WholeBatches | bot/exts/moderation/clean.py:286-295 | a multiple of 100 messages gives only full batches and no leftover call |
| CleanDeletion.Matching | bot/exts/moderation/clean.py:207-209 | what is gathered is the predicate's matches among the examined messages, in order |
| CleanDeletion.EnumerationStep | bot/exts/moderation/clean.py:207-209 | one more examined message extends the matches, its channel's list and the ids by it exactly when it matches |
| CleanDeletion.MatchingMeaning | bot/exts/moderation/clean.py:207-209 | a message is gathered exactly when it was examined and matches |
| CleanDeletion.ModlogReport | bot/exts/moderation/clean.py:311-330 | no report exactly when nothing was deleted; otherwise the log is the deleted messages reversed, and the text opens with the bold count |
| CleanDeletion.CountHeadValue | bot/exts/moderation/clean.py:327 | the bold count in the report reads back as the number of deleted messages |
| CleanSchedule.IssuedQuiet | bot/exts/moderation/clean.py:274-305 | with no interruption every call of the plan is issued and none raises |
| CleanSchedule.IssuedCancelled | bot/exts/moderation/clean.py:275-302 | a flag cleared during the j-th call stops the loop after exactly j calls, without an error |
| CleanSchedule.IssuedFailed | bot/exts/moderation/clean.py:288-298 | a j-th call that raises ends the loop with exactly j calls issued and the error |
| CleanSchedule.IssuedNotRunning | bot/exts/moderation/clean.py:254-277 | a loop started with the flag clear issues nothing |
| CleanSchedule.RanPrefix | bot/exts/moderation/clean.py:261-307 | a deletion loop that returns has issued a prefix of its plan and reports exactly what that prefix removed |
| CleanSchedule.RanCalls | bot/exts/moderation/clean.py:261-307 | whether or not it raises, a deletion loop issues a prefix of its plan |
| CleanSchedule.QuietRan | bot/exts/moderation/clean.py:261-307 | with no interruption the loop issues the whole plan and reports its full outcome |
| CleanSchedule.ChannelPlanParts | bot/exts/moderation/clean.py:270-305 | a channel's plan is its bulk calls followed by its single calls |
| CleanSchedule.WalkEnd | bot/exts/moderation/clean.py:274-299 | when the bulk walk ends, it ends at the cut point, and the calls issued are the channel's bulk calls |
| CleanSchedule.PolledQuiet | bot/exts/moderation/clean.py:224-235 | with no interruption the history enumeration examines every message |
| CleanSchedule.PolledNotRunning | bot/exts/moderation/clean.py:225-229 | with the flag already clear, the first history step is still awaited, and only it |
| CleanSchedule.PollStep | bot/exts/moderation/clean.py:225-233 | after each awaited history step, a raise ends the enumeration with the error, a cleared flag ends it with empty containers, and otherwise it goes on |
| CleanSchedule.GatherNext | bot/exts/moderation/clean.py:231-233 | gathering one more message is the same as gathering the longer list |
| CleanSchedule.QuietEnumerated | bot/exts/moderation/clean.py:221-235 | with no interruption the history enumeration returns the grouped matches of everything examined, and their ids |
| CleanCog.ExaminedPrefix | bot/exts/moderation/clean.py:224-225 | the messages of the first channels are where the examined messages start |
| CleanCog.ExaminedAt | bot/exts/moderation/clean.py:224-225 | each channel's history follows those of the channels before it |
| CleanCog.CacheSlice | bot/exts/moderation/clean.py:202 | the cache enumerator looks at the first `traverse` cached messages and no more |
| CleanCog.Clean.constructor | bot/exts/moderation/clean.py:77-79 | a new cog is not cleaning and has made no calls |
| CleanCog.Clean.Suspend | bot/exts/moderation/clean.py:225 | one await: the flag is cleared if the schedule cancels here, and the step raises if the schedule fails here |
| CleanCog.Clean.DeleteMessages | bot/exts/moderation/clean.py:288-298 | one bulk call, recorded; `NotFound` is swallowed, and other errors raise |
| CleanCog.Clean.DeleteMessage | bot/exts/moderation/clean.py:256-258 | one single call, recorded; it reports the message deleted exactly when it was still there |
| CleanCog.Clean.DeleteMessagesIndividually | bot/exts/moderation/clean.py:249-259 | issues the single calls the schedule allows, checking the flag before each, and returns the messages those calls removed |
| CleanCog.Clean.DeleteInBulk | bot/exts/moderation/clean.py:271-291 | issues the channel's bulk calls the schedule allows, flushing at exactly 100 and stopping at the cut point |
| CleanCog.Clean.IssueBatch | bot/exts/moderation/clean.py:286-291 | a full batch is sent, added to the result whether or not it met `NotFound`, and cleared |
| CleanCog.Clean.FlushLeftover | bot/exts/moderation/clean.py:293-299 | after the flag check, a non-empty leftover batch is sent and added to the result |
| CleanCog.Clean.DeleteChannelMessages | bot/exts/moderation/clean.py:271-305 | issues the prefix of the channel's plan the schedule allows and returns what it removed |
| CleanCog.Clean.DeleteFound | bot/exts/moderation/clean.py:261-307 | issues the prefix of the whole plan the schedule allows and returns what it removed; a cancellation returns the deleted prefix |
| CleanCog.Clean.GetMessagesFromCache | bot/exts/moderation/clean.py:198-211 | with the flag set, returns the grouped matches among the first `traverse` cached messages and their ids in the same order; with it clear, empty containers |
| CleanCog.Clean.GetMessagesFromChannels | bot/exts/moderation/clean.py:213-235 | steps through each channel's history with an await per message; on cancellation returns empty containers, otherwise the grouped matches and their ids |
| CleanCog.Clean.PollPage | bot/exts/moderation/clean.py:225-233 | one channel's messages, each awaited and then checked against the flag and the predicate |
| CleanCog.Clean.Enumerate | bot/exts/moderation/clean.py:390-402 | the cache is used exactly for all channels with the cache on, and has no await; otherwise the history of the listed channels, or of every text channel, bounded by the limits; no deletion call is made |
| CleanCog.Clean.SendExpiring | bot/exts/moderation/clean.py:117-121 | one await at which the send may raise; a notice that was sent deletes itself after 5 seconds outside moderation channels and stays inside them, and one that raised was not sent |
| CleanCog.Clean.DeleteInvocation | bot/exts/moderation/clean.py:188-196 | outside moderation channels the log is told to ignore the invocation, which is then deleted; `NotFound` is swallowed |
| CleanCog.Clean.ModlogCleanedMessages | bot/exts/moderation/clean.py:309-340 | nothing deleted: the no-matches notice, one await; otherwise the upload and the log entry, two awaits, with the reversed messages; it raises exactly when the schedule fails at one of its awaits, a step that raised has no effect, and it reports success exactly when something was deleted |
| CleanCog.Clean.CleanMessages | bot/exts/moderation/clean.py:344-417 | invalid input is rejected and nothing changes; a call while cleaning posts the busy notice, and raises if that send fails, leaving the flag to the error handler; otherwise the flag is set and the session runs; a finished session has cleared the flag and deleted the outcome of a prefix of the plan for what it found; a cancelled one returns before any deletion beyond the invocation, with nothing sent or logged and only the invocation ignored; a failed one has sent and logged nothing and issued, after the invocation's deletion, a prefix of the plan for what it found; with no interruption everything found is deleted and nothing raises |
| CleanCog.Clean.RunSession | bot/exts/moderation/clean.py:367-417 | scope and bounds are normalised before the predicate is built, and the session ends as finished, cancelled or failed as described above, a failure having sent and logged nothing and issued only a prefix of the plan |
| CleanCog.Clean.Proceed | bot/exts/moderation/clean.py:387-417 | the invocation is deleted, the candidates are enumerated, and a cleared flag ends the session before any deletion, with nothing sent and only the invocation ignored; a failure leaves nothing sent or logged, and after the invocation's deletion either nothing more or the found ids ignored and a prefix of the plan issued |
| CleanCog.Clean.Conclude | bot/exts/moderation/clean.py:404-417 | the found ids are ignored by the log, the deletions run, the flag is cleared, and the closing steps follow; a failure before the flag is cleared leaves it set, sends and logs nothing and has issued a prefix of the plan, and one in the closing steps is reported with the deletions already done |
| CleanCog.Clean.Close | bot/exts/moderation/clean.py:411-417 | the log step, then the check mark exactly when it logged in a moderation channel; a raising step ends the session with the scheduled failure and has no effect, and the flag stays clear |
| CleanCog.Clean.CogCommandError | bot/exts/moderation/clean.py:590-592 | any command error clears the flag and changes nothing else |
| CleanCog.Clean.CleanCancel | bot/exts/moderation/clean.py:572-582 | the flag ends clear; the notice says "interrupted" exactly when a session was running; if the notice raises, the invocation is not deleted, otherwise it is |
| CleanCog.Clean.CleanGroup | bot/exts/moderation/clean.py:421-469 | when nothing was asked, help is posted with one await and nothing else changes, and a raising help post reaches the error handler and clears the flag; otherwise a session with the defaults filled in; a raising session leaves the flag clear, including a busy notice that raised, which ends the session already running, and so does a raising help post; a busy refusal changes the flag only if that session was cancelled meanwhile |
| Snekbox.LeadingDigits | bot/exts/utils/snekbox.py:102 | the longest run of digits at the start of the text |
| Snekbox.ReadIntBack | bot/exts/utils/snekbox.py:102 | the number printed into the message reads back as the return code, whatever follows it |
| Snekbox.GetResultsMessage | bot/exts/utils/snekbox.py:98-121 | no return code: failed, with the stripped output as the error; 137: timed out or out of memory; 255: failed with the NsJail error; otherwise completed with that code, plus the signal name when code−128 names one; an error only ever comes with "failed" |
| Snekbox.CompletedMessage | bot/exts/utils/snekbox.py:102-119 | the completed message differs from the two fixed messages and carries the return code |
| Snekbox.PrefixedDiffers | bot/exts/utils/snekbox.py:102-112 | no completed message equals the failed or the timed-out message |
| Snekbox.GetStatusEmoji | bot/exts/utils/snekbox.py:123-131 | `:warning:` exactly when the output is blank, `:white_check_mark:` exactly for non-blank output with code 0, `:x:` otherwise |
| Snekbox.StatusAgreesWithMessage | bot/exts/utils/snekbox.py:98-131 | a check mark comes with the completed code-0 message and no error; without a return code, an error is shown exactly when the emoji is not the warning |
| Snekbox.GetTime | bot/exts/utils/snekbox.py:220-235 | newlines are stripped from both ends; on code 0 the output is split at its last newline, with the newline kept in the second part, or is ("", output) without one; otherwise (output, None) |
| Snekbox.SplitAtLastNewline | bot/exts/utils/snekbox.py:230-233 | the two parts rejoin to the output, the second starts at the last newline, and the first part is empty when there is none |
| Snekbox.Defuse | bot/exts/utils/snekbox.py:146-150 | after the replacements no `<@` or `<!@` is left without a zero-width space after it, only zero-width spaces are inserted, and undoing the two insertions (`Restore`) gives back the output exactly, so no character already there, a zero-width space included, is dropped or moved |
| Snekbox.ReplaceDefuses | bot/exts/utils/snekbox.py:146-150 | each replacement leaves its opener defused |
| Snekbox.ReplaceKeepsDefused | bot/exts/utils/snekbox.py:149-150 | the second replacement keeps the first opener defused |
| Snekbox.ReplaceVisible | bot/exts/utils/snekbox.py:146-150 | a replacement only inserts zero-width spaces, and removing the one after each occurrence of the pattern gives back the text exactly |
| Snekbox.RestoreReplace | bot/exts/utils/snekbox.py:146-150 | for any text, zero-width spaces already in it included, removing the zero-width space after each occurrence of the pattern undoes the replacement |
| Snekbox.ReplacePrefix | bot/exts/utils/snekbox.py:146-150 | when the inserted text starts with the pattern, the first characters of the result, fewer than the pattern's length, are those of the original |
| Snekbox.ReplaceAbsent | bot/exts/utils/snekbox.py:146-150 | a text without the pattern is left unchanged |
| Snekbox.NumberedLines | bot/exts/utils/snekbox.py:157-162 | a text with n newlines has n+1 lines; numbering keeps the first 11 of them, each with its number and without newlines |
| Snekbox.Truncate | bot/exts/utils/snekbox.py:164-172 | truncated exactly with more than 10 newlines or at least 1000 characters; an untruncated text is unchanged; a truncated one is cut to its first 1000 characters and ends with the notice for too many lines, too long, or both |
| Snekbox.UploadOutput | bot/exts/utils/snekbox.py:68-75 | more than 1000 characters: "too long to upload"; otherwise the paste service's answer |
| Snekbox.FormatOutput | bot/exts/utils/snekbox.py:133-179 | an escape attempt gives only the notice plus an upload of the stripped output; otherwise the numbered text, cut to 1000 characters with the matching notice when truncated, with an upload exactly when truncated; the result is never empty |
| Snekbox.FirstAccepted | bot/exts/utils/snekbox.py:296-306 | the event a wait returns is the first one its check accepts; none before it is accepted, and a wait that times out saw none |
| Snekbox.ReevalEditAwaited | bot/exts/utils/snekbox.py:416-418 | the edit that restarts a session is of the invoking message and changed its content; every earlier edit was of another message or kept the content |
| Snekbox.ReevalReactionAwaited | bot/exts/utils/snekbox.py:421-423 | the confirming reaction is the re-run emoji by the invoker on the invoking message; every earlier reaction differs in one of the three |
| Snekbox.Rounds | bot/exts/utils/snekbox.py:370-380 | the session runs the first code and then each edit's code, until an edit brings no code |
| Snekbox.RoundsNext | bot/exts/utils/snekbox.py:378-380 | the session goes on after a round exactly when the next edit brings code, and runs that code |
| Snekbox.EvalJobs.constructor | bot/exts/utils/snekbox.py:57-59 | the jobs table starts empty |
| Snekbox.EvalJobs.Send | bot/exts/utils/snekbox.py:374 | the send happens while the author's entry is in the table and may raise |
| Snekbox.EvalJobs.Reply | bot/exts/utils/snekbox.py:345-352 | the refusal or the help text is posted unless posting raises, and nothing else changes |
| Snekbox.EvalJobs.RunEval | bot/exts/utils/snekbox.py:339-381 | an author with a job in the table gets only the refusal; no code gives only help; either post may raise, and then nothing is posted and the error is returned; otherwise each round is sent with the author's entry present and the entry removed afterwards, even when a send raises; afterwards the table is as before |
| Snekbox.EvalJobs.Session | bot/exts/utils/snekbox.py:370-380 | the rounds are sent in order until an edit brings no code or a send raises, and the table is unchanged afterwards |
| Extension.SplitExt | bot/exts/filtering/_filter_lists/extension.py:89 | the extension is a suffix of the name; it is empty or starts with its only dot and contains no `/` |
| Extension.NoDotNoExtension | bot/exts/filtering/_filter_lists/extension.py:89 | a name without a dot has no extension |
| Extension.HiddenFileNoExtension | bot/exts/filtering/_filter_lists/extension.py:89 | a leading dot does not start an extension |
| Extension.StemDotExtension | bot/exts/filtering/_filter_lists/extension.py:89 | `stem.ext` has the extension `.ext` |
| Extension.Extensions | bot/exts/filtering/_filter_lists/extension.py:91 | the filters see exactly the extensions of the attachments |
| Extension.Triggered | bot/exts/filtering/_filter_lists/extension.py:92-94 | the result contains exactly the allow-filters that fire on those extensions, and no more of them than the list has |
| Extension.TriggeredInOrder | bot/exts/filtering/_filter_lists/extension.py:92-94 | list order is kept: the filters that fire in a two-part list are those of the first part followed by those of the second, and one filter is kept exactly when it fires |
| Extension.TriggeredAppend | bot/exts/filtering/_filter_lists/extension.py:92-94 | the filtering distributes over concatenation |
| Extension.AllowedExts | bot/exts/filtering/_filter_lists/extension.py:95 | exactly the contents of the triggered filters |
| Extension.PutMeaning | bot/exts/filtering/_filter_lists/extension.py:98 | storing a key adds it to the keys, keeps them distinct and maps it to the new value |
| Extension.KeysAt | bot/exts/filtering/_filter_lists/extension.py:98 | the keys are the first components of the items |
| Extension.KeysSnoc | bot/exts/filtering/_filter_lists/extension.py:98 | one more item adds its key |
| Extension.Exempted | bot/exts/filtering/_filter_lists/extension.py:100-101 | for evaluation output the text-like extensions leave the blocked set, and nothing else changes |
| Extension.NotAllowedMeaning | bot/exts/filtering/_filter_lists/extension.py:98 | the not-allowed keys are the extensions that are not allowed, none twice, each with a file name that has it |
| Extension.BlockedMeaning | bot/exts/filtering/_filter_lists/extension.py:80-101 | an extension is blocked exactly when the list applies, an attachment has it, no filter that fired allows it, and it is not a text-like extension of evaluation output; each comes once with a file that has it |
| Extension.VerdictShape | bot/exts/filtering/_filter_lists/extension.py:80-129 | nothing without a message, attachments or passing validations; the triggered filters otherwise; actions exactly when something is blocked outside evaluation output; one label per blocked extension, "`No Extension`" for the empty one |
| Extension.FirstBlocked | bot/exts/filtering/_filter_lists/extension.py:111 | finds a blocked text-like extension when there is one, and none otherwise |
| Extension.NoticePrecedence | bot/exts/filtering/_filter_lists/extension.py:107-124 | no notice for evaluation output; otherwise the Python notice exactly when `.py` is blocked, else the text-file notice (naming a blocked text-like extension) exactly when one is blocked, else the disallowed-types notice |
| Extension.FilterContext.constructor | bot/exts/filtering/_filter_lists/extension.py:75-77 | a context with its event, message and attachments, and nothing recorded |
| Extension.ExtensionsList.constructor | bot/exts/filtering/_filter_lists/extension.py:61-64 | the list starts without a spelled-out allow list |
| Extension.ExtensionsList.ActionsFor | bot/exts/filtering/_filter_lists/extension.py:75-129 | returns the verdict's actions, labels and triggered filters; when nothing is blocked the context and the cached allow list are left alone, otherwise the blocked extensions are recorded |
| Extension.ExtensionsList.Record | bot/exts/filtering/_filter_lists/extension.py:107-127 | appends the blocked files to the matches and adds the blocked extensions; sets the chosen notice as the direct message, none for evaluation output; spells out the allow list when the disallowed-types notice needs it and it is still empty, and keeps it otherwise |

## Left out

- Discord and HTTP calls are abstract steps that succeed, report `NotFound`, or raise as the `Env` says. In the `clean` cog this covers history paging, bulk and single deletion, invocation deletion, the modlog upload and send, the check-mark reaction and sending notices; each is one numbered await. The reaction's `NotFound` is suppressed in the source and is not modelled. In the snekbox cog, each send of an evaluation either raises or not, as a parameter says. The answers of these calls are parameters too: the history provider, the log URL, and the paste service's link.
- Concurrency is limited to one interruption per run, at one numbered await. A schedule with several interruptions is not modelled.
- The cache enumerator has no await, so no other coroutine can clear the flag while it runs. Its result is therefore all or nothing: a flag cleared before it starts gives empty containers. Its in-loop check of the flag is kept.
- Every history message is treated as its own await. Real paging awaits once per page, so the model allows interruptions at more points than the source does.
- `traverse` is a natural number. A negative `traverse` makes `islice` raise, and that is not modelled.
- `time.time()` becomes an integer number of milliseconds given as a parameter, read once per run. The source reads the clock at every `is_older_than_14d` call, so the cut point can move while a channel is deleted. `CleanDeletion.OlderStaysOlder` shows that a message judged too old stays so at every later reading, but the plan is built from a single reading. Message creation times and the limits are milliseconds too. Float rounding in the snowflake cut-off is not modelled.
- Regex compilation and search are a given predicate on strings. So are the `Age` and `ISODateTime` converters: a time limit arrives already converted.
- The text-channel converter is a given partial function.
- Authorisation (`cog_check`, `in_whitelist`), logging, statistics counters, the text of `send_help` (the post itself is an await that may raise) and typing indicators are not modelled.
- The fixed-argument subcommands `clean user`, `clean all`, `clean bots`, `clean regex`, `clean until` and `clean between` are not separate members. Each is a call of `CleanCog.Clean.CleanMessages` with fixed arguments.
- `CleanCog.Clean.CleanGroup`: does not state the session's effects, because `CleanMessages` states them.
- `prepare_input` in the snekbox cog is a given function. It relies on a back-referencing regular expression and `textwrap.dedent`.
- `Signals(n).name` is a given table from numbers to names, defined for positive numbers only.
- `send_eval`, `send_timeit`, `continue_eval` and `get_code` are not modelled: they assemble text around I/O. The session's edits arrive as a list of the codes the author supplied. The re-evaluation triggers `Snekbox.IsReevalEdit` and `Snekbox.IsReevalReaction` are the checks of two waits, stated through `Snekbox.FirstAccepted`; the timeouts become the end of the event list.
- The jobs table stores a natural-number timestamp for `datetime.now()`.
- Python's `str.lower()` is modelled for ASCII letters only.
- `os.path.splitext` is modelled with `/` as the only separator, as on POSIX.
- In the allow-list, `all_ext` is a set, so the order of the not-allowed mapping depends on hashing, and so does which file name it keeps for a repeated extension. The model takes attachment order and keeps the last name. The contracts promise only what every order gives: the keys, that each key appears once, and that each value is a file with that extension.
- `txt_extensions.pop()` names an arbitrary blocked text-like extension. The model names the first in the order `.txt`, `.csv`, `.json`, `.py`, and `Extension.NoticePrecedence` promises only some blocked text-like extension.
- The filters' `triggered_on` and the defaults' `validations.evaluate` are given parameters. The meta channel's mention is a string parameter. The default actions are a single token.
- `_whitelisted_description` starts as `None`; the model uses the empty string. Both are falsy, so the lazy recomputation behaves the same.
- `EmbedFileHandler` is not modelled: it waits for reactions, decodes attachments and calls the paste service.
- `bot/exts/help_channels/_cog.py` is not part of this model. It is queue and scheduler orchestration around Discord calls.
