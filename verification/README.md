# Berger, modelled in Dafny

Berger is a mail-triage daemon. It polls an archive for new messages, tags each one with
native filters and optionally a language model, carries out IMAP actions on the live
mailbox, records what it did in a SQLite sidecar, and notifies webhooks. A separate scan
command counts what an inbox holds and suggests filter rules. This project models both and
proves what they promise.

## How the model is built

**Calls that may fail** (`Calls`). Every call to the outside takes one tick of a `Network`
object and gets the answer a fixed but arbitrary oracle holds for that tick. A call to the
mail server is carried out, refused without effect, or carried out with its reply lost, which
the caller sees as a failure although the effect happened. A statement on the local database
is atomic: it is carried out, or fails without effect. A theorem for every oracle is therefore
a theorem for every pattern of failures; a crash is the pattern that refuses every later call
of the cycle. The clock, the model's replies, whether a webhook body renders, and the result
of each POST come from the oracle too.

**State and its functional twin.** What the source updates in place is a class (`Network`,
`ImapServer`, `Store`, `Source`, `Triage`) or a loop over local variables, with methods in the
source's shape. Each method is proved equal to a specification function of the old state and
the oracle; the laws are lemmas about those functions, and say by inputs and fields, without
those functions' names, what each operation gives. A run of the daemon is a list of
events, each a poll cycle of some account or an arbitrary change of the mail servers and
archives from outside; whole-run theorems are by induction on that list.

**Modules.** `Actions`, `ActionLaws` and `WritebackLaws`: consolidation, IMAP writeback and
where it writes. `Sidecar`: tables and keys. `Pipeline` and `ProcessLaws`: one message.
`EmissionLaws`: its webhooks. `RepeatLaws`: a second attempt at it. `ConfigLaws`: what the
configuration and the classifier ask for. `Folders`, `Poller`, `Daemon`, `DaemonLaws`,
`CoverageLaws`: polling, cycles and runs. `DryRun`: the plan against the real run.
`Webhooks`: delivery. `Calendar` and `Timestamp`: dates. `Interpolation`: `${VAR}`.
`Filters`, `Addresses`, `Ranking`, `Scan`, `Suggester`, `RuleLaws`, `Profiles`: from scan to
rules. `Seqs` and `Text`: shared vocabulary.

## Where the code differs from what is said about it

- `docs/yaml.md:337-340` says a move wins over a copy into the same folder and extra moves are
  ignored. A copy into a move target other than the first is dropped by a move that is
  itself ignored (`ACopyCanBeSwallowed`; `CopyReachesItsFolder` says exactly when).
- `docs/ops.md:334-336` says the ledger prevents any double processing of a message in
  flight. It prevents a second recorded triage (`AtMostOnce`). But a copy carried out by an
  attempt that then fails anywhere up to its ledger insert, or whose own reply was lost, is
  made again by the next attempt unless the message was moved (`RepeatedExactlyWhen` and
  `RetryRepeats` say exactly when, `ACopyCanBeMadeTwice` gives two failing patterns).
- `docs/yaml.md:281` says a message is classified at most once for a prompt. An attempt that
  fails before its ledger row calls the model again (`ModelCalledExactlyWhen`,
  `ModelCanBeCalledAgain`, `TheModelCanBeCalledTwice`, `ModelCallsAreBounded`); the cache
  lookup made while processing never hits (`CacheAlwaysMisses`).
- `src/pipeline/mod.rs:349` says the returned count is of POSTs attempted. The code counts the
  deliveries whose audit row was stored (`CountIsOfDeliveries`, `ADeliveryCanGoUncounted`).
- `src/scan/analyzers/volume.rs:41` divides towards zero, so hours before 1970 are off unless
  they are full hours (`BucketIsPrintedHour`, `AnEarlyHourIsOff`).
- The scan reads an address between the first brackets, the filter engine between the last,
  and the filter engine trims a rule's entries while the scan does not trim a domain
  (`ExtractorsCanDisagree`, `ListedDomainMatches`, `ABlankDomainIsMissed`,
  `ABlankDomainMatchesAnother`, `OneServiceMessage`, `ServiceEvidenceIsExact`).
- `docs/scan.md:113-124` says the suggester keeps one rule a sender and emits two filter
  types. The code emits one rule a category, of three types, and they overlap
  (`OverlapExactlyWhen`, `BothRulesCanBeSuggested`).
- The own-folder check of the poller never decides anything, since the INBOX check beside it is
  stricter (`PolledIsInbox`).

## Model

| member | source | states |
|---|---|---|
| DaemonLaws.InvariantOfRun | src/cli/run.rs:91-98 | every state reachable by any events under any failures keeps sound tables, exact attempt counts, distinct deliveries, and past attempts reflected by the tables |
| DaemonLaws.AtMostOnce | src/pipeline/mod.rs:232-237 | in every run a Message-ID is recorded at most once and completed at most once, never when the sidecar already knew it, and has one ledger row |
| DaemonLaws.LedgerMeansActed | src/pipeline/mod.rs:265-288 | a ledger row exists only after some attempt ran the message's whole consolidated action list |
| ConfigLaws.LedgerMeansObeyed | src/pipeline/mod.rs:265-288 | that attempt carried out what the fields of its tags' configuration ask for: a copy into a folder exactly when some tag copies there and none moves there, a move exactly when some tag has one, each flag exactly when some tag sets it |
| DaemonLaws.OnlyTheOutsideFails | migrations/V1__initial_schema.sql:15-86 | no reachable insert violates a primary or foreign key, webhook audit inserts included, and no copy or move addresses a missing folder: every failure came from outside |
| DaemonLaws.AuditIntegrity | src/pipeline/mod.rs:290-331 | every audit row refers to a ledger row; a processed message's trail stays exactly its tags, its executed actions in order and the filters that fired, in every later state |
| ConfigLaws.AuditMeans | src/pipeline/mod.rs:290-331 | in every later state the trail reads, row by row: the tags in order, each action by name and folder, the match rows of exactly the filters that match in declaration order, then the classifier's |
| DaemonLaws.ModelCallsAreBounded | src/llm/classifier.rs:104-155 | model calls for a message are at most one plus its attempts that failed before the ledger row; at most those attempts while it has no ledger row |
| DaemonLaws.NoCacheHits | src/webui/queries.rs:210-218 | at most one decision a message, so the dashboard's hit count is 0 in every reachable state |
| DaemonLaws.WebhooksFireOnce | src/pipeline/mod.rs:353-430 | over a whole run no webhook is delivered twice for one message |
| CoverageLaws.Coverage | src/ingest/poller.rs:80-136 | a cycle that reaches its messages hands an INBOX message on if and only if the watermark is at most its date + 48 h; if not, the watermark is a first poll's clock, the starting watermark or the date of a message seen |
| CoverageLaws.WatermarksOfRun | src/cli/run.rs:130-158 | every saved watermark of every run is the starting one, a first poll's clock, or the date of a message an earlier poll returned |
| CoverageLaws.FaultFreeCycle | src/cli/run.rs:102-168 | a cycle no call of which fails completes, and every INBOX message of its window ends up in the ledger |
| CoverageLaws.NoMailIsLeftBehind | src/cli/run.rs:102-168 | over a whole run: an INBOX message in the archive at a fault-free poll whose watermark is at most its date + 48 h is in the ledger ever after |
| CoverageLaws.LedgerStays | src/storage/processed_messages.rs:55-85 | in every run what is in the ledger stays there |
| CoverageLaws.CycleLosesNoMail | src/cli/run.rs:140-152 | whatever fails, a cycle touches in INBOX only messages it handed on, no folder loses mail and no message has fewer copies |
| CoverageLaws.RunLosesNoMail | src/actions/mod.rs:113-183 | over a whole run a message's copy count on a server drops only when the outside drops it |
| Daemon.PollOneAccount | src/cli/run.rs:102-168 | the imperative cycle equals the cycle function: register, read the watermark, poll, connect, process each message, save the watermark; counts of triaged and skipped |
| Daemon.HandAll | src/cli/run.rs:140-152 | the message loop goes on past failed messages and counts processed and skipped ones |
| Daemon.CountsMean | src/cli/run.rs:144-146 | the two counts are the numbers of attempts that processed and that skipped their message |
| ProcessLaws.ProcessSteps | src/pipeline/mod.rs:220-344 | for every oracle: nothing written unless all actions ran, at most one ledger row, other messages' trails untouched, no mail lost, at most one model call, webhooks only when processed |
| ProcessLaws.RowsFit | src/pipeline/mod.rs:272-331 | the rows of a new message with distinct tags respect every key, in their order, and add exactly themselves |
| ProcessLaws.AuditIsExact | src/pipeline/mod.rs:290-331 | after all rows of a new message its trail is exactly its tags, actions and fired filters |
| ProcessLaws.CacheAlwaysMisses | src/llm/classifier.rs:104-120 | in sound tables the cache holds nothing for a message that is not in the ledger |
| ProcessLaws.PreparationFacts | src/pipeline/mod.rs:232-263 | before the actions nothing is written; only a new message gets past, with distinct tags beginning with the native ones, at the price of at most one model call |
| EmissionLaws.EmissionIsExact | src/pipeline/mod.rs:353-430 | under any render, delivery and storage failures: the new deliveries are those of the names that fire, the new audit rows are in order the reports of the deliveries whose insert went well, their number is returned, every failed insert fails from outside, and nothing else changes |
| ConfigLaws.DeliveredHooks | src/pipeline/mod.rs:369-428 | a message's deliveries are one for each webhook that a tag's configuration refers to, that is configured and whose `when` list is empty or names a tag, if its body renders; no other |
| EmissionLaws.ShotsAreTheFiring | src/pipeline/mod.rs:366-428 | the deliveries are, in name order, exactly those of the configured, `when`-passing names whose own render call answered yes, each with its report and insert |
| EmissionLaws.CountIsOfDeliveries | src/pipeline/mod.rs:349-352 | the count returned is the number of webhooks POSTed to if and only if no audit insert fails |
| EmissionLaws.ADeliveryCanGoUncounted | src/pipeline/mod.rs:349-352 | one webhook POSTed to with success, and a count of zero |
| EmissionLaws.EmissionFacts | src/pipeline/mod.rs:353-430 | each distinct name is delivered at most once, only if configured and passing `when`, and the tables stay sound |
| Pipeline.Triage.ProcessMessage | src/pipeline/mod.rs:220-344 | the imperative pipeline, table after table, equals the processing function on old state and oracle |
| Pipeline.Triage.EmitWebhooks | src/pipeline/mod.rs:353-430 | the emission loop equals the emission function over the distinct names in tag order |
| Pipeline.Triage.Classify | src/llm/classifier.rs:99-155 | cache read, call and decision with their early returns equal the classification function, characterised by ClassifierTags |
| ConfigLaws.ClassifierTags | src/tags/mod.rs:28-37 | a reply whose JSON decodes adds its category tag, and the reply and priority tags exactly when it says so, and is kept as a decision with the prompt's hash; a failed call or undecodable reply adds the error tag and no decision |
| Pipeline.RunFilters | src/pipeline/mod.rs:123-131 | the loop gives the native tags, characterised by NativeTags and NativeTagsInOrder |
| ConfigLaws.NativeTags | src/pipeline/mod.rs:123-131 | a tag is given if and only if some matching filter carries it |
| ConfigLaws.NativeTagsInOrder | src/pipeline/mod.rs:123-131 | tags stand in the order of their first matching filters |
| ConfigLaws.FiredRowsMean | src/pipeline/mod.rs:293-310 | the match rows are, in declaration order, exactly those of the matching filters, then one for a configured classifier |
| Pipeline.MergeLlmTags | src/pipeline/mod.rs:136-147 | the tags, then each new model tag once |
| Pipeline.TagsAreDistinct | src/pipeline/mod.rs:123-147 | tags stay duplicate-free through both steps, whatever the model says |
| Pipeline.ResolveActions | src/actions/resolve.rs:34-54 | the loop gives the actions of the tags, characterised by AskedFor and ActionsInOrder |
| ConfigLaws.AskedFor | src/actions/resolve.rs:34-54 | an action is resolved if and only if some tag's own field asks for it |
| ConfigLaws.ActionsInOrder | src/actions/resolve.rs:34-54 | the actions stand tag by tag, within a tag copy, move, seen, flagged, and none that a tag asks for is missing |
| ConfigLaws.RecordedIsDelivered | src/pipeline/mod.rs:265-288 | right after a recorded attempt the mailboxes hold what its tags ask for, and the message is still in INBOX if and only if it was and no tag has a move |
| ConfigLaws.LedgerRowSays | src/pipeline/mod.rs:272-282 | a recorded message's ledger row carries its account, subject, sender, date and the configuration's hash |
| Actions.ApplyActions | src/actions/mod.rs:113-183 | the loops, the retain and the calls equal running the consolidation action by action, stopping at the first failure; characterised by SuccessDelivers, ConsolidateInOrder and RunTouchesOnlyOwn |
| WritebackLaws.SuccessDelivers | src/actions/mod.rs:158-188 | after a success `Berger/f` holds exactly one more copy of the message, with the requested flags, for each `f` that is copied to and not moved to or is the first move's, no other folder changes, and INBOX holds the message, flagged, exactly when nothing moves it |
| WritebackLaws.ConsolidateInOrder | src/actions/mod.rs:152-182 | flags come first, copies in the order of their first request, the move last |
| WritebackLaws.RunTouchesOnlyOwn | src/actions/mod.rs:186-188 | whatever fails, no folder is created or changed but those under `Berger/` |
| WritebackLaws.WrittenIsNotPolled | src/ingest/poller.rs:119-125 | no path an application writes to is polled back, for any separator |
| ConfigLaws.AttemptTouchesOnlyOwn | src/pipeline/mod.rs:269-270 | nor does a whole attempt touch any other folder |
| Actions.EnsureFolderExists | src/actions/mod.rs:96-105 | server, tick and failure after looking for a folder and creating it when missing |
| Actions.RunBounds | src/actions/mod.rs:128-182 | a run completes a prefix of its plan, all of it exactly when it does not fail |
| ActionLaws.ConsolidateMembers | src/actions/mod.rs:118-181 | exactly which actions survive: requested flags, copies into no move target, the first move |
| ActionLaws.ConsolidateIsDistinct | src/actions/mod.rs:124-137 | no action is carried out twice |
| ActionLaws.ConsolidateIsIdempotent | src/actions/mod.rs:113-183 | re-applying the executed list executes the same list |
| ActionLaws.OrderDoesNotMatter | src/actions/mod.rs:113-183 | with at most one distinct move target any reordering or repetition executes the same set |
| ActionLaws.CopyReachesItsFolder | src/actions/mod.rs:139-150 | a requested copy's folder gets the message if and only if it is no move target or the first one |
| ActionLaws.ACopyCanBeSwallowed | src/actions/mod.rs:139-181 | an input whose copy is dropped although the move that swallows it never runs |
| ActionLaws.RunConserves | src/actions/mod.rs:152-182 | whatever fails: other UIDs stay in INBOX unchanged, folders lose nothing, no copy count drops, no command addresses a missing folder, and without a move the message stays |
| ActionLaws.LeavesInboxLast | src/actions/mod.rs:169-181 | a message leaves INBOX only by the last action, the first move, with all earlier actions done |
| ActionLaws.SuccessSettles | src/actions/mod.rs:113-183 | success means exactly the requested end state: flags set, one more copy in each kept folder and the move target, INBOX without the message when moved, nothing else changed |
| ActionLaws.TargetsOnServer | src/actions/imap_target.rs:67-69 | distinct targets of an application have distinct paths on a server if and only if no two are equal up to its separator |
| ActionLaws.CountsOfCommands | src/actions/imap_target.rs:161-200 | flags and new folders leave copy counts alone, a copy of a present UID adds one, a move none; a missing UID is a silent no-op (section 6.4.8 of RFC 3501, section 3 of RFC 6851) |
| RepeatLaws.AppliedCopies | src/actions/mod.rs:113-183 | exact conservation: success adds one copy of the message for each kept copy action and none for a move; the message leaves INBOX exactly when there is a move |
| RepeatLaws.RunLands | src/actions/mod.rs:113-183 | exact conservation for every run, whatever fails: each copy command carried out, its reply lost or not, adds one copy, nothing else adds or removes any, and the message leaves INBOX exactly when its move was carried out |
| RepeatLaws.RunFailsByFault | src/actions/mod.rs:113-183 | a run completes if and only if none of its calls fails |
| RepeatLaws.ReadyExactlyWhen | src/pipeline/mod.rs:232-267 | an attempt gets to its actions if and only if the message is new and its reads succeed, a failed model call notwithstanding |
| RepeatLaws.AttemptRuns | src/pipeline/mod.rs:232-288 | with or without a classifier, an attempt that gets to its actions runs their consolidation, and is recorded if and only if every call of that run and the next one, the ledger insert, are fine |
| RepeatLaws.CopiesOfTwoAttempts | src/pipeline/mod.rs:232-288 | the copies carried out by two attempts add up, whatever fails in either |
| RepeatLaws.RepeatedExactlyWhen | src/pipeline/mod.rs:232-288 | the second of any two attempts repeats the copy into a folder if and only if the first one's copy was carried out, some call up to its ledger insert failed, its move was not carried out, and the second one's copy is carried out; each condition read off the oracle |
| RepeatLaws.RetryRepeats | src/pipeline/mod.rs:232-288 | a second attempt without failures repeats each copy it asks for again exactly when the first stored no ledger row and left the message in INBOX |
| RepeatLaws.ACopyCanBeMadeTwice | src/actions/mod.rs:158-161 | one failing call, the reply to the copy or the ledger insert, leaves a single copy action's message with two more copies |
| RepeatLaws.ModelCalledExactlyWhen | src/pipeline/mod.rs:232-263 | an attempt calls the model if and only if the message is new and the ledger read, the download and the cache read succeed |
| RepeatLaws.ModelCanBeCalledAgain | src/llm/classifier.rs:104-155 | two attempts classify a message twice if and only if it is new, both get past their three reads, and some call from the first one's actions to its ledger insert fails |
| RepeatLaws.TheModelCanBeCalledTwice | src/llm/classifier.rs:104-155 | one refused ledger insert, with no actions configured, makes two model calls |
| Seqs.DedupKeepsFirstOccurrences | src/actions/mod.rs:119-137 | keeping the first of each keeps the order of first occurrence |
| Sidecar.Store.Record | src/storage/processed_messages.rs:69-85 | an insert is stored when its keys allow, else fails and leaves every table alone |
| Sidecar.CachedIsFirst | src/storage/llm_decisions.rs:65-78 | a lookup finds the response of the first row for the message and the prompt hash, and nothing exactly when there is no such row |
| Sidecar.Store.SaveWatermark | src/storage/accounts.rs:102-108 | exactly the one account's cursor changes |
| Sidecar.AddKeepsSound | src/storage/applied_tags.rs:49-56 | an insert the keys admit keeps one ledger row a message, every other row about a ledger message, tags distinct, one decision a message |
| Sidecar.AdmissibleRowsRecord | src/pipeline/mod.rs:272-331 | rows that fit fail only by the outside and leave sound tables wherever they stop |
| Sidecar.SaveAllIsPrefix | src/pipeline/mod.rs:272-331 | without a transaction the tables hold exactly a prefix of the rows |
| Poller.PollAccount | src/ingest/poller.rs:80-136 | the page loop returns the INBOX messages of the window and the new watermark if every request succeeds, else fails; with its number of requests |
| Poller.SweepRequests | src/ingest/poller.rs:89-110 | paging over n messages that succeeds takes exactly n div 200 + 1 requests, and fails only at a failed request |
| Poller.PollIsExact | src/ingest/poller.rs:85-135 | a poll returns each INBOX message of the window as often as the archive holds it, in order, and nothing else |
| Poller.AdvancedIsMax | src/ingest/poller.rs:112-117 | the new watermark is the greatest of the old one and all dates seen, and is one of them |
| Folders.OwnFoldersAreNotPolled | src/actions/imap_target.rs:67-69 | a copy written under `Berger/` is never polled back, for any separator, and for `/` and `.` is recognised as Berger's by poller and scan |
| Folders.PathsCollide | src/actions/imap_target.rs:67-69 | two logical folders have one server path if and only if they are equal up to the separator |
| Folders.PolledIsInbox | src/ingest/poller.rs:119-125 | polling keeps exactly the messages of the folder called inbox in any case |
| Folders.ScanInbox | src/scan/folders.rs:41-52 | the scan counts a folder as INBOX exactly when it is called so up to case and surrounding space |
| DryRun.DryRunIsFaithful | src/cli/dry_run.rs:124-153 | without model and failures a real batch skips exactly what the plan skips and later copies of a Message-ID in the batch; every other message gets the planned tags and runs the consolidation of the planned actions |
| DryRun.DescriptionsAreFaithful | src/cli/dry_run.rs:181-188 | different actions read differently, so a plan determines its actions |
| DryRun.DescribesItsRow | src/cli/dry_run.rs:181-188 | a plan's line names the action as its audit row will, with the folder it writes to |
| DryRun.PlanAccount | src/cli/dry_run.rs:100-121 | one plan a polled message in poll order, from the watermark looked up by archive id and the sidecar as it is; an error only after a failed call |
| DryRun.PlansFromTheSameWatermark | src/cli/dry_run.rs:157-169 | the plan and a real cycle find the same watermark on record when the account's row is the first with its archive id |
| DryRun.SharedArchiveIdsDiffer | src/cli/dry_run.rs:157-169 | with two rows for one archive id they need not |
| Webhooks.Deliver | src/webhooks/emitter.rs:142-204 | the retry loop's report, number of POSTs and seconds slept equal the delivery function |
| Webhooks.DeliveryIsBounded | src/webhooks/emitter.rs:142-204 | between 1 and max(1, budget) POSTs, all before the last retryable, status from the last, success if and only if the first settling POST within the budget succeeds |
| Webhooks.ReportedStatus | src/webhooks/emitter.rs:142-204 | the status and success reported, by the kind of the last POST |
| Webhooks.BudgetMeans | src/webhooks/emitter.rs:142-150 | the budget is the configured number of attempts, one when that is zero |
| Webhooks.ExponentialSleep | src/webhooks/config.rs:105-113 | the sleep over k waits is (4^k - 1)/3 for k <= 11 and (4^11 - 1)/3 + (k - 11) 4^10 beyond |
| Webhooks.FixedSleep | src/webhooks/config.rs:105-113 | the sleep over k fixed waits is k |
| Webhooks.Register | src/webhooks/emitter.rs:71-92 | the registry is built if and only if names are distinct, and finds every webhook under its name and nothing else |
| Calendar.CivilStepsByOneDay | src/webhooks/payload.rs:231-244 | for every day count, the date of the next day is the Gregorian next day (leap rule of appendix C of RFC 3339) |
| Calendar.EpochIsDayZero | src/webhooks/payload.rs:231-244 | day 0 is 1970-01-01 |
| Calendar.FutureIsTheCalendar | src/webhooks/payload.rs:231-244 | day n is 1970-01-01 stepped n times through the calendar |
| Calendar.PastIsTheCalendar | src/webhooks/payload.rs:231-244 | stepping the date of day -n forward n times gives 1970-01-01 |
| Calendar.DayRoundTrip | src/webhooks/payload.rs:231-244 | every date produced is valid, and counting its days gives the day back |
| Calendar.DateRoundTrip | src/webhooks/payload.rs:231-244 | every valid date is produced, by its own day count |
| Calendar.CivilIsIncreasing | src/webhooks/payload.rs:231-244 | later days have later dates |
| Calendar.ClosedFormBounds | src/webhooks/payload.rs:231-244 | the ranges stated beside the closed form hold for every day count |
| Timestamp.PrintThenParse | src/webhooks/payload.rs:216-227 | parsing a printed timestamp (section 5.6 of RFC 3339) gives back the whole seconds if and only if the year is in 0000-9999, and its length is then 20 |
| Timestamp.PrintedFields | src/webhooks/payload.rs:216-227 | every character of the printed timestamp: six decimal fields that read as the date and time of day, and the marks between them |
| Timestamp.TextOrderIsTimeOrder | src/webhooks/payload.rs:216-227 | for years 0000-9999 timestamps compare as text exactly as their seconds compare |
| Timestamp.HourField | src/webhooks/payload.rs:216-227 | the two digits of the hour stand at positions 11 and 12 |
| Timestamp.BucketIsPrintedHour | src/scan/analyzers/volume.rs:40-43 | a message's bucket is its printed hour if and only if its date is not before 1970 or is a full hour |
| Timestamp.AnEarlyHourIsOff | src/scan/analyzers/volume.rs:41-41 | a date whose bucket is not its printed hour |
| Interpolation.SubstituteEnvVars | src/config/mod.rs:298-321 | the loop over the rest of the text terminates with the one-pass substitution |
| Interpolation.SubstitutionEvaluates | src/config/mod.rs:298-321 | substituting a text is evaluating its literals and placeholders once; values are never rescanned |
| Interpolation.SubstitutionOfPrinted | src/config/mod.rs:298-321 | substitution undoes printing for every list of literals and placeholders |
| Interpolation.PrintThenRead | src/config/mod.rs:298-321 | the segments of a printed list are that list |
| Interpolation.ReadThenPrint | src/config/mod.rs:298-321 | every text is the printing of its segments, so reading loses nothing |
| Interpolation.SubstitutionFails | src/config/mod.rs:298-321 | it fails if and only if a placeholder is empty, unset or unterminated |
| Interpolation.SubstitutionMeans | src/config/mod.rs:298-321 | the result is the text with its values filled in, or the error of its first empty or unset placeholder, or of the open one |
| Filters.CompileFilters | src/pipeline/mod.rs:93-119 | a list compiles unless some rule's pattern is invalid; validated rules become one filter each, in order |
| Filters.ValidRuleCompiles | src/config/mod.rs:233-260 | a validated rule becomes one filter with its tag unless its pattern is invalid |
| Filters.RuleDoesAsRuled | src/filters/mod.rs:85-98 | a validated rule's filter matches exactly what the rule's field says, under its type's name and tag |
| Filters.ValidExactlyWhen | src/config/mod.rs:233-260 | a rule passes validation exactly when its tag has text, it declares one filter type and that type's texts are not blank |
| Addresses.ExtractorsAgree | src/filters/mod.rs:111-117 | with at most one `<` and one `>` both extractors find the same address |
| Addresses.ExtractorsCanDisagree | src/scan/address.rs:26-33 | a From value with two bracket pairs for which they do not |
| Addresses.AddressShape | src/scan/address.rs:26-51 | an extracted address is lowercase and trimmed with a non-empty domain, the same the filter engine reads off it |
| Addresses.AddressMeans | src/scan/address.rs:26-42 | an address is extracted exactly when what stands between the first brackets, trimmed and lowercased, has something on both sides of its last `@` |
| Addresses.DomainMeans | src/scan/address.rs:46-51 | its domain is what follows that `@` |
| Addresses.ListedAddressMatches | src/filters/mod.rs:120-127 | a rule listing the address a message was counted under matches the message |
| Addresses.ListedAddressExactly | src/filters/mod.rs:111-127 | for any scanned sender, a rule for its one address matches it if and only if the two extractors agree |
| Addresses.AddressListMatches | src/filters/mod.rs:120-127 | a list of scanned addresses matches exactly the senders whose last-bracket address is in it |
| Addresses.DomainListMatches | src/filters/mod.rs:120-127 | a list of scanned domains matches exactly the senders whose last-bracket domain is one of them trimmed |
| Addresses.CountedDomainsMatch | src/filters/mod.rs:120-127 | with single brackets and no listed domain beginning with white space, exactly the messages counted under a listed domain are matched |
| Addresses.ABlankDomainMatchesAnother | src/filters/mod.rs:120-127 | a listed domain with a leading space matches a sender that was not counted under it |
| Addresses.ListedDomainMatches | src/filters/mod.rs:120-127 | a rule listing the domain a message was counted under matches it if and only if no white space follows its last `@` |
| Addresses.ABlankDomainIsMissed | src/scan/address.rs:26-51 | a From value whose counted domain the filter engine does not find |
| Ranking.TallyCounts | src/scan/analyzers/senders.rs:154-162 | the counting map holds exactly the keys met, each with its number of occurrences |
| Ranking.Rank | src/scan/analyzers/senders.rs:71-86 | sorting and truncating a count map, in whatever order its keys come, gives the k entries with the highest counts, higher first, equal counts by the first character in which the keys differ, cut-off keys after all ranked ones in that order |
| Ranking.TopIsRanked | src/scan/analyzers/senders.rs:79-84 | every analyzer's ranking is of that kind |
| Ranking.TopIsUnique | src/scan/analyzers/senders.rs:71-86 | there is one such ranking, so iteration order cannot show |
| Ranking.RankingSums | src/scan/analyzers/lists.rs:46-67 | the counts of a ranking sum to the items under its keys, and to all items when nothing is cut off |
| Scan.CountBy | src/scan/analyzers/notifications.rs:49-72 | the counting loop's map is the tally of the counted messages' keys |
| Scan.RankingIgnoresOrder | src/scan/analyzers/senders.rs:90-113 | reordering the inbox leaves every single-key ranking unchanged |
| Scan.NewslettersIgnoreOrder | src/scan/analyzers/newsletters.rs:51-87 | and the newsletter ranking with its distinct-sender counts |
| Scan.ContactsIgnoreOrder | src/scan/analyzers/senders.rs:119-151 | and, together with any reordering of the sent messages, the whole list of two-way contacts |
| Profiles.NgramsIgnoreOrder | src/scan/analyzers/subjects.rs:40-64 | and the ranking of subject phrases |
| Scan.DetectNewsletters | src/scan/analyzers/newsletters.rs:51-87 | the top 50 domains by newsletter messages, each with its exact number of distinct senders |
| Scan.DetectMailingLists | src/scan/analyzers/lists.rs:46-67 | the top 50 normalised list ids by messages |
| Scan.DetectNotificationServices | src/scan/analyzers/notifications.rs:49-72 | the top 50 domains by automated messages |
| Scan.TopSenders | src/scan/analyzers/senders.rs:71-86 | the top 50 addresses by messages |
| Scan.TopDomains | src/scan/analyzers/senders.rs:90-113 | the top 50 domains by messages |
| Scan.Bidirectional | src/scan/analyzers/senders.rs:119-151 | the top 30 addresses met on both sides by messages exchanged, each with its exact counts |
| Scan.ContactsAreRanked | src/scan/analyzers/senders.rs:119-151 | contacts stand by messages received and sent together, then by address, and none left out exchanged more |
| Scan.RecipientsMean | src/scan/analyzers/senders.rs:119-151 | an address counts as written to exactly when some sent message names it |
| Scan.KeysMean | src/scan/analyzers/newsletters.rs:51-87 | the key each dimension counts a message under, by headers and address |
| Scan.NotificationMeans | src/scan/analyzers/notifications.rs:77-119 | a message is automated exactly when it shows one of the three marks |
| Scan.CountFlagged | src/scan/analyzers/spam.rs:45-71 | the number of messages flagged by the upstream spam filter |
| Scan.FlaggedMeans | src/scan/analyzers/spam.rs:45-71 | a message is flagged exactly when its spam header says yes in any case and spacing |
| Suggester.Suggest | src/scan/suggester.rs:87-208 | the pushes under guards give the suggestions of the report, characterised by SuggestedExactlyWhen |
| RuleLaws.SuggestedExactlyWhen | src/scan/suggester.rs:87-208 | each category is suggested, in this order and with this evidence, exactly when it reaches the threshold, a sender rule listing exactly the entries that do, and nothing else is |
| Suggester.Analyze | src/scan/analyzer.rs:92-109 | the report's categories are the exact rankings and counts of the inbox |
| Suggester.SuggestionsWork | src/scan/suggester.rs:87-208 | for every inbox, each suggestion passes validation, compiles to one filter with its tag, and the filter matches at least the claimed evidence, short at most by the messages with a doubtful sender for sender rules |
| Suggester.CleanSuggestionsWork | src/scan/suggester.rs:131-187 | with single brackets and no white space after the last `@` no rule falls short of its evidence |
| Suggester.OneServiceMessage | src/scan/suggester.rs:131-157 | one notification suffices for a domain rule that misses its evidence, exactly when white space follows the sender's last `@` |
| RuleLaws.OverlapExactlyWhen | src/scan/suggester.rs:131-187 | for a scan's suggestions both sender rules match a message if and only if its scanned address is a listed contact and its scanned domain a listed service up to leading white space; with clean senders, exactly when both are listed |
| RuleLaws.BothRulesCanBeSuggested | src/scan/suggester.rs:131-187 | an inbox of one message whose scan suggests both sender rules, which both match it |
| RuleLaws.ServiceEvidenceIsExact | src/scan/suggester.rs:131-157 | of the messages that are its evidence the notification rule misses exactly those whose last-bracket domain is none of the listed ones trimmed |
| RuleLaws.VipEvidenceIsExact | src/scan/suggester.rs:159-187 | of the messages that are its evidence the contact rule misses exactly those whose last-bracket address is not listed |
| Profiles.AnalyzeVolume | src/scan/analyzers/volume.rs:38-55 | each of 24 buckets counts its hour, they sum to the inbox, and the busiest is the lowest index of the maximum |
| Profiles.HoursCoverTheInbox | src/scan/analyzers/volume.rs:39-43 | every message falls into exactly one bucket |
| Profiles.SampleSize | src/scan/analyzers/language.rs:43-52 | the stride samples between the target and twice the target, and exactly a tenth rounded up from 500 subjects on |
| Profiles.SamplePosition | src/scan/analyzers/language.rs:52-52 | the k-th sampled subject is number k times the stride |
| Profiles.CountLanguages | src/scan/analyzers/language.rs:50-57 | the strided loop counts the detections of the sample |
| Profiles.TopSubjectNgrams | src/scan/analyzers/subjects.rs:40-64 | the top 30 phrases of two and three tokens by occurrences |
| Profiles.PhrasesMean | src/scan/analyzers/subjects.rs:42-48 | a phrase is counted exactly when it is two or three tokens of some subject in a row |
| Profiles.TokensAreClean | src/scan/analyzers/subjects.rs:81-88 | every token is lowercase and alphanumeric, has three characters or more and is no stopword |
| Profiles.PhrasesAreWindows | src/scan/analyzers/subjects.rs:44-48 | equal phrases come from equal token windows only, so phrase counts are window counts |

## Left out

- HTTP, TLS, IMAP and SQLite plumbing, SQL text and migrations: each is an abstract call that may fail.
- `mail_parser`, the regex engine, YAML and JSON decoding, Handlebars and `whatlang`: predicates and functions given to the model; of regexes it is asked only that `.` matches a non-empty one-line value and `(?i)yes` any casing of "yes".
- Creating a folder and subscribing to it are one call, as are all SQL statements of one repository method.
- The archive is stable during one poll; it and the mail servers change freely between cycles.
- A header that occurs several times: the scan's reading of a header is any one value standing in the message's header list.
- Unicode white space and case folding: header and folder text is treated as ASCII.
- Floating point: confidence, ratios, language shares and their order, spam scores. Only their integer inputs are modelled.
- Machine integers: counts and day numbers are unbounded; only the saturating watermark subtraction is modelled.
- Webhook payload contents, rendering and headers; the payload's timestamps are modelled in `Calendar` and `Timestamp`.
- Real clocks, sleeping between cycles and async scheduling: time is passed in and the triage loop is sequential.
- The rest of configuration validation, secrets, command line, explain, status, web UI (but for its cache-hit count), report rendering and Thunderbird export: no hard property.
- The suggestions' names, rationales and confidence beyond what rules are made of.
- CoverageLaws.RunLosesNoMail: speaks of copy counts, since the outside may move mail between cycles; what a cycle itself does to INBOX and to each folder is in CycleLosesNoMail.
- Profiles.CountLanguages: stops at the counts, because shares are floating point.
- ActionLaws.SuccessSettles: speaks of logical folders; two of them that are equal up to the server's separator are one folder there (`TargetsOnServer`), which then receives two copies.
