# Sitey: a verified model of the server's core

A Dafny model of the parts of the Sitey server (and one loop of its command line) that hold
real state or transform text, with proofs of what they are for. Each part is modelled in its
own form: loops over mutable state are methods and classes, proved against functions; what
those functions mean is then stated by lemmas over all inputs and all runs.

| part | files | main results |
|---|---|---|
| custom Caddy fragments and the generated Caddyfile | `CaddyLexer`, `CaddyReading`, `CaddyChecker`, `CaddyLayout`, `CaddySplice`, `CaddyInsert`, `CaddyStable`, `CaddyRender`, `CaddySite`, `CaddyFile`, `CaddyRoute`, `CaddyOddSpace` | the check decides a grammar; exactly when re-indenting keeps a fragment's tokens, and exactly when the fragment stays in its block; then the file has the structure that was generated, and the tokens of every route are those its service's fields ask for |
| access-log reader | `LogTail`, `LogRuns` | draining is splitting at line feeds and parsing all that the reads return; polls and restarts are steps of a machine over whose runs no line is lost, a poll whose reads succeed leaves no row uncounted, and exactly when a crash replays the last committed batch |
| analytics counters | `Calendar`, `Rollups` | ISO weeks; each tier counts exactly the rows that were flushed, and the tiers always agree |
| deployment queue | `Queue` | work conserving; exactly when nothing is lost, and then in order |
| Caddy reloads, hosts, site blocks | `Reloader`, `HostGroups`, `BlockMerge`, `Generated`, `Configuration` | single flight; exactly when grouping depends on row order; merging keeps what every label is served with; from the stored tables of every reachable state to the tokens of the file |
| routes | `RouteStrings`, `RouteSpelling`, `Subdomains`, `Routes`, `Serving` | which texts spell a route, and that route strings round-trip; one route per host and path in every reachable state, as stored and as served; row order never shows |
| environment variables | `EnvFile`, `EnvReader`, `EditEnv` | what every line assigns; an edit is a map update seen through the reader; concurrent edits are linearizable |
| waiting until live | `Verify` | bounded polls, bounded sleep, and what each probe and report means |

`Wrappers` and `Text` hold the option type and the string functions.

Where the code and its own words differ, the model follows the code:

- The comment above `persistTailState` says that a restart never counts a committed batch
  twice. `flush` and `persistTailState` are two transactions, and a crash between them makes
  the restart commit that batch again, exactly while its file is the one at the path
  (`LogRuns.CrashReplaysExactly`, `LogRuns.CrashReplays`). What always holds is
  `LogRuns.AtMostOneReplay`.
- The tuple form of `addRoute` checks the host it inserts under only if the prefix, trimmed at
  its end, puts nothing or a single dot before its first slash (`Routes.TupleChecksItsHost`).
  Otherwise the check is made on another host (`Routes.UntidyPrefixMixesSchemes`).
- The queue removes by job id, so two jobs waiting under one id lose one when the first of
  them starts (`Queue.SameIdLosesAJob`); otherwise none is ever lost (`Queue.NoJobLost`). The
  server draws ids at random, and with distinct ids it does not happen
  (`Queue.DistinctIdsSuffice`).
- Setting `__proto__` leaves the text assigning it, but the reader's object never has it
  (`EnvFile.SetIsUpdate`).
- The comment above `checkCaddyFragment` says that a fragment it accepts cannot leave its
  block. Of the check alone that is not so. To the tokenizer only space, tab, carriage return
  and line feed are white space; re-indenting takes off whatever JavaScript calls white space.
  The fragment `CaddyOddSpace.ODD` is accepted, and as it is rendered it closes the block it
  stands in (`CaddyOddSpace.HandlersUnbalanced`, `CaddyOddSpace.FileOpened`). Saving a
  fragment also has Caddy adapt its rendering (caddy.ts:976-1020); that answer is no part of
  the model, and a fragment that is stored already is checked, but not adapted, when the file
  is built. A fragment stays in its block, wherever it is rendered, if and only if its bare
  rendering tokenizes with balanced braces (`CaddySite.StaysExactly`), which can be computed
  before it is saved; its tokens are kept if and only if `CaddySplice.KeepsTokens` holds
  (`CaddySplice.SpliceTokens`). The results on the generated file ask the first of accepted
  fragments.
- `letsEncryptEmail` is any trimmed string, and goes into the `tls` line without quotes or
  check. It stays in its site's block if and only if the line alone tokenizes with balanced
  braces (`CaddyFile.EmailStaysExactly`), which every plain word does; the results on the file
  ask this of emails. With `a {` the block stays open (`CaddyFile.EmailLeavesOpen`,
  `CaddyFile.OpenEmail`).
- A call of `reload` that joins a flight asks for another round, but if that flight fails the
  request goes with it: the caller is rejected with no build started after its call
  (`Reloader.NoCallLost`, `Reloader.FailureDropsRequest`).
- `Date.UTC` reads the years 0 to 99 as 1900 to 1999, so `isoYearWeek` is not the ISO week
  where one of them is involved (`Calendar.ComputedWeekExact`). No day since 1970 is such.
- In a root route the lines inside a fragment's multi-line quotes become four columns deeper
  (`CaddyFile.CustomRootTokens`); their number, quoting and braces stay.

## Model

| member | source | states |
|---|---|---|
| CaddyLexer.Lex | server/src/services/staticRouting.ts:80-149 | the source's loop computes the tokenizer's fold over characters: tokens, quoting, start and end lines, continuation lines, and the place and kind of each error |
| CaddyLexer.CommentEnds | server/src/services/staticRouting.ts:125-128 | a comment is skipped without a mode of its own: at its end the tokenizer is as it was between tokens |
| CaddyReading.BlankReads | server/src/services/staticRouting.ts:119-123 | space, tab, carriage return and line feed are read as nothing but line ends |
| CaddyReading.CommentReads | server/src/services/staticRouting.ts:125-128 | from a `#` where a token could start to the end of the line nothing is read |
| CaddyReading.WordReads | server/src/services/staticRouting.ts:138-144 | every text without white space, quotes and backslashes that starts neither a comment nor a heredoc is one token of its own characters |
| CaddyReading.QuotesRead | server/src/services/staticRouting.ts:98-118 | a quoted text is one token of exactly that text, over as many lines as it has line feeds: between backticks any text without one, between double quotes any that does not end in a backslash, with a backslash in front of each double quote and of nothing else |
| CaddyReading.GluedRefused | server/src/services/staticRouting.ts:108-112 | whatever is quoted, anything but white space right behind the closing quote is refused, at that line |
| CaddyReading.UnterminatedRefused | server/src/services/staticRouting.ts:146 | a quote that is not closed is refused at the line it starts on |
| CaddyReading.RefusedInWord | server/src/services/staticRouting.ts:141-143 | a backslash or a quote anywhere in a word is refused at its line, whatever follows |
| CaddyReading.RefusedAtStart | server/src/services/staticRouting.ts:136-141 | so is a word that starts with a backslash or with `<<` |
| CaddyChecker.GroupTokens | server/src/services/staticRouting.ts:173-180 | the grouping loop computes the token lines |
| CaddyChecker.GroupedCutsAtBreaks | server/src/services/staticRouting.ts:173-180 | grouping loses and reorders no token, and cuts exactly where a token does not start on the line where the one before it ended |
| CaddyChecker.CheckTokenLines | server/src/services/staticRouting.ts:182-259 | the loop over token lines with its stack ends as the fold over lines says |
| CaddyChecker.CheckCaddyFragment | server/src/services/staticRouting.ts:155-266 | the whole check gives the verdict, in the source's order: blank, placeholder, tokenizer error, first bad line (for a quoted brace the line of that brace), open block |
| CaddyChecker.LegalLinePasses | server/src/services/staticRouting.ts:183-258 | every line the grammar allows is let through, with the grammar's block pushed for a header |
| CaddyChecker.PassedLineLegal | server/src/services/staticRouting.ts:183-258 | every line that is let through closes an open block or is allowed by the grammar |
| CaddyChecker.LegalPasses | server/src/services/staticRouting.ts:182-259 | a legal forest leaves the stack as it found it |
| CaddyChecker.AcceptsExactlyTheGrammar | server/src/services/staticRouting.ts:155-266 | a fragment is accepted if and only if it is not blank, has no forbidden placeholder, tokenizes, and its token lines are a legal forest: balanced blocks, braces last or alone, allowed directives wherever all blocks around are containers, no root, fs or import elsewhere at any depth, no browse template |
| CaddyChecker.ReachesNothing | server/src/services/staticRouting.ts:183-258 | in an accepted fragment no line at any depth starts with an unquoted `root`, `fs` or `import`, and where directives may stand there is no `reverse_proxy`, `php_fastcgi` or `forward_auth` either |
| CaddyChecker.FirstBadLine | server/src/services/staticRouting.ts:183-258 | the check stops at the earliest line that no continuation could make legal, and reports where it starts, or for a quoted brace the line of the first one |
| CaddyLayout.RunBreak | server/src/services/staticRouting.ts:119-123 | white space ends every lookahead: what stands before it is read the same whatever follows |
| CaddyLayout.TrimmedTokens | server/src/services/staticRouting.ts:269-273 | normalising CRLF and trimming the end never break a text that tokenizes and keep its continuation lines; they keep its tokens, up to CRLF inside quotes, if and only if the white space taken off is the tokenizer's own or lies in a comment |
| CaddySplice.SpliceTokens | server/src/services/staticRouting.ts:269-280 | a re-indented fragment, spliced into a file with any further prefix on each line, adds exactly the fragment's own tokens (quoting, order, lines and end lines moved by where it stands, texts the same but for the prefix after a line feed inside quotes) if and only if the white space taken off its lines and its end is nothing to the tokenizer |
| CaddyStable.RenderedAccepted | server/src/services/staticRouting.ts:155-280 | an accepted fragment that keeps its tokens is accepted again as it is rendered, under any indentation: not blank, no placeholder made, and still a legal forest |
| CaddyOddSpace.HandlersUnbalanced | server/src/services/staticRouting.ts:152-153 | an accepted fragment whose rendered handlers are read as one closing brace more than they open |
| CaddyOddSpace.FileOpened | server/src/services/staticRouting.ts:152-153 | with that fragment the file tokenizes, but the panel's own handler stands at its top level |
| CaddyRender.ReadItems | server/src/services/caddy.ts:337-435 | generated text reads back as the tokens the generator means, wherever it stands |
| CaddySite.ForestBalanced | server/src/services/staticRouting.ts:182-264 | the tokens of a legal forest are balanced |
| CaddySite.RenderedFragment | server/src/services/staticRouting.ts:286-330 | the rendered lines of an accepted fragment that keeps its tokens are read, wherever they stand, as as many tokens as it has, with its quoting and its braces, and balanced; unpadded only CRLF differs |
| CaddySite.StaysExactly | server/src/services/staticRouting.ts:269-280 | for every fragment that tokenizes, every place it is spliced in, every indentation and prefix: its lines are read as balanced tokens if and only if its rendering without any of these tokenizes with balanced tokens |
| CaddySite.KeptStays | server/src/services/staticRouting.ts:155-280 | an accepted fragment that keeps its tokens stays in its block |
| CaddySite.TopLevelAsGenerated | server/src/services/caddy.ts:515-524 | whatever blocks contain, the tokens at the top level are exactly the generated headers |
| CaddyFile.RouteHandlersBalanced | server/src/services/caddy.ts:337-435 | for any routes, with stored fragments that are refused or stay in their block, the route handlers read as the tokens they mean, never close the block they stand in, and leave nothing open |
| CaddyFile.CustomPrefixTokens | server/src/services/caddy.ts:354-435 | for a fragment that keeps its tokens, the text of a path-prefix route is read as its redirect and one block with its tags, its root and its fragment's tokens, unchanged but for CRLF |
| CaddyFile.CustomRootTokens | server/src/services/caddy.ts:337-352 | for a fragment that keeps its tokens, the text of a root route is read as one block with its tags, its root and its fragment's tokens, with four spaces after each line feed inside quotes |
| CaddyFile.SiteBodyGood | server/src/services/caddy.ts:447-480 | the body of every site block is made of well-formed lines, with and without routes and catch-all |
| CaddyFile.FileTopLevel | server/src/services/caddy.ts:776-811 | the file tokenizes and its top-level blocks are exactly the generated ones, in order, whatever routes went in, with fragments that are refused or stay in their block and emails that stay in theirs |
| CaddyFile.EmailStaysExactly | server/src/services/caddy.ts:437-445 | for every email, wherever the site stands, its `tls` line is read as balanced tokens if and only if the line alone is |
| CaddyFile.EmailLeavesOpen | server/src/services/caddy.ts:515-524 | with an email whose line tokenizes, the block of any otherwise good site is read as what was generated and leaves as many braces open as that line |
| CaddyFile.OpenEmail | server/src/services/caddy.ts:437-445 | the email `a {` tokenizes and leaves one brace open |
| CaddyFile.WordEmailGood | server/src/services/caddy.ts:437-445 | every plain word is an email that stays in its block |
| CaddyFile.ValidationTokens | server/src/services/caddy.ts:964-1005 | in the validation file the fragment's tokens stand together, in order, each exactly five lines further down |
| CaddyRoute.HandlerTokens | server/src/services/caddy.ts:337-435 | the text of any good routes is read as, route by route: the redirect of its path, and a block with its tags and its content; the content is that of `CaddyRoute.Content`, from the fields of the service |
| CaddyRoute.ContentMeans | server/src/services/caddy.ts:354-379 | the content is the placeholder exactly for a static service that is not running and has no earlier success while queued or building, and for a server without a container name or whose container does not run; otherwise a server has one `reverse_proxy` to its container and port, and a static service starts with its own root |
| CaddyRoute.DecimalExactly | server/src/services/caddy.ts:421-432 | the digits written for an id or a port are the one numeral that reads back as it |
| CaddyRoute.BodyTokens | server/src/services/caddy.ts:447-480 | the body of a site is read as the log import and its routes in order, with the 404 fallback exactly if none of them is at the root; without routes it is the panel, its API under `/api/` |
| CaddyRoute.FileReads | server/src/services/caddy.ts:776-811 | all tokens of the file: the management site on port 80 and under its name, with the routes beside the panel, then every site with its labels, its email and its body |
| LogTail.Tailer.NextNewline | server/src/services/analytics/ingest.ts:279-280 | finds the first line feed of the bytes held back |
| LogTail.Tailer.ReadChunk | server/src/services/analytics/ingest.ts:263-277 | a read of any length, short ones included, keeps the held-back bytes the file's own and moves the position by what it returned |
| LogTail.Tailer.TakeLine | server/src/services/analytics/ingest.ts:280-292 | one complete line joins the batch, and a full batch is flushed and saved at a line start |
| LogTail.Tailer.TakeLines | server/src/services/analytics/ingest.ts:279-293 | the inner loop takes every complete line and holds back none |
| LogTail.Tailer.Drain | server/src/services/analytics/ingest.ts:249-299 | from a line start, for every pattern of reads: reading ends at the size, or where a read returns nothing or fails; the rows flushed are those of all lines read, what is held back is the unterminated tail, and the batches have at most 500 rows, each saved at a line start; a file that shrank is read again from its start |
| LogTail.CommittedRows | server/src/services/analytics/ingest.ts:285-291 | the flushed batches, one after another, are the rows of the lines up to the last saved position |
| LogTail.PartsOfLine | server/src/services/analytics/ingest.ts:279-281 | a text up to its first line feed is one line, and what follows is split on its own |
| LogTail.ReadsAll | server/src/services/analytics/ingest.ts:263-271 | reads that always return something end at the size of the file, however short each of them comes |
| LogTail.DrainIsSplitAndParse | server/src/services/analytics/ingest.ts:249-299 | a drain is: split at line feeds, parse each complete line, in order; what is held back is exactly the unterminated tail |
| LogTail.Tailer.Poll | server/src/services/analytics/ingest.ts:301-329 | a poll drains the open file, then, when the path's file is another, opens and drains that from its start, each as far as its reads go, and saves the position |
| LogTail.Tailer.Init | server/src/services/analytics/ingest.ts:337-359 | a restart resumes at the saved position exactly when the saved identity is the path's |
| LogTail.Tailer.PersistTailState | server/src/services/analytics/ingest.ts:193-207 | the saved position is the offset less the bytes held back |
| LogRuns.StepKeeps | server/src/services/analytics/ingest.ts:193-359 | every append, roll, batch, save, crash and restart keeps the invariant of the run |
| LogRuns.NoLineLost | server/src/services/analytics/ingest.ts:286-298 | over every run, each row before the saved position has been counted |
| LogRuns.AtMostOneReplay | server/src/services/analytics/ingest.ts:286-298 | a line is counted at most once more than the number of crashes that fell between a flush and its save and whose batch held it |
| LogRuns.ReplayableAreLastBatches | server/src/services/analytics/ingest.ts:286-290 | what such a crash can replay is the single batch committed last |
| LogRuns.OnceWithoutGapCrash | server/src/services/analytics/ingest.ts:286-298 | without such a crash no line is counted twice |
| LogRuns.CrashReplaysExactly | server/src/services/analytics/ingest.ts:286-359 | for every run stopped between a flush and its save: some way of going on counts a byte of that batch again if and only if its file is still at the path; then the next restart commits each of its bytes once more, and otherwise nothing ever reads that file again |
| LogRuns.CrashReplays | server/src/services/analytics/ingest.ts:197-202 | a run in which a committed batch is committed again: the comment's stronger wording fails |
| LogRuns.DrainRuns | server/src/services/analytics/ingest.ts:249-299 | every drain of the reader is a run of the machine, ending at the same position |
| LogRuns.PollRuns | server/src/services/analytics/ingest.ts:301-329 | every poll of the reader is a run of the machine: the steps of its drains, what others did to the files in between, a reopening exactly when the path has another file, and a save; reader and machine agree before and after |
| LogRuns.PollCounts | server/src/services/analytics/ingest.ts:301-329 | after any run, a poll in which no read fails leaves no row of the complete lines it saw uncounted: those of the file that was open, also when it has been rolled away, and those of the one it opens |
| LogRuns.CaughtUp | server/src/services/analytics/ingest.ts:286-298 | when nothing but an unterminated tail follows the worker's position, every row before it has been counted |
| LogRuns.InitRuns | server/src/services/analytics/ingest.ts:337-359 | a start of the reader is the machine's start: it resumes at the saved position exactly when that belongs to the path's file |
| LogRuns.ShrinkRuns | server/src/services/analytics/ingest.ts:257-261 | a drain that finds the open file shorter than what was read of it is the machine's run in which that file is rolled away and another one, with what is there now, is at the path |
| Calendar.YearOf | server/src/services/analytics/time.ts:13-16 | the calendar year is the one whose first day is on or before the day and whose successor's is after it |
| Calendar.DayParts | server/src/services/analytics/time.ts:13-16 | year, month and date put together again are the day |
| Calendar.DateReadsBack | server/src/services/analytics/time.ts:13-16 | every date of the calendar is read back from its day: 1 January 1970 is day 0, the date behind the last of a month is the first of the next, and months have their lengths |
| Calendar.DayNumberDigits | server/src/services/analytics/time.ts:12-17 | the decimal digits of a day number are its year, month and date, and the day is the one the time falls on |
| Calendar.WeekAnchored | server/src/services/analytics/time.ts:27-28 | 1 January 1970 was a Thursday, and weeks run from Monday to Sunday |
| Calendar.DayNumbersOrdered | server/src/services/analytics/time.ts:12-17 | day numbers compare as UTC days do, and are equal exactly on the same UTC day |
| Calendar.DaysMonotone | server/src/services/analytics/time.ts:12-17 | day numbers never go back as time goes on |
| Calendar.UtcDate.SetUTCDate | server/src/services/analytics/time.ts:28 | setting the date of the month moves by whole days, out of the month if need be |
| Calendar.IsoYearWeek | server/src/services/analytics/time.ts:20-40 | for every time the source's date arithmetic computes the weeks between two Thursdays, which are a whole number of weeks apart, so nothing is rounded |
| Calendar.ComputedWeekExact | server/src/services/analytics/time.ts:20-40 | that number is the ISO week if and only if neither the day's year nor its ISO year is one of 0 to 99; so for every day since 1970 |
| Calendar.WeeksByDivision | server/src/services/analytics/time.ts:30-38 | counting a year's Thursdays is dividing the days since its first one by seven |
| Calendar.SameWeek | server/src/services/analytics/time.ts:20-40 | all days from Monday to Sunday have one week number |
| Calendar.WeeksOrdered | server/src/services/analytics/time.ts:20-40 | the week number is strictly larger in every later week |
| Calendar.WeekNumbersExact | server/src/services/analytics/time.ts:20-40 | two days have one week number exactly when they are in one Monday-to-Sunday week |
| Calendar.WeekBound | server/src/services/analytics/time.ts:33-39 | the week is between 1 and the number of Thursdays of its year, which is at most 53 |
| Calendar.WeekFiftyThree | server/src/services/analytics/time.ts:33-39 | week 53 occurs only in a year with 53 Thursdays |
| Rollups.AnalyticsDb.Flush | server/src/services/analytics/ingest.ts:170-187 | the transaction records each row in turn in all four tables |
| Rollups.AnalyticsDb.RunPrune | server/src/services/analytics/prune.ts:22-34 | the two deletes with one clock reading, of which a crash may leave only the first done |
| Rollups.UpsertLookup | server/src/services/analytics/ingest.ts:145-160 | an upsert adds the row to its own service and period and changes no other |
| Rollups.TiersAgree | server/src/services/analytics/ingest.ts:138-187 | under any flushes and prunes a service's total is the number of its rows ever flushed, of those with a status from 500 on, and the sum of their bytes; it is the sum of its weeks, and the sum of its days plus what pruning deleted |
| Rollups.WeeksExact | server/src/services/analytics/ingest.ts:153-160 | each weekly row counts exactly the flushed rows of its service and week number, those of them with a status from 500 on, and their bytes |
| Rollups.DaysExact | server/src/services/analytics/ingest.ts:145-152 | so does each daily row for its UTC day, with what pruning deleted of that day |
| Rollups.SeenSince | server/src/services/analytics/ingest.ts:161-169 | a service has a total row exactly when it was ever seen, with its earliest and latest time |
| Rollups.DetailCovered | server/src/services/analytics/prune.ts:22-34 | detailed rows of a service and day never outnumber its daily count, even if a prune dies half way or the clock goes back |
| Rollups.RecentExact | server/src/services/analytics/prune.ts:26-27 | pruning keeps a detailed row exactly when it is of the last 7 days |
| Rollups.RecentDaysComplete | server/src/services/analytics/prune.ts:26-27 | every day after the cutoff's own keeps all its rows |
| Rollups.DetailExact | server/src/services/analytics/prune.ts:22-27 | over all operations a detailed row is there as often as it was flushed since the last prune that ran more than seven days after it |
| Rollups.NinetyDays | server/src/services/analytics/prune.ts:29-30 | a day's counts are deleted exactly when it lies more than 90 days back |
| Rollups.SplitLookup | server/src/services/analytics/prune.ts:29-30 | pruning keeps a daily count exactly when its day is not before the cutoff's |
| Rollups.KeysStayUnique | server/src/services/analytics/ingest.ts:145-160 | a service never has two rows for one day or one week |
| Queue.DeploymentQueue.Enqueue | server/src/lib/queue.ts:18-21 | enqueueing appends the job and starts at most one |
| Queue.DeploymentQueue.ProcessNext | server/src/lib/queue.ts:23-28 | the first job whose service is idle starts, or none |
| Queue.DeploymentQueue.Finish | server/src/lib/queue.ts:30-37 | a job that ends or throws frees its service and starts at most one other |
| Queue.AlwaysBusy | server/src/lib/queue.ts:14-39 | after every event each waiting job's service is running, and no service runs two jobs, although each event starts at most one |
| Queue.NoJobLost | server/src/lib/queue.ts:14-39 | over every run, the enqueued jobs are exactly those waiting, running and finished if and only if no event started a job whose id was waiting twice, and then every service's jobs start in enqueue order; a job that has started is always running or finished |
| Queue.QuietMeansDone | server/src/lib/queue.ts:14-39 | when nothing runs, nothing waits, and everything enqueued has finished if and only if no event started a job whose id was waiting twice |
| Queue.StartLosesNothing | server/src/lib/queue.ts:24-27 | a start never finds a lost job again, and loses none exactly when the id of the job it starts is waiting once |
| Queue.DistinctIdsSuffice | server/src/lib/queue.ts:18-27 | in a run whose jobs have distinct ids no event starts a job whose id is waiting twice |
| Queue.SameIdLosesAJob | server/src/lib/queue.ts:27 | a run in which two jobs under one id lose the second |
| Reloader.CaddyReloader.Reload | server/src/services/caddy.ts:1066-1086 | a call joins the flight under way and asks for another round, or starts a flight |
| Reloader.CaddyReloader.Start | server/src/services/caddy.ts:1071-1075 | a flight begins by taking the request and building |
| Reloader.CaddyReloader.BuildReturns | server/src/services/caddy.ts:1091-1095 | a build records its origin and is pushed, or its failure ends the flight |
| Reloader.CaddyReloader.PushReturns | server/src/services/caddy.ts:1076-1083 | an accepted push commits origin and file, then goes round again or lands; a failure lands without committing |
| Reloader.NeverOverlap | server/src/services/caddy.ts:1066-1086 | in every interleaving at most one flight builds or pushes, and it holds the lock |
| Reloader.ResolvedMeansFresh | server/src/services/caddy.ts:1066-1086 | a caller's promise resolves only if a build that started after its call was pushed and accepted |
| Reloader.NoCallLost | server/src/services/caddy.ts:1066-1086 | every call has settled, or its flight is under way and will build after it; a settled call saw no build of its flight start after it exactly if the flight was rejected with a last build older than the call |
| Reloader.FailureDropsRequest | server/src/services/caddy.ts:1066-1086 | a failing flight rejects a caller that saw no build start after its call if and only if another round had been asked for |
| Reloader.FlightsLand | server/src/services/caddy.ts:1071-1084 | unless somebody calls, every event brings the flight nearer its end, and one is always possible |
| Reloader.FailureFreesLock | server/src/services/caddy.ts:1081-1083 | a failure rejects its flight, frees the lock and leaves the record of the last push alone |
| Reloader.RecordIsNewest | server/src/services/caddy.ts:645-652 | the file and the management origin on record come from one build, the newest accepted |
| HostGroups.GroupHosts | server/src/services/caddy.ts:724-771 | the loop over rows leaves, for every host, the entry that adding row by row gives |
| HostGroups.AddWildcard | server/src/services/caddy.ts:760-770 | a wildcard row adds its routes, then its probe host and its panel host unless they are there |
| HostGroups.LoopComputesHosts | server/src/services/caddy.ts:724-771 | that entry is: all active routes served on the host, with the settings of its own row or else of the first wildcard row that covers it, probed only when nothing else is there |
| HostGroups.GroupingIsConfluent | server/src/services/caddy.ts:724-771 | for distinct hostnames and single-label subdomains, any order of the rows gives every host the same settings, flags and routes |
| HostGroups.OrderFreeExactly | server/src/services/caddy.ts:724-771 | for distinct hostnames, whatever their subdomains, every order of the rows gives a host the same entry if and only if the host has a row of its own or all wildcard rows covering it agree on email, activity and probing |
| HostGroups.FirstCoverDecides | server/src/services/caddy.ts:738-757 | a host without a row of its own gets the settings of the first wildcard row, in any list of rows, that covers it |
| Serving.ReachableIsPlain | server/src/services/routes.ts:107-173 | in every reachable state of the tables, whatever prefixes were given, the Domain rows have distinct, normalised hostnames and single-label subdomains, so no two wildcard rows cover one host |
| Serving.ReachableOrderFree | server/src/services/caddy.ts:661-771 | so in every reachable state, whatever prefixes were given, no order of the rows shows on any host |
| Serving.HostRoutesApart | server/src/services/caddy.ts:724-771 | in every state reached with tidy prefixes the routes of a generated host have different paths and one scheme, whatever domains they came from |
| Serving.StoredIsServed | server/src/services/caddy.ts:579-618 | in every reachable state, whatever prefixes were given, a stored route is in the entry of a host exactly when its service is active and that is its effective host |
| Serving.OwnSettings | server/src/services/caddy.ts:724-748 | in every reachable state a hostname with a row of its own gets that row's email, and its fallback exactly if that row is not active |
| HostGroups.RouteLandsOnItsHost | server/src/services/caddy.ts:579-618 | a route is served on a host exactly when it is active and that is its effective host, so on exactly one |
| HostGroups.ExactRowWins | server/src/services/caddy.ts:742-747 | a hostname with a row of its own gets that row's settings |
| HostGroups.WildcardHosts | server/src/services/caddy.ts:765-769 | every wildcard row has its probe host, and its panel host if enabled |
| BlockMerge.MergeRenderedSiteBlocks | server/src/services/caddy.ts:487-513 | the loop with its index map joins each block to the first with its signature |
| BlockMerge.MergeKeepsMeaning | server/src/services/caddy.ts:487-513 | labels are conserved as a multiset, each with its body and TLS email |
| BlockMerge.LookupPreserved | server/src/services/caddy.ts:487-513 | looking any label up gives the same before and after, and distinct labels stay distinct |
| BlockMerge.MergeIsComplete | server/src/services/caddy.ts:487-513 | no two blocks of the result have one signature |
| BlockMerge.MergeIsIdempotent | server/src/services/caddy.ts:487-513 | merging twice is merging once |
| BlockMerge.HostsServed | server/src/services/caddy.ts:535-577 | in the merged file every host is served with its own body and email, and its plain-HTTP label with its own body |
| Generated.FileServesHosts | server/src/services/caddy.ts:797-811 | from the entries of all hosts to the tokens of the file: the top level is the management sites and then exactly the merged blocks, each with its own lines, labels and email, and each host looks up to what it is served with |
| Generated.HostTokens | server/src/services/caddy.ts:535-577 | what the file has for each host: its name with its email and the tokens of its routes unless one is for plain HTTP, the plain-HTTP label with the same tokens exactly if one is or it has no certificate yet, and for a host that only answers probes a 204 |
| Configuration.ReachableFile | server/src/services/caddy.ts:724-811 | in every reachable state of the tables, whatever prefixes were given, with fragments that are refused or stay in their block and emails that stay in theirs: the file tokenizes, its top level is the management sites and then exactly the merged blocks, and every host but the panel's own looks up to its own body and email |
| Configuration.StoredIsWritten | server/src/services/caddy.ts:724-811 | in that file every stored route of an active service is among the routes of its own host |
| Configuration.HostWritten | server/src/services/caddy.ts:795-808 | the same in the file of every reachable state, for every host but the panel's own |
| Configuration.PlainRouteWritten | server/src/services/caddy.ts:795-804 | in that file the host of a stored plain-HTTP route has its tokens under its plain-HTTP label and no block under its name |
| Configuration.ManagementRoutes | server/src/services/caddy.ts:772-774 | the management sites have exactly the path-prefix routes of the panel's own host |
| RouteStrings.ParsedIsGood | server/src/lib/routeString.ts:28-83 | whatever parses has a valid hostname and a clean path |
| RouteSpelling.ParsesExactly | server/src/lib/routeString.ts:28-83 | a text is read as a route if and only if, white space around it aside, it spells it: no scheme or `http://` or `https://` in any letter case, the host in any letter case with or without a dot behind it, and the path's segments behind one or more slashes each, with or without slashes at the end |
| RouteSpelling.PlainHttpExactly | server/src/lib/routeString.ts:32-43 | for every text that parses, the route is for plain HTTP exactly if the text starts with `http://` in any letter case |
| Text.LowerAlphabet | server/src/lib/routeString.ts:38-58 | lower-casing maps the letters A to Z, one by one, to a to z |
| RouteSpelling.HttpsReadsBack | server/src/lib/routeString.ts:28-83 | every valid host and path behind `https://` or behind no scheme is read as itself over HTTPS |
| RouteSpelling.RouteUrlMeans | siteyctl/src/verify.ts:47-49 | the address probed for a written route is the same route, and asks for a certificate exactly if the route is not for plain HTTP |
| RouteStrings.WrittenReadsBack | server/src/lib/routeString.ts:28-120 | every valid host, path and scheme that is written is read back |
| RouteStrings.ResolvedHost | server/src/lib/routeString.ts:87-106 | the row and subdomain a host resolves to give back that host, and a row of its own always wins |
| RouteStrings.ResolvesIff | server/src/lib/routeString.ts:87-106 | a host resolves exactly when it has its own row or a wildcard row one label up |
| RouteStrings.RouteStringRoundTrip | server/src/lib/routeString.ts:28-120 | for every text that parses and resolves, the formatted route parses to the same host, path and scheme and resolves to the same row and subdomain |
| RouteStrings.TupleKeepsHost | server/src/routers/services.ts:907-923 | the tuple form parses back its own host exactly when the prefix, trimmed at its end, has nothing or a single dot before its first slash |
| RouteStrings.ServedWhereResolved | server/src/services/caddy.ts:288-297 | the generated configuration serves a resolved route on the host it was asked for |
| RouteStrings.CandidateIsLabel | server/src/routers/services.ts:126-144 | every generated subdomain is a DNS label of at most 63 characters that ends in its suffix |
| RouteStrings.SlugifyFixed | server/src/routers/services.ts:126-134 | a name that is already a slug is its own |
| Subdomains.SlugMeans | server/src/routers/services.ts:126-134 | a slug is the runs of letters and digits of the lower-cased name with single dashes between them, or `service` if there are none |
| Subdomains.CandidateMeans | server/src/routers/services.ts:136-144 | a candidate is the slug, a dash and the suffix; the slug is cut, by no more than is needed and a dash, only if they do not fit into 63 characters |
| Routes.OnIffHost | server/src/services/routes.ts:43-61 | the query by hostname, or by wildcard and label, finds exactly the routes served on the host |
| Routes.RouteStore.InsertResolvedRoute | server/src/services/routes.ts:144-173 | the check and the insert give the outcome and the rows of one transaction |
| Routes.RouteStore.InsertDomainlessRoute | server/src/services/routes.ts:176-201 | the same for a route without a domain |
| Routes.RouteStore.CreateService | server/src/routers/services.ts:498-558 | a service and its routes in one transaction, rolled back at the first refusal |
| Routes.RoutesStayApart | server/src/services/routes.ts:86-173 | in every state reached with tidy prefixes no two domain-backed routes share host and path, the routes of a host agree on plain HTTP, and no two domainless routes share a path |
| Routes.TablesStayGood | server/src/services/routes.ts:86-201 | in every reachable state, whatever prefixes were given: Domain rows have distinct and valid hostnames, every domain-backed route has a label below a wildcard and a clean path, ids are in order, and no two domainless routes share a path |
| Routes.TidyExactly | server/src/routers/services.ts:907-926 | for every domain, subdomain and prefix of the tuple form, inserting the route keeps routes apart in all good states with these domains if and only if the prefix is tidy |
| Routes.PanelRouteStays | server/src/services/bootstrap.ts:16-18 | whatever is created and removed, the panel keeps its root route, and no other service gets a root route without a domain |
| Routes.InsertMeans | server/src/services/routes.ts:107-173 | inserting is idempotent for the owner, refused to anyone else, creates what was asked for, and never runs into the unique index |
| Routes.InsertExactly | server/src/services/routes.ts:107-173 | which answer an insert gets: taken exactly if another service has a route of that host and path; else mixed exactly if the host has a route for the other scheme; else the one there is; else gone exactly if its domain or service is; and else it is created |
| Routes.DomainlessExactly | server/src/services/routes.ts:176-201 | the same for a route without a domain |
| Routes.StringMeans | server/src/services/routes.ts:24-41 | the string form hands on the host, path and scheme of the text, and a row and subdomain that serve that host, exactly if the text parses and resolves |
| Routes.TupleMeans | server/src/routers/services.ts:907-926 | the tuple form hands on its own domain, subdomain and scheme, and a clean prefix as it is |
| Routes.CreateMeans | server/src/routers/services.ts:498-558 | all routes of a new service are there and its own, or nothing has changed |
| Routes.RemoveMeans | server/src/routers/services.ts:941-981 | removing takes out the one route of that host and path, unless it is protected, and no other |
| Routes.DropMeans | server/src/routers/domains.ts:145-148 | a domain goes with its routes, a service with its, unless it is the protected one, and nothing else goes |
| Routes.AddDomainMeans | server/src/routers/domains.ts:96-111 | a valid hostname that is not there yet gets a row of its own, and nothing else changes |
| Routes.TupleChecksItsHost | server/src/routers/services.ts:907-926 | the tuple form checks the host it inserts under exactly for tidy prefixes |
| Routes.UntidyPrefixMixesSchemes | server/src/routers/services.ts:909-911 | a run in which an untidy prefix breaks the rule of one scheme per host |
| EnvFile.ParseEnvString | server/src/services/deployment.ts:164-173 | the reader's loop computes the map of a text |
| EnvReader.QuotedAssigns | server/src/lib/envFile.ts:41-49 | for every name, with or without `export`, with white space around any part, and either quote mark: a value between two of them is assigned without them, whatever it is |
| EnvReader.TightAssigns | server/src/lib/envFile.ts:41-49 | a value that no pair of quotes is around is assigned as it is |
| EnvReader.LoneQuoteAssigns | server/src/lib/envFile.ts:41-49 | a value that is one quote mark assigns the empty text |
| EnvReader.NothingAssigned | server/src/lib/envFile.ts:15-25 | a blank line, a comment, a line with no equals sign and one with no name in front of it assign nothing |
| EnvReader.NamelessExport | server/src/lib/envFile.ts:20-24 | nor does `export` with no name behind it |
| EnvReader.EveryLine | server/src/lib/envFile.ts:15-25 | every line that assigns anything has one of these forms |
| EnvReader.LinesCombine | server/src/services/deployment.ts:164-173 | a text is read line by line, and a later line of the same name wins |
| EnvFile.SetEnvVar | server/src/lib/envFile.ts:75-94 | the loop replaces the first assignment, drops repeats and appends behind trailing blank lines |
| EnvFile.AssignmentReadsBack | server/src/lib/envFile.ts:58-68 | a written line is read as its variable with exactly its value, padding, quotes, `=` and `#` included |
| EnvReader.PlainIfRead | server/src/lib/envFile.ts:58-69 | a value is written as it is exactly when it is read as it is, and otherwise between single quotes |
| EnvFile.SetIsUpdate | server/src/lib/envFile.ts:75-94 | for every text, name and line-break-free value, setting is a map update seen through the reader if and only if the name is not `__proto__` |
| EnvFile.UnsetIsRemoval | server/src/lib/envFile.ts:96-104 | unsetting removes exactly the name, and reports whether a line assigned it |
| EnvFile.SetKeepsOrder | server/src/lib/envFile.ts:31-37 | names keep their order, a new one last |
| EnvFile.UnsetKeepsOrder | server/src/lib/envFile.ts:96-104 | a name is taken out and the others keep their order |
| EnvFile.NamesAreKeys | server/src/lib/envFile.ts:31-37 | the listed names are, but for `__proto__`, those the reader has a value for |
| EnvFile.NamesOnce | server/src/lib/envFile.ts:31-37 | no name is listed twice |
| EnvFile.OtherLinesStay | server/src/lib/envFile.ts:75-94 | every other line stays as it is, but for blank lines at the end |
| EditEnv.ServiceTable.EditEnv | server/src/routers/services.ts:65-91 | one call, with any writes by others between its steps: a success edits the text there is at that moment, a failure writes nothing, a conflict saw a write in each of 20 attempts |
| EditEnv.ServiceTable.UpdateMany | server/src/routers/services.ts:81-85 | the row is written exactly if its text is still the one that was read |
| EditEnv.RunKeeps | server/src/routers/services.ts:65-91 | every interleaving of reads, writes and other writes keeps the invariant |
| EditEnv.EditsAreLinearizable | server/src/routers/services.ts:65-91 | the stored texts are those of one sequence of atomic writes, in which each success is one edit within its call and each edit is one success |
| EditEnv.FailedAttempt | server/src/routers/services.ts:81-85 | an attempt that does not find the row writes nothing, and another write came since it read |
| EditEnv.ConflictMeansWrites | server/src/routers/services.ts:71-90 | a conflict means 20 writes to the service during the call |
| EditEnv.EditedMeans | server/src/routers/services.ts:671-698 | an edit of the text is the change of the variables |
| EditEnv.EditsCommute | server/src/routers/services.ts:65-91 | edits of different names commute on the variables |
| EditEnv.EditStands | server/src/routers/services.ts:65-91 | a variable keeps what an edit gave it as long as later writes to its service are edits of other names |
| Verify.LiveMeans | siteyctl/src/verify.ts:221-272 | live exactly when the service is active, its deployment succeeded, it has routes, and each has its page and, unless plain HTTP, its certificate |
| Verify.StateMeans | siteyctl/src/verify.ts:191-272 | a report fails if the service is off, its deployment failed or is missing, it is deployed without a route, or a check of a route failed; else it is pending if the deployment has not ended or a check of a route is pending |
| Verify.HardFailureMeans | siteyctl/src/verify.ts:191-245 | a failure is hard exactly when the service is off, its deployment failed or is missing, or it has no route |
| Verify.ProbeHttp | siteyctl/src/verify.ts:100-183 | the loop over redirects asks exactly the addresses of the walk, in order, and finds what following them one by one finds, failing at the sixth |
| Verify.Walk | siteyctl/src/verify.ts:116-150 | a probe makes at least one and at most 6 requests, the first to the route's own address |
| Verify.LastDecides | siteyctl/src/verify.ts:147-183 | what a probe finds is what its last response says |
| Verify.WalkFollows | siteyctl/src/verify.ts:132-150 | each request but the last was redirected to the next, and the last was not, or was one too many |
| Verify.WalkStaysHome | siteyctl/src/verify.ts:129-145 | the walk never leaves its host, and never goes from HTTPS to HTTP |
| Verify.PassIsServed | siteyctl/src/verify.ts:116-165 | a probe passes if and only if the last response of its walk is a 2xx answer that is not the placeholder and is the service's own; that response came from the route's own host, over HTTPS if the route is |
| Verify.AnswerMeans | siteyctl/src/verify.ts:112-183 | a probe is pending exactly when the last request got no answer, the placeholder, or a 502, 503 or 504; it throws exactly at a redirect to no URL; and it fails in all other cases but a pass |
| Verify.RedirectMeans | siteyctl/src/verify.ts:128-145 | a redirect is followed exactly if it stays on the host and keeps the protocol or goes from HTTP to HTTPS |
| Verify.WaitForLive | siteyctl/src/verify.ts:284-319 | ends with the first decisive poll or when the time is up, within ceil(timeout / interval) + 1 polls, never asking to sleep longer than the timeout in all |
| Verify.SoftFailureRepeats | siteyctl/src/verify.ts:304-312 | a failure of routes alone is reported only as the last of failAfterPolls failing polls in a row |

## Left out

- Caddy itself (directive order, matching, certificates), its admin requests, TLS probes, Docker, git and GitHub: builds, pushes and fetches are steps that may fail, and what they answer is a parameter.
- SQLite and Prisma: tables are sequences and maps, transactions are atomic, and ids and file identities are never given twice.
- `parseLine` is any function from a line to an optional row; which fields it fills is not modelled. `Rollups` takes its rows as given and leaves out method and content type, which no counter uses.
- Losses that the design accepts: lines written to a rolled file after its last drain, and a batch whose flush the database refuses. An error thrown out of `flush` or `persistTailState` is not modelled.
- LogRuns.StepKeeps: a file that shrinks in place is no step of the runs (so `LogRuns.PollRuns` asks that none has); found shorter, it counts as a new file (`LogRuns.ShrinkRuns`), and one that has grown past the old position again before it is looked at is left out. Also `stat` fails only when no file is at the path.
- Calendar.IsoYearWeek: times are unbounded; those that are no JavaScript date are not set apart.
- CaddyFile.FileTopLevel: the global options and the log snippet at the head of the file are not part of it; labels, container names and the panel's upstreams are taken to be plain words, and accepted fragments and emails to stay in their block.
- Configuration.ReachableFile: the columns of services and the emails are any that the results above ask for; which services are active and which containers run is given from outside.
- CaddyChecker.CheckCaddyFragment: the wording of messages is not modelled, only the line and the kind of problem; a directive that is not allowed has one kind for the source's several hints.
- HostGroups.GroupHosts: hosts are a map, so the order in which their blocks are written is not modelled; `toLowerCase` is that of the ASCII letters and the Kelvin sign, in `RouteStrings` as well.
- RouteStrings.CandidateIsLabel: the random suffix is any of its alphabet; the retry loop that looks for an unused subdomain is left out, and so is a capital I with a dot above, whose lower case is two characters.
- Routes.RoutesStayApart: asks for tidy prefixes in the tuple form, exactly those for which the code checks the host it inserts under (`Routes.TupleChecksItsHost`, `Routes.TidyExactly`), and so does `Serving.HostRoutesApart`; what holds without is `Routes.TablesStayGood` and the other results of `Serving`. Runs begin with the panel's service and route, as the first start leaves them. Domain rows are those with at least two labels, or `localhost`; bracketed and IPv6 spellings of the loopback host are left out, as no route string can name them. The checks of `assertRouteAllowed`, against the management host and HTTPS on a loopback host, only refuse more and are left out.
- Queue.DeploymentQueue.ProcessNext: the two queries `isRunning` and `queuedFor` beside it are left out.
- EnvFile.SetIsUpdate: the reader's object is a map without its prototype's keys; the order of its keys is not modelled.
- EditEnv.ServiceTable.EditEnv: what others write is given from outside, in front of each read and of each write of the call.
- Verify.WaitForLive: times are whole milliseconds, the interval is positive, and the clock moves on by at least each sleep. A `Location` that is no URL makes `Verify.ProbeHttp` throw; in the waiting loop probes always answer.
- Verify.LiveMeans: the detail texts of checks, and the TLS connection itself.
- Authentication, webhooks, the web UI, argument parsing, exports, installers and the order of deployment steps: not part of this model.
