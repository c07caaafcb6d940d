# openclaw-autobackup, modelled in Dafny

openclaw-autobackup copies the core files of a set of named agent workspaces into one
git repository, commits the changes and pushes them. Every run is recorded in a history
table, and the outcome is sent to a Telegram chat. This project models the run logic as
pure functions over immutable data:

- **Config**: the environment-variable configuration and its defaults.
- **Workspaces**: the parser for the `WORKSPACES` setting (`name1:/path1,name2:/path2`).
- **Versioner**: `commitAndPush`. This is the git pipeline: status, add, commit, rev-parse, SSH-key check, push. Each external command's result is a supplied outcome.
- **Orchestrator**: `ExecuteBackup` and `runBackup`.
  - A single-flight flag that is tested and set.
  - The run record's lifecycle in an abstract id-to-record store.
  - Parsing, then mirroring each workspace in map order, then commit and push.
- **Notify**: `SendBackupNotification`. It builds the chat message from a finished record, up to the hand-off to the transport.
- **Handlers**: the paging rules of `GetBackups` and the conflict check of `TriggerBackup`.

Supporting modules:

- `Strings` models Go's `strings.TrimSpace`, `strings.Split` and `strings.SplitN(s, sep, 2)` on character sequences.
- `Decimal` models `strconv.Atoi` (with its 64-bit saturation), the `%d` verb and 64-bit wrap-around.
- `Errors` holds every error a run can end with, together with the exact text the record stores.
- `Models` holds the run record and the store.
- `Wrappers` holds `Option` and `Result`.

External effects are parameters of the model. A `World` value supplies them:

- which workspaces' `rsync` fails, and with what output;
- the result of each git command;
- the clock readings;
- the formatted seconds and timestamp;
- the order in which Go happens to range over the parsed map. `OrderFits` requires this order to list every parsed name exactly once.

Three behaviours of the code that the model keeps as they are:

- **The SSH key is checked late.** The key path is checked only after `git add`, `git commit` and `git rev-parse` have succeeded (services/backup.go:187-190). A missing key therefore fails the run after the local commit has been made (`Versioner.MissingKeyLeavesLocalCommit`).
- **Oversized page sizes reset to the default.** A page size outside 1..100 becomes 20 (handlers/backup.go:60-62), so 200 gives 20.
- **A negative duration is shown as unknown.** The notification shows the "unknown" duration whenever `DurationMs <= 0` (services/notify.go:30).

## Model

| member | source | states |
|---|---|---|
| Strings.TrimSpace | services/backup.go:117-122 | The trimmed text neither starts nor ends with Unicode white space, and is never longer than the input. |
| Strings.TrimSpaceEmpty | services/backup.go:121-123 | The trimmed text is empty exactly when the input is all white space. |
| Strings.TrimSpaceMiddle | services/backup.go:117-122 | The trimmed text is a contiguous middle of the input, and everything cut from either end is white space. |
| Strings.TrimSpaceUnique | services/backup.go:117-122 | Any cut of the input whose surroundings are white space and whose ends are not is the trimmed text, so trimming has exactly one outcome. |
| Strings.TrimLeadingSpace | services/backup.go:117-122 | White space put in front of a text does not change its trimmed form. |
| Strings.TrimTrailingSpace | services/backup.go:117-122 | White space put after a text does not change its trimmed form. |
| Strings.TrimSpaceKeeps | services/backup.go:117-122 | Trimming keeps every non-space character: such a character occurs in the trimmed text iff it occurs in the input. |
| Strings.TrimSpaceIdempotent | services/backup.go:121-122 | Trimming an already trimmed text changes nothing. |
| Strings.Split | services/backup.go:115 | There is always at least one part, and no part contains the separator. |
| Strings.JoinSplit | services/backup.go:115 | Joining the parts with the separator gives back the original text. |
| Strings.SplitJoin | services/backup.go:115 | Splitting the join of separator-free parts gives back exactly those parts. |
| Strings.SplitCount | services/backup.go:167 | The number of parts is one more than the number of separators, so a non-empty trimmed status output with k newlines counts k+1 files. |
| Strings.SplitTrailing | services/backup.go:115 | A text ending in the separator has an empty last part. |
| Strings.SplitFirst | services/backup.go:117 | Splitting at the first separator only: one part (the whole text) exactly when there is no separator. Otherwise the parts rejoin to the text and the first part is separator-free. |
| Strings.TrimThenCut | services/backup.go:117-122 | For a separator that is not white space, trimming the text before cutting it at its first separator gives the same trimmed halves as cutting the untrimmed text there. |
| Decimal.Wrap64 | handlers/backup.go:68 | The result is a 64-bit integer congruent to the input modulo 2^64, and equal to it when the input already fits. |
| Decimal.Itoa | services/notify.go:39 | The decimal text starts with a minus sign exactly when the number is negative, and the digits after it are those of the number's magnitude. |
| Decimal.Atoi | handlers/backup.go:54-55 | The parsed value always fits in 64 bits, and the empty text reads as 0. The full reading is given by `Decimal.AtoiReadsNumber`, `Decimal.AtoiRejectsText` and `Decimal.AtoiOverflowStops`. |
| Decimal.ItoaAtoi | handlers/backup.go:54-55 | Every 64-bit integer's decimal text reads back as that integer. |
| Decimal.AtoiRejectsNonDigits | handlers/backup.go:54-55 | A text that starts with neither a digit nor a sign reads as 0, the value Go keeps when it ignores the parse error. |
| Decimal.AtoiRejectsBareSign | handlers/backup.go:54-55 | A sign that is not followed by a digit reads as 0. |
| Decimal.DigitRunStops | handlers/backup.go:54-55 | The digits `Atoi` reads are exactly those before the first character that is not a digit. |
| Decimal.AtoiRejectsText | handlers/backup.go:54-55 | Every text `strconv.Atoi` refuses with a syntax error reads as 0. That is nothing after the optional sign, or a non-digit reached before the digits leave the unsigned 64-bit range, as in `5x` and `1.5`. |
| Decimal.AtoiReadsNumber | handlers/backup.go:54-55 | An optional sign followed only by digits reads as their signed value, saturated to the 64-bit range. |
| Decimal.AtoiOverflowStops | handlers/backup.go:54-55 | Once the digits read leave the unsigned 64-bit range, the result is their saturated signed value, whatever follows. |
| Decimal.AtoiSaturates | handlers/backup.go:54-55 | A digit run above the largest 64-bit integer, such as `99999999999999999999`, reads as that largest integer. |
| Config.GetEnv | config/config.go:31-36 | A variable set to a non-empty value gives that value; an unset or empty variable gives the default. |
| Config.EmptyMeansUnset | config/config.go:31-36 | A variable set to the empty string reads exactly like an unset one. |
| Config.Load | config/config.go:18-29 | Each of the eight settings is its own variable's value when that is set and non-empty, and otherwise its default: `3458` for the port, `./data/backup.db` for the database path, empty for the rest. So port and database path are never empty. |
| Config.LoadEnviron | config/config.go:18-29 | Every setting reads from its own variable. For any configuration whose port and database path are non-empty, the environment that sets the eight variables to its fields loads as exactly that configuration. An empty port or database path would read as its default instead. |
| Config.LoadIgnoresOthers | config/config.go:18-29 | Variables other than the eight settings do not affect the configuration. |
| Config.LoadEmptyEnvironment | config/config.go:20-27 | With nothing set, the configuration is port `3458`, database `./data/backup.db`, and every other setting empty. |
| Workspaces.ParsePair | services/backup.go:116-125 | A pair fails with the missing-colon error exactly when it has no colon. Every error quotes the original pair. A success is a trimmed, non-empty, colon-free name with a trimmed, non-empty path. |
| Workspaces.ParsePairHalves | services/backup.go:117-125 | A pair with a colon is read at its first colon. It parses exactly when neither side is all white space, and then gives the two sides trimmed. Otherwise it fails with the empty-part error. |
| Workspaces.Collect | services/backup.go:116-120 | The pairs are accepted exactly when every pair parses, giving their entries in order. Otherwise the error is that of the first failing pair. |
| Workspaces.ToMap | services/backup.go:126 | The map's names are exactly the entries' names, and each name maps to the path of its last entry, so a later duplicate wins. |
| Workspaces.ParseWorkspaces | services/backup.go:109-129 | The empty setting gives the empty map. Every parsed entry is well formed. A failure happens only for a non-empty setting, and it is the failure of collecting its comma-separated pairs. |
| Workspaces.ParsePairFormat | services/backup.go:117-122 | A well-formed name and path written as `name:path` parse back to themselves, even when the path contains colons. |
| Workspaces.ParseFormat | services/backup.go:109-129 | Writing well-formed, comma-free entries as a setting and parsing it gives back their map, with the last duplicate winning. |
| Workspaces.TrailingCommaRejected | services/backup.go:115-125 | A setting that ends in a comma is refused, because its empty last pair has no colon. |
| Workspaces.ParseSucceedsIff | services/backup.go:111-128 | The setting parses exactly when it is empty or every one of its comma-separated pairs parses on its own. |
| Workspaces.ParseReportsFirstBadPair | services/backup.go:116-125 | A refused setting reports the error of its first bad pair, and nothing after that pair matters. |
| Workspaces.ExampleNoColon | services/backup.go:118-120 | `bad` is refused with the missing-colon error quoting `bad`. |
| Errors.CommandText | services/backup.go:148 | The wrapped error text starts with the command name, holds the process error after " failed: ", and ends with the command's output. |
| Errors.ErrorText | services/backup.go:79-196 | Every error's text is non-empty, so a failed record always carries an error message. |
| Models.Create | services/backup.go:42-46 | The new record gets a fresh identity not used before. It is stored under that identity, and the store stays well-formed. |
| Models.Save | services/backup.go:65 | The record replaces the one stored under its identity. No other record and no identity changes. |
| Versioner.CommitAndPush | services/backup.go:153-200 | The stages attempted are a prefix of status, add, commit, rev-parse, key check, push, and all but the last passed. The step fails exactly when the last attempted stage failed, with that stage's error. An empty trimmed status gives `(0, "", "No changes")` after the status stage alone. A full success reports the newline count of the trimmed status plus one, the trimmed rev-parse output and `Auto backup at <timestamp>`. |
| Versioner.SucceedsIff | services/backup.go:153-200 | The step succeeds exactly when there is nothing to commit or every stage passes. |
| Versioner.ChangedFilesPositive | services/backup.go:162-167 | A successful commit reports at least one changed file. |
| Versioner.MissingKeyLeavesLocalCommit | services/backup.go:174-190 | With an empty key path and working git commands, the step fails with the missing-key error after the commit stage ran and before any push. |
| Versioner.NoChangesIgnoresKey | services/backup.go:162-165 | When nothing changed, the outcome is the same for every key path and the key is never checked. |
| Notify.ShortHash | services/notify.go:42-45 | The abbreviated hash is the hash's prefix of length seven, or the whole hash when shorter. |
| Notify.SendBackupNotification | services/notify.go:14-56 | No message exactly when either credential is empty. The header starts with the success glyph exactly when the status is success; every other status, running included, gets the failure header. The duration is the unknown text exactly when the duration is not positive. The file-count line is always present. The commit line appears exactly when the hash is non-empty. The error line appears exactly when the run failed with a non-empty message. The timestamp line is last. |
| Notify.Text | services/notify.go:36-55 | The message opens with its header and closes with its timestamp line. Without commit and error lines it is exactly header, duration, file count and timestamp. |
| Notify.Header | services/notify.go:37 | The header starts with the glyph, and the outcome reads back from between the fixed title and the closing tag. |
| Notify.DurationLine | services/notify.go:38 | The duration text reads back from between its label and the closing newline. |
| Notify.FilesLine | services/notify.go:39 | The count's decimal text reads back from between its label and the closing newline. |
| Notify.CommitLine | services/notify.go:46 | The abbreviated hash reads back from inside the code tag. |
| Notify.ErrorLine | services/notify.go:50 | The error line starts a new line, and the message reads back from after its label. |
| Notify.StampLine | services/notify.go:53 | The timestamp line starts a new line, and the time reads back from after its glyph. |
| Notify.StampIsLast | services/notify.go:36-55 | Every message sent opens with the header for the record's status and ends with the timestamp line, the current time last. |
| Notify.FilesLineReadsBack | services/notify.go:39 | The changed-file count can be read back from its line as the number it was written from. |
| Orchestrator.SyncAll | services/backup.go:86-93 | The workspaces tried are a prefix of the visiting order, and all but the last mirrored. There is a failure exactly when some workspace in the order fails. That failure names the last one tried, with its command output. With no failure, every workspace was tried. |
| Orchestrator.MirrorAndCommit | services/backup.go:86-104 | The git stages run exactly when every configured workspace mirrored; the run's result is then the commit-and-push result. Otherwise no git stage runs and the result is the first failing mirror in visiting order. |
| Orchestrator.RunBackup | services/backup.go:73-105 | A setting that does not parse fails with the wrapped parse error, and an empty workspace map fails with "no workspaces configured". Either way nothing is mirrored and no git stage runs. Otherwise the run mirrors and commits. |
| Orchestrator.Finalize | services/backup.go:52-63 | The finished record keeps its identity and start, gets its finish time and duration, and is finished exactly when it is no longer running. It is failed, with the error's text and its original zero fields, exactly when the run failed. Otherwise it is successful with the commit's fields. |
| Orchestrator.RecordedDetermines | services/backup.go:52-63 | The lifecycle rules leave nothing open: any record that obeys them is exactly the finalized one. |
| Orchestrator.Start | services/backup.go:27-46 | Accepting a run raises the flag and stores a new running record with no finish time under a fresh identity. |
| Orchestrator.Finish | services/backup.go:48-70 | Completing a run lowers the flag and stores the finalized record under the same identity. It passes on what the run returned, and hands the saved record to the notifier. |
| Orchestrator.ExecuteBackup | services/backup.go:26-71 | While the flag is set, the call is refused and nothing changes. Otherwise exactly one new record is created under a fresh identity, as running with zero fields, and it ends finalized from what the run returned. The flag is lowered on every outcome, and the notifier sees the saved record. |
| Orchestrator.RunningFlag | services/backup.go:20-39 | Starting a run raises the flag. A call is refused exactly when the flag is up. After a call the flag is up exactly when it was up before, so an accepted run always lowers it. |
| Orchestrator.OverlapRejected | services/backup.go:27-31 | A trigger that arrives while a run is in progress is refused with "backup is already running" and changes no state. |
| Orchestrator.FlagReleased | services/backup.go:32-39 | After any completed run the flag is down and the store well-formed, so the next trigger is accepted. |
| Orchestrator.AtMostOneRunning | services/backup.go:26-65 | During a run, the only running record is the one it created. After the run, no record is running. |
| Orchestrator.ConsistentPreserved | services/backup.go:42-65 | Each stored record has a finish time exactly when it has left the running state, both during a run and after it. |
| Orchestrator.ReturnedMatchesRecord | services/backup.go:56-70 | The caller gets an error exactly when the stored record is failed, and that error's text is the record's error message. A successful record has an empty error message. |
| Orchestrator.UnsetWorkspacesFails | services/backup.go:82-84 | With `WORKSPACES` unset or empty, the run is recorded as failed with "no workspaces configured", and nothing is mirrored or committed. |
| Orchestrator.SuccessSyncedEverything | services/backup.go:86-104 | A successful run had workspaces and mirrored every one of them. Git then ran only the status stage when nothing changed, and every stage otherwise. |
| Orchestrator.NoticeMatchesOutcome | services/backup.go:65-68 | With credentials set, the message has the success header exactly when the run succeeded and an error line exactly when it failed. A commit line appears only after success. |
| Handlers.DefaultQuery | handlers/backup.go:54-55 | A present parameter is used as given, even when empty. Only a missing one takes the default. |
| Handlers.DefaultQuerySetRemove | handlers/backup.go:54-55 | Setting a parameter makes it the value read, and removing it brings back the default. |
| Handlers.NormalizePage | handlers/backup.go:57-59 | The page is at least 1. A page of at least 1 is kept unchanged, and any lower page becomes 1. |
| Handlers.NormalizePageSize | handlers/backup.go:60-62 | The page size is within 1..100. A size in that range is kept; any other size becomes 20. |
| Handlers.NormalizeIdempotent | handlers/backup.go:57-62 | Normalizing a normalized page or page size changes nothing. |
| Handlers.OversizedPageSizeResets | handlers/backup.go:60-62 | A page size above 100 becomes 20, not 100. |
| Handlers.Offset | handlers/backup.go:68 | The offset is a non-negative multiple of the page size and skips exactly the earlier pages. |
| Handlers.OffsetAsWritten | handlers/backup.go:68 | The 64-bit offset always fits in 64 bits and is congruent to the true product modulo 2^64, so it equals the product when that fits. |
| Handlers.OffsetAgrees | handlers/backup.go:68 | Where the product fits in 64 bits, the handler's offset is the intended one. |
| Handlers.OffsetAsWrittenGoesNegative | handlers/backup.go:68 | Page 9223372036854775807 with page size 100 wraps the offset to -200. |
| Handlers.GetBackups | handlers/backup.go:53-76 | The echoed page is at least 1, and the echoed page size is within 1..100. Both are the normalized values of the query's parameters, which default to 1 and 20. The offset skips exactly the earlier pages. |
| Handlers.GetBackupsAsWritten | handlers/backup.go:53-69 | The same page and page size as the corrected handler. The offset fits in 64 bits and is congruent modulo 2^64 to the true product, so it is the corrected offset whenever the product fits. |
| Handlers.NegativeOffsetAsWritten | handlers/backup.go:54-68 | `?page=9223372036854775807&page_size=100` gives the handler as written a negative offset, where the corrected one gives a positive one. |
| Handlers.GetBackupsEchoes | handlers/backup.go:54-76 | A request for any valid page and page size gets exactly those back, with the offset of that page. |
| Handlers.GetBackupsRejectsText | handlers/backup.go:54-62 | A page and page size that `strconv.Atoi` refuses with a syntax error give the first page, 20 rows, offset 0. Examples are `5x`, `1.5`, empty text and a bare sign. |
| Handlers.ExampleTrailingText | handlers/backup.go:54-62 | `?page=5x&page_size=1.5` gives the first page, 20 rows, offset 0. |
| Handlers.TriggerBackup | handlers/backup.go:79-89 | While a run is in progress the answer is 409 "Backup is already running" and nothing starts. Otherwise a run is launched and the answer is 200 "Backup started", at once. |
| Handlers.TriggerAgreesWithExecute | handlers/backup.go:80-86 | The trigger launches a run exactly when the orchestrator would accept it, and a refused trigger matches a refused run. |

## Left out

- The `rsync` command and its include/exclude patterns (services/backup.go:132-141). Only its success or failure, with its output, is modelled per workspace.
- The destination path `filepath.Join(repoPath, name+"-backup")` (services/backup.go:88). It only feeds the external command.
- `runCmd` and every `exec.Command` call. Their results are supplied outcomes, and the model keeps the error text they are wrapped in.
- `GetWorkspaceModTime`, `GetWorkspaces` and the `GetStatus` handler (services/backup.go:202-227, handlers/backup.go:19-51). They shell out to `find`/`stat` or only read state.
- The Telegram HTTP request and its response handling (services/notify.go:58-77). A send failure is only logged.
- The `%.1f` formatting of the seconds and the timestamp formatting. Both arrive as opaque strings.
- Wall-clock readings and duration measurement. They are parameters.
- Go's map iteration order. It is the supplied `order`, constrained only to list every parsed name once.
- The mutex and the race between `IsBackupRunning` and `go ExecuteBackup` in `TriggerBackup`. The flag is a sequential test-and-set, and the background run is the separate `ExecuteBackup` step.
- Logging, the cron scheduler, gin routing, `IndexPage` and the HTML page.
- The gorm/SQLite database:
  - the store is an abstract id-to-record map with create and save;
  - the listing query itself (count, order by start time, limit and offset) is not modelled;
  - errors from `Create` and `Save` are ignored by the code and not modelled.
- `GitRemote` is loaded and never used; `git push` pushes to the repository's own configured remote (services/backup.go:192-193). `BackupRepo` only names the directory the external commands run in (services/backup.go:74).
- Byte-level string semantics. Texts are sequences of code points, so taking the first seven characters of a hash equals Go's byte slice only for ASCII hashes, as git's hex hashes are. Invalid UTF-8 is not modelled.
- Decimal.Atoi: its own contract states bounds and the empty case only. Its reading is stated case by case in lemmas. `Decimal.AtoiReadsNumber` covers a sign and digits, with saturation. `Decimal.AtoiRejectsText` covers syntax errors. `Decimal.AtoiOverflowStops` covers digits past the unsigned 64-bit range followed by other text.

## Findings

| source | as written | input that shows it | evidently intended | confidence | as-written member | corrected member |
|---|---|---|---|---|---|---|
| handlers/backup.go:68 | `offset := (page - 1) * pageSize` is computed in 64-bit `int` after only a lower bound is put on `page`, so the product wraps around. | `?page=9223372036854775807&page_size=100`: `Atoi` keeps the page, and the offset becomes -200. | The offset skips exactly `page - 1` pages of rows and is never negative; a page past the end is empty. | not executed; high for the wrap-around, the effect of a negative offset on the query builder not examined | Handlers.GetBackupsAsWritten | Handlers.GetBackups |
