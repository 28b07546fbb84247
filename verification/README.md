# AIProxy: verified model of the storage, control-channel and redaction cores

AIProxy captures HTTP sessions into SQLite and lets an agent sidecar search them and
control the desktop application. This project models the parts of it that keep an
invariant over unbounded state, and proves that they do.

| file | what it models |
|---|---|
| `Forest.dfy`, `Collections.dfy` | folders and items: parent pointers without a foreign key, the cycle check, the subtree delete, sibling renumbering |
| `LikePattern.dfy`, `Sql.dfy`, `SessionFilter.dfy` | SQLite LIKE, three-valued conditions with positional parameters, the search-filter compiler |
| `Keyset.dfy`, `TokenWalk.dfy` | keyset pages, and what a client gets that follows the tokens while the table changes |
| `SessionSearch.dfy`, `SessionWalk.dfy`, `FilterMeaning.dfy`, `WsMessages.dfy` | the session search and the message search: cursors, filters, pages, walks |
| `InsightsFilter.dfy`, `Sorting.dfy`, `Insights.dfy` | the insights filter compiler, percentiles, one-pass grouping, grouped totals |
| `BodyNames.dfy`, `BodyStore.dfy` | the body file protocol: writers, readers, directory removal, crashes and restarts as interleaved steps |
| `BodyRange.dfy`, `BodyClear.dfy` | the truncated flag of range reads, and what a directory clear can do to a write, as runs of that protocol |
| `Framing.dfy` | newline-delimited control frames over a buffered reader, and the token comparison |
| `Redaction.dfy`, `RedactionRecords.dfy` | the structured redaction walk, the key classification, and what the records give away |
| `ControlClient.dfy` | one control call: grants, exchange, at most one retry, audit marking |
| `KeyedTable.dfy`, `Schema.dfy`, `Environments.dfy` | collapsing duplicates before a unique index is built, and upserts by natural key |
| `Throttle.dfy` | throttle profiles, rules and runs, statement by statement |
| `Audit.dfy` | audit-log rotation |
| `Batching.dfy` | batched deletes and batched loads |
| `Common.dfy`, `Text.dfy` | result types, integer casts, text order, trimming |

How things are modelled:

- A table is a map or sequence of rows, a statement is one update, and a transaction
  either takes effect as a whole or changes nothing. Objects and loops of the source are
  classes and loops here. Each method is proved against a specification function, and the
  theorems are about that function.
- Integers are unbounded. Rust's `as i32` and `as i64` are written out (`AsI32`, `AsI64`).
- JSON text, base64url, HMAC, Unicode case mapping, UUIDs, clocks and the string-level
  redaction pass are parameters. Only the inverse property of a cursor codec is required.
- Sockets, the desktop, its configuration file and the launcher are an environment that
  answers each question of the control client in order.

What turned out not to hold, and when it does:

- A cursor carries the clamped values that a row is decoded to, but SQL compares the stored
  columns. A cursor resumes exactly after its row if and only if the stored sort value is
  in range (`SessionSearch.CursorResumesExactly`); with two negative durations the second
  page repeats the first for ever (`SessionWalk.NegativeDurationsNeverAdvance`). Durations
  and statuses written by `upsert_session` are always in range, sizes below 2^63 are
  (`SessionWalk.WrittenInRange`).
- `read_body_range` takes its `truncated` flag from a size read before the file is opened.
  The flag is exact if and only if that size and the opened version lie on the same side of
  the range (`BodyRange.FlagExact`); without a rewrite in between it always is
  (`BodyRange.UndisturbedFlagIsExact`), and otherwise some run returns it wrong
  (`BodyRange.RewriteMakesFlagWrong`).
- One clear of a session directory can make a write fail, since unlinking a file and removing
  the directory are two removals (`BodyClear.ClearCanFailWrite`); one removal never does.
- A frame reads back as it was written exactly when it does not end in a carriage return
  (`Framing.FrameRoundTrip`); JSON text never does, by section 7 of RFC 8259.
- Redacted documents do not depend on secret values, but the redaction records do show
  whether a secret is null (`Redaction.NullSecretShowsInRecords`). With distinct keys free of
  path characters they show exactly that (`RedactionRecords.RecordsExact`); other keys can
  hide it (`RedactionRecords.DottedKeysHideNulls`).
- The mark "audited by the desktop" of a failed control call and the write of its frame do not
  coincide. The work between two sends fails unmarked (`ControlClient.DeniedApprovalIsUnmarked`),
  and so does a flush (`ControlClient.WriteMarkExact`); a call that is given up before its frame was
  written is marked (`ControlClient.EarlyTimeoutIsMarked`). `ControlClient.AuditMarkExact`
  says exactly when the mark is there.
- A batched entry load returns a run's entries once per batch that names the run, so it
  equals the single query exactly when no run with entries is named in two batches
  (`Batching.BatchedLoadRefines`). The comment in the source that one run's entries can span
  batches is true only of repeated ids.
- Group byte totals equal the overview total exactly when no stored size is negative
  (`Insights.GroupsConserve`).
- Audit rotation ignores failed renames, and one can lose a file in the middle
  (`Audit.FailedRenameOpensGap`). It keeps a suffix of the log, whatever the files hold, if and
  only if no rename overwrites a file that has an older one behind it
  (`Audit.SafeRotationExact`).
- Sibling numbers are cast to i32, so they are 0..n-1 if and only if there are at most 2^31
  siblings (`Collections.MoveNumbersSiblings`).

## Model

| member | source | states |
|---|---|---|
| Collections.WouldCreateCycle | crates/db/src/collections.rs:489-524 | The ancestor walk ends on every parent relation. It answers true exactly when the moved folder is on the target's chain, false exactly when that chain reaches a root without it, not-found exactly when the chain dangles, and the cycle error exactly when the chain never ends and avoids the folder |
| Collections.CollectSubtree | crates/db/src/collections.rs:177-196 | The stack walk ends on every parent relation, cycles included, and visits exactly the start folder and its descendants |
| Collections.DeleteRows | crates/db/src/collections.rs:198-213 | Deleting row by row leaves exactly the rows outside the set, unchanged |
| Collections.CollectionStore.UpsertFolder | crates/db/src/collections.rs:48-110 | An upsert is accepted exactly for a target whose chain is sound and avoids the folder, stores the row, and otherwise changes nothing |
| Collections.CollectionStore.MoveFolder | crates/db/src/collections.rs:419-487 | A folder move is accepted under the same condition and rearranges the two sibling lists; a rejected move changes nothing |
| Collections.CollectionStore.DeleteFolder | crates/db/src/collections.rs:167-214 | Exactly the subtree and the items inside it go |
| Collections.CollectionStore.UpsertItem | crates/db/src/collections.rs:226-285 | An item is stored exactly when its collection exists |
| Collections.CollectionStore.MoveItem | crates/db/src/collections.rs:357-417 | An item move needs an existing item and collection, rearranges siblings, and changes nothing when rejected |
| Collections.CollectionStore.DeleteItem | crates/db/src/collections.rs:351-355 | Only that item goes |
| Collections.OrderedIds | crates/db/src/collections.rs:544-583 | The listing holds exactly the parent's children, once each, in the stored display order |
| Collections.MoveNumbersSiblings | crates/db/src/collections.rs:357-487 | After a move the target's children are numbered 0..n-1, and the old parent's 0..m-1, exactly when there are at most 2^31 of them; the moved row is at min(requested, n-1), and no row is gained or lost |
| Collections.MoveKeepsOrder | crates/db/src/collections.rs:357-487 | The other siblings, old and new, keep their relative order while their numbers fit an i32 |
| Collections.MoveReparents | crates/db/src/collections.rs:357-487 | Only the moved row changes its parent |
| Collections.ForestAcceptance | crates/db/src/collections.rs:48-110 | On a well-formed forest a folder write is accepted exactly when the parent exists and is neither the folder nor one of its descendants |
| Collections.StepKeepsWellFormed | crates/db/src/collections.rs:48-487 | Every operation keeps the forest: parents exist, every chain reaches a root, every item's collection exists |
| Collections.RunsKeepForest | crates/db/src/collections.rs:48-487 | The same in every state of every run |
| Forest.WriteKeepsForest | crates/db/src/collections.rs:48-110 | Giving a folder a parent whose chain reaches a root without the folder keeps all chains finite |
| Forest.RemoveSubtreeKeepsForest | crates/db/src/collections.rs:177-214 | Without a subtree the rest is still a forest, and no survivor has a parent in the removed set |
| LikePattern.EscapeInOnePass | crates/db/src/sessions.rs:526-531 | The three sequential replacements equal one character-by-character escape |
| LikePattern.EscapedKeywordIsLiteral | crates/db/src/sessions.rs:526-531 | For every keyword and text, LIKE with the escaped keyword between percent signs matches exactly when the text contains the keyword literally, up to the ASCII folding of LIKE |
| SessionFilter.EmittedMeans | crates/db/src/session_search.rs:154-439 | Each emitted condition, with its values at the next free placeholders, is true of exactly the rows its filter condition accepts, NULLs included |
| SessionFilter.EmittedShape | crates/db/src/session_search.rs:154-439 | The index advances by the number of values pushed, and every condition that reads the detail table joins it |
| SessionFilter.BeyondMeans | crates/db/src/session_search.rs:404-439 | The cursor condition is the lexicographic order on (sort value, started_at, id) |
| SessionFilter.Compile | crates/db/src/session_search.rs:154-439 | Whatever subset of the filter is set, the next index is one past the bound values, and the conditions mean the active tests one for one |
| FilterMeaning.FilterMeans | crates/db/src/session_search.rs:154-402 | A row matches the active tests exactly when it meets every field of the filter that is set, written out field by field |
| SessionSearch.CursorRoundTrip | crates/db/src/session_search.rs:532-581 | A cursor decodes to the payload it was made from exactly when the decoder's limits allow that row |
| SessionSearch.CursorResumesExactly | crates/db/src/session_search.rs:583-605 | The cursor of a row admits exactly the keys after the row if and only if the stored sort value is in range |
| SessionSearch.RowSelected | crates/db/src/session_search.rs:441-480 | The joined WHERE clause, with the limit bound behind it, selects exactly the rows that match the filter and lie beyond the cursor |
| SessionSearch.RunQuery | crates/db/src/session_search.rs:441-508 | Running the compiled query and cutting the page gives the page the filter means |
| SessionSearch.SearchSessions | crates/db/src/session_search.rs:133-509 | Validation, cursor decoding, compilation, query and cut together return the page that the filter means, or the source's error |
| Keyset.PageIsGood | crates/db/src/session_search.rs:471-508 | A page is ordered, comes from the snapshot beyond the cursor, everything else lies beyond the new cursor, and truncated holds exactly when a matching row remains |
| Keyset.KeyNotSkipped | crates/db/src/session_search.rs:404-508 | After any number of pages, a key that every snapshot had has been delivered or lies beyond the next cursor |
| Keyset.WalkDeliversOnce | crates/db/src/session_search.rs:404-508 | A finished walk over changing snapshots is strictly ordered, repeats nothing, invents nothing, contains every key that was there throughout, whatever else of its row changed, and every row that stayed as it was |
| Keyset.WalkTerminates | crates/db/src/session_search.rs:404-508 | A walk over rows with keys of a finite universe has at most universe/limit pages before its last |
| Keyset.WalkIsWholeQuery | crates/db/src/session_search.rs:404-508 | Over an unchanged table the pages concatenate to the whole ordered query |
| TokenWalk.TokenWalkIsWalk | crates/db/src/session_search.rs:404-508 | For any paged search, requests that each carry the token before them are a keyset walk, item for item |
| TokenWalk.FinishedWalk | crates/db/src/session_search.rs:482-508 | A walk that ends without a token has shown a complete delivery of its snapshots |
| SessionWalk.PageResumes | crates/db/src/session_search.rs:482-508 | A page is shown item by item, has a token exactly when it is truncated, and the token is answered from any later table with what comes after the page |
| SessionWalk.SearchDeliversOnce | crates/db/src/session_search.rs:404-508 | Following next_cursor to the end while rows are inserted, deleted and updated delivers exactly once every session that matches and keeps its sort key throughout, in key order, and nothing that was not there |
| SessionWalk.SearchTerminates | crates/db/src/session_search.rs:404-508 | The number of searches is bounded by the sort keys there can be |
| SessionWalk.NegativeDurationsNeverAdvance | crates/db/src/session_search.rs:583-605 | Two rows with negative durations whose cursor returns the same page for ever |
| SessionWalk.WrittenInRange | crates/db/src/sessions.rs:73-220 | Stored durations and statuses are in range, and a stored size is exactly when it is below 2^63 |
| WsMessages.QueryIsLiteral | crates/db/src/sessions.rs:577-591 | The message keyword is matched literally |
| WsMessages.CursorRoundTrip | crates/db/src/sessions.rs:641-670 | A message cursor resolves to the message's key exactly when the decoder's limits allow it |
| WsMessages.Compile | crates/db/src/sessions.rs:577-613 | For every subset of direction, keyword and cursor, the next index is one past the bound values, and the positional conditions hold of exactly the matching messages beyond the cursor |
| WsMessages.SearchPage | crates/db/src/sessions.rs:565-639 | Compiling, binding the limit last, fetching one row more and cutting gives the keyset page after the cursor, or the cursor error |
| WsMessages.TokenResumes | crates/db/src/sessions.rs:594-633 | A token is returned exactly for a truncated page and resumes right after its last message |
| WsMessages.MessagesDeliveredOnce | crates/db/src/sessions.rs:594-633 | Following the tokens while messages come, go and change delivers exactly once every message that matches and keeps its timestamp, in (timestamp, id) order, and only matching messages of some table state |
| WsMessages.MessagesTerminate | crates/db/src/sessions.rs:594-633 | The number of requests is bounded by the keys there can be |
| InsightsFilter.EmittedSays | crates/db/src/insights.rs:118-290 | Each condition, batched id lists and NOT IN included, is true of exactly the accepted rows |
| InsightsFilter.BuildWhere | crates/db/src/insights.rs:118-290 | The next index is one past the bound values, and the conditions say the active criteria one for one |
| InsightsFilter.FilterMeans | crates/db/src/insights.rs:118-290 | A row meets the active criteria exactly when it meets every field of the filter that is set, written out field by field |
| InsightsFilter.GroupParameterBinds | crates/db/src/insights.rs:635-662 | The joined clause selects exactly the accepted rows, also with the group name bound behind it, and the group's placeholder reads that name |
| Insights.PercentilesOrdered | crates/db/src/insights.rs:754-760 | A percentile is an element of its list, and a higher percentile is not smaller |
| Insights.RankInRange | crates/db/src/insights.rs:754-760 | Up to 100 the rounded rank is a position of the list, 0 and 100 being its ends |
| Insights.PercentileOfValues | crates/db/src/insights.rs:420-472 | A percentile depends only on the values, not on how they were sorted |
| Insights.CollectDurations | crates/db/src/insights.rs:420-447 | One pass gives every host what filtering for that host alone gives |
| Insights.HostP95s | crates/db/src/insights.rs:449-472 | Each host's P95 is the P95 of its own durations filtered and sorted alone |
| Insights.ComputeGroups | crates/db/src/insights.rs:681-739 | The output is the ranking by request count and key of one exact group per key, cut at the limit |
| Insights.RankingUnique | crates/db/src/insights.rs:725-731 | Rows have one ranking, whatever order the groups were listed in |
| Insights.GroupsConserve | crates/db/src/insights.rs:332-357 | Untruncated group counts and errors sum to the overview totals, and bytes do exactly when no stored size is negative |
| Insights.GroupPercentiles | crates/db/src/insights.rs:700-730 | A group's p50 and p95 are ordered and are durations of its own rows |
| BodyNames.RenderInjective | crates/db/src/body_store.rs:313-342 | Distinct final and temp files have distinct names on disk |
| BodyNames.TempIsNotFinal | crates/db/src/body_store.rs:313-342 | A temp name is never the final name of any body |
| BodyNames.PathInjective | crates/db/src/body_store.rs:296-309 | A safe segment has no separator, so a path determines its session and its file |
| BodyStore.StepKeepsInv | crates/db/src/body_store.rs:49-166 | Every file-system step of every writer, reader, removal, crash or restart keeps the protocol invariant |
| BodyStore.RunsKeepInv | crates/db/src/body_store.rs:49-355 | The invariant holds in every state of every interleaving |
| BodyStore.FinalNamesAreComplete | crates/db/src/body_store.rs:330-355 | A final name is absent or names one complete body that a single write call for that session and kind was given |
| BodyStore.ReadersSeeOneVersion | crates/db/src/body_store.rs:80-108 | Whatever a reader has got is a range of one complete version |
| BodyStore.TempNamesNeverCollide | crates/db/src/body_store.rs:313-342 | The temp path of a live writer is the temp path of no other and no final path |
| BodyStore.OneRemovalIsAbsorbed | crates/db/src/body_store.rs:49-71 | A write fails on a vanished directory only after at least two removals hit it |
| BodyClear.ClearCanFailWrite | crates/db/src/body_store.rs:138-166 | Two removals suffice: unlinking the temp file and removing the emptied directory, as one clear does, can fail a write |
| BodyStore.RenamePublishes | crates/db/src/body_store.rs:330-355 | A rename that finds its temp file puts exactly the writer's data under the final name |
| BodyRange.FlagExact | crates/db/src/body_store.rs:80-108 | In every run the truncated flag of a finished range read tells the truth about the version it read exactly when the size measured before and that version lie on the same side of the range |
| BodyRange.UndisturbedFlagIsExact | crates/db/src/body_store.rs:80-108 | If nothing is published under the name between the size check and the open, the flag is exact, whatever else happens |
| BodyRange.RewriteMakesFlagWrong | crates/db/src/body_store.rs:80-108 | For any two bodies whose sizes lie on different sides of the range, some run from an empty store returns a wrong flag |
| BodyRange.RewrittenBodyLooksComplete | crates/db/src/body_store.rs:80-108 | A run in which a partial body is reported complete |
| Framing.ReadJsonLine | crates/agent-control/src/lib.rs:749-786 | The outcome is a function of the byte stream alone, however the reader chunks it: too long exactly when more than max_bytes precede the newline, and never more than max_bytes + 1 buffered |
| Framing.FrameRoundTrip | crates/agent-control/src/lib.rs:749-807 | A written frame reads back as itself exactly when it does not end in a carriage return |
| Framing.FramesRoundTrip | crates/agent-control/src/lib.rs:749-807 | Any sequence of written frames reads back as those frames with nothing left over |
| Framing.TokenMatchIsEquality | crates/agent-control/src/lib.rs:734-744 | The accumulate-differences comparison accepts exactly equal tokens |
| Redaction.RedactWalk | crates/mcp-server/src/redaction.rs:351-384 | The in-place walk with pushed records computes the specified document and records |
| Redaction.SecretsDoNotShow | crates/mcp-server/src/redaction.rs:351-418 | Documents that differ only in values hidden by their keys redact to the same document |
| Redaction.SecretKeysAreOpaque | crates/mcp-server/src/redaction.rs:588-626 | For every configuration, the value under a custom or secret-named key can be replaced by anything without changing the redacted document |
| Redaction.RecordsDoNotShow | crates/mcp-server/src/redaction.rs:234-264 | The records agree when no hidden value is null on one side only |
| RedactionRecords.RecordsExact | crates/mcp-server/src/redaction.rs:234-384 | For documents whose keys are distinct and have no path characters, the records agree exactly when the same hidden values are null |
| RedactionRecords.DottedKeysHideNulls | crates/mcp-server/src/redaction.rs:372-384 | A key with a dot can stand in for a nested key, so that two documents with different nulls have the same records |
| Redaction.NullSecretShowsInRecords | crates/mcp-server/src/redaction.rs:234-264 | A null secret leaves no record, so the records differ although the documents do not |
| Redaction.RedactKeepsShape | crates/mcp-server/src/redaction.rs:351-418 | Key order, array lengths, numbers, booleans and nulls are kept outside classified keys, and a classified key holds the marker or a pseudonym |
| ControlClient.Client.CallControl | crates/mcp-server/src/control_client.rs:540-632 | The call as it runs, with its exchanges in order, is the specified run |
| ControlClient.Client.GatherGrants | crates/mcp-server/src/control_client.rs:123-139 | One grant request per missing capability, stopping at the first failure |
| ControlClient.WriteMarkExact | crates/mcp-server/src/control_client.rs:661-854 | A failed exchange of a write is marked exactly when it got past the write or the client gave up on it, and so always past the write; a failed read exactly when the desktop refused it |
| ControlClient.SentAtMostTwice | crates/mcp-server/src/control_client.rs:540-632 | In every run the operation is sent at most twice, and twice only after a connect failure or an answer of APPROVAL_REQUIRED or retryable CONTROL_UNAVAILABLE |
| ControlClient.RunsAtMostOnce | crates/mcp-server/src/control_client.rs:540-632 | If the desktop runs nothing it did not receive or answers that way, the operation runs at most once |
| ControlClient.AuditMarkExact | crates/mcp-server/src/control_client.rs:540-854 | Once a write was sent, a failed call is marked exactly when it ends with a send that got past the write or was given up, unless its failure starts the retry work, or with a refused grant request |
| ControlClient.PastWriteIsMarked | crates/mcp-server/src/control_client.rs:540-854 | Every failure past the write is marked unless it starts the retry work |
| ControlClient.EarlyTimeoutIsMarked | crates/mcp-server/src/control_client.rs:683-712 | A call that times out before its frame was written is marked all the same |
| ControlClient.DeniedApprovalIsUnmarked | crates/mcp-server/src/control_client.rs:576-605 | A sent and answered write whose approval is denied fails unmarked |
| ControlClient.RetryKeepsGrants | crates/mcp-server/src/control_client.rs:586-597 | The second send carries the first send's grants, in order, and adds no id twice |
| KeyedTable.CollapseKeepsMinimum | crates/db/src/schema.rs:920-946 | Exactly the minimum row of each natural key survives, unchanged |
| KeyedTable.CollapseDeletes | crates/db/src/schema.rs:920-946 | A row goes exactly when a smaller row has its natural key |
| KeyedTable.CollapseIdempotent | crates/db/src/schema.rs:849-859 | Collapsing twice is collapsing once |
| KeyedTable.UpsertWrites | crates/db/src/environments.rs:111-138 | An upsert keeps natural keys unique, keeps the existing row id, sets the value and touches no other row |
| KeyedTable.LastWriterWins | crates/db/src/environments.rs:163-186 | After a sequence of upserts each written key holds the last value under the existing or first id, and other keys keep their rows |
| KeyedTable.AcceptedExactly | crates/db/src/environments.rs:163-186 | The sequence succeeds exactly when every variable that must be inserted has a parent and a fresh id |
| Schema.DisableExtraKeepsMinimum | crates/db/src/schema.rs:903-914 | Each workspace keeps exactly its smallest enabled profile enabled, and only the enabled flag of the others changes |
| Schema.BuildIndex | crates/db/src/schema.rs:624-652 | The index builds exactly when natural keys are unique |
| Schema.Database.RunMigrations | crates/db/src/schema.rs:614-687 | The steps always succeed and leave every natural key unique |
| Schema.MigrationIdempotent | crates/db/src/schema.rs:614-687 | A second migration changes nothing |
| Schema.GateChangesNothing | crates/db/src/schema.rs:664-687 | Skipping the session-detail step once its index exists gives the same tables as never skipping it |
| Environments.VariableStore.SetEnvironmentVariables | crates/db/src/environments.rs:163-186 | Replacing an environment's variables succeeds exactly when every insert can be made; then the last writer of each key wins, otherwise nothing changes |
| Environments.VariableStore.SetGlobalVariables | crates/db/src/environments.rs:228-244 | The same for global variables |
| Environments.VariableStore.UpsertEnvironmentVariable | crates/db/src/environments.rs:111-138 | One upsert by (environment, key), unchanged on error |
| Environments.VariableStore.UpsertGlobalVariable | crates/db/src/environments.rs:192-208 | One upsert by key, unchanged on error |
| Throttle.StepKeepsValid | crates/db/src/rules.rs:400-647 | After every single statement of every operation at most one profile per workspace is enabled, and every committed operation keeps all references |
| Throttle.RunsKeepValid | crates/db/src/rules.rs:400-647 | Over every sequence of operations, every committed state keeps all references and every single statement leaves at most one enabled profile per workspace |
| Throttle.ActivationIsExact | crates/db/src/rules.rs:466-497 | After an activation exactly the chosen profile is enabled in the workspace, and other workspaces are untouched |
| Throttle.SavingEnabledIsExact | crates/db/src/rules.rs:400-464 | Saving an enabled profile leaves it the only enabled one of its workspace |
| Throttle.DeletesForgetRules | crates/db/src/rules.rs:530-647 | No operation but recording runs makes a run refer to a missing rule |
| Throttle.RunsNeverDangle | crates/db/src/rules.rs:530-647 | Over every history whose recordings name existing rules, no run refers to a missing rule |
| Throttle.ThrottleStore.SaveProfile | crates/db/src/rules.rs:400-464 | Succeeds exactly when the workspace exists, statement by statement as logged, and is undone on error |
| Throttle.ThrottleStore.SetActive | crates/db/src/rules.rs:466-497 | Fails exactly when the profile is not in the workspace, and then leaves the tables unchanged |
| Throttle.ThrottleStore.DeleteProfile | crates/db/src/rules.rs:530-561 | The profile is gone, no rule has it, no run names a rule that went with it, and every other profile, rule and run is as before |
| Throttle.ThrottleStore.SaveRule | crates/db/src/rules.rs:583-628 | Succeeds exactly when workspace and profile exist |
| Throttle.ThrottleStore.DeleteRule | crates/db/src/rules.rs:630-647 | The rule is gone, no run names it, and everything else is as before |
| Throttle.ThrottleStore.ReplaceRuns | crates/db/src/rules.rs:699-748 | Replaces a session's runs or changes nothing |
| Audit.AuditLog.RotateIfNeeded | crates/mcp-server/src/audit.rs:120-139 | The reverse rename loop is the specified rotation, whichever renames work |
| Audit.AuditLog.Append | crates/mcp-server/src/audit.rs:44-67 | Rotation, then the line at the end of the current file |
| Audit.AuditLog.CheckWritable | crates/mcp-server/src/audit.rs:72-88 | Rotation, then an existing current file, with nothing written |
| Audit.RunsKeepSound | crates/mcp-server/src/audit.rs:44-139 | In every run with working renames the rotated files have no gaps, each is full, and with the current file they are a suffix of the history |
| Audit.RetainedEnough | crates/mcp-server/src/audit.rs:44-139 | At least the last min(history, 3 files) bytes are retained |
| Audit.RotateKeepsSuffix | crates/mcp-server/src/audit.rs:120-139 | Whatever renames fail, a rotation that overwrites no file with an older one behind it keeps a suffix |
| Audit.SafeRotationExact | crates/mcp-server/src/audit.rs:120-139 | That condition is exact: it holds exactly when the rotation keeps a suffix whatever the full files in these slots hold |
| Audit.FailedRenameOpensGap | crates/mcp-server/src/audit.rs:120-139 | When the rename of file 2 fails and that of file 1 works, the text of file 2 is lost between its neighbours, for files of any size, and a suffix is left only if the texts coincide |
| Batching.SessionStore.DeleteByIds | crates/db/src/sessions.rs:360-400 | For every batch size exactly the requested sessions and their dependents go, and the count is the number of distinct existing ids |
| Batching.DeleteTwice | crates/db/src/sessions.rs:360-400 | Deleting batch after batch, cascades included, is deleting all at once |
| Batching.LoadRunEntries | crates/db/src/rules.rs:1266-1325 | The chunk loop and the final sort compute the specified merged load |
| Batching.LoadedCounts | crates/db/src/rules.rs:1444-1503 | The merged load is sorted by (run_id, seq, id) and holds each row once per batch that names its run |
| Batching.BatchedLoadRefines | crates/db/src/rules.rs:1266-1325 | The batched load equals the single query exactly when no run with entries is named in two batches |
| Batching.DistinctIdsSuffice | crates/db/src/rules.rs:1266-1325 | Distinct run ids are enough, for every batch size |
| Batching.RepeatedRunIsLoadedTwice | crates/db/src/rules.rs:1266-1325 | A run named in two batches has its entries twice |

## Left out

- SQLite itself (WAL, busy timeouts, query planning, I/O errors inside a statement): statements, transactions, foreign keys and unique indexes are taken as documented.
- Collections.MoveKeepsOrder: needs at most 2^31 siblings under the parent, because the stored index is cast to i32 and wraps beyond that.
- BodyStore.OneRemovalIsAbsorbed: counts each removed file or directory as one removal; BodyClear.ClearCanFailWrite shows that a clear of one directory can be two.
- BodyStore.StepKeepsInv: symlink and permission checks, `clear_all` of the whole root as one call, and reads of a missing body are not steps of the model.
- Audit.RunsKeepSound: a write that fails in the middle of a line is not modelled.
- Redaction.RecordsDoNotShow: one direction only; RedactionRecords.RecordsExact has both.
- Insights.ComputeGroups: 64-bit overflow of the running sums and the rounding of floating-point averages and ranks are not modelled.
- Redaction of URLs, headers and non-JSON text, custom patterns, the sort and de-duplication of records, and the key file.
- The configuration and grant store of the desktop, descriptor polling and the platform side of launching.
- `migrate_rule_trace_rule_id_foreign_keys`, added columns and the remaining table definitions of the migration.
- The by-status, by-method, failure-kind and ranking queries of the insights: single aggregate statements.
- Row-by-row functions for workspaces, DNS, map and script rules, AI settings and automation: they would add only easy members.
