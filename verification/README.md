# HarborSQL, modelled and proved in Dafny

HarborSQL answers the Databricks SQL Thrift protocol in front of DataFusion and a Unity catalog. This project models
the parts of it whose behaviour no single function shows, and proves what they promise. `dafny verify dfyconfig.toml`
checks all of it.

- **Table cache** (`CacheProtocol`, `CacheRuns`, `CacheProgress`, `TableCache`). The single-flight cache as interleaved
  atomic steps of any number of callers, loaders, writers and invalidations: one step for each lock acquisition, clock
  reading or wake-up. The lock on the map and the lock of each slot are taken and released by steps of their own, and
  the scan of expired entries takes the slots' locks one by one while it holds the map's. A run is any sequence of
  enabled steps. Beside it, the cache's own class with its slots shared by reference.
- **Thrift codec** (`BigEndian`, `Utf8`, `ThriftValue`, `ThriftReader`, `ThriftRequests`, `ThriftMessages`,
  `ThriftDecoders`). Values as trees with their Apache Thrift Binary Protocol encoding, the reader as a class over a
  buffer and a position, and every request decoder as a loop over the reader, tied to a fold over the fields of the
  struct. Skipping is an exact recognizer of well-formed values within the limits of depth and size.
- **Results** (`ResultPages`, `NullBits`, `ResultEncoding`, `ResultWriter`, `FetchRoundTrip`). Paging over batches, the
  column encoders, the null bitset, the FetchResults replies as written byte by byte, and what a client reads back from
  them.
- **Operation service** (`OperationState`, `ServiceProtocol`, `ServiceRuns`). Sessions and operations as a state machine
  driven by handlers, query tasks, refreshers and background cleanup, every lock section a step of its own.
- **Rewriter** (`Decimals`, `LikePatterns`, `Rewriter`, `Templates`, `SqlMeaning`, `RewriteMeaning`,
  `RewritePreserves`, `RewriteExhausts`, `Words`, `Printing`, `PrintedRewrite`, `Misreadings`). The pass over
  expression trees, an evaluator with NULL, errors and lazy branches, and the proof that the pass preserves meaning
  and misses nothing where it looks; then the rewritten statement as it is handed on, printed without further
  parentheses and read back by precedence. LIKE is that of ISO/IEC 9075-2, section 8.5; in a replacement, a dollar or
  a backslash refers to a group by its number, a dollar also with the number in braces, and everything else stands for
  itself. The levels of NOT, LIKE, `<`, `+`, `&` and IS are those of sqlparser's generic dialect.
- **Metadata** (`RowLists`, `Pushdown`, `PushdownRows`, `PushdownExact`, `MetadataPatterns`). Filter pushdown into the
  enumeration of `information_schema`, and name patterns with wildcards and escapes.
- **Writing and routing** (`Ctas`, `Routing`). CREATE TABLE AS SELECT as a protocol of runs that may crash at any step,
  and object store routes by longest prefix.

What is not visible to the code is a parameter: clocks, the outcomes and timing of loaders and query tasks, what the
catalog service lists, the regular expression engine, every operator the rewriter leaves alone. Identifiers of
sessions and operations are fresh, principals' fingerprints are as good as the tokens they stand for, and no lock is
ever poisoned. `Wrappers`, `Ascii`, `MapSizes`, `Decimals` and `StatusCodes` hold what several modules share.

Some promises do not hold of the code as they stand. For each there are lemmas that give an input it fails on and say
exactly when it does hold:

- a list header in an OpenSession request may name any element type if the list is empty (`UntypedListAccepted`), and
  what is accepted was an encoding exactly when that type is one of the protocol's (`ListExact`);
- the reply to a fetch of more than 16384 columns is one that the service's own reader refuses to step over
  (`WideReply`, `ReplySkippable`), and a message name of 2^31 bytes or more does not decode (`DecodeInvertsBegin`);
- LIKE with a backslash between its percent signs is not the containment test it is turned into (`LikeIsContains`);
- `element_at` of an array at an integer fails once rewritten (`ElementAtMeaning`), and `get` at an index that is no
  integer but that the engine finds below zero is NULL where it was an error (`GetAtNonInteger`, `GetMeaning`);
- a capture number past the largest 64-bit integer makes the rewritten call fail (`CaptureTooLarge`), and the spelling
  `\{1}` is taken for a group though it refers to none (`BracedBackslashOne`, `BracedBackslashDiffers`); all other
  recognized replacements are preserved (`CaptureExact`);
- the rewritten statement can be read as another one: the index in `get(a, x & 1)` is taken apart by the one added to it
  (`GetMisread`), and the NOT in place of `x NOT LIKE '%a%' IS NULL` takes the IS NULL along (`UnlikeMisread`); it is
  read as it was rewritten exactly when each operand binds tightly enough for its new place (`RewriteReadsBack`);
- a GetColumns operation that ended without success stays in the map, until it expires, in two cases: its handler is
  dropped without having been sent an outcome, and its task dies, before or after that (`DeadTaskLeavesSlot`); or its
  handler is dropped after it was sent the outcome and before it takes the operation out again (`LateDropLeavesSlot`);
  there are no others (`ColumnsSlotDecided`);
- a table whose rows carry another catalog or schema than it is listed under, or in the columns relation another table
  name, is lost to pushdown (`DisagreementLosesRow`, `PushdownExactly`);
- a client that asks for no rows makes no progress while it is told there are more (`ProgressNeedsPositiveLimit`).

## Model

| member | source | states |
|---|---|---|
| CacheProtocol.StepKeeps | src/table_cache.rs:95-229 | every step of any caller, loader, writer or invalidation keeps the invariant: the map within its limit and true to its slots' keys, each slot locked by the one call that is in its critical section, each loading slot owned by the one call that claimed it, each parked call already notified or awaiting a call that has still to notify, and each snapshot held under the key and no older than the slot it is in |
| CacheRuns.InvalidationIsFinal | src/table_cache.rs:59-64 | in every run, a call made after `invalidate_table` returned, or after a CTAS dropped its guard, ends with no snapshot whose load began before that, for any principal, region and casing of the name, whatever detached loads were under way |
| CacheRuns.ReadYourWrites | src/engine/write.rs:171-203 | in every run, a call made after a CTAS returned successfully ends with a snapshot of a Delta version at least the one that CTAS committed, for any principal and any casing of the name |
| CacheRuns.LoadBegan | src/table_cache.rs:109-138 | the step a running load is recorded to have begun at is the step at which that very call started its loader, by claiming a slot or bypassing the cache |
| CacheRuns.SnapshotOrigin | src/table_cache.rs:190-217 | a snapshot that any slot or call has comes from a load that some call for the same principal, name and region started at the step the snapshot names |
| CacheProgress.OneLoader | src/table_cache.rs:108-127 | in every reachable state a slot is loading if and only if some call owns it, and no two calls own one slot |
| CacheProgress.NoLostWakeup | src/table_cache.rs:107-132 | a parked call can go on already, or the call it waits for has still to notify the waiters of its slot |
| CacheProgress.NotifierMovesOn | src/table_cache.rs:135-138 | each step of a call that owes a notification brings it nearer to it, no step of another moves it back, and its last one is the notification |
| CacheProgress.WaitDescends | src/table_cache.rs:102-307 | whoever holds up a call, by the lock on the map, by the lock of a slot or by a notification still owed, is nearer than it to moving on: the order in which locks are taken is never reversed |
| CacheProgress.NoDeadlock | src/table_cache.rs:102-307 | in every reachable state, following what each unfinished call waits for leads in at most three steps to a call that can move |
| CacheProgress.MapBounded | src/table_cache.rs:170-187 | the map never holds more than `max_entries` slots, each under its own key |
| CacheProgress.OwnKeyOnly | src/table_cache.rs:146-168 | a call ends only with a snapshot loaded under its own principal, name and region |
| CacheProgress.HitIsFresh | src/table_cache.rs:111-116 | a snapshot handed out from the cache had not expired at that instant, and its load had ended less than the ttl before |
| CacheProgress.EntryLeavesForReason | src/table_cache.rs:219-307 | an entry leaves the map only when its name is invalidated, when the call that loaded into its slot removes it, or when a scan had found its slot empty or expired at an earlier step |
| TableCache.TableCache.InvalidateTable | src/table_cache.rs:61-64 | exactly the keys of that name go, under any casing, and every other key keeps its slot |
| TableCache.TableCache.PruneExpired | src/table_cache.rs:290-307 | exactly the entries that are empty or expired go |
| TableCache.TableCache.SlotForKey | src/table_cache.rs:170-188 | after pruning, the key's own slot, or none and no change when the map is full, or a new empty slot inserted |
| TableCache.TableCache.Look | src/table_cache.rs:108-127 | a hit exactly on an unexpired snapshot, a wait exactly on a loading slot, and a claim on anything else |
| TableCache.TableCache.RemoveSlot | src/table_cache.rs:219-228 | the key goes if and only if the map holds this very slot under it |
| TableCache.TableCache.FinishLoad | src/table_cache.rs:190-217 | a load is published, with its expiry capped, unless it failed or has expired, in which case its slot is emptied and removed; the waiters are notified either way |
| TableCache.TableCache.GetOrLoad | src/table_cache.rs:84-140 | an undisturbed call, whatever its three readings of the clock, hands out a snapshot that is unexpired when looked at as it is, passes its loader's outcome on when the map is full, and otherwise ends with that outcome, capped, which the key's slot holds exactly if it has not failed or expired; no other unexpired key or slot changes |
| TableCache.CredentialOutlives | src/table_cache.rs:269-288 | while a snapshot has not expired its credential has more than the safety skew left, and unless the deadline overflows it expires at the first instant when that is no longer so |
| TableCache.CapShortens | src/table_cache.rs:252-288 | capping an expiry only ever shortens it, to at most the ttl from now, and changes nothing else |
| ThriftValue.EncodeUnique | src/thrift/codec.rs:107-164 | two encodable values of one type whose encodings begin the same byte string are equal, and leave the same rest |
| ThriftReader.SkipExact | src/thrift/codec.rs:92-197 | skipping from p ends at q if and only if the bytes between are the encoding of one value of that type within the limits on container size and nesting cost |
| ThriftReader.SkipAccepts | src/thrift/codec.rs:92-197 | on the encoding of any value, skipping succeeds if and only if the value is within the limits, and then ends right after it |
| ThriftReader.SkipValue | src/thrift/codec.rs:107-188 | on every byte string, skipping makes no more recursive calls than it consumes bytes when it succeeds, and at most one more when it fails |
| ThriftReader.Reader.SkipAtDepth | src/thrift/codec.rs:111-164 | the recursive reader method ends in the place, and with the outcome, of that specification |
| ThriftReader.Reader.SkipRemainingStructFieldsAtDepth | src/thrift/codec.rs:96-105 | the loop over the fields of a struct does the same, up to and including the STOP byte |
| ThriftReader.Reader.ReadFieldBegin | src/thrift/codec.rs:78-90 | a field header is read exactly when its type is one of the protocol's and its identifier is there, and STOP takes one byte |
| ThriftReader.Reader.ReadBinary | src/thrift/codec.rs:70-76 | a length-prefixed string is read exactly when its length is not negative and its bytes are there |
| ThriftReader.Reader.ReadContainerSize | src/thrift/codec.rs:176-188 | a size is read exactly when it is between zero and 16384 |
| ThriftRequests.ReadRecordProjects | src/thrift.rs:906-1151 | on the encoding of any list of fields, in any order, with duplicates, unknown identifiers and wrong types, a decoder returns the fold over those fields and ends right after their STOP |
| ThriftRequests.EveryFieldAccepted | src/thrift.rs:906-1151 | that fold succeeds if and only if each single field is one the decoder takes or one it can step over |
| ThriftRequests.LastFieldWins | src/thrift.rs:906-1151 | what a decoder holds for an identifier is what the last field of that identifier and the right type contributes, and nothing if there is none |
| ThriftRequests.RecordExact | src/thrift.rs:906-1151 | any decoder, lists included, succeeds from p to q with every list it keeps naming a type of the protocol if and only if those bytes are an encoded struct, and returns the fold over its fields |
| ThriftRequests.ListExact | src/thrift.rs:949-967 | what the list decoder accepts is the encoding of a list if and only if its header names a type of the protocol |
| ThriftRequests.UntypedListAccepted | src/thrift.rs:949-967 | a list header with an element type that is none of the protocol's is accepted if and only if the list is empty |
| ThriftMessages.ReadArgsProjects | src/thrift.rs:886-904 | on any encoded argument struct, the request is the fold over the first struct numbered 1, provided everything before it can be stepped over, and everything after it one level deeper |
| ThriftMessages.DecodeInvertsBegin | src/thrift.rs:866-884 | decoding a message inverts `write_message_begin`, for every type, sequence number and payload, if and only if the name's length fits its prefix |
| ThriftMessages.CallDecodes | src/thrift.rs:103-104 | a call decodes to the name, number and request that its sender encoded |
| ThriftDecoders.ReadFields | src/thrift.rs:906-1151 | the loop that each request, handle and namespace decoder runs over the reader computes that specification |
| ThriftDecoders.ReadList | src/thrift.rs:949-967 | the loops over a list of integers, kept or stepped over, do too |
| ThriftDecoders.ReadArguments | src/thrift.rs:886-904 | so does the loop over the argument struct |
| ThriftDecoders.DecodeBody | src/thrift.rs:866-884 | so does the decoder of the message header |
| ResultPages.RequestedRowLimit | src/thrift/result_encoding.rs:197-205 | the limit is at most 10000, and zero if and only if a limit of zero or less was asked for |
| ResultPages.InlineResultStore.Page | src/engine.rs:1563-1595 | a page is exactly the rows between its bounds, for every split into batches, empty ones included, with its offset, its count and whether more follow |
| ResultPages.CollectsEverything | src/engine.rs:1563-1595 | a client that advances by what it got, asking for any positive number of rows each time, ends with every row once and in order |
| ResultPages.ProgressNeedsPositiveLimit | src/thrift/result_encoding.rs:197-205 | a page that says more follow moves the client on if and only if it asked for a positive number of rows |
| NullBits.PackHolds | src/thrift/result_encoding.rs:292-311 | the packed bytes hold each flag in its bit, least significant first, and zeros after the last |
| NullBits.HoldsUnique | src/thrift/result_encoding.rs:292-311 | no other bytes of that length do |
| ResultWriter.NullBitset | src/thrift/result_encoding.rs:292-311 | the loops over batches and rows that set bits in place give the packed null flags of the page's rows |
| ResultWriter.WriteColumnValues | src/thrift/result_encoding.rs:255-290 | a column's list and bitset are written whole, with as many elements as its header says, or an error is reported exactly when some row lacks the column or holds a value its type cannot carry |
| ResultWriter.WriteRowSet | src/thrift/result_encoding.rs:165-187 | the row set is written with its start offset and as many columns as there are encoders, or reports the error of one of them |
| ResultWriter.WriteFetchResultsStruct | src/thrift/result_encoding.rs:50-87 | a response is written whole, for the page of the rows asked for, or an error leaves the reply's buffer as it was |
| ResultWriter.WriteFetchResultsResponse | src/thrift.rs:1366-1389 | the bytes of the whole reply: the page's response, or in the same message an error status |
| ResultWriter.WriteFetchResultsInvalid | src/thrift.rs:1391-1403 | the bytes of the whole reply when the handle is unknown |
| ResultWriter.WriteFetchResultsNotReady | src/thrift.rs:1405-1418 | the bytes of the whole reply when the operation has no result, with its own message or the default one |
| ResultEncoding.CellRoundTrip | src/thrift/result_encoding.rs:276-283 | a value that is not null reads back from its wire form as it was |
| ResultEncoding.PageReadsBack | src/thrift/result_encoding.rs:165-187 | an encoded page decodes to its start offset, the cells of each column with null exactly where they were null, and whether more follow |
| FetchRoundTrip.ReplyIsOneMessage | src/thrift.rs:1366-1472 | the reply to any fetch, refused ones included, is one FetchResults message, whose payload is the encoding of one struct only, with nothing left over |
| FetchRoundTrip.ReplySkippable | src/thrift/codec.rs:176-197 | the service's own reader steps over the reply's payload exactly to its end if and only if it has no page of more than 16384 columns |
| FetchRoundTrip.WideReply | src/thrift/codec.rs:176-197 | the empty page of a result with 16385 columns is such a reply, and the reader refuses it |
| FetchRoundTrip.StatusReadsBack | src/thrift.rs:1391-1418 | from the bytes of the reply, however they are read as fields, a client knows whether there is a page, and otherwise the code and the message it was refused with |
| FetchRoundTrip.FetchReadsBack | src/thrift/result_encoding.rs:50-87 | from the bytes of the reply, however they are read as fields, a client has the requested rows, cell by cell, their offset and whether more follow |
| OperationState.Operation.TakeFinishedTask | src/thrift/state.rs:56-74 | only a running operation whose task has ended gives it up, and is refreshing from then on, since the same start |
| OperationState.Operation.FinishRefresh | src/thrift/state.rs:76-84 | a refreshing operation ends now, as its task did, with the task's own duration and result or error if it completed and the time since its start if it died or was aborted; a running or ended one is left as it is |
| OperationState.Operation.Cancel | src/thrift/state.rs:92-102 | a running operation ends cancelled now, with the time since its start, and its task is aborted; a refreshing or ended one is left as it is |
| OperationState.EndStands | src/thrift/state.rs:56-102 | once an operation has ended, no sequence of takes, refreshes and cancels changes how |
| OperationState.CancelDecides | src/thrift/state.rs:92-102 | when a cancel comes before any refresh takes the ended task, the operation ends with that cancel, whatever follows |
| OperationState.RefreshDecides | src/thrift/state.rs:56-84 | when a refresh takes the ended task first, the operation ends as its task did with the first refresh to finish, whatever cancels come between, and is active until then |
| ServiceProtocol.StepKeeps | src/thrift.rs:113-780 | every step of any handler, task, refresher or cleanup keeps the invariant: both maps within their limits, and each operation's state true to its task and its handler |
| ServiceRuns.MapsBounded | src/thrift.rs:126-131 | in every reachable state the sessions and the operations stay within their configured limits |
| ServiceRuns.InOrder | src/thrift.rs:639-660 | of two observations of one returned handle, the later is the same, unless the earlier was RUNNING or the later is an invalid handle |
| ServiceRuns.HandleHistory | src/thrift/state.rs:187-201 | whatever moments a client polls at, GetOperationStatus sends it RUNNING for a while, then the status of one fixed terminal execution for a while, then that the handle is invalid |
| ServiceRuns.ReplyTells | src/thrift.rs:1306-1329 | that reply alone tells a client which of the three it is, and whether there is a result |
| ServiceRuns.SettledTruthfully | src/thrift/state.rs:138-178 | a result is the one the operation's own task completed with, an error is the task's own or that of a dead task, and a cancellation was asked for while it ran |
| ServiceRuns.ReportFindsRunning | src/thrift.rs:265-284 | when a GetColumns task overwrites the state of its operation, that state is RUNNING and nobody has been given the handle |
| ServiceRuns.ColumnsDisclosedFinished | src/thrift.rs:305-314 | a client that was given the handle of a GetColumns operation finds it finished, or not at all |
| ServiceRuns.ColumnsSlotDecided | src/thrift.rs:265-314 | at the step after which its task and handler are first both done, a GetColumns operation is in the map if and only if it was until then and its handle was returned, or the handler was dropped after the outcome was sent, or it was dropped before and the task died |
| ServiceRuns.ColumnsSlotGone | src/thrift.rs:283-292 | and it is in the map at any later time only in those cases |
| ServiceRuns.DeadTaskLeavesSlot | src/thrift.rs:713-734 | a run in which the task dies after its handler was dropped, and the operation stays |
| ServiceRuns.LateDropLeavesSlot | src/thrift.rs:305-314 | a run in which the handler is dropped once the task has sent it an error, and the operation stays |
| ServiceRuns.RemovedForReason | src/thrift.rs:599-780 | an operation leaves the map only when its client closes it, its session is gone, it ended longer ago than completed operations are kept, or its handle was never returned |
| LikePatterns.NeedleOf | src/engine.rs:1372-1379 | a pattern is recognized if and only if it is a needle without percent sign or underscore between two percent signs, and yields that needle |
| LikePatterns.LikeIsContains | src/engine.rs:826-838 | for every needle without wildcards, the recursive LIKE matcher agrees with containment on all strings if and only if the needle has no backslash |
| Rewriter.ChangedExactly | src/engine.rs:758-841 | the pass reports a change if and only if the tree it returns differs, for every expression |
| Rewriter.RewriteFunctionArgs | src/engine.rs:908-916 | the loop over a call's arguments rewrites each in place and reports whether any changed |
| Rewriter.CaptureIndexExact | src/engine.rs:1223-1235 | a replacement is recognized with a group number if and only if it is that number in digits after a dollar or a backslash, in braces or not, and fits 64 bits |
| RewriteMeaning.MinutesAgree | src/udf.rs:315-328 | for every 64-bit timestamp of every resolution, negative ones included, the minute computed is that of the civil day |
| RewriteMeaning.GetMeaning | src/engine.rs:1237-1306 | the expression built for `get` gives what zero-based indexing does, for NULL, error, negative, largest and out-of-range indexes alike; for an index that is no integer it does if and only if what the engine gives for it compared with zero, and with one added to it, is no index either |
| RewriteMeaning.GetAtNonInteger | src/engine.rs:1237-1306 | on an array, at an index that is no integer and that the engine finds below zero, the original is an error and what is built for it is NULL |
| RewriteMeaning.ElementAtMeaning | src/engine.rs:1177-1245 | the expression built for `element_at` means what it replaces if and only if it is not given an array and an integer |
| Templates.ExpandsToGroup | src/engine.rs:1223-1235 | of the replacements that are recognized as one group, exactly those not spelled with a backslash and braces expand to that group's text in every match |
| Templates.BracedBackslashOne | src/engine.rs:1223-1235 | the replacement `\{1}` is recognized as group 1 and expands to itself |
| RewriteMeaning.CaptureMeaning | src/udf.rs:519-537 | replacing the first match by one group, in any other spelling, is what the capture UDF does, including when nothing matches or the group took no part |
| RewriteMeaning.BracedBackslashDiffers | src/udf.rs:519-537 | with that spelling, where the pattern matches, the rewritten call agrees with the original if and only if the group matched the very text of the replacement |
| RewriteMeaning.CaptureTooLarge | src/udf.rs:415-425 | a recognized capture number that is no 64-bit integer makes the rewritten call fail where the original does not |
| RewriteMeaning.CaptureExact | src/engine.rs:1083-1112 | for a recognized replacement, the rewritten call gives what the original does for every engine, source and pattern, if and only if its number fits 64 signed bits and it is not spelled with a backslash and braces |
| RewriteMeaning.LikeMeaning | src/engine.rs:1341-1370 | the containment test gives what the recognized LIKE does, NULL and negation included, for a needle without backslash |
| RewritePreserves.CallRuleExact | src/engine.rs:796-825 | on any row, what the rules for `if`, `get` and `element_at` build gives the same as the call it replaces if and only if the call is within the conditions asked of it |
| RewritePreserves.RewritePreservesMeaning | src/engine.rs:758-889 | for every expression and every row on which each rule that applies is within its conditions, with all rules nested in one another, the rewritten expression gives the same value, NULL or error |
| Printing.ReadsBack | src/engine.rs:632-638 | a tree printed without adding parentheses reads back as itself, by precedence, if and only if each operand binds at least as tightly as its place requires |
| PrintedRewrite.RewriteReadsBack | src/engine.rs:617-638 | the statement handed on reads back as the rewritten tree if and only if the index of each rewritten `get` binds at least as tightly as + at its right edge, and no operator that binds tighter than NOT follows a LIKE that becomes one, for every expression that was itself read from a statement |
| PrintedRewrite.RewrittenIsRead | src/engine.rs:617-638 | and under the same condition, and no other, the expression that is read from it is the rewritten one |
| PrintedRewrite.StatementPreservesMeaning | src/engine.rs:617-638 | what is read from the statement handed on gives the same value, NULL or error as the expression that was given, under both conditions |
| Misreadings.GetMisread | src/engine.rs:1287-1306 | `get(a, x & 1)` is handed on as a statement that reads as another expression and gives another element |
| Misreadings.UnlikeMisread | src/engine.rs:1362-1370 | `x NOT LIKE '%a%' IS NULL` is handed on as a statement that reads as another expression and gives the opposite result |
| RewriteExhausts.RulesExhausted | src/engine.rs:758-889 | where rules apply at most where the pass looks, the rewritten expression has none left to apply, anywhere |
| RewriteExhausts.RewriteTwice | src/engine.rs:758-889 | on those expressions, running the pass again changes nothing and reports so |
| Pushdown.MetadataFilters.Collect | src/engine/information_schema.rs:611-636 | the recursive method gathers the names that a filter's equalities ask for, in either order and under nested AND |
| Pushdown.MetadataFilters.CollectAll | src/engine/information_schema.rs:603-609 | the loop over a list of filters gathers the names of all of them |
| Pushdown.PassingHolds | src/engine/information_schema.rs:601-662 | a row that passes all the filters carries, for each kind of name they ask for, one of the names asked for |
| PushdownRows.PushdownSound | src/engine/information_schema.rs:413-538 | for every list of filters, relation, scope and catalog whose listings agree with their rows, filtering the pruned enumeration gives the same rows in the same order as filtering the full one |
| PushdownRows.PruningExact | src/engine/information_schema.rs:413-538 | under the same condition the pruned enumeration is exactly the full one, in its order, without the rows that carry a name not asked for |
| PushdownExact.DisagreementLosesRow | src/engine/information_schema.rs:753-777 | whatever else is listed, and for every scope, a listed table whose rows carry another catalog, schema or table name is found in fewer rows with pushdown than without it, by the filter that asks for the name in the rows |
| PushdownExact.PushdownExactly | src/engine/information_schema.rs:413-538 | pushdown is sound for all filters if and only if the rows of every listed table carry the names it is listed under, for every relation, scope and service |
| PushdownRows.LoadRows | src/engine/information_schema.rs:392-538 | the nested loops over catalogs, schemas, tables and columns produce that enumeration, sorted where the relation is sorted |
| RowLists.SortIsStable | src/engine/information_schema.rs:971-984 | the sort keeps, in their order, all elements that compare equal to any given one |
| RowLists.FilterSort | src/engine/information_schema.rs:971-984 | filtering what was sorted is sorting what was filtered |
| MetadataPatterns.ContainsMetadataWildcard | src/engine/metadata/mod.rs:818-834 | the scan finds a wildcard that no backslash escapes, exactly when there is one |
| MetadataPatterns.StripMetadataEscapes | src/engine/metadata/mod.rs:836-851 | the scan drops each escaping backslash and keeps a trailing one |
| MetadataPatterns.MetadataPatternRegex | src/engine/metadata/mod.rs:879-904 | the scan builds the anchored expression piece by piece, escapes and a trailing backslash included |
| MetadataPatterns.ExactNameRule | src/engine/metadata/mod.rs:818-904 | the pattern matches a name exactly when the name is the stripped pattern up to case, for all names, if and only if the pattern has no unescaped wildcard |
| MetadataPatterns.CandidateAgreesWithListing | src/engine/metadata/mod.rs:424-462 | the single candidate for an exact name stands for exactly the listed names that matching would give |
| Ctas.OrphanKept | src/engine/write.rs:141-179 | data committed at a location stays as it is for as long as the location is unregistered, through any number of runs, crashes and retries, and with or without trailing slashes |
| Ctas.RegistersOwnCommit | src/engine/write.rs:176-189 | a run registers a table only at a location whose first version that same run committed |
| Ctas.OneCreator | src/engine/write.rs:153-157 | once a run has created the table at a location, no other ever does, in any history, whether that run has gone on, finished or crashed |
| Ctas.CreatorIsFirst | src/engine/write.rs:153-157 | the first entry of the location's log is that run, for good |
| Routing.WholeSegments | src/engine.rs:579-585 | a prefix covers a path if and only if it is empty or its segments begin the path's |
| Routing.ObjectStoreRouteRegistry.RecordStore | src/engine/catalog.rs:631-645 | after any recordings, the routes of a URL hold one route a prefix, with the store recorded last under it; other URLs are untouched |
| Routing.PrefixRoutingObjectStore.StoreForLocation | src/engine.rs:567-577 | the lookup gives the longest recorded prefix that covers the path, with the store most recently recorded under it, and none exactly when no recorded prefix covers it |
| Routing.OrderIndependent | src/engine.rs:396-403 | the answer depends on nothing but the latest store of each prefix |
| Routing.SwapKeepsLatest | src/engine/catalog.rs:631-645 | swapping two neighbouring recordings of different prefixes changes no prefix's latest store |

## Left out

- CacheProgress.NoDeadlock: says that some call can always move, not that the scheduler is fair to each; a loader that never returns, or is dropped midway, leaves its slot loading, as it does in the code.
- CacheRuns.ReadYourWrites: takes a load to see a version at least as new as the one committed when it began; the read itself is one step between the start and the end of the load.
- CacheProgress.OneLoader: is about slots, because an empty slot can be pruned before its creator claims it, so that one key may be loaded twice at once.
- ThriftRequests.RecordExact: asks that each list header that is kept name a type of the protocol, because an empty list with any other is accepted too; ListExact and UntypedListAccepted say when.
- FetchRoundTrip.ReplyIsOneMessage: takes each string, name and error text to fit its 32-bit length prefix, as Arrow's offsets make those of most columns do; a longer one would have its length cut by the writer's cast.
- RewritePreserves.RewritePreservesMeaning: asks that each rule that applies, outside branches that the row does not take, be within the conditions that GetMeaning, ElementAtMeaning, CaptureMeaning and LikeMeaning give; it evaluates each expression to one outcome, so a volatile index, which the rewritten `get` evaluates twice, is not covered.
- PrintedRewrite.RewriteReadsBack: is about words and levels, not characters; the quoting of names and strings and the lexer are not modelled, a call, CASE, EXTRACT, subscript or slice is a form with words of its own around its parts, and sqlparser, which prints and parses, is not part of this model.
- PrintedRewrite.RewrittenIsRead: takes the expressions the pass does not look into to be spelled like no other.
- RewriteMeaning.GetMeaning: takes arrays to be no longer than 64 bits can count, as Arrow's are.
- Templates.ExpandsToGroup: takes a reference to end with its last digit, and does not model references to groups by name, which no recognized replacement has.
- RewriteExhausts.RulesExhausted: asks that no rule apply within CASE or within the operands of LIKE and EXTRACT, which the pass does not visit.
- PushdownRows.PushdownSound: takes the listing calls to succeed, and a column that the remote schema spells otherwise than in lower case to be NULL.
- Ctas.OrphanKept: takes the creation of version 0 to be atomic, and no one to unregister a table.
- ServiceProtocol.StepKeeps: lets an operation start for any session, since a session may close between its lookup and the insertion; identifiers of operations that were not returned are taken to be unknown to clients.
- The AST is rewritten as a value and not in place; statements, queries, projection aliases and display names are not modelled, only expressions.
- The struct and field writers take closures; structures of fixed shape, such as the status, the result metadata and the column descriptions, are written as value trees in one piece, and a column's elements one by one.
- The request decoders are one loop over a table of wanted fields, since they differ in nothing else.
- How decimals, dates, timestamps, floats and nested values are displayed as text; a cell that has no display form is an error.
- Arrow's column layout: a batch is a sequence of rows, and a value a cell of it.
- The `row_filters` relation, the SHOW commands, the candidates for catalogs and tables, and the namespace splitting of GetColumns.
- The shape of a valid CTAS location, the schema and policy checks on the table it replaces, and its parser.
- Listing and copying through the routing object store, and the URL parsing that yields a prefix.
- Unquoted identifiers that differ from a field's name in case only: a dotted name and a subscript by a string are taken to be one access.
- HTTP, authentication, configuration, metrics, error redaction, GetInfo constants and the Unity client.
