# PL/Proxy executor, query builder and result stream in Dafny

PL/Proxy is a PostgreSQL procedural language. A function written in it runs
its body on one or more remote partitions (shards) and returns the rows they
send back. This project models the three sequential parts of that machinery:

* **The executor** (`src/execute.c`). Every shard connection is a
  seven-state machine: NONE, CONNECT_WRITE, CONNECT_READ, READY,
  QUERY_WRITE, QUERY_READ, DONE. It is driven by `prepare_conn`,
  `handle_conn`, `flush_connection`, `another_result`, `tune_connection`,
  `send_query`, `check_old_conn` and `check_timeouts`. Around it sits the
  per-call round:
  * partition tagging (all / exact / any / hash `& part_mask`);
  * the reset of `plproxy_clean_results`;
  * the launch pass;
  * the `poll()` wait set and its event dispatch;
  * the recheck pass with its timeouts;
  * the post-loop review that sums `ret_total`;
  * the targets of `remote_cancel`;
  * `cmp_branch`, which compares "MAJ.MIN.*" version strings.
* **The remote-SQL builder** (`src/query.c`). `QueryBuffer` turns `$n` and
  argument-name identifiers into positional `$k` / `$k::type` references.
  Each argument gets one SQL slot, recorded in `arg_lookup`.
  `plproxy_standard_query` generates `select * from f($1,...,$n)`.
* **The result stream** (`src/result.c`). `map_results` maps result columns
  to attributes by case-insensitive name. `walk_results` and
  `plproxy_result` hand out rows connection by connection.

How the code is modelled:

* Modules:
  * `ProxyTypes` (`types.dfy`) holds the shared records.
  * `Branch` (`branch.dfy`) holds `cmp_branch`.
  * `ConnMachine` (`connection.dfy`) holds one pure function per connection routine.
  * `Round` (`round.dfy`) holds one pure function per pass over the connection array.
  * `Execute` (`execute.dfy`) holds the class `Cluster`.
  * `Query` (`query.dfy`) holds the SQL builder and the class `QueryBuffer`.
  * `ResultStream` (`result.dfy`) holds the result stream and the class `ProxyFunc`.
* `Cluster` keeps `conn_list` as an `array<Conn>` together with `part_map`,
  `ret_total` and `ret_cur_conn`. Its methods update the array in place, as
  the C functions do. Each method is proved equal to the matching spec
  function in `ConnMachine` or `Round`, and the properties are proved about
  those functions.
* Every libpq call a routine makes is one field of a `Remote` record passed
  in. Examples: the sign of `PQflush`, the `PQconnectPoll` status, the
  results `PQgetResult` hands out. The clock (`now`) and `random()` are
  parameters too.
* Each fatal `plproxy_error` / `conn_error` site is a `Fail(error)` outcome.
  After a failure the model stops the pass, as the longjmp does in C.

## Model

| member | source | states |
|---|---|---|
| Branch.CmpBranch | src/execute.c:53-76 | The character loop returns true exactly when the two C strings (read up to their NUL) agree on everything before their second dot (`SameBranch`). |
| Branch.SameBranchEquivalence | src/execute.c:53-76 | `cmp_branch` is reflexive and symmetric. It is also transitive. |
| Branch.MajorMinorMatchesRelease | src/execute.c:61-65 | A bare "MAJ.MIN" is on the same branch as every "MAJ.MIN.rest". |
| Branch.StopsAtSecondDot | src/execute.c:71-73 | Two strings that share "MAJ.MIN." match, whatever follows the second dot. |
| Branch.DifferenceBeforeSecondDot | src/execute.c:67-69 | A differing character, or one string ending early, before the second dot gives false. |
| Branch.BranchExamples | src/execute.c:53-76 | "8.2" matches "8.2.5"; "8.2" does not match "8.20"; "8.3.1" matches "8.3.7". |
| ConnMachine.Flush | src/execute.c:78-93 | A positive PQflush gives QUERY_WRITE and zero gives QUERY_READ; a negative one is the FlushFailed error with the record unchanged; nothing but the state changes. |
| ConnMachine.CheckOldConn | src/execute.c:207-256 | A non-OK status, or a positive lifetime reached, means drop. Idle time under the check interval means keep. Past it, pending input means drop and a failed poll is an error. Keep holds only for an OK, not-too-old connection. |
| ConnMachine.Launch | src/execute.c:288-299 | The connect time becomes now. The state becomes CONNECT_WRITE unless PQconnectStart gave NULL. Pass holds exactly when the start succeeded. The tuning flag is cleared (see Findings). |
| ConnMachine.Prepare | src/execute.c:259-300 | DONE never survives. The result is READY and Pass exactly when the connection was READY/DONE and passed the liveness check, and then only the state changes. Any other success is CONNECT_WRITE with `connect_time = now`. Tags, cursor, result and query time are kept. |
| ConnMachine.Tune | src/execute.c:102-155 | `same_ver` is `cmp_branch` of the server version. With an encoding mismatch and tuning already on, the result is the "does not seem to apply" error and no SET is sent. With a mismatch and tuning off, the SET is sent, tuning goes on and a successful send goes to QUERY_WRITE/READ. With no mismatch, tuning goes off and nothing else changes. |
| ConnMachine.Send | src/execute.c:157-204 | The query time becomes now. While tuning no query goes out. A query goes out exactly when there is no encoding mismatch. It asks for binary results iff binary is enabled, the server is on the local branch and the return type can receive binary. Success leaves the connection in a QUERY state. |
| ConnMachine.TakeResult | src/execute.c:308-339 | NULL ends the query: READY while tuning, DONE otherwise. A first TUPLES_OK is stored and a second is the "double result?" error. COMMAND_OK is discarded. Any other status is the remote error. |
| ConnMachine.Drain | src/execute.c:376-391 | Draining succeeds iff no result is an error and at most one row set is held in all. That row set is kept. The query ends in READY while tuning and in DONE otherwise, once the end has arrived. Only state and result change. |
| ConnMachine.Handle | src/execute.c:346-397 | Connecting states follow PQconnectPoll: WRITING, READING and OK give CONNECT_WRITE, CONNECT_READ and READY; ACTIVE and FAILED are errors. QUERY_WRITE re-flushes. QUERY_READ consumes input and drains. NONE, READY and DONE are left as they are. Only the listed moves occur. |
| ConnMachine.CheckTimeouts | src/execute.c:512-540 | Error iff the current phase's timeout is positive and strictly exceeded: connect timeout in CONNECT states, query timeout in QUERY states. No other state times out. |
| ConnMachine.StaleTuningRejectsFreshConnection | src/execute.c:259-300 | As written, a connection left tuning by an aborted round is reconnected with tuning still on. Its first encoding mismatch then fails with "does not seem to apply". |
| ConnMachine.FreshConnectionIsTuned | src/execute.c:128-151 | With tuning cleared on reconnect, the same fresh connection gets its corrective SET instead of the error. |
| Round.HashSlot | src/execute.c:680-697 | The slot of a hash value (truncated to uint32 and ANDed with `part_mask`) never exceeds the mask. |
| Round.HashSlotIsModulo | src/execute.c:687-696 | With a mask 2^k-1 (k ≤ 32) the slot is the hash value modulo 2^k, negative values included. |
| Round.HashRowsSpec | src/execute.c:676-698 | The tagging loop succeeds iff no row is NULL and, when there are rows, the type is int2/int4/int8. It then tags exactly the slots of the rows. NULL and bad-type errors are distinct. |
| Round.HashTagging | src/execute.c:661-705 | `tag_hash_partitions` succeeds iff the rows tag cleanly and either there is exactly one row or the function returns a set. The "hashcount <> 1" error fires exactly on the other clean case. |
| Round.Tags | src/execute.c:749-770 | R_ALL tags slots `0..part_count-1`. R_EXACT tags its number when in range and fails otherwise. R_ANY tags one slot within the mask. R_HASH is `tag_hash_partitions`. An unset run type is an error. |
| Round.Start | src/execute.c:557-566 | One launch step: a success leaves the connection with I/O in flight. Tag and cursor are kept. |
| Round.LaunchFrom | src/execute.c:554-567 | The launch pass touches only tagged connections, each by one launch step. It leaves all of them in flight on success and keeps the connection invariant. |
| Round.WaitFrom | src/execute.c:435-463 | The poll set holds only tagged connections in CONNECT/QUERY states, in `conn_list` order without repeats. READ states poll for input and WRITE states for output. It has at most `conn_count` entries. |
| Round.WaitSetComplete | src/execute.c:435-463 | Every tagged connection in a CONNECT/QUERY state has its entry in the poll set. |
| Round.DispatchFrom | src/execute.c:476-509 | The dispatch changes only polled connections, each by one `handle_conn`. Tags and cursors stay, and the connection invariant is kept. `Round.DispatchHandles` states which connections are handled. |
| Round.DispatchHandles | src/execute.c:476-509 | On a successful dispatch, each waiting connection is handled by `handle_conn` exactly when its own poll entry reported an event. Its entry is the one at its position in the wait set. Otherwise it is left as it was. |
| Round.DispatchInStep | src/execute.c:497-507 | The dispatch meets the poll array in step with the connections, so the "fd order is messed up" warning never fires. |
| Round.Revisit | src/execute.c:585-596 | One recheck step: a connection whose login finished gets the query. A success leaves it not READY and within its timeouts. A connection that was not READY is unchanged and gets exactly the `check_timeouts` verdict. |
| Round.PendingZero | src/execute.c:580-594 | The pending count is zero iff every tagged connection is DONE. |
| Round.RecheckFrom | src/execute.c:579-597 | The recheck pass touches only tagged connections. A success leaves every tagged connection not READY and within its timeouts. |
| Round.Turn | src/execute.c:570-598 | One turn of the wait loop (recheck after every wakeup; see Findings rows 2 and 3, which this also changes for a call with nothing tagged). A success leaves every tagged connection not READY and within its timeouts. A failed poll() is an error with nothing changed. |
| Round.Wait | src/execute.c:570-598 | The wait loop ends successfully only with every tagged connection DONE. Untagged connections are untouched. |
| Round.SilentShardNeverTimesOut | src/execute.c:466-472 | As written, a turn whose poll() times out passes without error even though a tagged connection's query timeout has expired. |
| Round.SilentShardTimesOut | src/execute.c:579-597 | With the recheck run after a timed-out poll(), the same turn fails. |
| Round.NoTaggedSpinsAsWritten | src/execute.c:569-578 | As written, with no tagged connection the poll set is empty. Over wakeups that are timeouts or EINTR, the only ones such a poll() gives, `pending` is never recounted. The loop ends only on cancellation or when the wakeups run out, with nothing changed. |
| Round.NoTaggedPasses | src/execute.c:543-624 | With the recheck after every wakeup, `remote_execute` with no tagged connection ends at its first timed-out or interrupted wakeup, successfully, with nothing changed and `ret_total` as it was. |
| Round.EmptyHashCallPasses | src/execute.c:661-705 | A set-returning function whose hash query returns no rows tags nothing. The corrected call then succeeds with no rows. |
| Round.ReviewFrom | src/execute.c:600-623 | The review passes iff every connection holds a result exactly when tagged and every tagged one is DONE with a row set. `ret_total` grows by the tagged row counts. The "Lost result" check can never fire. |
| Round.RemoteExecute | src/execute.c:543-624 | Launch, wait and review keep the tags and never touch an untagged connection. |
| Round.RemoteExecuteComplete | src/execute.c:543-624 | A successful run leaves every tagged connection DONE with a result and every untagged one untouched and without a result. `ret_total` is the sum of the tagged row counts. |
| Round.ReviewAfterWait | src/execute.c:604-619 | Once results sit exactly on tagged connections, the review fails only for an unfinished connection. |
| Round.Cleaned | src/execute.c:708-732 | Clean records have no result, cursor 0 and no tag, with every state kept. |
| Round.CallComplete | src/execute.c:735-815 | A successful call ran exactly on the connections the tagged partitions map to, each DONE with a row set. Every other connection keeps its state and holds no result. `ret_total` is the sum of the row counts. |
| Round.ExactOutOfRange | src/execute.c:758-761 | An exact partition number outside `[0, part_count)` fails before any connection is tagged or contacted. |
| Execute.Cluster.FlushConnection | src/execute.c:78-93 | Updates connection i in place to `Flush` of it and leaves the others. |
| Execute.Cluster.TuneConnection | src/execute.c:102-155 | Updates connection i in place to `Tune` of it and leaves the others. |
| Execute.Cluster.SendQuery | src/execute.c:157-204 | Updates connection i in place to `Send` of it and reports the query sent. |
| Execute.Cluster.PrepareConn | src/execute.c:259-300 | Updates connection i in place to `Prepare` of it. |
| Execute.Cluster.AnotherResult | src/execute.c:308-339 | Updates connection i in place to `TakeResult` of it. |
| Execute.Cluster.HandleConn | src/execute.c:346-397 | Updates connection i in place to `Handle` of it. |
| Execute.Cluster.DrainResults | src/execute.c:381-391 | The `another_result` loop leaves connection i as `Drain` specifies. |
| Execute.Cluster.CleanResults | src/execute.c:708-732 | Resets `ret_total` and `ret_cur_conn` to 0 and every record to `Cleaned`, keeping states and the cluster invariant. |
| Execute.Cluster.TagHashPartitions | src/execute.c:661-705 | Tags exactly the connections `part_map` gives for the slots `HashTagging` computes, with its status. |
| Execute.Cluster.Tag | src/execute.c:748-770 | Tags exactly the connections `part_map` gives for the slots `Tags` computes, with its status. |
| Execute.Cluster.Launch | src/execute.c:554-567 | The launch loop leaves the array as `LaunchFrom` specifies. |
| Execute.Cluster.BuildWaitSet | src/execute.c:435-463 | The poll array built is `WaitFrom` of the connections. |
| Execute.Cluster.PollConns | src/execute.c:405-510 | With events, the array becomes `DispatchFrom` of it. A timed-out or interrupted poll() changes nothing and passes. A failed one is an error. The poll entry visited for each connection is that connection's own. |
| Execute.Cluster.Dispatch | src/execute.c:477-509 | The dispatch loop leaves the array as `DispatchFrom` specifies. Each waiting connection takes its own poll entry. |
| Execute.Cluster.TakeTurn | src/execute.c:574-597 | One turn (poll, then recheck) leaves the array and status as `Turn` specifies. The recheck also runs after a timed-out poll; see Findings. On success `pending` counts the tagged connections not DONE. |
| Execute.Cluster.WaitLoop | src/execute.c:570-598 | The `while (pending)` loop leaves the array and status as `Wait` specifies over the wakeups. |
| Execute.Cluster.RevisitConn | src/execute.c:589-596 | Updates connection i in place to `Revisit` of it. |
| Execute.Cluster.Recheck | src/execute.c:579-597 | The recheck loop leaves the array as `RecheckFrom` specifies. On success `pending` is the number of tagged connections not DONE. |
| Execute.Cluster.Review | src/execute.c:600-623 | Adds the tagged row counts to `ret_total` with the verdict of `ReviewFrom`. The array is unchanged. |
| Execute.Cluster.RemoteExecute | src/execute.c:543-624 | Leaves connections, status and `ret_total` exactly as `Round.RemoteExecute` specifies. |
| Execute.Cluster.RemoteCancel | src/execute.c:626-658 | Cancel goes to every connection not in NONE, READY or DONE, and only to those, in array order. |
| Execute.Cluster.Exec | src/execute.c:735-815 | Clean, tag and execute, ending exactly as `Call` specifies. On cancellation the cancel list is sent; otherwise nothing is cancelled. |
| Query.AtoiOfDigits | src/query.c:74-78 | `atoi` reads back the decimal number `sprintf("%d")` wrote, whatever non-digit text follows it. |
| Query.FindFrom | src/query.c:101-108 | The search finds the first argument whose name equals the identifier case-insensitively, or reports that none does. |
| Query.ResolveIdent | src/query.c:93-109 | A resolved parameter is an existing argument. Only a non-`$` identifier is copied verbatim. |
| Query.ResolveRules | src/query.c:93-109 | "$n" is invalid iff n (non-numeric text reads as 0) is outside 1..arg_count, and otherwise names argument n-1. A bare identifier is never invalid. It is verbatim iff no argument has its name, and otherwise names the first such argument. |
| Query.RefResolves | src/query.c:69-80 | A reference `add_ref` writes for slot `sqlIdx`, with or without its `::type`, reads back as slot number `sqlIdx` (`$` followed by sqlIdx+1). It names the argument that slot carries only under the identity lookup of the standard query. |
| Query.Position | src/query.c:112-119 | The slot search finds the first slot carrying the argument, or the end of the table. |
| Query.BindSlot | src/query.c:110-124 | The slot used carries the argument. An argument seen before reuses its first slot and the table is unchanged. A new one is appended. The table grows by at most one. |
| Query.LookupFits | src/query.c:52 | A table of distinct argument indexes below n has at most n entries, so the `arg_lookup` allocation is never overrun. |
| Query.BindKeepsLookupOk | src/query.c:110-124 | Binding a valid argument keeps the entries distinct and in range. |
| Query.AddIdentKeepsLookup | src/query.c:86-130 | Adding an identifier keeps the table invariant and only extends text and table, by at most one slot. A refused "$n" adds nothing. |
| Query.QueryBuffer.constructor | src/query.c:43-54 | A new buffer has empty text, no slots, and room for `arg_count` slots. |
| Query.QueryBuffer.AddConst | src/query.c:59-64 | Appends the fragment verbatim and always returns true. |
| Query.QueryBuffer.AddIdent | src/query.c:86-130 | Text, slot table and verdict change exactly as `AddIdentSpec` specifies, keeping the buffer invariant. |
| Query.QueryBuffer.FindArgument | src/query.c:101-108 | The name loop yields the first case-insensitive match, or -1. |
| Query.QueryBuffer.FindSlot | src/query.c:112-119 | The slot loop yields the first slot carrying the argument, or -1. |
| Query.QueryBuffer.Finish | src/query.c:135-165 | The query handed on has the buffer's text and its first `arg_count` slots unchanged. The slots are distinct argument indexes and `arg_count` ≤ the argument count. |
| Query.StandardQuery | src/query.c:170-201 | The text is exactly "select * from " + name + "(" + "$1,...,$n" (each optionally "::type") + ")". `arg_count` is the argument count and `arg_lookup[i] = i`. |
| Query.StandardMatchesBuffer | src/query.c:181-197 | The standard query's references are what `add_ident` of each argument in turn would produce, slot table included. |
| ResultStream.NameMatches | src/result.c:29-39 | True iff the column exists with a name equal to the attribute case-insensitively. A nameless column is the "Unnamed result column" error, numbered from 1. |
| ResultStream.SearchFrom | src/result.c:78-92 | The search returns the first matching column other than the attribute's own. It reports a missing field exactly when no other column matches, and otherwise fails only on an unnamed column. |
| ResultStream.ColumnForFound | src/result.c:71-92 | The column found carries the attribute's name. When the attribute's own column matches, the column is that one (fast path). Otherwise it is the first other match. |
| ResultStream.ColumnForComplete | src/result.c:66-96 | When all columns are named, an attribute is mapped iff some column carries its name, and otherwise the error is "does not exists". |
| ResultStream.MapFrom | src/result.c:66-96 | The attribute loop maps every attribute through its column search and fails exactly when one of the searches fails, with that error. |
| ResultStream.MappingSound | src/result.c:42-112 | A successful composite mapping has one column per attribute. Every entry is an existing column carrying the attribute's name, and an attribute whose own column matches reads it. |
| ResultStream.MappingErrors | src/result.c:52-96 | A scalar function fails iff the column count is not one. Too few and too many columns are distinct errors. Otherwise only an unnamed column or a missing field fails. |
| ResultStream.MappingComplete | src/result.c:66-96 | With every column named and every attribute named by some column, a composite mapping succeeds. |
| ResultStream.MappingNotInjective | src/result.c:84-91 | Two attributes can map to the same column ("a" and "A" both read column "a"). |
| ResultStream.SearchColumn | src/result.c:78-92 | The inner loop computes `SearchFrom`. |
| ResultStream.MapResults | src/result.c:42-112 | Reports the verdict of the mapping. On success `result_map` holds it for a composite type; a scalar type leaves `result_map` alone. |
| ResultStream.NextFrom | src/result.c:120-128 | The connection the walk stops at is the first from the cursor that has unread rows, or the end. |
| ResultStream.WalkFindsRow | src/result.c:115-137 | While the stream invariant holds, `ret_total` is never negative. It is positive iff the walk finds a connection with unread rows, so "bug: no result" is reached only after the last row. |
| ResultStream.StreamStep | src/result.c:115-221 | Handing out one row keeps the stream invariant: the cursor moves, that connection's `pos` grows by one and `ret_total` drops by one. The invariant covers the unread count, connections past the cursor untouched, and a composite `result_map` equal to the cursor connection's column mapping once it has handed out a row. The map in force (rebuilt on the first row, otherwise kept) is that connection's mapping, so every composite row is read through the mapping of its own result. |
| ResultStream.StreamStart | src/execute.c:600-623 | After a successful review (every result from row 0), `ret_total` equals the number of unread rows, so the stream invariant holds whatever `result_map` holds. |
| ResultStream.WalkResults | src/result.c:115-138 | `ret_cur_conn` advances, never back, to the first connection with unread rows. The end is the "no result" error. The mapping is computed exactly when that connection's `pos` is 0. |
| ResultStream.SlotRoundTrip | src/result.c:155-166 | The value/length/format slot of a cell gives back the cell. A NULL cell gives value NULL, length 0 and format 0. |
| ResultStream.ReturnComposite | src/result.c:140-170 | Output slot i reads column `result_map[i]` of the current row, for every attribute. |
| ResultStream.ReturnScalar | src/result.c:172-200 | A void type gives the void datum. Otherwise a NULL cell gives the NULL datum (isnull), and a non-NULL cell gives a value, exactly then, holding the cell of column 0 with its format. |
| ResultStream.NextResult | src/result.c:202-221 | One call moves the cursor to the walk's connection and returns that row's value. It then decrements `ret_total` by one and increments only that connection's `pos` by one. A failure changes neither. On a connection's first row a composite `result_map` becomes that result's column mapping (`map_results`). On later rows, and for a scalar, the map is unchanged. The stream invariant is kept, and under it a composite row is always read through its own result's mapping. |

## Left out

- The libpq transport is not executed; each call's answer is an input.
  Sockets, `PQfinish`, `PQgetCancel`/`PQcancel` and the error text of
  `PQerrorMessage` are not modelled. `Drain` takes the sequence of results
  `PQgetResult` hands out before `PQisBusy`, plus whether the end marker
  follows.
- `poll()` is an input outcome: events, timeout, interrupted or failed. The
  EINTR retry of `check_old_conn` is folded into its input. The `pfd_cache`
  buffer and its realloc policy are not modelled; the poll array is a fresh
  sequence.
- The `while (pending)` loop depends on the remote servers, so its
  termination is not modelled. `Round.Wait` consumes a finite script of
  wakeups and reports the modelling-only outcome `EventsExhausted` when
  the script runs out.
- `gettimeofday` is the `now` parameter and `random()` is a parameter of
  R_ANY. The model reads the clock once per pass; C reads it once per
  `prepare_conn` and `send_query` as well.
- SPI execution of the hash query (`plproxy_query_exec`) is replaced by the
  type and rows it returns. `plproxy_query_prepare`, `plproxy_query_exec`
  and `plproxy_query_freeplan` (query.c after line 201) are not part of
  this model.
- The value codec is not modelled. This covers `plproxy_send_type`,
  `plproxy_recv_type`, `plproxy_recv_composite` and the argument marshalling
  loop (src/execute.c:772-796). `retBinary` says only whether the return
  type can receive binary.
- Error unwinding (PG_TRY/PG_CATCH, `CHECK_FOR_INTERRUPTS`, `elog`) is
  modelled as a `Fail` status that stops the pass, with cancellation as a
  flag of the wakeup. Warnings and notices are not modelled.
- Memory management is not modelled: palloc, pfree, StringInfo, and the
  freeing in `plproxy_query_finish`.
- Query.Ref: the fixed `char tmp[32]` that `add_ref` fills with
  `sprintf` is modelled as concatenation with no length bound. In C a
  reference of 32 characters or more overflows it, e.g.
  `$10::timestamp without time zone` (32 characters plus the NUL). The
  model does not capture that overflow.
- The disabled `if (0)` OID check of `map_results` is dead code and is left out.
- Construction of `part_map` (cluster.c) is not part of this model.
  `Cluster.Valid` requires `part_map` to cover the mask and `part_count`.
  What slots at or above `part_count` map to is left unconstrained.
- `plproxy_disconnect` and the rest of cluster.c are not part of this model.
- Query.Atoi: `atoi` overflow on very long digit strings is not modelled;
  numbers are unbounded.
- Query.FindFrom: `strcasecmp` is modelled as ASCII case folding, the C
  locale's rule.
- NULL pointers are not modelled: a NULL cluster in
  `plproxy_clean_results`/`remote_cancel`, and a NULL `server_version`
  passed to `cmp_branch`. The version is always a string.
- Execute.Cluster.RemoteCancel: following the code, it selects every
  connection whose state is not NONE/READY/DONE, tagged or not.
  `PQgetCancel` failures only print a notice and are not modelled.
- ResultStream.ReturnScalar: the "unexcpected NULL" check on a non-null
  `PQgetvalue` cannot fail in this model, since a non-null cell always has
  a value.
- ResultStream.NextResult: when the mapping fails on the first row of a
  connection, `ret_cur_conn` has already moved to that connection, as in C.

## Findings

| source | as written | input that shows it | evidently intended | confidence | as-written member | corrected member |
|---|---|---|---|---|---|---|
| src/execute.c:259-300 | `prepare_conn` drops a stale connection and launches a new one without clearing `conn->tuning`. | A round fails (a query timeout, say) while the corrective `set client_encoding` is in flight on a connection, so `tuning = 1` and the state is QUERY_READ. The next call reconnects. After login the encodings still differ, and `tune_connection` reports "-- does not seem to apply" on a connection that never received the SET. | A new connection starts its tuning afresh (`tuning = 0`), so it gets its SET. | not executed; the stale path of `prepare_conn` (lines 280-284) clears `db` and the state and never touches `tuning`. The claim relies on no code on the error path between two calls resetting `conn->tuning`, and that code is not part of this model | ConnMachine.StaleTuningRejectsFreshConnection | ConnMachine.FreshConnectionIsTuned |
| src/execute.c:466-472 | When `poll()` times out or is interrupted, `poll_conns` returns 0 and the `continue` at line 577 skips the recheck pass, so `check_timeouts` is never called in that turn. | A tagged connection in QUERY_READ whose server never answers, with `query_timeout > 0` already exceeded. Every turn's `poll()` times out, no turn checks timeouts, and the call waits with no end. | The recheck, and so the timeout check, runs after every wakeup. The silent shard then fails with a timeout. | not executed | Round.SilentShardNeverTimesOut | Round.SilentShardTimesOut |
| src/execute.c:569-578 | `pending` starts at 1 and is recounted only in the recheck pass, which the `continue` at lines 577-578 skips whenever `poll()` times out or is interrupted. | A set-returning function whose hash query returns no rows; lines 700-703 accept that. No connection is tagged, so `poll_conns` polls zero descriptors and `poll()` can only time out. `pending` stays 1 and the loop repeats until the query is cancelled. | With nothing to wait for, the call ends at once with no rows. | not executed | Round.NoTaggedSpinsAsWritten | Round.NoTaggedPasses |
