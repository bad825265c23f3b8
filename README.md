# Explicit transaction of the Neo4j Java driver, in Dafny

This project models `ExplicitTransaction`. That is the driver's client-side state machine for a single user-controlled transaction. It holds one of six states (`ACTIVE`, `MARKED_SUCCESS`, `MARKED_FAILED`, `FAILED`, `COMMITTED`, `ROLLED_BACK`) and a causal-consistency bookmark. Its operations decide which protocol messages go to the connection (`BEGIN`, a statement's `RUN`, `COMMIT`, `ROLLBACK`, each followed by `PULL_ALL`), when it waits with `sync()`, and when it notifies its owner. There are two execution paths: a blocking one, driven by try/catch/finally, and a non-blocking one, built from futures.

Modules:

- `TxStates` (`tx_states.dfy`): the pure state machine. It has the states, the `success()`/`failure()` transitions, the `isOpen()` and `ensureNotFailed()` predicates, the intended lifecycle table (after the `State` javadoc, lines 62-81), and the bookmark with its `setBookmark` rule.
- `Protocol` (`protocol.dfy`): the messages, the log of connection calls (`run`, `pullAll`, `flush`, `sync`), and the errors. It also defines the outcomes that stand in for the connection: `Reply` for a blocking exchange, which either returns or throws at one of its calls, and `Response` for a non-blocking reply.
- `TxSpec` (`tx_spec.dfy`): one function per operation. Each maps the observable transaction before the call to the transaction after it and the call's result. The observable transaction is the state, the bookmark, the call log, the handler and session notification counts, and the release count. Each function's `ensures` states the behaviour the source promises.
- `Transaction` (`transaction.dfy`): the class `ExplicitTransaction`. Its fields are assigned step by step, as in the source. Every method is proved to produce exactly the state and result that the matching `TxSpec` function gives.
- `TxTraces` (`tx_traces.dfy`): properties of arbitrary sequences of operations, proved by induction; lemmas that exhibit where the code departs from the intended lifecycle; and typical call sequences as scenario lemmas.
- `Findings` (`findings.dfy`): three places where the code departs from what its comments and callers evidently intend. Each has an as-written lemma and a corrected definition (see "## Findings").

The connection is replaced by parameters:

- `usable` stands for `connection != null && connection.isOpen()`. The class passes `blocking && connOpen`, because a transaction built over an asynchronous connection has no blocking connection.
- The blocking `Reply` says which call, if any, throws.
- Asynchronous operations run sequentially. Each one receives the responses to the exchanges it dispatched and applies their completion callbacks (the handler's `setBookmark`, the state change, then `txClosed`'s release and session notification) before it returns. Responses are applied in the order the requests were sent.
- `ErrorUtil.isRecoverable(error)` is a boolean parameter of `ResultFailed`.

In these places the code does not do what the `State` javadoc, the todo comments or the usual contract of a transaction would lead one to expect. The model follows the code:

- `run` is refused in `MARKED_FAILED`, although marking for failure only means the transaction will be rolled back.
- `run` is accepted in `COMMITTED` (`Findings.CommittedAcceptsRun`).
- Every `close()` notifies the resources handler, including repeated ones (`TxTraces.SecondCloseIsQuiet`).
- A commit failure whose fallback rollback also fails leaves `MARKED_SUCCESS`, so the transaction is still open (`Findings.FailedFallbackStaysMarkedSuccess`).
- Likewise, when `close()` on `ACTIVE` or `MARKED_FAILED` runs `rollbackTx()` and it throws, the state is left as it was: the transaction stays open and the next `close()` sends `ROLLBACK` again (`TxTraces.FailedRollbackStaysOpen`).
- `markToClose()` and a fatal `resultFailed` set `FAILED` even from a finished state (`TxTraces.TableExceptions`, `TxTraces.MarkToCloseReopens`).
- `closeAsync()` on `MARKED_SUCCESS` dispatches both `COMMIT` and `ROLLBACK` (`Findings.CloseAsyncRollsBackAfterCommit`).
- The release of the asynchronous connection is not tied to the transaction finishing. `txClosed` releases on every completion, failed ones included: two failed `commitAsync()` calls release twice and the transaction stays open (`TxTraces.FailedCommitsReleaseTwice`). What holds is that only a call on an open transaction releases (`TxTraces.ReleaseOnlyWhileOpen`).
- `closeAsync()` on `FAILED` finishes the transaction as `ROLLED_BACK` without releasing the connection or notifying the session (`TxTraces.CloseAsyncFromFailedReleasesNothing`).
- `commitAsync()` on `FAILED` or `MARKED_FAILED` sends `COMMIT`, although the `FAILED` javadoc (lines 71-73) says no more messages are sent; an acknowledged `COMMIT` then ends `COMMITTED` (`TxTraces.CommitAsyncAfterFailure`).
- `commitAsync()` on `ROLLED_BACK` and `rollbackAsync()` on `COMMITTED` succeed without sending anything, where the todo comments at lines 222 and 241 say they should fail (`TxTraces.FinishedAsyncScenario`).

## Model

| member | source | states |
|---|---|---|
| `TxStates.IsOpen` | driver/src/main/java/org/neo4j/driver/internal/ExplicitTransaction.java:420-423 | a transaction is open exactly while the lifecycle still allows rolling it back, that is, until COMMITTED or ROLLED_BACK |
| `TxStates.RunRefused` | driver/src/main/java/org/neo4j/driver/internal/ExplicitTransaction.java:425-435 | statements are accepted exactly in ACTIVE, MARKED_SUCCESS and COMMITTED |
| `TxStates.MarkSuccess` | driver/src/main/java/org/neo4j/driver/internal/ExplicitTransaction.java:142-149 | success() changes the state only from ACTIVE, and only to MARKED_SUCCESS |
| `TxStates.MarkFailure` | driver/src/main/java/org/neo4j/driver/internal/ExplicitTransaction.java:151-158 | failure() changes the state exactly from ACTIVE or MARKED_SUCCESS, and only to MARKED_FAILED |
| `TxStates.MarkingsFollowTable` | driver/src/main/java/org/neo4j/driver/internal/ExplicitTransaction.java:142-158 | both markings make only moves allowed by the lifecycle table, and never move a committed or rolled-back transaction |
| `TxStates.MarksClosedForm` | driver/src/main/java/org/neo4j/driver/internal/ExplicitTransaction.java:142-158 | any sequence of success()/failure() calls ends in a state fixed by the start state and by which calls occur: a failure() from ACTIVE or MARKED_SUCCESS wins, and other states never move |
| `TxStates.UpdateBookmark` | driver/src/main/java/org/neo4j/driver/internal/ExplicitTransaction.java:473-479 | a null or empty bookmark is ignored and any other one replaces the current one, so a non-empty bookmark stays non-empty |
| `TxStates.UpdatesKeepLatest` | driver/src/main/java/org/neo4j/driver/internal/ExplicitTransaction.java:468-479 | over any sequence of setBookmark calls: the bookmark never returns to empty, it is the initial bookmark or one that was offered, and the last non-empty one offered is kept |
| `TxSpec.Initial` | driver/src/main/java/org/neo4j/driver/internal/ExplicitTransaction.java:89-90 | a new transaction is ACTIVE, hence open, accepting statements and markable for success, with an empty bookmark and nothing sent, notified or released |
| `TxSpec.Begin` | driver/src/main/java/org/neo4j/driver/internal/ExplicitTransaction.java:108-119 | begin sends BEGIN with the bookmark, then PULL_ALL, and syncs only for a non-empty bookmark; an error raised by the connection is passed through; the state is unchanged |
| `TxSpec.BeginAsync` | driver/src/main/java/org/neo4j/driver/internal/ExplicitTransaction.java:121-140 | with an empty bookmark, BEGIN and PULL_ALL are queued without a flush and the promise succeeds at once; otherwise they are flushed and the promise takes the server's reply |
| `TxSpec.EnsureNotFailed` | driver/src/main/java/org/neo4j/driver/internal/ExplicitTransaction.java:425-435 | the ClientException with the fixed message is raised exactly in FAILED, MARKED_FAILED and ROLLED_BACK |
| `TxSpec.Run` | driver/src/main/java/org/neo4j/driver/internal/ExplicitTransaction.java:374-397 | a refused run changes nothing and raises the ClientException; the connection is called exactly when the run is not refused; a Neo4jException while dispatching sets FAILED and is rethrown; any other error is rethrown without a state change |
| `TxSpec.RunAsync` | driver/src/main/java/org/neo4j/driver/internal/ExplicitTransaction.java:399-417 | refused in the same states as run, with nothing sent; otherwise RUN, PULL_ALL and flush are dispatched and the call succeeds |
| `TxSpec.RollbackTx` | driver/src/main/java/org/neo4j/driver/internal/ExplicitTransaction.java:208-214 | ROLLBACK, PULL_ALL, sync; on success the state becomes ROLLED_BACK and the bookmark is updated; on error nothing but the call log changes and the error is raised |
| `TxSpec.CommitOnClose` | driver/src/main/java/org/neo4j/driver/internal/ExplicitTransaction.java:167-188 | COMMIT, PULL_ALL, sync: on success COMMITTED with the commit's bookmark; on a commit error a best-effort ROLLBACK is sent, its error swallowed, and the commit error raised; ROLLED_BACK only if that rollback succeeds; after a rollback the bookmark is the rollback's when it replied and unchanged otherwise |
| `TxSpec.RollbackOnClose` | driver/src/main/java/org/neo4j/driver/internal/ExplicitTransaction.java:190-193 | the rollback branch of close is exactly rollbackTx and sends no COMMIT |
| `TxSpec.Close` | driver/src/main/java/org/neo4j/driver/internal/ExplicitTransaction.java:160-206 | every path notifies the handler exactly once; an unusable connection or a finished transaction only notifies; FAILED becomes ROLLED_BACK without a message; MARKED_SUCCESS commits, and on a commit error falls back to ROLLBACK and raises the commit error; ACTIVE and MARKED_FAILED roll back without COMMIT; after a rollback the bookmark is the rollback's when it replied and unchanged otherwise |
| `TxSpec.DoCommitAsync` | driver/src/main/java/org/neo4j/driver/internal/ExplicitTransaction.java:287-293 | doCommitAsync up to flush appends exactly COMMIT, PULL_ALL and flush, and changes nothing else |
| `TxSpec.CommitCompleted` | driver/src/main/java/org/neo4j/driver/internal/ExplicitTransaction.java:295-302 | the commit reply's completion: on success COMMITTED with the reply's bookmark recorded, on failure nothing changes; the outcome is the reply's |
| `TxSpec.DoRollbackAsync` | driver/src/main/java/org/neo4j/driver/internal/ExplicitTransaction.java:305-310 | doRollbackAsync up to flush appends exactly ROLLBACK, PULL_ALL and flush, and changes nothing else |
| `TxSpec.RollbackCompleted` | driver/src/main/java/org/neo4j/driver/internal/ExplicitTransaction.java:312-319 | the rollback reply's completion: on success ROLLED_BACK with the bookmark untouched, on failure nothing changes; the outcome is the reply's |
| `TxSpec.TxClosed` | driver/src/main/java/org/neo4j/driver/internal/ExplicitTransaction.java:274-285 | txClosed keeps the operation's outcome and adds exactly one release and one session notification |
| `TxSpec.Fallback` | driver/src/main/java/org/neo4j/driver/internal/ExplicitTransaction.java:258 | the assumed Futures.fallback: it succeeds exactly when either operation succeeds, succeeds whenever the first does, and otherwise gives the second one's error |
| `TxSpec.InternalCommitAsync` | driver/src/main/java/org/neo4j/driver/internal/ExplicitTransaction.java:222-233 | on a finished transaction: already successful, with nothing sent, released or notified; otherwise COMMIT is dispatched, COMMITTED is reached only on success, and the connection is released and the session notified exactly once |
| `TxSpec.InternalRollbackAsync` | driver/src/main/java/org/neo4j/driver/internal/ExplicitTransaction.java:241-252 | the same, for ROLLBACK and ROLLED_BACK; the bookmark is untouched |
| `TxSpec.CloseAsync` | driver/src/main/java/org/neo4j/driver/internal/ExplicitTransaction.java:254-272 | MARKED_SUCCESS dispatches COMMIT and then ROLLBACK, and its result is the commit's success or else the rollback's outcome; ACTIVE and MARKED_FAILED act as internalRollbackAsync; FAILED becomes ROLLED_BACK with nothing sent or released; a finished transaction is untouched |
| `TxSpec.ResultFailed` | driver/src/main/java/org/neo4j/driver/internal/ExplicitTransaction.java:449-466 | a recoverable error acts exactly as failure(); any other error sets FAILED whatever the prior state; nothing else changes |
| `Transaction.ExplicitTransaction.OverConnection` | driver/src/main/java/org/neo4j/driver/internal/ExplicitTransaction.java:92-98 | a blocking transaction starts ACTIVE with an empty bookmark and nothing sent |
| `Transaction.ExplicitTransaction.OverAsyncConnection` | driver/src/main/java/org/neo4j/driver/internal/ExplicitTransaction.java:100-106 | a non-blocking transaction starts in the same way |
| `Transaction.ExplicitTransaction.Exchange` | driver/src/main/java/org/neo4j/driver/internal/ExplicitTransaction.java:171-173 | one blocking exchange (run, pullAll, then sync or flush when given), as in begin at lines 112-117, rollbackTx at 210-212 and run at 383-387: the calls made are appended to the log up to and including the one that throws, the thrown error is returned, and nothing else changes |
| `Transaction.ExplicitTransaction.Begin` | driver/src/main/java/org/neo4j/driver/internal/ExplicitTransaction.java:108-119 | leaves the object as TxSpec.Begin says |
| `Transaction.ExplicitTransaction.BeginAsync` | driver/src/main/java/org/neo4j/driver/internal/ExplicitTransaction.java:121-140 | leaves the object as TxSpec.BeginAsync says |
| `Transaction.ExplicitTransaction.Success` | driver/src/main/java/org/neo4j/driver/internal/ExplicitTransaction.java:142-149 | only the state changes, and it changes as MarkSuccess says |
| `Transaction.ExplicitTransaction.Failure` | driver/src/main/java/org/neo4j/driver/internal/ExplicitTransaction.java:151-158 | only the state changes, and it changes as MarkFailure says |
| `Transaction.ExplicitTransaction.Close` | driver/src/main/java/org/neo4j/driver/internal/ExplicitTransaction.java:160-206 | leaves the object as TxSpec.Close says, with `usable` = blocking and connection open |
| `Transaction.ExplicitTransaction.RollbackTx` | driver/src/main/java/org/neo4j/driver/internal/ExplicitTransaction.java:208-214 | leaves the object as TxSpec.RollbackTx says |
| `Transaction.ExplicitTransaction.InternalCommitAsync` | driver/src/main/java/org/neo4j/driver/internal/ExplicitTransaction.java:216-233 | leaves the object as TxSpec.InternalCommitAsync says |
| `Transaction.ExplicitTransaction.InternalRollbackAsync` | driver/src/main/java/org/neo4j/driver/internal/ExplicitTransaction.java:235-252 | leaves the object as TxSpec.InternalRollbackAsync says |
| `Transaction.ExplicitTransaction.CloseAsync` | driver/src/main/java/org/neo4j/driver/internal/ExplicitTransaction.java:254-272 | leaves the object as TxSpec.CloseAsync says |
| `Transaction.ExplicitTransaction.TxClosed` | driver/src/main/java/org/neo4j/driver/internal/ExplicitTransaction.java:274-285 | exactly one release and one session notification; nothing else changes |
| `Transaction.ExplicitTransaction.DoCommitAsync` | driver/src/main/java/org/neo4j/driver/internal/ExplicitTransaction.java:287-293 | appends COMMIT, PULL_ALL and flush to the call log and changes nothing else |
| `Transaction.ExplicitTransaction.CommitResponded` | driver/src/main/java/org/neo4j/driver/internal/ExplicitTransaction.java:295-302 | when the commit reply succeeds, the bookmark is recorded and the state becomes COMMITTED; when it fails, the error is returned and nothing changes |
| `Transaction.ExplicitTransaction.DoRollbackAsync` | driver/src/main/java/org/neo4j/driver/internal/ExplicitTransaction.java:305-310 | appends ROLLBACK, PULL_ALL and flush to the call log and changes nothing else |
| `Transaction.ExplicitTransaction.RollbackResponded` | driver/src/main/java/org/neo4j/driver/internal/ExplicitTransaction.java:312-319 | when the rollback reply succeeds, the state becomes ROLLED_BACK; when it fails, the error is returned and nothing changes |
| `Transaction.ExplicitTransaction.Run` | driver/src/main/java/org/neo4j/driver/internal/ExplicitTransaction.java:374-397 | leaves the object as TxSpec.Run says; usable on a non-blocking transaction when the statement is refused, since ensureNotFailed() comes first |
| `Transaction.ExplicitTransaction.RunAsync` | driver/src/main/java/org/neo4j/driver/internal/ExplicitTransaction.java:399-417 | leaves the object as TxSpec.RunAsync says; usable on a blocking transaction when the statement is refused |
| `Transaction.ExplicitTransaction.IsOpen` | driver/src/main/java/org/neo4j/driver/internal/ExplicitTransaction.java:419-423 | true exactly when the state is neither COMMITTED nor ROLLED_BACK |
| `Transaction.ExplicitTransaction.EnsureNotFailed` | driver/src/main/java/org/neo4j/driver/internal/ExplicitTransaction.java:425-435 | raises the ClientException with the fixed message exactly in FAILED, MARKED_FAILED and ROLLED_BACK |
| `Transaction.ExplicitTransaction.ResultFailed` | driver/src/main/java/org/neo4j/driver/internal/ExplicitTransaction.java:449-461 | leaves the object as TxSpec.ResultFailed says |
| `Transaction.ExplicitTransaction.MarkToClose` | driver/src/main/java/org/neo4j/driver/internal/ExplicitTransaction.java:463-466 | the state becomes FAILED from any state; nothing else changes |
| `Transaction.ExplicitTransaction.GetBookmark` | driver/src/main/java/org/neo4j/driver/internal/ExplicitTransaction.java:468-471 | returns the current bookmark |
| `Transaction.ExplicitTransaction.SetBookmark` | driver/src/main/java/org/neo4j/driver/internal/ExplicitTransaction.java:473-479 | only the bookmark changes, and it changes as UpdateBookmark says |
| `TxTraces.Apply` | driver/src/main/java/org/neo4j/driver/internal/ExplicitTransaction.java:108-479 | every operation only appends to the call log and keeps a non-empty bookmark non-empty; it notifies the handler exactly when it is close(); it releases the connection exactly when it notifies the session, at most once |
| `TxTraces.HandlerNotifiedOncePerClose` | driver/src/main/java/org/neo4j/driver/internal/ExplicitTransaction.java:202-205 | over any sequence of operations, onTransactionClosed is called exactly once per close() call |
| `TxTraces.ReleasesMatchSessionNotifications` | driver/src/main/java/org/neo4j/driver/internal/ExplicitTransaction.java:274-285 | over any sequence of operations, releases equal session notifications, and there is at most one per operation |
| `TxTraces.BookmarkNeverRegresses` | driver/src/main/java/org/neo4j/driver/internal/ExplicitTransaction.java:473-479 | over any sequence of operations, a known bookmark never becomes empty again |
| `TxTraces.SentOnlyGrows` | driver/src/main/java/org/neo4j/driver/internal/ExplicitTransaction.java:108-417 | over any sequence of operations, the connection call log only grows at its end |
| `TxTraces.FinishedTransactionStaysQuiet` | driver/src/main/java/org/neo4j/driver/internal/ExplicitTransaction.java:223-272 | on a COMMITTED or ROLLED_BACK transaction, any sequence of markings, closes, async commits, rollbacks and closes, recoverable result failures and bookmark updates keeps the state and sends, releases and notifies the session nothing |
| `TxTraces.BlockingMovesFollowTable` | driver/src/main/java/org/neo4j/driver/internal/ExplicitTransaction.java:142-466 | every state change made by begin, success(), failure(), run, close, setBookmark, resultFailed and markToClose is allowed by the lifecycle table, except three: a run on COMMITTED, and markToClose or a fatal resultFailed on a finished transaction |
| `TxTraces.TableExceptions` | driver/src/main/java/org/neo4j/driver/internal/ExplicitTransaction.java:449-466 | the three excluded moves do break the table: a Neo4jException from a run on COMMITTED, and markToClose or a fatal resultFailed on COMMITTED or ROLLED_BACK, all set FAILED, which the table does not allow from there |
| `TxTraces.ReleaseOnlyWhileOpen` | driver/src/main/java/org/neo4j/driver/internal/ExplicitTransaction.java:222-285 | a call releases the connection only when the transaction is open and the call is commitAsync, rollbackAsync or closeAsync |
| `TxTraces.FailedCommitsReleaseTwice` | driver/src/main/java/org/neo4j/driver/internal/ExplicitTransaction.java:222-302 | two failed commitAsync calls from a new transaction send COMMIT twice, release twice, notify the session twice and leave it ACTIVE |
| `TxTraces.FailedRollbackStaysOpen` | driver/src/main/java/org/neo4j/driver/internal/ExplicitTransaction.java:190-193 | close on ACTIVE or MARKED_FAILED whose rollback throws keeps the state, so the transaction stays open, and the next usable close starts its calls with ROLLBACK again |
| `TxTraces.CloseAsyncFromFailedReleasesNothing` | driver/src/main/java/org/neo4j/driver/internal/ExplicitTransaction.java:264-271 | closeAsync on FAILED ends ROLLED_BACK with no release and no session notification |
| `TxTraces.CommitAsyncAfterFailure` | driver/src/main/java/org/neo4j/driver/internal/ExplicitTransaction.java:222-233 | commitAsync on FAILED or MARKED_FAILED sends COMMIT, PULL_ALL, flush, and an acknowledged COMMIT ends COMMITTED, a move the table forbids |
| `TxTraces.SecondCloseIsQuiet` | driver/src/main/java/org/neo4j/driver/internal/ExplicitTransaction.java:160-206 | close on a usable connection whose final rollback succeeds finishes the transaction, and a second close of a finished transaction changes only the handler count |
| `TxTraces.MarkToCloseReopens` | driver/src/main/java/org/neo4j/driver/internal/ExplicitTransaction.java:463-466 | markToClose on a finished transaction makes it open again, and a following close sets ROLLED_BACK without a message |
| `TxTraces.CloseCommits` | driver/src/main/java/org/neo4j/driver/internal/ExplicitTransaction.java:165-174 | close on a usable connection in MARKED_SUCCESS whose COMMIT succeeds appends COMMIT, PULL_ALL, sync, ends COMMITTED with the commit's bookmark and notifies the handler once |
| `TxTraces.CommitScenario` | driver/src/main/java/org/neo4j/driver/internal/ExplicitTransaction.java:161-189 | a successful run, then success(), then close(): exactly RUN, PULL_ALL, flush, COMMIT, PULL_ALL, sync are made (no ROLLBACK), the state is COMMITTED with the commit's bookmark, the handler is notified once and the session never |
| `TxTraces.FatalRunScenario` | driver/src/main/java/org/neo4j/driver/internal/ExplicitTransaction.java:390-396 | a Neo4jException while dispatching a run sets FAILED; close then sends nothing and ends ROLLED_BACK |
| `TxTraces.FailedCommitScenario` | driver/src/main/java/org/neo4j/driver/internal/ExplicitTransaction.java:176-188 | a failed commit under close sends ROLLBACK and rethrows the commit error; it ends ROLLED_BACK when the rollback succeeds |
| `TxTraces.MarkedFailedScenario` | driver/src/main/java/org/neo4j/driver/internal/ExplicitTransaction.java:425-435 | after failure() a run is refused with nothing sent, and close sends ROLLBACK and not COMMIT |
| `TxTraces.FinishedAsyncScenario` | driver/src/main/java/org/neo4j/driver/internal/ExplicitTransaction.java:223-252 | the async commit, rollback and close of a finished transaction succeed at once and change nothing, including commitAsync after a rollback and rollbackAsync after a commit |
| `Findings.CloseAsyncRollsBackAfterCommit` | driver/src/main/java/org/neo4j/driver/internal/ExplicitTransaction.java:256-259 | closeAsync on MARKED_SUCCESS sends ROLLBACK even after COMMIT succeeded, and ends ROLLED_BACK if that ROLLBACK is acknowledged |
| `Findings.CloseAsyncLazyFallback` | driver/src/main/java/org/neo4j/driver/internal/ExplicitTransaction.java:254-272 | corrected closeAsync: a successful commit ends COMMITTED with no ROLLBACK sent; a failed one sends ROLLBACK and completes with its outcome |
| `Findings.FailedFallbackStaysMarkedSuccess` | driver/src/main/java/org/neo4j/driver/internal/ExplicitTransaction.java:176-188 | when both the commit and its fallback rollback throw, the transaction stays MARKED_SUCCESS, and a later close sends COMMIT again |
| `Findings.CloseFinalisingFallback` | driver/src/main/java/org/neo4j/driver/internal/ExplicitTransaction.java:167-189 | corrected close: on a usable connection, MARKED_SUCCESS always ends finished, and ends COMMITTED exactly when the commit succeeded |
| `Findings.CommittedAcceptsRun` | driver/src/main/java/org/neo4j/driver/internal/ExplicitTransaction.java:425-435 | a statement is sent on a COMMITTED transaction, and a Neo4jException while sending it makes the transaction open again |
| `Findings.RunWhileUndecided` | driver/src/main/java/org/neo4j/driver/internal/ExplicitTransaction.java:425-435 | corrected run guard: the connection is called exactly in ACTIVE and MARKED_SUCCESS, so a finished transaction never sends a statement or leaves its final state |

## Left out

- Wire encoding, and the internals of the response handlers (`NoOpResponseHandler`, `BookmarkResponseHandler`, `CommitTxResponseHandler`, `RollbackTxResponseHandler`, `BeginTxResponseHandler`, `RunResponseHandler`, `TransactionPullAllResponseHandler`). These classes are not part of this model. The reply they see is a parameter. The bookmark handlers' effect is a `setBookmark` call on success.
- `Futures`, `EventLoopAwarePromise`, `InternalTask` and the event loop are not part of this model. Futures are sequential outcomes. `Futures.fallback` is assumed to give the first operation's success, and otherwise the fallback operation's outcome. `txClosed` keeps the operation's outcome.
- `volatile` visibility, and completions interleaving with application calls. The model is sequential.
- `ErrorUtil.isRecoverable`: supplied as a boolean by the caller of `ResultFailed`.
- `Bookmark`'s contents and `asBeginTransactionParameters()`: a bookmark is `Empty` or an opaque token, and `BEGIN` carries the bookmark itself instead of its parameter map.
- The `run`/`runAsync` overloads that only convert a map, a record or null into a `Value` (lines 322-372), the `Value`/`Statement` marshalling, `typeSystem()` and the no-op `resultFetched()`: type-system plumbing. Statement parameters are a map of strings.
- The construction of `InternalStatementResult` and `InternalStatementResultCursor`, and record streaming: a successful `run` or `runAsync` returns `Done` instead of a result or cursor.
- `commitAsync()` and `rollbackAsync()` only wrap `internalCommitAsync()` and `internalRollbackAsync()` in a task, so the internal methods stand for them.
- A blocking transaction built with a null connection: `close()` behaves as with a closed connection (`connOpen` false). `begin` and `run` would throw a NullPointerException and are not modelled for it. The asynchronous methods on a blocking transaction, and the blocking `begin` on an asynchronous one, likewise dereference null: their `requires blocking` / `requires !blocking` exclude these calls. `run` and `runAsync` call `ensureNotFailed()` first, so they are modelled on either kind of transaction when the statement is refused, and otherwise only on the kind whose connection they use.
- `TxSpec.Status` does not tell a synchronous throw from a failed future: `runAsync`'s ClientException is thrown by the call itself (line 402), while the asynchronous commit and rollback errors arrive through the returned task. Both appear as `Raised`.
- The non-blocking connection's `run`, `pullAll` and `flush` are taken never to throw; only the replies are outcomes.
- A connection call that throws is logged as made. Whether the request reached the server is not modelled.

## Findings

| source | as written | input that shows it | evidently intended | confidence | as-written member | corrected member |
|---|---|---|---|---|---|---|
| driver/src/main/java/org/neo4j/driver/internal/ExplicitTransaction.java:258 | `Futures.fallback(doCommitAsync(), doRollbackAsync())` evaluates both arguments, so ROLLBACK is dispatched right after COMMIT | closeAsync on MARKED_SUCCESS with a successful commit reply | ROLLBACK is sent only when the commit fails | high, from Java's argument evaluation; not executed | `Findings.CloseAsyncRollsBackAfterCommit` | `Findings.CloseAsyncLazyFallback` |
| driver/src/main/java/org/neo4j/driver/internal/ExplicitTransaction.java:176-188 | when `rollbackTx()` in the catch throws, the state stays MARKED_SUCCESS | close on MARKED_SUCCESS where the commit's sync and the rollback's sync both throw | the transaction ends ROLLED_BACK whether or not the best-effort rollback succeeds | medium; not executed | `Findings.FailedFallbackStaysMarkedSuccess` | `Findings.CloseFinalisingFallback` |
| driver/src/main/java/org/neo4j/driver/internal/ExplicitTransaction.java:427 | the guard omits COMMITTED, so a statement is sent on a committed transaction | run after a successful commit | only ACTIVE and MARKED_SUCCESS accept statements | medium; not executed | `Findings.CommittedAcceptsRun` | `Findings.RunWhileUndecided` |

The class `Transaction.ExplicitTransaction` follows the code as written. The corrected definitions are given alongside it, and the lemmas of `TxTraces` describe the as-written model.
