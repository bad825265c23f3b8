/**
 * Properties of whole sequences of calls on one transaction: what every
 * close() and every asynchronous termination does to the notification and
 * release counters, that the bookmark never regresses, that the call log only
 * grows, and that a finished transaction stays quiet; the places where the
 * code departs from the intended lifecycle; and typical call sequences as
 * scenario lemmas.
 */
module TxTraces {
  import opened TxStates
  import opened Protocol
  import opened TxSpec

  /** One call on the transaction, with the outcomes its exchanges meet. */
  datatype Op =
    | BeginOp(initial: Bookmark, reply: Reply)
    | BeginAsyncOp(initial: Bookmark, response: Response)
    | SuccessOp
    | FailureOp
    | RunOp(statement: Statement, reply: Reply)
    | RunAsyncOp(statement: Statement)
    | CloseOp(usable: bool, commit: Reply, rollback: Reply)
    | CommitAsyncOp(response: Response)
    | RollbackAsyncOp(response: Response)
    | CloseAsyncOp(commitResponse: Response, rollbackResponse: Response)
    | ResultFailedOp(error: Error, recoverable: bool)
    | MarkToCloseOp
    | SetBookmarkOp(incoming: Option<Bookmark>)

  /**
   * The effect of one call. Every call only appends to the log, keeps a
   * non-empty bookmark non-empty, notifies the resources handler exactly when
   * it is close(), and releases the connection exactly when it notifies the
   * session, at most once.
   */
  function Apply(t: Tx, op: Op): (r: Tx)
    ensures t.sent <= r.sent
    ensures t.bookmark != Empty ==> r.bookmark != Empty
    ensures r.handlerNotified == t.handlerNotified + (if op.CloseOp? then 1 else 0)
    ensures r.releases == r.sessionNotified - t.sessionNotified + t.releases
    ensures r.sessionNotified == t.sessionNotified || r.sessionNotified == t.sessionNotified + 1
  {
    match op
    case BeginOp(b, reply) => Begin(t, b, reply).tx
    case BeginAsyncOp(b, response) => BeginAsync(t, b, response).tx
    case SuccessOp => t.(state := MarkSuccess(t.state))
    case FailureOp => t.(state := MarkFailure(t.state))
    case RunOp(st, reply) => Run(t, st, reply).tx
    case RunAsyncOp(st) => RunAsync(t, st).tx
    case CloseOp(usable, commit, rollback) => Close(t, usable, commit, rollback).tx
    case CommitAsyncOp(response) => InternalCommitAsync(t, response).tx
    case RollbackAsyncOp(response) => InternalRollbackAsync(t, response).tx
    case CloseAsyncOp(commit, rollback) => CloseAsync(t, commit, rollback).tx
    case ResultFailedOp(_, recoverable) => ResultFailed(t, recoverable)
    case MarkToCloseOp => t.(state := Failed)
    case SetBookmarkOp(b) => t.(bookmark := UpdateBookmark(t.bookmark, b))
  }

  function Replay(t: Tx, ops: seq<Op>): Tx
    decreases |ops|
  {
    if ops == [] then t else Replay(Apply(t, ops[0]), ops[1..])
  }

  function CountCloses(ops: seq<Op>): nat
    decreases |ops|
  {
    if ops == [] then 0 else (if ops[0].CloseOp? then 1 else 0) + CountCloses(ops[1..])
  }

  /** onTransactionClosed is called exactly once per close() call, whatever the outcomes. */
  lemma {:induction false} HandlerNotifiedOncePerClose(t: Tx, ops: seq<Op>)
    ensures Replay(t, ops).handlerNotified == t.handlerNotified + CountCloses(ops)
    decreases |ops|
  {
    if ops != [] {
      HandlerNotifiedOncePerClose(Apply(t, ops[0]), ops[1..]);
    }
  }

  /**
   * The asynchronous connection is released exactly as often as the session
   * is told that the transaction closed, and at most once per call.
   */
  lemma {:induction false} ReleasesMatchSessionNotifications(t: Tx, ops: seq<Op>)
    ensures Replay(t, ops).releases - t.releases == Replay(t, ops).sessionNotified - t.sessionNotified
    ensures t.sessionNotified <= Replay(t, ops).sessionNotified <= t.sessionNotified + |ops|
    decreases |ops|
  {
    if ops != [] {
      ReleasesMatchSessionNotifications(Apply(t, ops[0]), ops[1..]);
    }
  }

  /** Once known, the bookmark never goes back to empty. */
  lemma {:induction false} BookmarkNeverRegresses(t: Tx, ops: seq<Op>)
    requires t.bookmark != Empty
    ensures Replay(t, ops).bookmark != Empty
    decreases |ops|
  {
    if ops != [] {
      BookmarkNeverRegresses(Apply(t, ops[0]), ops[1..]);
    }
  }

  /** Calls made on the connection are never taken back: the log only grows. */
  lemma {:induction false} SentOnlyGrows(t: Tx, ops: seq<Op>)
    ensures t.sent <= Replay(t, ops).sent
    decreases |ops|
  {
    if ops != [] {
      var next := Apply(t, ops[0]);
      SentOnlyGrows(next, ops[1..]);
      assert t.sent == next.sent[..|t.sent|];
      assert next.sent == Replay(t, ops).sent[..|next.sent|];
    }
  }

  /**
   * The calls that leave a finished transaction as it is: marking, closing,
   * committing, rolling back, a recoverable result failure, and a bookmark
   * update. Begin and run send messages, and markToClose() and a fatal result
   * failure reopen it, so they are not among them.
   */
  predicate QuietWhenFinished(op: Op) {
    op.SuccessOp? || op.FailureOp? || op.CloseOp? || op.CommitAsyncOp? ||
    op.RollbackAsyncOp? || op.CloseAsyncOp? || op.SetBookmarkOp? ||
    (op.ResultFailedOp? && op.recoverable)
  }

  /**
   * On a committed or rolled-back transaction, any sequence of such calls
   * keeps the state, sends nothing, releases nothing and does not notify the
   * session again.
   */
  lemma {:induction false} FinishedTransactionStaysQuiet(t: Tx, ops: seq<Op>)
    requires !IsOpen(t.state)
    requires forall i :: 0 <= i < |ops| ==> QuietWhenFinished(ops[i])
    ensures Replay(t, ops).state == t.state
    ensures Replay(t, ops).sent == t.sent
    ensures Replay(t, ops).releases == t.releases
    ensures Replay(t, ops).sessionNotified == t.sessionNotified
    decreases |ops|
  {
    if ops != [] {
      assert QuietWhenFinished(ops[0]);
      var next := Apply(t, ops[0]);
      assert next.state == t.state && next.sent == t.sent;
      assert next.releases == t.releases && next.sessionNotified == t.sessionNotified;
      assert forall i :: 0 <= i < |ops[1..]| ==> QuietWhenFinished(ops[1..][i]) by {
        forall i | 0 <= i < |ops[1..]| ensures QuietWhenFinished(ops[1..][i]) {
          assert ops[1..][i] == ops[i + 1];
        }
      }
      FinishedTransactionStaysQuiet(next, ops[1..]);
    }
  }

  /**
   * The state changes of the blocking path and of the result callbacks follow
   * the lifecycle table, except for three moves: a statement run on a
   * COMMITTED transaction that fails it, and markToClose() or a fatal result
   * failure on a finished transaction (see TableExceptions).
   */
  lemma BlockingMovesFollowTable(t: Tx, op: Op)
    requires op.SuccessOp? || op.FailureOp? || op.RunOp? || op.CloseOp? || op.BeginOp? ||
             op.ResultFailedOp? || op.MarkToCloseOp? || op.SetBookmarkOp?
    requires op.RunOp? ==> t.state != Committed
    requires op.MarkToCloseOp? || (op.ResultFailedOp? && !op.recoverable) ==> IsOpen(t.state)
    ensures Apply(t, op).state != t.state ==> CanEnter(t.state, Apply(t, op).state)
  {
  }

  /** The three moves BlockingMovesFollowTable leaves out do break the table. */
  lemma TableExceptions(t: Tx, st: Statement, stage: Stage, e: Error, error: Error)
    requires IsNeo4jException(e)
    ensures t.state == Committed ==>
      Apply(t, RunOp(st, Throws(stage, e))).state == Failed && !CanEnter(Committed, Failed)
    ensures !IsOpen(t.state) ==>
      Apply(t, MarkToCloseOp).state == Failed && Apply(t, ResultFailedOp(error, false)).state == Failed &&
      !CanEnter(t.state, Failed)
  {
  }

  /** A second close() after one that finished the transaction sends nothing and changes nothing but the handler count. */
  lemma SecondCloseIsQuiet(t: Tx, usable: bool, commit: Reply, rollback: Reply,
                           usable2: bool, commit2: Reply, rollback2: Reply)
    ensures var first := Close(t, usable, commit, rollback).tx;
      usable && rollback.Replied? ==> !IsOpen(first.state)
    ensures var first := Close(t, usable, commit, rollback).tx;
      var second := Close(first, usable2, commit2, rollback2).tx;
      !IsOpen(first.state) ==>
        second == first.(handlerNotified := t.handlerNotified + 2)
  {
  }

  /**
   * markToClose() sets FAILED from any state, a finished one included: the
   * transaction is open again, and a close() on a usable connection then
   * turns a COMMITTED transaction into ROLLED_BACK without a message.
   */
  lemma MarkToCloseReopens(t: Tx, commit: Reply, rollback: Reply)
    requires !IsOpen(t.state)
    ensures IsOpen(Apply(t, MarkToCloseOp).state)
    ensures var closed := Close(Apply(t, MarkToCloseOp), true, commit, rollback).tx;
      closed.state == RolledBack && closed.sent == t.sent
  {
    var failed := t.(state := Failed);
    assert Apply(t, MarkToCloseOp) == failed;
    assert Close(failed, true, commit, rollback).tx == failed.(state := RolledBack, handlerNotified := t.handlerNotified + 1);
  }

  // ---------------------------------------------------------------- departures

  /**
   * The connection is released, and the session notified, only by a call on an
   * open transaction, and only by commitAsync(), rollbackAsync() or
   * closeAsync(): once finished, a transaction releases nothing until
   * markToClose() or a fatal result failure reopens it.
   */
  lemma ReleaseOnlyWhileOpen(t: Tx, op: Op)
    ensures Apply(t, op).releases != t.releases ==>
      IsOpen(t.state) && (op.CommitAsyncOp? || op.RollbackAsyncOp? || op.CloseAsyncOp?)
  {
  }

  /**
   * A failed commitAsync() still releases the connection and notifies the
   * session, and leaves the transaction open; a second attempt releases again.
   * The release is therefore not tied to the transaction finishing.
   */
  lemma FailedCommitsReleaseTwice(e1: Error, e2: Error)
    ensures Replay(Initial(), [CommitAsyncOp(FailedWith(e1)), CommitAsyncOp(FailedWith(e2))]) ==
      Initial().(sent := Flushed(CommitMessage) + Flushed(CommitMessage), releases := 2, sessionNotified := 2)
  {
    var once := Initial().(sent := Flushed(CommitMessage), releases := 1, sessionNotified := 1);
    assert Apply(Initial(), CommitAsyncOp(FailedWith(e1))) == once;
    assert [CommitAsyncOp(FailedWith(e1)), CommitAsyncOp(FailedWith(e2))][1..] == [CommitAsyncOp(FailedWith(e2))];
    assert Replay(once, [CommitAsyncOp(FailedWith(e2))]) == Apply(once, CommitAsyncOp(FailedWith(e2)));
  }

  /**
   * On ACTIVE and MARKED_FAILED, when rollbackTx() throws
   * under close(), the state is left as it was, so the transaction stays open
   * and the next close() on a usable connection sends ROLLBACK again.
   */
  lemma FailedRollbackStaysOpen(t: Tx, commit: Reply, stage: Stage, e: Error, commit2: Reply, rollback2: Reply)
    requires t.state == Active || t.state == MarkedFailed
    ensures var first := Close(t, true, commit, Throws(stage, e)).tx;
      first.state == t.state && IsOpen(first.state) &&
      Close(first, true, commit2, rollback2).tx.sent[|first.sent|..][0] == Send(RollbackMessage)
  {
    assert Made(Synced(RollbackMessage), rollback2)[0] == Send(RollbackMessage);
  }

  /** closeAsync() on FAILED finishes the transaction without releasing the connection or notifying the session. */
  lemma CloseAsyncFromFailedReleasesNothing(t: Tx, commit: Response, rollback: Response)
    requires t.state == Failed
    ensures var r := CloseAsync(t, commit, rollback).tx;
      r.state == RolledBack && r.releases == t.releases && r.sessionNotified == t.sessionNotified
  {
  }

  /**
   * commitAsync() does not check for FAILED or MARKED_FAILED: COMMIT is sent,
   * and an acknowledged COMMIT ends COMMITTED, a move the lifecycle forbids.
   */
  lemma CommitAsyncAfterFailure(t: Tx, b: Option<Bookmark>)
    requires t.state == Failed || t.state == MarkedFailed
    ensures var r := InternalCommitAsync(t, Succeeded(b)).tx;
      r.sent == t.sent + [Send(CommitMessage), PullAll, Flush] && r.state == Committed &&
      !CanEnter(t.state, Committed)
  {
  }

  // ---------------------------------------------------------------- scenarios

  lemma ReplayThree(t: Tx, a: Op, b: Op, c: Op)
    ensures Replay(t, [a, b, c]) == Apply(Apply(Apply(t, a), b), c)
  {
    assert [a, b, c][1..] == [b, c];
    assert [b, c][1..] == [c];
    assert [c][1..] == [];
    assert Replay(Apply(Apply(t, a), b), [c]) == Apply(Apply(Apply(t, a), b), c);
  }

  /** close() on MARKED_SUCCESS over a usable connection whose COMMIT succeeds. */
  lemma CloseCommits(t: Tx, b: Option<Bookmark>, rollback: Reply)
    requires t.state == MarkedSuccess
    ensures Apply(t, CloseOp(true, Replied(b), rollback)) ==
      t.(state := Committed, bookmark := UpdateBookmark(t.bookmark, b), handlerNotified := t.handlerNotified + 1,
         sent := t.sent + [Send(CommitMessage), PullAll, Sync])
  {
  }

  /**
   * ACTIVE, a statement that runs, success(), close(): RUN, PULL_ALL, flush,
   * then COMMIT, PULL_ALL, sync and no ROLLBACK; COMMITTED with the commit's
   * bookmark, the handler notified once and the session never.
   */
  lemma CommitScenario(st: Statement, runBookmark: Option<Bookmark>, b: Option<Bookmark>, rollback: Reply)
    ensures Replay(Initial(), [RunOp(st, Replied(runBookmark)), SuccessOp, CloseOp(true, Replied(b), rollback)]) ==
      Tx(Committed, UpdateBookmark(Empty, b),
         [Send(RunMessage(st)), PullAll, Flush, Send(CommitMessage), PullAll, Sync], 1, 0, 0)
  {
    var close := CloseOp(true, Replied(b), rollback);
    ReplayThree(Initial(), RunOp(st, Replied(runBookmark)), SuccessOp, close);
    var ran := Initial().(sent := Flushed(RunMessage(st)));
    assert Apply(Initial(), RunOp(st, Replied(runBookmark))) == ran;
    assert Apply(ran, SuccessOp) == ran.(state := MarkedSuccess);
    CloseCommits(ran.(state := MarkedSuccess), b, rollback);
    assert ran.sent + [Send(CommitMessage), PullAll, Sync] ==
           [Send(RunMessage(st)), PullAll, Flush, Send(CommitMessage), PullAll, Sync];
  }

  /** A statement whose dispatch throws a Neo4jException fails the transaction; close() then sends nothing and rolls it back. */
  lemma FatalRunScenario(st: Statement, stage: Stage, e: Error, commit: Reply, rollback: Reply)
    requires IsNeo4jException(e)
    ensures var failed := Apply(Initial(), RunOp(st, Throws(stage, e)));
      var closed := Apply(failed, CloseOp(true, commit, rollback));
      failed.state == Failed && closed.state == RolledBack && closed.sent == failed.sent &&
      Send(CommitMessage) !in closed.sent && Send(RollbackMessage) !in closed.sent
  {
  }

  /** A commit that fails under close(): ROLLBACK is sent and the commit error is the one thrown. */
  lemma FailedCommitScenario(t: Tx, commit: Reply, rollback: Reply)
    requires t.state == MarkedSuccess && commit.Throws?
    ensures var r := Close(t, true, commit, rollback);
      Send(RollbackMessage) in r.tx.sent && r.status == Raised(commit.error) &&
      (rollback.Replied? ==> r.tx.state == RolledBack)
  {
  }

  /** After failure() a statement is refused (MARKED_FAILED does not run), and close() sends ROLLBACK. */
  lemma MarkedFailedScenario(st: Statement, reply: Reply, commit: Reply, rollback: Reply)
    ensures var marked := Apply(Initial(), FailureOp);
      var r := Run(marked, st, reply);
      var closed := Close(r.tx, true, commit, rollback);
      r.status == Raised(ClientError(TerminatedMessage)) && r.tx.sent == [] &&
      Send(RollbackMessage) in closed.tx.sent && Send(CommitMessage) !in closed.tx.sent &&
      (rollback.Replied? ==> closed.tx.state == RolledBack)
  {
  }

  /**
   * commitAsync() and rollbackAsync() on a finished transaction succeed at once
   * and send nothing, commitAsync() after a rollback and rollbackAsync() after a
   * commit included.
   */
  lemma FinishedAsyncScenario(t: Tx, response: Response)
    requires !IsOpen(t.state)
    ensures InternalCommitAsync(t, response) == Step(t, Done)
    ensures InternalRollbackAsync(t, response) == Step(t, Done)
    ensures CloseAsync(t, response, response) == Step(t, Done)
  {
  }
}
