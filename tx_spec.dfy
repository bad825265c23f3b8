/**
 * Each operation of ExplicitTransaction as a function from the transaction's
 * observable state before the call (and the outcomes the connection
 * produces) to the state after it and what the call returns or throws.
 * Asynchronous operations are sequential here: an operation receives the
 * responses to the exchanges it dispatches and runs their completion
 * callbacks before it returns.
 */
module TxSpec {
  import opened TxStates
  import opened Protocol

  /**
   * What can be observed of a transaction: its state, its bookmark, the calls
   * made on its connection, how often resourcesHandler.onTransactionClosed and
   * session.asyncTransactionClosed were called, and how often the
   * asynchronous connection was released.
   */
  datatype Tx = Tx(state: State, bookmark: Bookmark, sent: seq<Call>,
                   handlerNotified: nat, sessionNotified: nat, releases: nat)

  /** A call that returns normally, or throws (or completes its future with) an error. */
  datatype Status = Done | Raised(error: Error)

  datatype Step = Step(tx: Tx, status: Status)

  /** A new transaction: open and accepting statements, with an empty bookmark, and nothing sent, notified or released. */
  function Initial(): (t: Tx)
    ensures t.state == Active
    ensures IsOpen(t.state) && !RunRefused(t.state) && MarkSuccess(t.state) == MarkedSuccess
    ensures t.bookmark == Empty && t.sent == []
    ensures t.handlerNotified == 0 && t.sessionNotified == 0 && t.releases == 0
  {
    Tx(Active, Empty, [], 0, 0, 0)
  }

  function Outcome(thrown: Option<Error>): Status {
    match thrown
    case None => Done
    case Some(e) => Raised(e)
  }

  function StatusOf(response: Response): Status {
    match response
    case Succeeded(_) => Done
    case FailedWith(e) => Raised(e)
  }

  // ---------------------------------------------------------------- begin

  /**
   * begin(initialBookmark): BEGIN with the bookmark, then PULL_ALL, and a
   * sync() that waits for the server only when the bookmark is not empty.
   */
  function Begin(t: Tx, initial: Bookmark, reply: Reply): (r: Step)
    ensures r.tx == t.(sent := r.tx.sent)
    ensures t.sent < r.tx.sent && r.tx.sent[|t.sent|] == Send(BeginMessage(initial))
    ensures reply.Replied? ==>
      r.status == Done &&
      r.tx.sent == t.sent + [Send(BeginMessage(initial)), PullAll] + (if initial == Empty then [] else [Sync])
    ensures Sync in r.tx.sent[|t.sent|..] ==> initial != Empty
    ensures r.status.Raised? <==> reply.Throws? && (reply.stage == AtFinish ==> initial != Empty)
    ensures r.status.Raised? ==> r.status.error == reply.error
  {
    var calls := ExchangeCalls(BeginMessage(initial), if initial == Empty then None else Some(Sync));
    assert (t.sent + Made(calls, reply))[|t.sent|..] == Made(calls, reply);
    Step(t.(sent := t.sent + Made(calls, reply)), Outcome(Thrown(calls, reply)))
  }

  /**
   * beginAsync(initialBookmark): with an empty bookmark BEGIN and PULL_ALL are
   * queued and the promise succeeds at once; otherwise they are flushed and
   * the promise completes with the server's reply.
   */
  function BeginAsync(t: Tx, initial: Bookmark, response: Response): (r: Step)
    ensures r.tx == t.(sent := r.tx.sent)
    ensures initial == Empty ==> r == Step(t.(sent := t.sent + [Send(BeginMessage(initial)), PullAll]), Done)
    ensures initial != Empty ==> r == Step(t.(sent := t.sent + Flushed(BeginMessage(initial))), StatusOf(response))
  {
    if initial == Empty then
      Step(t.(sent := t.sent + ExchangeCalls(BeginMessage(initial), None)), Done)
    else
      Step(t.(sent := t.sent + ExchangeCalls(BeginMessage(initial), Some(Flush))), StatusOf(response))
  }

  // ---------------------------------------------------------------- run

  /** ensureNotFailed(): the ClientException, when the state refuses statements. */
  function EnsureNotFailed(s: State): (r: Status)
    ensures r.Raised? <==> RunRefused(s)
    ensures r.Raised? ==> r.error == ClientError(TerminatedMessage)
  {
    if RunRefused(s) then Raised(ClientError(TerminatedMessage)) else Done
  }

  /**
   * run(statement) on the blocking connection: refused in FAILED, MARKED_FAILED
   * and ROLLED_BACK; otherwise RUN, PULL_ALL and flush(), where a
   * Neo4jException thrown by any of them sets FAILED and is rethrown.
   */
  function Run(t: Tx, st: Statement, reply: Reply): (r: Step)
    ensures r.tx == t.(state := r.tx.state, sent := r.tx.sent)
    ensures RunRefused(t.state) ==> r == Step(t, Raised(ClientError(TerminatedMessage)))
    ensures r.tx.sent == t.sent <==> RunRefused(t.state)
    ensures !RunRefused(t.state) ==> t.sent < r.tx.sent && r.tx.sent[|t.sent|] == Send(RunMessage(st))
    ensures !RunRefused(t.state) && reply.Replied? ==>
      r == Step(t.(sent := t.sent + Flushed(RunMessage(st))), Done)
    ensures !RunRefused(t.state) && reply.Throws? ==>
      r.status == Raised(reply.error) &&
      r.tx.state == (if IsNeo4jException(reply.error) then Failed else t.state)
  {
    if RunRefused(t.state) then Step(t, EnsureNotFailed(t.state))
    else
      var calls := Flushed(RunMessage(st));
      match Thrown(calls, reply)
      case None => Step(t.(sent := t.sent + calls), Done)
      case Some(e) =>
        Step(t.(state := if IsNeo4jException(e) then Failed else t.state,
                sent := t.sent + Made(calls, reply)),
             Raised(e))
  }

  /**
   * runAsync(statement): refused in the same states as run; otherwise RUN,
   * PULL_ALL and flush() are dispatched and the cursor is returned at once.
   */
  function RunAsync(t: Tx, st: Statement): (r: Step)
    ensures RunRefused(t.state) ==> r == Step(t, Raised(ClientError(TerminatedMessage)))
    ensures !RunRefused(t.state) ==> r == Step(t.(sent := t.sent + Flushed(RunMessage(st))), Done)
  {
    if RunRefused(t.state) then Step(t, EnsureNotFailed(t.state))
    else Step(t.(sent := t.sent + Flushed(RunMessage(st))), Done)
  }

  // ---------------------------------------------------------------- blocking close

  /**
   * rollbackTx(): ROLLBACK, PULL_ALL with a bookmark handler, sync(); the
   * state becomes ROLLED_BACK only if none of them throws.
   */
  function RollbackTx(t: Tx, reply: Reply): (r: Step)
    ensures r.tx.sent == t.sent + Made(Synced(RollbackMessage), reply)
    ensures reply.Replied? ==>
      r.status == Done && r.tx.state == RolledBack &&
      r.tx.bookmark == UpdateBookmark(t.bookmark, reply.bookmark)
    ensures reply.Throws? ==> r.status == Raised(reply.error) && r.tx == t.(sent := r.tx.sent)
    ensures r.tx.handlerNotified == t.handlerNotified && r.tx.sessionNotified == t.sessionNotified
    ensures r.tx.releases == t.releases
  {
    var calls := Synced(RollbackMessage);
    match Thrown(calls, reply)
    case None =>
      Step(t.(state := RolledBack, bookmark := UpdateBookmark(t.bookmark, reply.bookmark),
              sent := t.sent + calls), Done)
    case Some(e) => Step(t.(sent := t.sent + Made(calls, reply)), Raised(e))
  }

  /**
   * The MARKED_SUCCESS branch of close(): COMMIT, and on a commit error a
   * best-effort ROLLBACK whose own error is swallowed; the commit error is
   * the one raised.
   */
  function CommitOnClose(t: Tx, commit: Reply, rollback: Reply): (r: Step)
    ensures r.tx == t.(state := r.tx.state, bookmark := r.tx.bookmark, sent := r.tx.sent)
    ensures t.sent <= r.tx.sent
    ensures t.bookmark != Empty ==> r.tx.bookmark != Empty
    ensures commit.Replied? ==>
      r == Step(t.(state := Committed, bookmark := UpdateBookmark(t.bookmark, commit.bookmark),
                   sent := t.sent + Synced(CommitMessage)), Done)
    ensures commit.Throws? ==>
      r.status == Raised(commit.error) &&
      r.tx.sent == t.sent + Made(Synced(CommitMessage), commit) + Made(Synced(RollbackMessage), rollback) &&
      Send(RollbackMessage) in r.tx.sent[|t.sent|..] &&
      r.tx.state == (if rollback.Replied? then RolledBack else t.state) &&
      r.tx.bookmark == (if rollback.Replied? then UpdateBookmark(t.bookmark, rollback.bookmark) else t.bookmark)
  {
    var calls := Synced(CommitMessage);
    match Thrown(calls, commit)
    case None =>
      Step(t.(state := Committed, bookmark := UpdateBookmark(t.bookmark, commit.bookmark),
              sent := t.sent + calls), Done)
    case Some(e) =>
      var fallback := RollbackTx(t.(sent := t.sent + Made(calls, commit)), rollback);
      assert fallback.tx.sent[|t.sent|..] == Made(calls, commit) + Made(Synced(RollbackMessage), rollback);
      assert Made(Synced(RollbackMessage), rollback)[0] == Send(RollbackMessage);
      Step(fallback.tx, Raised(e))
  }

  /** The ACTIVE and MARKED_FAILED branch of close(): rollbackTx(), which never sends COMMIT. */
  function RollbackOnClose(t: Tx, rollback: Reply): (r: Step)
    ensures r == RollbackTx(t, rollback)
    ensures Send(CommitMessage) !in r.tx.sent[|t.sent|..]
  {
    var r := RollbackTx(t, rollback);
    assert r.tx.sent[|t.sent|..] == Made(Synced(RollbackMessage), rollback);
    r
  }

  /**
   * close() on the blocking path. `usable` is whether the connection is
   * present and open. The handler is notified exactly once on every path.
   */
  function Close(t: Tx, usable: bool, commit: Reply, rollback: Reply): (r: Step)
    ensures r.tx.handlerNotified == t.handlerNotified + 1
    ensures r.tx.sessionNotified == t.sessionNotified && r.tx.releases == t.releases
    ensures t.sent <= r.tx.sent
    ensures t.bookmark != Empty ==> r.tx.bookmark != Empty
    // nothing happens with an unusable connection or on a terminal state
    ensures !usable || !IsOpen(t.state) ==>
      r == Step(t.(handlerNotified := t.handlerNotified + 1), Done)
    // FAILED: the server already rolled back, only the state is finalised
    ensures usable && t.state == Failed ==>
      r == Step(t.(state := RolledBack, handlerNotified := t.handlerNotified + 1), Done)
    // MARKED_SUCCESS: COMMIT, and on any commit error a best-effort ROLLBACK
    ensures usable && t.state == MarkedSuccess && commit.Replied? ==>
      r.status == Done && r.tx.state == Committed &&
      r.tx.sent == t.sent + [Send(CommitMessage), PullAll, Sync] &&
      r.tx.bookmark == UpdateBookmark(t.bookmark, commit.bookmark)
    ensures usable && t.state == MarkedSuccess && commit.Throws? ==>
      r.status == Raised(commit.error) &&
      r.tx.sent == t.sent + Made(Synced(CommitMessage), commit) + Made(Synced(RollbackMessage), rollback) &&
      Send(RollbackMessage) in r.tx.sent[|t.sent|..] &&
      r.tx.state == (if rollback.Replied? then RolledBack else MarkedSuccess) &&
      r.tx.bookmark == (if rollback.Replied? then UpdateBookmark(t.bookmark, rollback.bookmark) else t.bookmark)
    // ACTIVE and MARKED_FAILED: ROLLBACK
    ensures usable && (t.state == Active || t.state == MarkedFailed) ==>
      r.tx.sent == t.sent + Made(Synced(RollbackMessage), rollback) &&
      Send(CommitMessage) !in r.tx.sent[|t.sent|..] &&
      r.tx.state == (if rollback.Replied? then RolledBack else t.state) &&
      r.tx.bookmark == (if rollback.Replied? then UpdateBookmark(t.bookmark, rollback.bookmark) else t.bookmark) &&
      r.status == (if rollback.Replied? then Done else Raised(rollback.error))
  {
    var notified := t.(handlerNotified := t.handlerNotified + 1);
    if !usable then Step(notified, Done)
    else
      match t.state
      case MarkedSuccess => CommitOnClose(notified, commit, rollback)
      case Active => RollbackOnClose(notified, rollback)
      case MarkedFailed => RollbackOnClose(notified, rollback)
      case Failed => Step(notified.(state := RolledBack), Done)
      case Committed => Step(notified, Done)
      case RolledBack => Step(notified, Done)
  }

  // ---------------------------------------------------------------- asynchronous close

  /** doCommitAsync() up to flush(): COMMIT and PULL_ALL dispatched. */
  function DoCommitAsync(t: Tx): (r: Tx)
    ensures r == t.(sent := t.sent + [Send(CommitMessage), PullAll, Flush])
  {
    t.(sent := t.sent + Flushed(CommitMessage))
  }

  /** doRollbackAsync() up to flush(): ROLLBACK and PULL_ALL dispatched. */
  function DoRollbackAsync(t: Tx): (r: Tx)
    ensures r == t.(sent := t.sent + [Send(RollbackMessage), PullAll, Flush])
  {
    t.(sent := t.sent + Flushed(RollbackMessage))
  }

  /** The reply to COMMIT: on success the handler records the bookmark and the state becomes COMMITTED. */
  function CommitCompleted(t: Tx, response: Response): (r: Step)
    ensures r.status == StatusOf(response)
    ensures response.Succeeded? ==>
      r.tx == t.(state := Committed, bookmark := UpdateBookmark(t.bookmark, response.bookmark))
    ensures response.FailedWith? ==> r.tx == t
  {
    match response
    case Succeeded(b) => Step(t.(bookmark := UpdateBookmark(t.bookmark, b), state := Committed), Done)
    case FailedWith(e) => Step(t, Raised(e))
  }

  /** The reply to ROLLBACK: on success the state becomes ROLLED_BACK. */
  function RollbackCompleted(t: Tx, response: Response): (r: Step)
    ensures r.status == StatusOf(response)
    ensures r.tx == (if response.Succeeded? then t.(state := RolledBack) else t)
  {
    match response
    case Succeeded(_) => Step(t.(state := RolledBack), Done)
    case FailedWith(e) => Step(t, Raised(e))
  }

  /** txClosed(operation): whatever the operation's outcome, release the connection and tell the session. */
  function TxClosed(s: Step): (r: Step)
    ensures r.status == s.status
    ensures r.tx == s.tx.(releases := s.tx.releases + 1, sessionNotified := s.tx.sessionNotified + 1)
  {
    Step(s.tx.(releases := s.tx.releases + 1, sessionNotified := s.tx.sessionNotified + 1), s.status)
  }

  /**
   * The composition of Futures.fallback, assumed here: the first operation's
   * success, otherwise the outcome of the fallback operation.
   */
  function Fallback(first: Status, second: Status): (r: Status)
    ensures r == Done <==> first == Done || second == Done
    ensures r.Raised? ==> r == second
    ensures first == Done ==> r == Done
  {
    if first == Done then Done else second
  }

  /**
   * internalCommitAsync(): already successful on a terminal state; otherwise
   * COMMIT, the state set to COMMITTED on success, then release and notify.
   */
  function InternalCommitAsync(t: Tx, response: Response): (r: Step)
    ensures !IsOpen(t.state) ==> r == Step(t, Done)
    ensures IsOpen(t.state) ==>
      r.tx.sent == t.sent + [Send(CommitMessage), PullAll, Flush] &&
      r.tx.releases == t.releases + 1 && r.tx.sessionNotified == t.sessionNotified + 1 &&
      r.tx.handlerNotified == t.handlerNotified &&
      r.tx.state == (if response.Succeeded? then Committed else t.state) &&
      r.tx.bookmark == (if response.Succeeded? then UpdateBookmark(t.bookmark, response.bookmark) else t.bookmark) &&
      r.status == StatusOf(response)
  {
    if !IsOpen(t.state) then Step(t, Done)
    else TxClosed(CommitCompleted(DoCommitAsync(t), response))
  }

  /**
   * internalRollbackAsync(): already successful on a terminal state; otherwise
   * ROLLBACK, the state set to ROLLED_BACK on success, then release and notify.
   */
  function InternalRollbackAsync(t: Tx, response: Response): (r: Step)
    ensures !IsOpen(t.state) ==> r == Step(t, Done)
    ensures IsOpen(t.state) ==>
      r.tx.sent == t.sent + [Send(RollbackMessage), PullAll, Flush] &&
      r.tx.releases == t.releases + 1 && r.tx.sessionNotified == t.sessionNotified + 1 &&
      r.tx.handlerNotified == t.handlerNotified && r.tx.bookmark == t.bookmark &&
      r.tx.state == (if response.Succeeded? then RolledBack else t.state) &&
      r.status == StatusOf(response)
  {
    if !IsOpen(t.state) then Step(t, Done)
    else TxClosed(RollbackCompleted(DoRollbackAsync(t), response))
  }

  /**
   * closeAsync(). On MARKED_SUCCESS both doCommitAsync() and doRollbackAsync()
   * are evaluated as arguments of Futures.fallback, so COMMIT and ROLLBACK are
   * both dispatched; their replies arrive in that order and each runs its own
   * success callback.
   */
  function CloseAsync(t: Tx, commit: Response, rollback: Response): (r: Step)
    ensures r.tx.handlerNotified == t.handlerNotified
    ensures t.state == MarkedSuccess ==>
      r.tx.sent == t.sent + [Send(CommitMessage), PullAll, Flush, Send(RollbackMessage), PullAll, Flush] &&
      r.tx.releases == t.releases + 1 && r.tx.sessionNotified == t.sessionNotified + 1 &&
      r.tx.state == (if rollback.Succeeded? then RolledBack else if commit.Succeeded? then Committed else MarkedSuccess) &&
      r.tx.bookmark == (if commit.Succeeded? then UpdateBookmark(t.bookmark, commit.bookmark) else t.bookmark) &&
      r.status == (if commit.Succeeded? then Done else StatusOf(rollback))
    ensures t.state == Active || t.state == MarkedFailed ==> r == InternalRollbackAsync(t, rollback)
    ensures t.state == Failed ==> r == Step(t.(state := RolledBack), Done)
    ensures !IsOpen(t.state) ==> r == Step(t, Done)
  {
    match t.state
    case MarkedSuccess =>
      var dispatched := DoRollbackAsync(DoCommitAsync(t));
      var committed := CommitCompleted(dispatched, commit);
      var rolledBack := RollbackCompleted(committed.tx, rollback);
      TxClosed(Step(rolledBack.tx, Fallback(committed.status, rolledBack.status)))
    case Active => TxClosed(RollbackCompleted(DoRollbackAsync(t), rollback))
    case MarkedFailed => TxClosed(RollbackCompleted(DoRollbackAsync(t), rollback))
    case Failed => Step(t.(state := RolledBack), Done)
    case Committed => Step(t, Done)
    case RolledBack => Step(t, Done)
  }

  // ---------------------------------------------------------------- result callbacks

  /**
   * resultFailed(error): a recoverable error acts as failure(); any other
   * error sets FAILED whatever the state was.
   */
  function ResultFailed(t: Tx, recoverable: bool): (r: Tx)
    ensures r == t.(state := r.state)
    ensures recoverable ==> r.state == MarkFailure(t.state)
    ensures !recoverable ==> r.state == Failed
  {
    t.(state := if recoverable then MarkFailure(t.state) else Failed)
  }
}
