/**
 * ExplicitTransaction as a class whose fields the operations update step by
 * step. The connection is replaced by the outcome parameters of each
 * operation; the calls made on it are logged in `sent`. Every method is
 * proved to leave the object in the state the matching TxSpec function gives.
 */
module Transaction {
  import opened TxStates
  import opened Protocol
  import S = TxSpec

  class ExplicitTransaction {
    /** Built over a blocking Connection (true) or over an AsyncConnection and a session (false). */
    const blocking: bool

    var state: State
    var bookmark: Bookmark
    /** The calls made on the connection, in order. */
    var sent: seq<Call>
    /** Calls of resourcesHandler.onTransactionClosed. */
    var handlerNotified: nat
    /** Calls of session.asyncTransactionClosed. */
    var sessionNotified: nat
    /** Calls of asyncConnection.release. */
    var releases: nat

    function Snapshot(): S.Tx
      reads this
    {
      S.Tx(state, bookmark, sent, handlerNotified, sessionNotified, releases)
    }

    /** The constructor over a blocking connection and a resources handler. */
    constructor OverConnection()
      ensures blocking && Snapshot() == S.Initial()
    {
      blocking := true;
      state, bookmark, sent := Active, Empty, [];
      handlerNotified, sessionNotified, releases := 0, 0, 0;
    }

    /** The constructor over an asynchronous connection and a session; its resources handler is NO_OP. */
    constructor OverAsyncConnection()
      ensures !blocking && Snapshot() == S.Initial()
    {
      blocking := false;
      state, bookmark, sent := Active, Empty, [];
      handlerNotified, sessionNotified, releases := 0, 0, 0;
    }

    /**
     * connection.run(m), connection.pullAll(), then `finish` when there is one,
     * on the blocking connection; stops at the call that `reply` makes throw.
     */
    method Exchange(m: Message, finish: Option<Call>, reply: Reply) returns (thrown: Option<Error>)
      modifies this
      ensures Snapshot() == old(Snapshot()).(sent := old(sent) + Made(ExchangeCalls(m, finish), reply))
      ensures thrown == Thrown(ExchangeCalls(m, finish), reply)
    {
      sent := sent + [Send(m)];
      if reply.Throws? && reply.stage == AtRun {
        return Some(reply.error);
      }
      sent := sent + [PullAll];
      if reply.Throws? && reply.stage == AtPullAll {
        return Some(reply.error);
      }
      if finish.Some? {
        sent := sent + [finish.value];
        if reply.Throws? && reply.stage == AtFinish {
          return Some(reply.error);
        }
      }
      return None;
    }

    /** begin(initialBookmark) */
    method Begin(initial: Bookmark, reply: Reply) returns (status: S.Status)
      requires blocking
      modifies this
      ensures Snapshot() == S.Begin(old(Snapshot()), initial, reply).tx
      ensures status == S.Begin(old(Snapshot()), initial, reply).status
    {
      var thrown := Exchange(BeginMessage(initial), if initial == Empty then None else Some(Sync), reply);
      status := S.Outcome(thrown);
    }

    /** beginAsync(initialBookmark); `response` is the reply BeginTxResponseHandler receives. */
    method BeginAsync(initial: Bookmark, response: Response) returns (status: S.Status)
      requires !blocking
      modifies this
      ensures Snapshot() == S.BeginAsync(old(Snapshot()), initial, response).tx
      ensures status == S.BeginAsync(old(Snapshot()), initial, response).status
    {
      sent := sent + [Send(BeginMessage(initial))];
      if initial == Empty {
        sent := sent + [PullAll];
        status := S.Done;
      } else {
        sent := sent + [PullAll];
        sent := sent + [Flush];
        status := S.StatusOf(response);
      }
    }

    /** success() */
    method Success()
      modifies this
      ensures Snapshot() == old(Snapshot()).(state := MarkSuccess(old(state)))
    {
      if state == Active {
        state := MarkedSuccess;
      }
    }

    /** failure() */
    method Failure()
      modifies this
      ensures Snapshot() == old(Snapshot()).(state := MarkFailure(old(state)))
    {
      if state == Active || state == MarkedSuccess {
        state := MarkedFailed;
      }
    }

    /**
     * close(). `connOpen` is connection.isOpen(); a transaction over an
     * asynchronous connection has no blocking connection, so it only notifies.
     */
    method Close(connOpen: bool, commit: Reply, rollback: Reply) returns (status: S.Status)
      modifies this
      ensures Snapshot() == S.Close(old(Snapshot()), blocking && connOpen, commit, rollback).tx
      ensures status == S.Close(old(Snapshot()), blocking && connOpen, commit, rollback).status
    {
      status := S.Done;
      if blocking && connOpen {
        if state == MarkedSuccess {
          var thrown := Exchange(CommitMessage, Some(Sync), commit);
          if thrown.None? {
            SetBookmark(commit.bookmark);
            state := Committed;
          } else {
            // failed to commit: best-effort rollback, whose own error is dropped
            var ignored := RollbackTx(rollback);
            status := S.Raised(thrown.value);
          }
        } else if state == MarkedFailed || state == Active {
          status := RollbackTx(rollback);
        } else if state == Failed {
          state := RolledBack;
        }
      }
      // finally
      handlerNotified := handlerNotified + 1;
    }

    /** rollbackTx() */
    method RollbackTx(reply: Reply) returns (status: S.Status)
      modifies this
      ensures Snapshot() == S.RollbackTx(old(Snapshot()), reply).tx
      ensures status == S.RollbackTx(old(Snapshot()), reply).status
    {
      var thrown := Exchange(RollbackMessage, Some(Sync), reply);
      if thrown.Some? {
        return S.Raised(thrown.value);
      }
      SetBookmark(reply.bookmark);
      state := RolledBack;
      status := S.Done;
    }

    /** internalCommitAsync(), and commitAsync() which wraps its future in a task. */
    method InternalCommitAsync(response: Response) returns (status: S.Status)
      requires !blocking
      modifies this
      ensures Snapshot() == S.InternalCommitAsync(old(Snapshot()), response).tx
      ensures status == S.InternalCommitAsync(old(Snapshot()), response).status
    {
      if state == Committed || state == RolledBack {
        return S.Done;
      }
      DoCommitAsync();
      status := CommitResponded(response);
      TxClosed();
    }

    /** internalRollbackAsync(), and rollbackAsync() which wraps its future in a task. */
    method InternalRollbackAsync(response: Response) returns (status: S.Status)
      requires !blocking
      modifies this
      ensures Snapshot() == S.InternalRollbackAsync(old(Snapshot()), response).tx
      ensures status == S.InternalRollbackAsync(old(Snapshot()), response).status
    {
      if state == Committed || state == RolledBack {
        return S.Done;
      }
      DoRollbackAsync();
      status := RollbackResponded(response);
      TxClosed();
    }

    /** closeAsync() */
    method CloseAsync(commit: Response, rollback: Response) returns (status: S.Status)
      requires !blocking
      modifies this
      ensures Snapshot() == S.CloseAsync(old(Snapshot()), commit, rollback).tx
      ensures status == S.CloseAsync(old(Snapshot()), commit, rollback).status
    {
      if state == MarkedSuccess {
        // both arguments of Futures.fallback are evaluated before it is entered
        DoCommitAsync();
        DoRollbackAsync();
        var committed := CommitResponded(commit);
        var rolledBack := RollbackResponded(rollback);
        status := S.Fallback(committed, rolledBack);
        TxClosed();
        return;
      } else if state == MarkedFailed || state == Active {
        DoRollbackAsync();
        status := RollbackResponded(rollback);
        TxClosed();
        return;
      } else if state == Failed {
        state := RolledBack;
      }
      status := S.Done;
    }

    /** The completion step that txClosed chains onto an operation. */
    method TxClosed()
      modifies this
      ensures Snapshot() == old(Snapshot()).(releases := old(releases) + 1, sessionNotified := old(sessionNotified) + 1)
    {
      releases := releases + 1;
      sessionNotified := sessionNotified + 1;
    }

    /** doCommitAsync(): COMMIT and PULL_ALL with a commit handler, then flush(). */
    method DoCommitAsync()
      modifies this
      ensures Snapshot() == S.DoCommitAsync(old(Snapshot()))
    {
      sent := sent + [Send(CommitMessage)];
      sent := sent + [PullAll];
      sent := sent + [Flush];
    }

    /** The reply to COMMIT: CommitTxResponseHandler records the bookmark, then the onSuccess callback sets COMMITTED. */
    method CommitResponded(response: Response) returns (status: S.Status)
      modifies this
      ensures Snapshot() == S.CommitCompleted(old(Snapshot()), response).tx
      ensures status == S.CommitCompleted(old(Snapshot()), response).status
    {
      match response
      case Succeeded(b) =>
        SetBookmark(b);
        state := Committed;
        status := S.Done;
      case FailedWith(e) =>
        status := S.Raised(e);
    }

    /** doRollbackAsync(): ROLLBACK and PULL_ALL with a rollback handler, then flush(). */
    method DoRollbackAsync()
      modifies this
      ensures Snapshot() == S.DoRollbackAsync(old(Snapshot()))
    {
      sent := sent + [Send(RollbackMessage)];
      sent := sent + [PullAll];
      sent := sent + [Flush];
    }

    /** The reply to ROLLBACK: the onSuccess callback sets ROLLED_BACK. */
    method RollbackResponded(response: Response) returns (status: S.Status)
      modifies this
      ensures Snapshot() == S.RollbackCompleted(old(Snapshot()), response).tx
      ensures status == S.RollbackCompleted(old(Snapshot()), response).status
    {
      match response
      case Succeeded(_) =>
        state := RolledBack;
        status := S.Done;
      case FailedWith(e) =>
        status := S.Raised(e);
    }

    /**
     * run(statement). ensureNotFailed() comes first, so a refused statement
     * never touches a connection; otherwise the blocking connection is used.
     */
    method Run(st: Statement, reply: Reply) returns (status: S.Status)
      requires blocking || RunRefused(state)
      modifies this
      ensures Snapshot() == S.Run(old(Snapshot()), st, reply).tx
      ensures status == S.Run(old(Snapshot()), st, reply).status
    {
      status := EnsureNotFailed();
      if status.Raised? {
        return;
      }
      var thrown := Exchange(RunMessage(st), Some(Flush), reply);
      if thrown.Some? {
        // only a Neo4jException is caught and marks the transaction FAILED
        if IsNeo4jException(thrown.value) {
          state := Failed;
        }
        status := S.Raised(thrown.value);
      }
    }

    /** runAsync(statement); the asynchronous connection is used only when the statement is not refused. */
    method RunAsync(st: Statement) returns (status: S.Status)
      requires !blocking || RunRefused(state)
      modifies this
      ensures Snapshot() == S.RunAsync(old(Snapshot()), st).tx
      ensures status == S.RunAsync(old(Snapshot()), st).status
    {
      status := EnsureNotFailed();
      if status.Raised? {
        return;
      }
      sent := sent + [Send(RunMessage(st))];
      sent := sent + [PullAll];
      sent := sent + [Flush];
    }

    /** isOpen() */
    method IsOpen() returns (open: bool)
      ensures open <==> TxStates.IsOpen(state)
    {
      open := TxStates.IsOpen(state);
    }

    /** ensureNotFailed(): throws the ClientException in FAILED, MARKED_FAILED and ROLLED_BACK. */
    method EnsureNotFailed() returns (status: S.Status)
      ensures status.Raised? <==> RunRefused(state)
      ensures status.Raised? ==> status.error == ClientError(TerminatedMessage)
    {
      if RunRefused(state) {
        return S.Raised(ClientError(TerminatedMessage));
      }
      return S.Done;
    }

    /** resultFailed(error); `recoverable` is ErrorUtil.isRecoverable(error). */
    method ResultFailed(error: Error, recoverable: bool)
      modifies this
      ensures Snapshot() == S.ResultFailed(old(Snapshot()), recoverable)
    {
      if recoverable {
        Failure();
      } else {
        MarkToClose();
      }
    }

    /** markToClose() */
    method MarkToClose()
      modifies this
      ensures Snapshot() == old(Snapshot()).(state := Failed)
    {
      state := Failed;
    }

    /** bookmark() */
    method GetBookmark() returns (b: Bookmark)
      ensures b == bookmark
    {
      b := bookmark;
    }

    /** setBookmark(b); None stands for null. */
    method SetBookmark(b: Option<Bookmark>)
      modifies this
      ensures Snapshot() == old(Snapshot()).(bookmark := UpdateBookmark(old(bookmark), b))
    {
      if b.Some? && b.value != Empty {
        bookmark := b.value;
      }
    }
  }
}
