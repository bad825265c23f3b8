/**
 * Three places where ExplicitTransaction as written departs from the
 * behaviour its comments and its callers evidently intend. For each: a lemma on the as-written
 * model that exhibits the departure, and a corrected definition with the
 * intended property proved. The class in module Transaction follows the
 * code as written.
 */
module Findings {
  import opened TxStates
  import opened Protocol
  import opened TxSpec

  // ------------------------------------------------ closeAsync on MARKED_SUCCESS

  /**
   * As written: closeAsync() on MARKED_SUCCESS sends ROLLBACK even when COMMIT
   * succeeds, and if the server acknowledges that ROLLBACK as well the
   * transaction ends ROLLED_BACK although it committed.
   */
  lemma CloseAsyncRollsBackAfterCommit(t: Tx, b: Option<Bookmark>, rollback: Response)
    requires t.state == MarkedSuccess
    ensures var r := CloseAsync(t, Succeeded(b), rollback);
      Send(RollbackMessage) in r.tx.sent[|t.sent|..] && r.status == Done &&
      (rollback.Succeeded? ==> r.tx.state == RolledBack)
  {
  }

  /**
   * Corrected: the fallback ROLLBACK is dispatched only once COMMIT has failed.
   * A successful commit ends COMMITTED with no ROLLBACK sent; a failed one
   * sends ROLLBACK and completes with its outcome. Every other state is
   * handled as closeAsync() handles it.
   */
  function CloseAsyncLazyFallback(t: Tx, commit: Response, rollback: Response): (r: Step)
    ensures t.sent <= r.tx.sent
    ensures t.state == MarkedSuccess && commit.Succeeded? ==>
      r.tx.state == Committed && r.status == Done &&
      r.tx.sent == t.sent + [Send(CommitMessage), PullAll, Flush] &&
      Send(RollbackMessage) !in r.tx.sent[|t.sent|..]
    ensures t.state == MarkedSuccess && commit.FailedWith? ==>
      Send(RollbackMessage) in r.tx.sent[|t.sent|..] &&
      r.tx.state == (if rollback.Succeeded? then RolledBack else MarkedSuccess) &&
      r.status == StatusOf(rollback)
    ensures t.state == MarkedSuccess ==>
      r.tx.releases == t.releases + 1 && r.tx.sessionNotified == t.sessionNotified + 1
    ensures t.state != MarkedSuccess ==> r == CloseAsync(t, commit, rollback)
  {
    if t.state != MarkedSuccess then CloseAsync(t, commit, rollback)
    else
      var committed := CommitCompleted(DoCommitAsync(t), commit);
      if committed.status == Done then
        assert committed.tx.sent[|t.sent|..] == [Send(CommitMessage), PullAll, Flush];
        TxClosed(committed)
      else
        var rolledBack := RollbackCompleted(DoRollbackAsync(committed.tx), rollback);
        assert rolledBack.tx.sent[|t.sent|..] == [Send(CommitMessage), PullAll, Flush, Send(RollbackMessage), PullAll, Flush];
        TxClosed(rolledBack)
  }

  // ------------------------------------------------ close() when the fallback fails

  /**
   * As written: when COMMIT fails under close() and the fallback ROLLBACK fails
   * too, the transaction stays MARKED_SUCCESS and is still open, so a later
   * close() on a usable connection sends COMMIT again.
   */
  lemma FailedFallbackStaysMarkedSuccess(t: Tx, commit: Reply, rollback: Reply, commit2: Reply, rollback2: Reply)
    requires t.state == MarkedSuccess && commit.Throws? && rollback.Throws?
    ensures var first := Close(t, true, commit, rollback).tx;
      first.state == MarkedSuccess && IsOpen(first.state) &&
      Send(CommitMessage) in Close(first, true, commit2, rollback2).tx.sent[|first.sent|..]
  {
    var first := Close(t, true, commit, rollback).tx;
    var second := Close(first, true, commit2, rollback2).tx;
    assert second.sent[|first.sent|..][0] == Send(CommitMessage);
  }

  /**
   * Corrected: a failed commit finalises the transaction as ROLLED_BACK
   * whether or not the best-effort rollback succeeds, so close() on a usable
   * connection never leaves MARKED_SUCCESS, and it ends COMMITTED exactly when
   * the commit went through.
   */
  function CloseFinalisingFallback(t: Tx, usable: bool, commit: Reply, rollback: Reply): (r: Step)
    ensures t.sent <= r.tx.sent
    ensures usable && t.state == MarkedSuccess ==>
      !IsOpen(r.tx.state) && (r.tx.state == Committed <==> commit.Replied?)
    ensures usable && t.state == MarkedSuccess && commit.Throws? ==>
      r.status == Raised(commit.error) && Send(RollbackMessage) in r.tx.sent[|t.sent|..]
    ensures r.tx.handlerNotified == t.handlerNotified + 1
    ensures !(usable && t.state == MarkedSuccess && commit.Throws?) ==> r == Close(t, usable, commit, rollback)
  {
    var closed := Close(t, usable, commit, rollback);
    if usable && t.state == MarkedSuccess && commit.Throws? then
      Step(closed.tx.(state := RolledBack), closed.status)
    else closed
  }

  // ------------------------------------------------ run() on a committed transaction

  /**
   * As written: ensureNotFailed() does not refuse COMMITTED, so a statement is
   * sent on a committed transaction, and a Neo4jException while sending it
   * turns the transaction FAILED, that is, open again.
   */
  lemma CommittedAcceptsRun(t: Tx, st: Statement, reply: Reply)
    requires t.state == Committed
    ensures var r := Run(t, st, reply);
      r.tx.sent[|t.sent|] == Send(RunMessage(st)) &&
      (reply.Throws? && IsNeo4jException(reply.error) ==> IsOpen(r.tx.state))
  {
  }

  /** Corrected guard: statements run only while no outcome has been decided. */
  predicate RunRefusedIntended(s: State) {
    s != Active && s != MarkedSuccess
  }

  /**
   * Corrected run: refused outside ACTIVE and MARKED_SUCCESS. A finished
   * transaction then never sends a statement and never leaves its final state.
   */
  function RunWhileUndecided(t: Tx, st: Statement, reply: Reply): (r: Step)
    ensures !IsOpen(t.state) ==> r == Step(t, Raised(ClientError(TerminatedMessage)))
    ensures r.tx.sent != t.sent <==> t.state == Active || t.state == MarkedSuccess
    ensures !RunRefusedIntended(t.state) ==> r == Run(t, st, reply)
  {
    if RunRefusedIntended(t.state) then Step(t, Raised(ClientError(TerminatedMessage)))
    else Run(t, st, reply)
  }
}
