/**
 * What an explicit transaction says to its connection, and what the
 * connection can answer. The connection itself is not modelled: each
 * exchange takes its outcome as a parameter.
 */
module Protocol {
  import opened TxStates

  /**
   * A statement: its text and its parameters. The parameters stand for the
   * driver's values already converted to a map; the value system is not part
   * of this model.
   */
  datatype Statement = Statement(text: string, parameters: map<string, string>)

  /**
   * The request kinds the transaction passes to connection.run: "BEGIN" with
   * the parameters of its initial bookmark, a user statement, "COMMIT" and
   * "ROLLBACK" with no parameters.
   */
  datatype Message =
    | BeginMessage(bookmark: Bookmark)
    | RunMessage(statement: Statement)
    | CommitMessage
    | RollbackMessage

  /** One call on the connection: run(message), pullAll(), flush() or sync(). */
  datatype Call = Send(message: Message) | PullAll | Flush | Sync

  /**
   * Errors: the ClientException the driver raises itself, any other
   * Neo4jException, and a Throwable that is not a Neo4jException.
   */
  datatype Error =
    | ClientError(message: string)
    | Neo4jError(code: string, message: string)
    | OtherError(message: string)

  predicate IsNeo4jException(e: Error) {
    !e.OtherError?
  }

  /** The message of the ClientException thrown by ensureNotFailed(). */
  const TerminatedMessage: string :=
    "Cannot run more statements in this transaction, because previous statements in the " +
    "transaction has failed and the transaction has been rolled back. Please start a new " +
    "transaction to run another statement."

  /** The calls of one exchange: run, pullAll, then sync() or flush() when there is one. */
  function ExchangeCalls(m: Message, finish: Option<Call>): seq<Call> {
    [Send(m), PullAll] + (if finish.Some? then [finish.value] else [])
  }

  /** An exchange that ends in sync(): the blocking commit and rollback. */
  function Synced(m: Message): seq<Call> {
    ExchangeCalls(m, Some(Sync))
  }

  /** An exchange that ends in flush(): the non-blocking commit, rollback and statement run, the non-blocking begin with a bookmark, and the blocking statement run. */
  function Flushed(m: Message): seq<Call> {
    ExchangeCalls(m, Some(Flush))
  }

  /** The call of an exchange at which a blocking connection throws. */
  datatype Stage = AtRun | AtPullAll | AtFinish

  function Position(stage: Stage): nat {
    match stage
    case AtRun => 0
    case AtPullAll => 1
    case AtFinish => 2
  }

  /**
   * How a blocking exchange ends: it returns, its bookmark-capturing handler
   * having seen the given bookmark (ignored where the exchange has no such
   * handler), or one of its calls throws.
   */
  datatype Reply = Replied(bookmark: Option<Bookmark>) | Throws(stage: Stage, error: Error)

  /** How the reply to a non-blocking exchange completes its promise. */
  datatype Response = Succeeded(bookmark: Option<Bookmark>) | FailedWith(error: Error)

  /**
   * The error a blocking exchange of `calls` throws under `reply`; a failure
   * scheduled for a call the exchange does not make has no effect.
   */
  function Thrown(calls: seq<Call>, reply: Reply): (e: Option<Error>)
    ensures e.Some? ==> reply.Throws? && e.value == reply.error
    ensures |calls| == 3 ==> (e.Some? <==> reply.Throws?)
  {
    if reply.Throws? && Position(reply.stage) < |calls| then Some(reply.error) else None
  }

  /** The calls a blocking exchange of `calls` makes under `reply`, up to and including the one that throws. */
  function Made(calls: seq<Call>, reply: Reply): (made: seq<Call>)
    ensures made <= calls
    ensures Thrown(calls, reply).None? ==> made == calls
    ensures |calls| > 0 ==> |made| > 0 && made[0] == calls[0]
  {
    if Thrown(calls, reply).Some? then calls[..Position(reply.stage) + 1] else calls
  }
}
