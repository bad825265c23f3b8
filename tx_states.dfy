/**
 * The lifecycle of an explicit transaction as a pure state machine: the six
 * states, the marking transitions of success() and failure(), the guard of
 * ensureNotFailed(), and the causal-consistency bookmark with its update rule.
 */
module TxStates {

  datatype Option<+T> = None | Some(value: T)

  /** The six values of ExplicitTransaction.State. */
  datatype State = Active | MarkedSuccess | MarkedFailed | Failed | Committed | RolledBack

  /**
   * isOpen(): the transaction is open until it is committed or rolled back,
   * that is, exactly while the lifecycle still allows rolling it back.
   */
  predicate IsOpen(s: State)
    ensures IsOpen(s) <==> CanEnter(s, RolledBack)
  {
    s != Committed && s != RolledBack
  }

  /**
   * The states in which ensureNotFailed() throws, so that no statement is run.
   * Statements are accepted in ACTIVE, MARKED_SUCCESS and, as written, COMMITTED.
   */
  predicate RunRefused(s: State)
    ensures !RunRefused(s) <==> s == Active || s == MarkedSuccess || s == Committed
  {
    s == Failed || s == MarkedFailed || s == RolledBack
  }

  /** success(): only ACTIVE moves, and it moves to MARKED_SUCCESS. */
  function MarkSuccess(s: State): (r: State)
    ensures r != s <==> s == Active
    ensures r == s || r == MarkedSuccess
  {
    if s == Active then MarkedSuccess else s
  }

  /** failure(): only ACTIVE and MARKED_SUCCESS move, and they move to MARKED_FAILED. */
  function MarkFailure(s: State): (r: State)
    ensures r != s <==> s == Active || s == MarkedSuccess
    ensures r == s || r == MarkedFailed
  {
    if s == Active || s == MarkedSuccess then MarkedFailed else s
  }

  /**
   * The intended lifecycle, after the State javadoc of ExplicitTransaction:
   * the states each state may be entered from. Nothing re-enters ACTIVE,
   * nothing leaves COMMITTED or ROLLED_BACK, and FAILED, after which no more
   * messages are to be sent, can only be finalised as ROLLED_BACK.
   */
  predicate CanEnter(from: State, to: State) {
    match to
    case Active => false
    case MarkedSuccess => from == Active
    case MarkedFailed => from == Active || from == MarkedSuccess
    case Failed => from == Active || from == MarkedSuccess || from == MarkedFailed
    case Committed => from == MarkedSuccess
    case RolledBack => from == Active || from == MarkedSuccess || from == MarkedFailed || from == Failed
  }

  /** success() and failure() only make moves the lifecycle table allows. */
  lemma MarkingsFollowTable(s: State)
    ensures MarkSuccess(s) != s ==> CanEnter(s, MarkSuccess(s))
    ensures MarkFailure(s) != s ==> CanEnter(s, MarkFailure(s))
    ensures !IsOpen(s) ==> MarkSuccess(s) == s && MarkFailure(s) == s
  {
  }

  /** A call of success() or of failure(). */
  datatype Mark = Succeed | Fail

  function ApplyMark(s: State, m: Mark): State {
    match m
    case Succeed => MarkSuccess(s)
    case Fail => MarkFailure(s)
  }

  function ApplyMarks(s: State, marks: seq<Mark>): State
    decreases |marks|
  {
    if marks == [] then s else ApplyMarks(ApplyMark(s, marks[0]), marks[1..])
  }

  /**
   * Any sequence of success()/failure() calls ends in a state fixed by the
   * starting state and by which of the two calls occur, not by their order:
   * any failure() from ACTIVE or MARKED_SUCCESS wins, and other states never move.
   */
  lemma {:induction false} MarksClosedForm(s: State, marks: seq<Mark>)
    ensures ApplyMarks(s, marks) ==
      if s != Active && s != MarkedSuccess then s
      else if Fail in marks then MarkedFailed
      else if Succeed in marks then MarkedSuccess
      else s
    decreases |marks|
  {
    if marks != [] {
      var s1 := ApplyMark(s, marks[0]);
      MarksClosedForm(s1, marks[1..]);
      assert marks == [marks[0]] + marks[1..];
      assert Fail in marks <==> marks[0] == Fail || Fail in marks[1..];
      assert Succeed in marks <==> marks[0] == Succeed || Succeed in marks[1..];
    }
  }

  /** A causal-consistency bookmark; Empty is Bookmark.empty(). */
  datatype Bookmark = Empty | Token(value: string)

  /** setBookmark(b): a missing (null) or empty bookmark leaves the current one in place. */
  function UpdateBookmark(current: Bookmark, incoming: Option<Bookmark>): (r: Bookmark)
    ensures incoming.Some? && incoming.value != Empty ==> r == incoming.value
    ensures incoming.None? || incoming.value == Empty ==> r == current
    ensures current != Empty ==> r != Empty
  {
    if incoming.Some? && incoming.value != Empty then incoming.value else current
  }

  function ApplyUpdates(current: Bookmark, incoming: seq<Option<Bookmark>>): Bookmark
    decreases |incoming|
  {
    if incoming == [] then current else ApplyUpdates(UpdateBookmark(current, incoming[0]), incoming[1..])
  }

  /**
   * Over any sequence of setBookmark calls the bookmark never goes back to
   * empty, it is always the starting one or one that was offered, and the
   * last non-empty bookmark offered is the one kept.
   */
  lemma {:induction false} UpdatesKeepLatest(current: Bookmark, incoming: seq<Option<Bookmark>>)
    ensures current != Empty ==> ApplyUpdates(current, incoming) != Empty
    ensures ApplyUpdates(current, incoming) == current || Some(ApplyUpdates(current, incoming)) in incoming
    ensures incoming != [] && incoming[|incoming| - 1].Some? && incoming[|incoming| - 1].value != Empty ==>
      ApplyUpdates(current, incoming) == incoming[|incoming| - 1].value
    decreases |incoming|
  {
    if incoming != [] {
      var next := UpdateBookmark(current, incoming[0]);
      UpdatesKeepLatest(next, incoming[1..]);
      assert incoming == [incoming[0]] + incoming[1..];
      if |incoming| > 1 {
        assert incoming[1..][|incoming[1..]| - 1] == incoming[|incoming| - 1];
      }
    }
  }
}
