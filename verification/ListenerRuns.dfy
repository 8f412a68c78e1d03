/**
 * The life of the listeners of one user stream: made to wait, handed out by a token update, or
 * cancelled. A listener is named by its position in the stream's history.
 */
module ListenerRuns {
  import opened Common

  datatype Op = Listen(token: int) | Update(token: int) | Cancel(listener: nat)

  /** The stream's token after a history that began at `start`. */
  function TokenAfter(start: int, ops: seq<Op>): int {
    if ops == [] then start
    else
      var op := ops[|ops| - 1];
      if op.Update? then op.token else TokenAfter(start, ops[..|ops| - 1])
  }

  /** The listeners waiting after a history. */
  function Waiting(start: int, ops: seq<Op>): set<nat> {
    if ops == [] then {}
    else
      var n := |ops| - 1;
      var before := Waiting(start, ops[..n]);
      match ops[n]
      case Listen(token) => if token == TokenAfter(start, ops[..n]) then before + {n} else before
      case Update(_) => {}
      case Cancel(i) => before - {i}
  }

  /** The listeners that the operation at position `q` hands out. */
  function HandedOutAt(start: int, ops: seq<Op>, q: nat): set<nat>
    requires q < |ops|
  {
    if ops[q].Update? then Waiting(start, ops[..q]) else {}
  }

  /** The token that listener `i` was resolved with, if it was. */
  function ResultOf(start: int, ops: seq<Op>, i: nat): Option<int> {
    if ops == [] then None
    else
      var n := |ops| - 1;
      if ops[n].Update? && i in Waiting(start, ops[..n]) then Some(ops[n].token) else ResultOf(start, ops[..n], i)
  }

  /** The client's token was up to date at position `i`, so it was made to wait. */
  predicate MadeToWait(start: int, ops: seq<Op>, i: nat) {
    i < |ops| && ops[i].Listen? && ops[i].token == TokenAfter(start, ops[..i])
  }

  /** Nothing ended the wait of listener `i` before position `n`. */
  predicate LeftWaiting(ops: seq<Op>, i: nat, n: nat)
    requires n <= |ops|
  {
    forall j :: i < j < n ==> !ops[j].Update? && ops[j] != Cancel(i)
  }

  /** Waiting are exactly the listeners made to wait with neither an update nor a cancellation since. */
  lemma {:induction false} WaitingExactly(start: int, ops: seq<Op>, n: nat, i: nat)
    requires n <= |ops|
    ensures i in Waiting(start, ops[..n]) <==> i < n && MadeToWait(start, ops, i) && LeftWaiting(ops, i, n)
  {
    if n > 0 {
      WaitingExactly(start, ops, n - 1, i);
      assert ops[..n][..n - 1] == ops[..n - 1];
      assert LeftWaiting(ops, i, n) <==> LeftWaiting(ops, i, n - 1) && (i < n - 1 ==> !ops[n - 1].Update? && ops[n - 1] != Cancel(i));
    }
  }

  /** Every waiting listener waits for the present token. */
  lemma {:induction false} WaitForPresentToken(start: int, ops: seq<Op>, i: nat)
    requires i in Waiting(start, ops)
    ensures i < |ops| && ops[i].Listen? && ops[i].token == TokenAfter(start, ops)
  {
    var n := |ops| - 1;
    if i in Waiting(start, ops[..n]) {
      WaitForPresentToken(start, ops[..n], i);
    }
  }

  /**
   * A listener made to wait is handed out by an operation exactly when that is the first update
   * since and the listener was not cancelled before it.
   */
  lemma HandedOutExactly(start: int, ops: seq<Op>, q: nat, i: nat)
    requires q < |ops|
    ensures i in HandedOutAt(start, ops, q) <==> ops[q].Update? && i < q && MadeToWait(start, ops, i) && LeftWaiting(ops, i, q)
  {
    WaitingExactly(start, ops, q, i);
  }

  /** No listener is ever handed out twice. */
  lemma HandedOutOnce(start: int, ops: seq<Op>, q: nat, r: nat, i: nat)
    requires q < r < |ops| && i in HandedOutAt(start, ops, q)
    ensures i !in HandedOutAt(start, ops, r)
  {
    HandedOutExactly(start, ops, q, i);
    HandedOutExactly(start, ops, r, i);
  }

  /** A listener holds a token exactly when some update handed it out, and then that update's token. */
  lemma {:induction false} ResultExactly(start: int, ops: seq<Op>, i: nat, token: int)
    ensures ResultOf(start, ops, i) == Some(token) <==>
            exists q: nat :: q < |ops| && i in HandedOutAt(start, ops, q) && ops[q].token == token
  {
    if ops != [] {
      var n := |ops| - 1;
      var before := ops[..n];
      ResultExactly(start, before, i, token);
      forall q: nat | q < n ensures HandedOutAt(start, before, q) == HandedOutAt(start, ops, q) {
        assert before[..q] == ops[..q];
      }
      if ops[n].Update? && i in Waiting(start, before) {
        assert i in HandedOutAt(start, ops, n);
        forall q: nat | q < n ensures i !in HandedOutAt(start, ops, q) {
          if i in HandedOutAt(start, ops, q) {
            HandedOutOnce(start, ops, q, n, i);
          }
        }
      }
    }
  }

  /** Only listeners of the history are waiting or hold a token. */
  lemma {:induction false} NotYetListening(start: int, ops: seq<Op>, i: nat)
    requires |ops| <= i
    ensures i !in Waiting(start, ops) && ResultOf(start, ops, i) == None
  {
    if ops != [] {
      NotYetListening(start, ops[..|ops| - 1], i);
    }
  }

  /** One more operation on a history. */
  lemma OneMoreOp(start: int, ops: seq<Op>, op: Op)
    ensures (ops + [op])[..|ops|] == ops && (ops + [op])[|ops|] == op
  {}
}
