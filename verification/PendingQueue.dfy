/**
 * Room events waiting for their predecessors to be persisted: entries are appended as they come
 * and delivered by the first flush whose token covers them.
 */
module PendingQueue {
  import opened Common
  import opened RoomEvents

  datatype Entry = Entry(
    instance: string, position: int, extraUsers: set<string>,
    roomId: string, kind: EventType, stateKey: Option<string>, membership: Option<Membership>)

  /** A position in the room stream: one for all writers, or ahead of it for some of them. */
  datatype RoomToken = RoomToken(stream: int, instances: map<string, int>)

  function PositionFor(token: RoomToken, instance: string): int {
    if instance in token.instances then token.instances[instance] else token.stream
  }

  predicate PersistedAfter(entry: Entry, token: RoomToken) {
    PositionFor(token, entry.instance) < entry.position
  }

  /** A token covers an entry exactly when the entry's own writer, or the stream where none is listed, has come so far. */
  lemma CoveredExactly(entry: Entry, token: RoomToken)
    ensures !PersistedAfter(entry, token) <==>
            match Lookup(token.instances, entry.instance) case Some(p) => entry.position <= p case None => entry.position <= token.stream
  {}

  /** The entries a flush at `token` leaves pending, and those it delivers, each in queue order. */
  function Kept(pending: seq<Entry>, token: RoomToken): seq<Entry> {
    if pending == [] then []
    else
      var front, last := Kept(pending[..|pending| - 1], token), pending[|pending| - 1];
      if PersistedAfter(last, token) then front + [last] else front
  }

  function Delivered(pending: seq<Entry>, token: RoomToken): seq<Entry> {
    if pending == [] then []
    else
      var front, last := Delivered(pending[..|pending| - 1], token), pending[|pending| - 1];
      if PersistedAfter(last, token) then front else front + [last]
  }

  lemma FlushStep(queue: seq<Entry>, i: nat, token: RoomToken)
    requires i < |queue|
    ensures Kept(queue[..i + 1], token) == Kept(queue[..i], token) + (if PersistedAfter(queue[i], token) then [queue[i]] else [])
    ensures Delivered(queue[..i + 1], token) == Delivered(queue[..i], token) + (if PersistedAfter(queue[i], token) then [] else [queue[i]])
  {
    assert queue[..i + 1][..i] == queue[..i];
  }

  lemma FlushNone(queue: seq<Entry>, token: RoomToken)
    ensures Kept(queue[..0], token) == [] && Delivered(queue[..0], token) == []
  {}

  // ----- histories -----

  datatype Op = Append(entry: Entry) | Flush(token: RoomToken)

  function Pending(ops: seq<Op>): seq<Entry> {
    if ops == [] then []
    else
      var front, op := Pending(ops[..|ops| - 1]), ops[|ops| - 1];
      if op.Append? then front + [op.entry] else Kept(front, op.token)
  }

  lemma PendingFlush(ops: seq<Op>, token: RoomToken)
    ensures Pending(ops + [Flush(token)]) == Kept(Pending(ops), token)
  {
    assert (ops + [Flush(token)])[..|ops|] == ops;
  }

  /** The positions among `at` whose entries were (or were not) persisted after the token. */
  function Select(ops: seq<Op>, at: seq<nat>, token: RoomToken, after: bool): seq<nat> {
    if at == [] then []
    else
      var front, i := Select(ops, at[..|at| - 1], token, after), at[|at| - 1];
      if i < |ops| && ops[i].Append? && PersistedAfter(ops[i].entry, token) == after then front + [i] else front
  }

  /** The positions in the history of the appends still waiting after its first `n` operations. */
  function Waiting(ops: seq<Op>, n: nat): seq<nat>
    requires n <= |ops|
  {
    if n == 0 then []
    else if ops[n - 1].Append? then Waiting(ops, n - 1) + [n - 1]
    else Select(ops, Waiting(ops, n - 1), ops[n - 1].token, true)
  }

  /** What the flush at position `q` delivers. */
  function DeliveredAt(ops: seq<Op>, q: nat): seq<nat>
    requires q < |ops| && ops[q].Flush?
  {
    Select(ops, Waiting(ops, q), ops[q].token, false)
  }

  predicate Ascending(at: seq<nat>) {
    forall i, j :: 0 <= i < j < |at| ==> at[i] < at[j]
  }

  /** The append at `i` is covered by the flush at `q`. */
  predicate Covers(ops: seq<Op>, q: nat, i: nat)
    requires i < q < |ops| && ops[i].Append?
  {
    ops[q].Flush? && !PersistedAfter(ops[i].entry, ops[q].token)
  }

  /** No flush before position `n` covers the append at `i`. */
  ghost predicate UncoveredUntil(ops: seq<Op>, i: nat, n: nat)
    requires i < |ops| && ops[i].Append? && n <= |ops|
  {
    forall q: nat :: i < q < n ==> !Covers(ops, q, i)
  }

  lemma {:induction false} SelectMembers(ops: seq<Op>, at: seq<nat>, token: RoomToken, after: bool, i: nat)
    ensures i in Select(ops, at, token, after) <==>
            i in at && i < |ops| && ops[i].Append? && PersistedAfter(ops[i].entry, token) == after
  {
    if at != [] {
      SelectMembers(ops, at[..|at| - 1], token, after, i);
      assert at == at[..|at| - 1] + [at[|at| - 1]];
    }
  }

  lemma {:induction false} SelectAscends(ops: seq<Op>, at: seq<nat>, token: RoomToken, after: bool)
    requires Ascending(at)
    ensures Ascending(Select(ops, at, token, after))
  {
    if at != [] {
      var front, last := at[..|at| - 1], at[|at| - 1];
      SelectAscends(ops, front, token, after);
      var kept := Select(ops, front, token, after);
      forall k | 0 <= k < |kept| ensures kept[k] < last {
        SelectMembers(ops, front, token, after, kept[k]);
        assert kept[k] in kept;
        var m :| 0 <= m < |front| && front[m] == kept[k];
        assert at[m] < at[|at| - 1];
      }
    }
  }

  lemma UncoveredStep(ops: seq<Op>, i: nat, n: nat)
    requires i < |ops| && ops[i].Append? && 0 < n <= |ops|
    ensures UncoveredUntil(ops, i, n) <==> UncoveredUntil(ops, i, n - 1) && (i < n - 1 ==> !Covers(ops, n - 1, i))
  {}

  lemma {:induction false} WaitingMembers(ops: seq<Op>, n: nat, i: nat)
    requires n <= |ops|
    ensures i in Waiting(ops, n) <==> i < n && ops[i].Append? && UncoveredUntil(ops, i, n)
  {
    if n > 0 {
      WaitingMembers(ops, n - 1, i);
      if i < n && ops[i].Append? {
        UncoveredStep(ops, i, n);
      }
      if ops[n - 1].Flush? {
        SelectMembers(ops, Waiting(ops, n - 1), ops[n - 1].token, true, i);
      }
      hide UncoveredUntil, Select;
    }
  }

  lemma {:induction false} WaitingAscends(ops: seq<Op>, n: nat)
    requires n <= |ops|
    ensures Ascending(Waiting(ops, n))
  {
    if n > 0 {
      WaitingAscends(ops, n - 1);
      var before := Waiting(ops, n - 1);
      if ops[n - 1].Append? {
        forall k | 0 <= k < |before| ensures before[k] < n - 1 {
          WaitingMembers(ops, n - 1, before[k]);
          assert before[k] in before;
        }
      } else {
        SelectAscends(ops, before, ops[n - 1].token, true);
      }
    }
  }

  /** Waiting are, in order, exactly the appends that no flush since has covered. */
  lemma WaitingExactly(ops: seq<Op>, n: nat, i: nat)
    requires n <= |ops|
    ensures Ascending(Waiting(ops, n))
    ensures i in Waiting(ops, n) <==> i < n && ops[i].Append? && UncoveredUntil(ops, i, n)
  {
    WaitingMembers(ops, n, i);
    WaitingAscends(ops, n);
  }

  /** A flush delivers, in order, exactly the appends for which it is the first covering flush. */
  lemma DeliveredExactly(ops: seq<Op>, q: nat, i: nat)
    requires q < |ops| && ops[q].Flush?
    ensures Ascending(DeliveredAt(ops, q))
    ensures i in DeliveredAt(ops, q) <==> i < q && ops[i].Append? && UncoveredUntil(ops, i, q) && Covers(ops, q, i)
  {
    WaitingExactly(ops, q, i);
    SelectAscends(ops, Waiting(ops, q), ops[q].token, false);
    SelectMembers(ops, Waiting(ops, q), ops[q].token, false, i);
  }

  lemma {:induction false} FirstCover(ops: seq<Op>, i: nat, n: nat) returns (q: nat)
    requires i < |ops| && ops[i].Append? && n <= |ops| && !UncoveredUntil(ops, i, n)
    ensures i < q < n && Covers(ops, q, i) && UncoveredUntil(ops, i, q)
  {
    if UncoveredUntil(ops, i, n - 1) {
      q := n - 1;
    } else {
      q := FirstCover(ops, i, n - 1);
    }
  }

  /**
   * Conservation: after any history every append is either still waiting or was delivered by
   * exactly one flush, never both.
   */
  lemma DeliveredOnceOrWaiting(ops: seq<Op>, n: nat, i: nat)
    requires i < n <= |ops| && ops[i].Append?
    ensures i in Waiting(ops, n) <==> !exists q: nat :: i < q < n && ops[q].Flush? && i in DeliveredAt(ops, q)
    ensures forall q: nat, r: nat :: i < q < r < n && ops[q].Flush? && ops[r].Flush? && i in DeliveredAt(ops, q) ==> i !in DeliveredAt(ops, r)
  {
    WaitingExactly(ops, n, i);
    forall q: nat | i < q < n && ops[q].Flush? && i in DeliveredAt(ops, q) ensures Covers(ops, q, i) {
      DeliveredExactly(ops, q, i);
    }
    forall q: nat, r: nat | i < q < r < n && ops[q].Flush? && ops[r].Flush? && i in DeliveredAt(ops, q)
      ensures i !in DeliveredAt(ops, r)
    {
      DeliveredExactly(ops, q, i);
      DeliveredExactly(ops, r, i);
    }
    if !UncoveredUntil(ops, i, n) {
      var q := FirstCover(ops, i, n);
      DeliveredExactly(ops, q, i);
    }
  }

  // ----- the queue is the entries of the waiting appends -----

  function EntriesAt(ops: seq<Op>, at: seq<nat>): seq<Entry>
    requires forall k :: 0 <= k < |at| ==> at[k] < |ops| && ops[at[k]].Append?
  {
    seq(|at|, k requires 0 <= k < |at| => ops[at[k]].entry)
  }

  ghost predicate Appends(ops: seq<Op>, at: seq<nat>) {
    forall k :: 0 <= k < |at| ==> at[k] < |ops| && ops[at[k]].Append?
  }

  lemma {:induction false} SelectEntries(ops: seq<Op>, at: seq<nat>, token: RoomToken)
    requires Appends(ops, at)
    ensures Appends(ops, Select(ops, at, token, true)) && Appends(ops, Select(ops, at, token, false))
    ensures EntriesAt(ops, Select(ops, at, token, true)) == Kept(EntriesAt(ops, at), token)
    ensures EntriesAt(ops, Select(ops, at, token, false)) == Delivered(EntriesAt(ops, at), token)
  {
    if at != [] {
      var front := at[..|at| - 1];
      SelectEntries(ops, front, token);
      assert EntriesAt(ops, at)[..|at| - 1] == EntriesAt(ops, front);
    }
  }

  lemma EntriesAppend(ops: seq<Op>, at: seq<nat>, i: nat)
    requires Appends(ops, at) && i < |ops| && ops[i].Append?
    ensures Appends(ops, at + [i]) && EntriesAt(ops, at + [i]) == EntriesAt(ops, at) + [ops[i].entry]
  {}

  lemma PendingStep(ops: seq<Op>, n: nat)
    requires 0 < n <= |ops|
    ensures Pending(ops[..n]) ==
            if ops[n - 1].Append? then Pending(ops[..n - 1]) + [ops[n - 1].entry] else Kept(Pending(ops[..n - 1]), ops[n - 1].token)
  {
    assert ops[..n][..n - 1] == ops[..n - 1];
  }

  /** The queue is, in order, the entries of the waiting appends. */
  lemma {:induction false} PendingIsWaiting(ops: seq<Op>, n: nat)
    requires n <= |ops|
    ensures Appends(ops, Waiting(ops, n))
    ensures Pending(ops[..n]) == EntriesAt(ops, Waiting(ops, n))
  {
    if n > 0 {
      PendingIsWaiting(ops, n - 1);
      PendingStep(ops, n);
      if ops[n - 1].Append? {
        EntriesAppend(ops, Waiting(ops, n - 1), n - 1);
      } else {
        SelectEntries(ops, Waiting(ops, n - 1), ops[n - 1].token);
      }
      hide Appends, EntriesAt, Pending, Kept, Select;
    }
  }

  /** What a flush takes out of the queue is, in order, the entries of the appends it delivers. */
  lemma DeliveredFromQueue(ops: seq<Op>, q: nat)
    requires q < |ops| && ops[q].Flush?
    ensures Appends(ops, DeliveredAt(ops, q))
    ensures Delivered(Pending(ops[..q]), ops[q].token) == EntriesAt(ops, DeliveredAt(ops, q))
  {
    PendingIsWaiting(ops, q);
    SelectEntries(ops, Waiting(ops, q), ops[q].token);
  }

  /** What one more flush does to a queue with this history. */
  lemma OneMoreFlush(ops: seq<Op>, token: RoomToken)
    ensures var more := ops + [Flush(token)];
            && Pending(more) == Kept(Pending(ops), token)
            && Appends(more, DeliveredAt(more, |ops|))
            && Delivered(Pending(ops), token) == EntriesAt(more, DeliveredAt(more, |ops|))
  {
    var more := ops + [Flush(token)];
    PendingFlush(ops, token);
    DeliveredFromQueue(more, |ops|);
    assert more[..|ops|] == ops;
  }
}
