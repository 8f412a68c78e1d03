/**
 * The order in which the database port copies tables: round after round, every table whose
 * foreign keys point only at tables already copied.
 */
module TableOrder {

  /** From each table with foreign keys, the other tables they refer to. */
  type Constraints = map<string, set<string>>

  function Needs(c: Constraints, table: string): set<string> {
    if table in c then c[table] else {}
  }

  function Union(rounds: seq<set<string>>): set<string> {
    if rounds == [] then {} else Union(rounds[..|rounds| - 1]) + rounds[|rounds| - 1]
  }

  /** Every table starts only after all the tables it refers to finished in earlier rounds. */
  ghost predicate Respects(c: Constraints, rounds: seq<set<string>>) {
    forall i :: 0 <= i < |rounds| ==> forall t :: t in rounds[i] ==> Needs(c, t) <= Union(rounds[..i])
  }

  /** No table is handled twice. */
  ghost predicate Disjoint(rounds: seq<set<string>>) {
    forall i, j :: 0 <= i < j < |rounds| ==> rounds[i] !! rounds[j]
  }

  /** Consecutive tables of a walk are joined by a foreign key. */
  predicate Walk(c: Constraints, walk: seq<string>) {
    forall i :: 0 <= i < |walk| - 1 ==> walk[i + 1] in Needs(c, walk[i])
  }

  predicate IsCycle(tables: set<string>, c: Constraints, walk: seq<string>) {
    |walk| >= 2 && walk[0] == walk[|walk| - 1] && Walk(c, walk) && forall t :: t in walk ==> t in tables
  }

  ghost predicate Cyclic(tables: set<string>, c: Constraints) {
    exists walk :: IsCycle(tables, c, walk)
  }

  /** Foreign keys refer only to tables being copied. */
  predicate Closed(tables: set<string>, c: Constraints) {
    forall t :: t in tables ==> Needs(c, t) <= tables
  }

  // ----- an order exists only without cycles -----

  lemma {:induction false} UnionMember(rounds: seq<set<string>>, t: string)
    ensures t in Union(rounds) <==> exists i :: 0 <= i < |rounds| && t in rounds[i]
  {
    if rounds != [] {
      var front := rounds[..|rounds| - 1];
      UnionMember(front, t);
      if t in Union(front) {
        var i :| 0 <= i < |front| && t in front[i];
        assert t in rounds[i];
      }
    }
  }

  /** A foreign key leads to an earlier round. */
  lemma NeedsDescend(c: Constraints, rounds: seq<set<string>>, i: nat, t: string, d: string) returns (j: nat)
    requires Respects(c, rounds) && i < |rounds| && t in rounds[i] && d in Needs(c, t)
    ensures j < i && d in rounds[j]
  {
    UnionMember(rounds[..i], d);
    j :| 0 <= j < |rounds[..i]| && d in rounds[..i][j];
  }

  lemma {:induction false} WalkDescends(c: Constraints, rounds: seq<set<string>>, walk: seq<string>, i: nat) returns (j: nat)
    requires Respects(c, rounds) && Walk(c, walk) && walk != [] && i < |rounds| && walk[0] in rounds[i]
    ensures j <= i && (|walk| >= 2 ==> j < i) && j < |rounds| && walk[|walk| - 1] in rounds[j]
    decreases |walk|
  {
    if |walk| == 1 {
      j := i;
    } else {
      assert walk[0 + 1] in Needs(c, walk[0]);
      j := NeedsDescend(c, rounds, i, walk[0], walk[1]);
      assert Walk(c, walk[1..]) by {
        forall k | 0 <= k < |walk[1..]| - 1 ensures walk[1..][k + 1] in Needs(c, walk[1..][k]) {
          assert walk[(k + 1) + 1] in Needs(c, walk[k + 1]);
        }
      }
      j := WalkDescends(c, rounds, walk[1..], j);
    }
  }

  lemma OrderedIsAcyclic(tables: set<string>, c: Constraints, rounds: seq<set<string>>)
    requires Respects(c, rounds) && Disjoint(rounds) && Union(rounds) == tables
    ensures Closed(tables, c) && !Cyclic(tables, c)
  {
    forall t | t in tables ensures Needs(c, t) <= tables {
      UnionMember(rounds, t);
      var i :| 0 <= i < |rounds| && t in rounds[i];
      forall d | d in Needs(c, t) ensures d in tables {
        var j := NeedsDescend(c, rounds, i, t, d);
        UnionMember(rounds, d);
      }
    }
    forall walk ensures !IsCycle(tables, c, walk) {
      if IsCycle(tables, c, walk) {
        assert walk[0] in walk;
        UnionMember(rounds, walk[0]);
        var i :| 0 <= i < |rounds| && walk[0] in rounds[i];
        var j := WalkDescends(c, rounds, walk, i);
        assert false;
      }
    }
  }

  // ----- a stuck set of tables holds a cycle -----

  ghost predicate LeadsIn(c: Constraints, stuck: set<string>, t: string) {
    exists d :: d in Needs(c, t) && d in stuck
  }

  ghost predicate AllLeadIn(c: Constraints, stuck: set<string>) {
    forall t {:trigger LeadsIn(c, stuck, t)} :: t in stuck ==> LeadsIn(c, stuck, t)
  }

  lemma {:induction false} LongWalk(stuck: set<string>, c: Constraints, n: nat) returns (walk: seq<string>)
    requires stuck != {} && AllLeadIn(c, stuck)
    ensures |walk| == n + 1 && Walk(c, walk) && forall t :: t in walk ==> t in stuck
  {
    if n == 0 {
      var t :| t in stuck;
      walk := [t];
    } else {
      var front := LongWalk(stuck, c, n - 1);
      assert front[n - 1] in front;
      assert LeadsIn(c, stuck, front[n - 1]);
      var t :| t in Needs(c, front[n - 1]) && t in stuck;
      walk := front + [t];
    }
  }

  lemma {:induction false} Pigeonhole(s: set<string>, walk: seq<string>) returns (i: nat, j: nat)
    requires |walk| > |s| && forall t :: t in walk ==> t in s
    ensures i < j < |walk| && walk[i] == walk[j]
    decreases |walk|
  {
    var last := walk[|walk| - 1];
    var front := walk[..|walk| - 1];
    assert last in walk;
    if last in front {
      i :| 0 <= i < |front| && front[i] == last;
      j := |walk| - 1;
    } else {
      forall t | t in front ensures t in s - {last} {
        assert t in walk;
      }
      i, j := Pigeonhole(s - {last}, front);
    }
  }

  lemma PartOfWalk(c: Constraints, walk: seq<string>, i: nat, j: nat)
    requires Walk(c, walk) && i <= j <= |walk|
    ensures Walk(c, walk[i..j])
  {
    var part := walk[i..j];
    forall k | 0 <= k < |part| - 1 ensures part[k + 1] in Needs(c, part[k]) {
      assert walk[(i + k) + 1] in Needs(c, walk[i + k]);
    }
  }

  lemma StuckIsCyclic(tables: set<string>, c: Constraints, stuck: set<string>)
    requires stuck != {} && stuck <= tables && AllLeadIn(c, stuck)
    ensures Cyclic(tables, c)
  {
    var walk := LongWalk(stuck, c, |stuck|);
    var i, j := Pigeonhole(stuck, walk);
    var part := walk[i..j + 1];
    PartOfWalk(c, walk, i, j + 1);
    assert part[0] == part[|part| - 1];
    assert forall k :: 0 <= k < |part| ==> part[k] == walk[i + k] && walk[i + k] in walk;
    assert IsCycle(tables, c, part);
  }

  /** Everything the table refers to has been copied. */
  predicate Ready(c: Constraints, ported: set<string>, t: string) { Needs(c, t) <= ported }

  lemma UnreadyLeadsIn(tables: set<string>, c: Constraints, ported: set<string>, stuck: set<string>, t: string)
    requires Closed(tables, c) && ported + stuck == tables && t in stuck && !Ready(c, ported, t)
    ensures LeadsIn(c, stuck, t)
  {
    var d :| d in Needs(c, t) && d !in ported;
    assert d in tables;
  }

  /** With nothing ready, a table left over leads out of the tables or round a cycle. */
  lemma NothingReady(tables: set<string>, c: Constraints, ported: set<string>, stuck: set<string>)
    requires stuck != {} && ported + stuck == tables
    requires forall t {:trigger Ready(c, ported, t)} :: t in stuck ==> !Ready(c, ported, t)
    ensures !(Closed(tables, c) && !Cyclic(tables, c))
  {
    hide Ready, LeadsIn, Cyclic, Closed;
    if Closed(tables, c) {
      forall t | t in stuck ensures LeadsIn(c, stuck, t) {
        assert !Ready(c, ported, t);
        UnreadyLeadsIn(tables, c, ported, stuck, t);
      }
      StuckIsCyclic(tables, c, stuck);
    }
  }

  // ----- the loop -----

  lemma RoundFits(c: Constraints, rounds: seq<set<string>>, ready: set<string>)
    requires Respects(c, rounds) && Disjoint(rounds) && Union(rounds) !! ready
    requires forall t :: t in ready ==> Ready(c, Union(rounds), t)
    ensures Respects(c, rounds + [ready]) && Disjoint(rounds + [ready]) && Union(rounds + [ready]) == Union(rounds) + ready
  {
    var longer := rounds + [ready];
    assert longer[..|rounds|] == rounds;
    forall i, t | 0 <= i < |longer| && t in longer[i] ensures Needs(c, t) <= Union(longer[..i]) {
      if i < |rounds| {
        assert longer[..i] == rounds[..i];
      }
    }
    forall i | 0 <= i < |rounds| ensures rounds[i] !! ready {
      forall t | t in rounds[i] ensures t !in ready { UnionMember(rounds, t); }
    }
  }

  /**
   * The copying loop. `stuck` is not empty exactly where the source would go round for ever with
   * no table ready; that is exactly when a foreign key leaves the copied tables or closes a cycle.
   * Otherwise every table is handled in exactly one round, after all it refers to.
   */
  method PortInOrder(tables: set<string>, c: Constraints) returns (rounds: seq<set<string>>, stuck: set<string>)
    ensures Respects(c, rounds) && Disjoint(rounds)
    ensures Union(rounds) !! stuck && Union(rounds) + stuck == tables
    ensures stuck == {} <==> Closed(tables, c) && !Cyclic(tables, c)
  {
    rounds := [];
    var remaining, ported := tables, {};
    while remaining != {}
      invariant Respects(c, rounds) && Disjoint(rounds)
      invariant ported == Union(rounds) && ported !! remaining && ported + remaining == tables
      decreases remaining
    {
      hide Cyclic, Closed, Respects, Disjoint, Ready;
      var ready := set t | t in remaining && Ready(c, ported, t);
      if ready == {} {
        stuck := remaining;
        assert forall t :: t in stuck ==> t !in ready;
        NothingReady(tables, c, ported, stuck);
        return;
      }
      RoundFits(c, rounds, ready);
      rounds := rounds + [ready];
      remaining, ported := remaining - ready, ported + ready;
    }
    stuck := {};
    OrderedIsAcyclic(tables, c, rounds);
  }
}
