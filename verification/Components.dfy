/**
 * The home server's lazily built components: each getter caches what its builder returns, and a
 * flag per getter turns a dependency cycle into an error instead of endless recursion.
 */
module Components {
  /** The components each builder asks for, in order. */
  type Deps = map<string, seq<string>>

  /** Builders only ask for components that exist. */
  predicate Closed(deps: Deps) {
    forall c :: c in deps ==> forall d :: d in deps[c] ==> d in deps
  }

  /** A chain of components not yet cached, each asked for by the builder of the one before. */
  predicate Path(deps: Deps, cached: set<string>, p: seq<string>) {
    && p != []
    && (forall i :: 0 <= i < |p| ==> p[i] in deps && p[i] !in cached)
    && (forall i :: 0 <= i < |p| - 1 ==> p[i + 1] in deps[p[i]])
  }

  /** The chain comes back to a component on it, or ends at a builder that fails by itself. */
  predicate Faulty(p: seq<string>, broken: set<string>)
    requires p != []
  {
    p[|p| - 1] in p[..|p| - 1] || p[|p| - 1] in broken
  }

  ghost predicate FaultFrom(deps: Deps, cached: set<string>, broken: set<string>, c: string) {
    exists p :: Path(deps, cached, p) && p[0] == c && Faulty(p, broken)
  }

  ghost predicate Reaches(deps: Deps, cached: set<string>, c: string, d: string) {
    exists p :: Path(deps, cached, p) && p[0] == c && p[|p| - 1] == d
  }

  function Elements(s: seq<string>): set<string> { set x | x in s }

  ghost predicate Distinct(s: seq<string>) {
    forall i, j :: 0 <= i < j < |s| ==> s[i] != s[j]
  }

  /** An order of building: everything asked for is cached already or built earlier, and nothing fails. */
  ghost predicate BuildOrder(deps: Deps, cached: set<string>, broken: set<string>, order: seq<string>) {
    forall k :: 0 <= k < |order| ==>
      && order[k] in deps && order[k] !in cached && order[k] !in broken && order[k] !in order[..k]
      && Elements(deps[order[k]]) <= cached + Elements(order[..k])
  }

  // ----- chains -----

  lemma PathSmallerCache(deps: Deps, cached: set<string>, fewer: set<string>, p: seq<string>)
    requires Path(deps, cached, p) && fewer <= cached
    ensures Path(deps, fewer, p)
  {}

  lemma PathPrepend(deps: Deps, cached: set<string>, c: string, p: seq<string>)
    requires Path(deps, cached, p) && c in deps && c !in cached && p[0] in deps[c]
    ensures Path(deps, cached, [c] + p)
  {
    var q := [c] + p;
    forall i | 0 <= i < |q| - 1 ensures q[i + 1] in deps[q[i]] {
      if i > 0 { assert p[(i - 1) + 1] in deps[p[i - 1]]; }
    }
  }

  lemma ReachesThrough(deps: Deps, cached: set<string>, later: set<string>, c: string, d: string, target: string)
    requires cached <= later && Reaches(deps, later, d, target) && c in deps && c !in cached && d in deps[c]
    ensures Reaches(deps, cached, c, target)
  {
    var p :| Path(deps, later, p) && p[0] == d && p[|p| - 1] == target;
    PathSmallerCache(deps, later, cached, p);
    PathPrepend(deps, cached, c, p);
    assert ([c] + p)[|[c] + p| - 1] == target;
  }

  // ----- orders -----

  lemma ElementsAppend(a: seq<string>, b: seq<string>)
    ensures Elements(a + b) == Elements(a) + Elements(b)
  {}

  lemma DistinctAppend(a: seq<string>, b: seq<string>)
    requires Distinct(a) && Distinct(b) && Elements(a) !! Elements(b)
    ensures Distinct(a + b)
  {
    forall i, j | 0 <= i < j < |a + b| ensures (a + b)[i] != (a + b)[j] {
      if i < |a| <= j {
        assert a[i] in Elements(a) && b[j - |a|] in Elements(b);
      }
    }
  }

  /** Building more after a first stretch continues the order. */
  lemma OrderAppend(deps: Deps, cached: set<string>, broken: set<string>, a: seq<string>, b: seq<string>)
    requires BuildOrder(deps, cached, broken, a) && BuildOrder(deps, cached + Elements(a), broken, b)
    ensures BuildOrder(deps, cached, broken, a + b)
  {
    forall k | 0 <= k < |a + b|
      ensures (a + b)[k] in deps && (a + b)[k] !in cached && (a + b)[k] !in broken && (a + b)[k] !in (a + b)[..k]
      ensures Elements(deps[(a + b)[k]]) <= cached + Elements((a + b)[..k])
    {
      if k < |a| {
        assert (a + b)[..k] == a[..k];
      } else {
        assert (a + b)[..k] == a + b[..k - |a|];
        ElementsAppend(a, b[..k - |a|]);
      }
    }
  }

  lemma OrderIsNew(deps: Deps, cached: set<string>, broken: set<string>, order: seq<string>)
    requires BuildOrder(deps, cached, broken, order)
    ensures Elements(order) !! cached
  {
    forall x | x in Elements(order) ensures x !in cached {
      var k :| 0 <= k < |order| && order[k] == x;
    }
  }

  // ----- a build order leaves no fault within reach -----

  /** Along a chain, the components stand ever earlier in a build order. */
  lemma {:induction false} ChainsGoBack(deps: Deps, cached: set<string>, broken: set<string>, order: seq<string>, p: seq<string>, k: nat)
    returns (m: nat)
    requires BuildOrder(deps, cached, broken, order) && Path(deps, cached, p) && k < |order| && order[k] == p[0]
    ensures m <= k && order[m] == p[|p| - 1] && (|p| > 1 ==> m < k)
    decreases |p|
  {
    if |p| == 1 {
      m := k;
    } else {
      assert p[0 + 1] in deps[p[0]];
      assert p[1] in Elements(deps[order[k]]);
      assert p[1] in order[..k];
      m :| 0 <= m < k && order[m] == p[1];
      assert Path(deps, cached, p[1..]) by {
        forall i | 0 <= i < |p[1..]| - 1 ensures p[1..][i + 1] in deps[p[1..][i]] {
          assert p[(i + 1) + 1] in deps[p[i + 1]];
        }
      }
      m := ChainsGoBack(deps, cached, broken, order, p[1..], m);
    }
  }

  lemma PathSuffix(deps: Deps, cached: set<string>, p: seq<string>, i: nat)
    requires Path(deps, cached, p) && i < |p|
    ensures Path(deps, cached, p[i..]) && Path(deps, cached, p[..i + 1])
  {
    forall j | 0 <= j < |p[i..]| - 1 ensures p[i..][j + 1] in deps[p[i..][j]] {
      assert p[(i + j) + 1] in deps[p[i + j]];
    }
  }

  lemma ChainNoFault(deps: Deps, cached: set<string>, broken: set<string>, order: seq<string>, p: seq<string>, k: nat)
    requires BuildOrder(deps, cached, broken, order) && Path(deps, cached, p) && k < |order| && order[k] == p[0]
    ensures !Faulty(p, broken) && p[|p| - 1] in Elements(order)
  {
    var m := ChainsGoBack(deps, cached, broken, order, p, k);
    if p[|p| - 1] in p[..|p| - 1] {
      var i :| 0 <= i < |p| - 1 && p[i] == p[|p| - 1];
      PathSuffix(deps, cached, p, i);
      var a := ChainsGoBack(deps, cached, broken, order, p[..i + 1], k);
      var b := ChainsGoBack(deps, cached, broken, order, p[i..], a);
      assert false;
    }
  }

  lemma BuildOrderNoFault(deps: Deps, cached: set<string>, broken: set<string>, order: seq<string>, c: string)
    requires BuildOrder(deps, cached, broken, order) && c in cached + Elements(order)
    ensures !FaultFrom(deps, cached, broken, c)
    ensures forall d :: Reaches(deps, cached, c, d) ==> d in Elements(order)
  {
    hide BuildOrder, Faulty;
    forall p | Path(deps, cached, p) && p[0] == c ensures !Faulty(p, broken) && p[|p| - 1] in Elements(order) {
      var k :| 0 <= k < |order| && order[k] == c;
      ChainNoFault(deps, cached, broken, order, p, k);
    }
  }

  // ----- steps of a builder -----

  lemma StackGrows(deps: Deps, cached: set<string>, inner: seq<string>, d: string)
    requires Closed(deps) && Path(deps, cached, inner) && d in deps[inner[|inner| - 1]]
    ensures d in deps && (d !in cached ==> Path(deps, cached, inner + [d]))
  {}

  lemma NewWithinReach(deps: Deps, before: set<string>, mid: set<string>, after: set<string>, c: string, d: string)
    requires before <= mid && c in deps && c !in before && d in deps[c]
    requires forall x :: x in mid - before ==> Reaches(deps, before, c, x)
    requires forall x :: x in after - mid ==> Reaches(deps, mid, d, x)
    ensures forall x :: x in after - before ==> Reaches(deps, before, c, x)
  {
    forall x | x in after - before ensures Reaches(deps, before, c, x) {
      if x !in mid {
        ReachesThrough(deps, before, mid, c, d, x);
      }
    }
  }

  lemma SelfReaches(deps: Deps, cached: set<string>, c: string)
    requires c in deps && c !in cached
    ensures Reaches(deps, cached, c, c)
  {
    assert Path(deps, cached, [c]);
  }

  lemma OrderEndsWith(deps: Deps, cached: set<string>, broken: set<string>, order: seq<string>, c: string)
    requires BuildOrder(deps, cached, broken, order) && c in deps && c !in cached && c !in broken && c !in order
    requires Elements(deps[c]) <= cached + Elements(order)
    ensures BuildOrder(deps, cached, broken, order + [c]) && Elements(order + [c]) == Elements(order) + {c}
  {
    assert [c][..0] == [];
    OrderAppend(deps, cached, broken, order, [c]);
  }

  /** What a builder of `c` has brought about so far: built in order, within reach, each started once. */
  ghost predicate Gained(deps: Deps, broken: set<string>, before: set<string>, after: set<string>, c: string, order: seq<string>, starts: seq<string>) {
    && c in deps && c !in before && before <= after
    && after == before + Elements(order) && BuildOrder(deps, before, broken, order)
    && (forall x :: x in after - before ==> Reaches(deps, before, c, x))
    && Distinct(starts) && Elements(starts) == Elements(order) + {c}
  }

  lemma GainsNothing(deps: Deps, broken: set<string>, before: set<string>, c: string)
    requires c in deps && c !in before
    ensures Gained(deps, broken, before, before, c, [], [c])
  {}

  lemma GainsMore(deps: Deps, broken: set<string>, before: set<string>, mid: set<string>, after: set<string>, c: string, d: string,
                  order: seq<string>, more: seq<string>, starts: seq<string>, s: seq<string>)
    requires Gained(deps, broken, before, mid, c, order, starts) && d in deps[c] && c !in after
    requires after == mid + Elements(more) && BuildOrder(deps, mid, broken, more)
    requires forall x :: x in after - mid ==> Reaches(deps, mid, d, x)
    requires Distinct(s) && Elements(s) == Elements(more)
    ensures Gained(deps, broken, before, after, c, order + more, starts + s)
  {
    NewWithinReach(deps, before, mid, after, c, d);
    OrderAppend(deps, before, broken, order, more);
    ElementsAppend(order, more);
    forall x | x in Elements(more) ensures x !in mid && x in after {
      var k :| 0 <= k < |more| && more[k] == x;
    }
    hide BuildOrder, Reaches;
    DistinctAppend(starts, s);
    ElementsAppend(starts, s);
  }

  lemma GainedReach(deps: Deps, broken: set<string>, before: set<string>, mid: set<string>, after: set<string>, c: string, d: string,
                    order: seq<string>, starts: seq<string>)
    requires Gained(deps, broken, before, mid, c, order, starts)
    requires after == mid || (d in deps[c] && forall x :: x in after - mid ==> Reaches(deps, mid, d, x))
    ensures forall x :: x in after - before ==> Reaches(deps, before, c, x)
  {
    if after != mid {
      NewWithinReach(deps, before, mid, after, c, d);
    }
  }

  lemma PathLargerCache(deps: Deps, cached: set<string>, more: set<string>, p: seq<string>)
    requires Path(deps, cached, p) && more !! Elements(p)
    ensures Path(deps, more, p)
  {
    forall i | 0 <= i < |p| ensures p[i] !in more { assert p[i] in Elements(p); }
  }

  lemma GainsSelf(deps: Deps, broken: set<string>, before: set<string>, after: set<string>, c: string, order: seq<string>, starts: seq<string>)
    requires Gained(deps, broken, before, after, c, order, starts) && c !in after && c !in broken
    requires Elements(deps[c]) <= after
    ensures BuildOrder(deps, before, broken, order + [c]) && after + {c} == before + Elements(order + [c])
    ensures forall x :: x in after + {c} - before ==> Reaches(deps, before, c, x)
    ensures Distinct(starts) && Elements(starts) == Elements(order + [c])
  {
    SelfReaches(deps, before, c);
    OrderEndsWith(deps, before, broken, order, c);
  }

  lemma BrokenStarts(deps: Deps, broken: set<string>, before: set<string>, after: set<string>, c: string, order: seq<string>, starts: seq<string>,
                     building: set<string>)
    requires Gained(deps, broken, before, after, c, order, starts)
    ensures Distinct(starts) && Elements(starts) == (after - before) + (Elements([c]) - (building - {c}))
  {
    OrderIsNew(deps, before, broken, order);
  }

  /** When the getter of `d` fails, everything started is new in the cache or on the chain that went wrong. */
  lemma StartsOnFailure(deps: Deps, broken: set<string>, before: set<string>, mid: set<string>, after: set<string>, c: string,
                        outer: set<string>, inner: seq<string>, f: seq<string>, order: seq<string>, starts: seq<string>, s: seq<string>)
    requires Gained(deps, broken, before, mid, c, order, starts) && mid <= after && c !in after && c !in outer
    requires Path(deps, mid, inner + f)
    requires Distinct(s) && Elements(s) == (after - mid) + (Elements(f) - (outer + {c}))
    ensures Distinct(starts + s) && Elements(starts + s) == (after - before) + (Elements([c] + f) - outer)
  {
    OrderIsNew(deps, before, broken, order);
    forall x | x in Elements(f) ensures x !in mid {
      var i :| 0 <= i < |f| && f[i] == x;
      assert (inner + f)[|inner| + i] == x;
    }
    hide BuildOrder, Reaches, Path;
    DistinctAppend(starts, s);
    ElementsAppend(starts, s);
    ElementsAppend([c], f);
  }

  // ----- the getters -----

  class HomeServer {
    const deps: Deps
    const broken: set<string>

    var cached: set<string>
    var building: set<string>
    /** Every start of a builder, in order. */
    var runs: seq<string>

    constructor (deps: Deps, broken: set<string>)
      ensures this.deps == deps && this.broken == broken
      ensures cached == {} && building == {} && runs == []
    {
      this.deps, this.broken, cached, building, runs := deps, broken, {}, {}, [];
    }

    ghost predicate Valid()
      reads this
    {
      Closed(deps) && building <= deps.Keys && building !! cached
    }

    /** The getters being executed form a chain of uncached components leading to `c`. */
    ghost predicate Stacked(stack: seq<string>, c: string)
      reads this
    {
      building == Elements(stack) && Path(deps, cached, stack + [c])
    }

    /**
     * The wrapper that cache_in_self puts around the builder of `c`, called while the getters of
     * `stack` are executing. On failure `fault` is the chain that went wrong; on success `order`
     * is the order in which components were finished. Either way no builder of `starts` is started twice.
     */
    method Get(c: string, ghost stack: seq<string>) returns (ok: bool, ghost fault: seq<string>, ghost order: seq<string>, ghost starts: seq<string>)
      requires Valid() && c in deps && (c in cached || Stacked(stack, c))
      modifies this
      ensures Valid() && building == old(building)
      ensures old(cached) <= cached
      ensures forall d :: d in cached - old(cached) ==> Reaches(deps, old(cached), c, d)
      ensures ok ==> cached == old(cached) + Elements(order) && c in cached && BuildOrder(deps, old(cached), broken, order)
      ensures runs == old(runs) + starts && Distinct(starts) && (ok ==> Elements(starts) == Elements(order))
      ensures !ok ==> Elements(starts) == (cached - old(cached)) + (Elements(fault) - building)
      ensures !ok ==>
                fault != [] && fault[0] == c && Path(deps, old(cached), stack + fault) && Faulty(stack + fault, broken)
      decreases deps.Keys - building, 0
    {
      fault, order, starts := [], [], [];
      if c in cached {
        return true, [], [], [];
      }
      if c in building {
        fault := [c];
        assert (stack + fault)[..|stack + fault| - 1] == stack;
        return false, fault, [], [];
      }
      building := building + {c};
      ok, fault, order, starts := Build(c, stack);
      building := building - {c};
    }

    /** The builder of `c`: ask for each component it needs, then fail or be cached. */
    method Build(c: string, ghost stack: seq<string>) returns (ok: bool, ghost fault: seq<string>, ghost order: seq<string>, ghost starts: seq<string>)
      requires Valid() && c in deps && c !in cached && c !in Elements(stack)
      requires building == Elements(stack) + {c} && Path(deps, cached, stack + [c])
      modifies this
      ensures Closed(deps) && building == old(building) && building !! cached - {c} && (!ok ==> c !in cached)
      ensures old(cached) <= cached
      ensures forall d :: d in cached - old(cached) ==> Reaches(deps, old(cached), c, d)
      ensures ok ==> cached == old(cached) + Elements(order) && c in cached && BuildOrder(deps, old(cached), broken, order)
      ensures runs == old(runs) + starts && Distinct(starts) && (ok ==> Elements(starts) == Elements(order))
      ensures !ok ==> Elements(starts) == (cached - old(cached)) + (Elements(fault) - (building - {c}))
      ensures !ok ==>
                fault != [] && fault[0] == c && Path(deps, old(cached), stack + fault) && Faulty(stack + fault, broken)
      decreases deps.Keys - building, 2
    {
      hide Path, Reaches, BuildOrder, Distinct, Closed, FaultFrom, Gained, Elements;
      runs := runs + [c];
      ghost var before := cached;
      ok, fault, order, starts := AskAll(c, stack);
      assert runs == old(runs) + starts;
      if !ok {
        return;
      }
      if c in broken {
        GainedReach(deps, broken, before, cached, cached, c, c, order, starts);
        BrokenStarts(deps, broken, before, cached, c, order, starts, building);
        return false, [c], [], starts;
      }
      GainsSelf(deps, broken, before, cached, c, order, starts);
      cached := cached + {c};
      order := order + [c];
    }

    /** The calls a builder makes: one getter after another, until one of them fails. */
    method AskAll(c: string, ghost stack: seq<string>) returns (ok: bool, ghost fault: seq<string>, ghost order: seq<string>, ghost starts: seq<string>)
      requires Valid() && c in deps && c !in cached && c !in Elements(stack) && |runs| > 0
      requires building == Elements(stack) + {c} && Path(deps, cached, stack + [c])
      modifies this
      ensures Valid() && building == old(building) && old(cached) <= cached
      ensures forall d :: d in cached - old(cached) ==> Reaches(deps, old(cached), c, d)
      ensures ok ==> Gained(deps, broken, old(cached), cached, c, order, starts) && Elements(deps[c]) <= cached
      ensures [c] <= starts && runs == old(runs) + starts[1..] && Distinct(starts)
      ensures !ok ==> Elements(starts) == (cached - old(cached)) + (Elements(fault) - (building - {c}))
      ensures !ok ==>
                fault != [] && fault[0] == c && Path(deps, old(cached), stack + fault) && Faulty(stack + fault, broken)
      decreases deps.Keys - building, 1
    {
      ghost var inner, before := stack + [c], cached;
      fault, order, starts := [], [], [c];
      var asked := deps[c];
      ElementsAppend(stack, [c]);
      GainsNothing(deps, broken, before, c);
      hide Path, Reaches, BuildOrder, Distinct, Faulty, Closed, FaultFrom, Gained;
      for i := 0 to |asked|
        invariant Valid() && building == old(building) == Elements(inner)
        invariant before <= cached && c !in cached && Path(deps, cached, inner)
        invariant Gained(deps, broken, before, cached, c, order, starts)
        invariant Elements(asked[..i]) <= cached
        invariant [c] <= starts && runs == old(runs) + starts[1..] && Distinct(starts)
      {
        var d := asked[i];
        ghost var mid := cached;
        StackGrows(deps, cached, inner, d);
        var got, f, more, s := Get(d, inner);
        assert old(runs) + starts[1..] + s == old(runs) + (starts + s)[1..];
        if !got {
          assert stack + ([c] + f) == inner + f;
          PathSmallerCache(deps, mid, before, inner + f);
          GainedReach(deps, broken, before, mid, cached, c, d, order, starts);
          StartsOnFailure(deps, broken, before, mid, cached, c, building - {c}, inner, f, order, starts, s);
          return false, [c] + f, [], starts + s;
        }
        GainsMore(deps, broken, before, mid, cached, c, d, order, more, starts, s);
        order, starts := order + more, starts + s;
        assert asked[..i + 1] == asked[..i] + [d];
        PathLargerCache(deps, mid, cached, inner);
      }
      assert asked[..|asked|] == asked;
      GainedReach(deps, broken, before, cached, cached, c, c, order, starts);
      ok := true;
    }

    /**
     * Asking for a component from outside any builder. It raises exactly when a cycle or a failing
     * builder lies within reach through uncached components. When it succeeds it has cached exactly
     * the uncached components within reach, starting each builder once. When it raises, each builder
     * was started at most once too: those now cached, and those on a chain that went wrong. The flags
     * are always restored.
     */
    method Resolve(c: string) returns (ok: bool)
      requires Valid() && building == {} && c in deps
      modifies this
      ensures Valid() && building == {}
      ensures ok <==> !FaultFrom(deps, old(cached), broken, c)
      ensures forall d :: d in cached - old(cached) ==> Reaches(deps, old(cached), c, d)
      ensures old(cached) <= cached
      ensures ok ==> c in cached && forall d :: Reaches(deps, old(cached), c, d) ==> d in cached
      ensures ok ==> exists starts :: runs == old(runs) + starts && Distinct(starts) && Elements(starts) == cached - old(cached)
      ensures !ok ==> exists starts, fault ::
                && runs == old(runs) + starts && Distinct(starts) && Elements(starts) == (cached - old(cached)) + Elements(fault)
                && Path(deps, old(cached), fault) && fault[0] == c && Faulty(fault, broken)
    {
      assert c !in cached ==> Path(deps, cached, [] + [c]);
      ghost var fault, order, starts;
      ok, fault, order, starts := Get(c, []);
      if ok {
        BuildOrderNoFault(deps, old(cached), broken, order, c);
        OrderIsNew(deps, old(cached), broken, order);
        assert Elements(starts) == cached - old(cached);
      } else {
        assert [] + fault == fault;
      }
    }
  }
}
