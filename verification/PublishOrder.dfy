/** The order crates are published in: a topological sort whose queue is kept in alphabetical order. */
module PublishOrder {
  import opened Bytes

  type Name = string

  /** The crates to publish, and every crate's dependencies, with repeats, on whatever crates. */
  datatype Graph = Graph(pub: seq<Name>, dependencies: map<Name, seq<Name>>)

  predicate Distinct(s: seq<Name>)
  {
    forall i, j | 0 <= i < j < |s| :: s[i] != s[j]
  }

  predicate WellFormed(g: Graph)
  {
    Distinct(g.pub) && forall n | n in g.pub :: n in g.dependencies
  }

  function Within(names: seq<Name>, pub: seq<Name>): (r: seq<Name>)
    ensures forall n :: n in r <==> n in names && n in pub
  {
    if names == [] then []
    else
      var n := names[|names| - 1];
      Within(names[..|names| - 1], pub) + if n in pub then [n] else []
  }

  /** A crate's dependencies among those to publish. */
  function DepsOf(g: Graph, n: Name): (r: seq<Name>)
    requires n in g.dependencies
    ensures forall d :: d in r <==> d in g.dependencies[n] && d in g.pub
  {
    Within(g.dependencies[n], g.pub)
  }

  // ---- Alphabetical order ----

  predicate Leq(a: Name, b: Name)
  {
    a == [] || (b != [] && (a[0] < b[0] || (a[0] == b[0] && Leq(a[1..], b[1..]))))
  }

  lemma {:induction false} LeqTotal(a: Name, b: Name)
    ensures Leq(a, b) || Leq(b, a)
  {
    if a != [] && b != [] && a[0] == b[0] {
      LeqTotal(a[1..], b[1..]);
    }
  }

  lemma {:induction false} LeqTransitive(a: Name, b: Name, c: Name)
    requires Leq(a, b) && Leq(b, c)
    ensures Leq(a, c)
  {
    if a != [] && b != [] && a[0] == b[0] && b[0] == c[0] {
      LeqTransitive(a[1..], b[1..], c[1..]);
    }
  }

  lemma {:induction false} LeqAntisymmetric(a: Name, b: Name)
    requires Leq(a, b) && Leq(b, a)
    ensures a == b
  {
    if a != [] {
      LeqAntisymmetric(a[1..], b[1..]);
      assert a == [a[0]] + a[1..] && b == [b[0]] + b[1..];
    }
  }

  /** The two agree up to `k`, where the first has the smaller character. */
  predicate SmallerAt(a: Name, b: Name, k: nat)
  {
    k < |a| && k < |b| && a[..k] == b[..k] && a[k] < b[k]
  }

  /** Alphabetical order: the first is a beginning of the second, or smaller at the first character that differs. */
  lemma {:induction false} LeqIsAlphabetical(a: Name, b: Name)
    ensures Leq(a, b) <==> a <= b || exists k: nat :: SmallerAt(a, b, k)
  {
    if a != [] && b != [] {
      var x, y := a[1..], b[1..];
      LeqIsAlphabetical(x, y);
      assert a == [a[0]] + x && b == [b[0]] + y;
      assert a[0] == b[0] ==> (a <= b <==> x <= y);
      if a[0] < b[0] {
        assert SmallerAt(a, b, 0);
      } else if exists k: nat :: SmallerAt(a, b, k) {
        var k: nat :| SmallerAt(a, b, k);
        SmallerLater(a, b, k);
      }
      if a[0] == b[0] && exists k: nat :: SmallerAt(x, y, k) {
        var k: nat :| SmallerAt(x, y, k);
        assert a[..k + 1] == [a[0]] + x[..k] && b[..k + 1] == [b[0]] + y[..k];
        assert SmallerAt(a, b, k + 1);
      }
    }
  }

  lemma SmallerLater(a: Name, b: Name, k: nat)
    requires SmallerAt(a, b, k) && a[0] >= b[0]
    ensures k > 0 && a[0] == b[0] && SmallerAt(a[1..], b[1..], k - 1)
  {
    if k > 0 {
      assert a[0] == a[..k][0] && b[0] == b[..k][0];
      assert a[1..][..k - 1] == a[..k][1..] && b[1..][..k - 1] == b[..k][1..];
    }
  }

  predicate Ascending(s: seq<Name>)
  {
    forall i, j | 0 <= i < j < |s| :: Leq(s[i], s[j])
  }

  function Insert(x: Name, s: seq<Name>): seq<Name>
  {
    if s == [] || Leq(x, s[0]) then [x] + s else [s[0]] + Insert(x, s[1..])
  }

  function Sort(s: seq<Name>): seq<Name>
  {
    if s == [] then [] else Insert(s[0], Sort(s[1..]))
  }

  lemma {:induction false} InsertSorts(x: Name, s: seq<Name>)
    requires Ascending(s)
    ensures Ascending(Insert(x, s)) && multiset(Insert(x, s)) == multiset(s) + multiset{x}
  {
    hide Leq;
    if s == [] {
    } else if Leq(x, s[0]) {
      forall j | 0 <= j < |s|
        ensures Leq(x, s[j])
      {
        if j > 0 {
          LeqTransitive(x, s[0], s[j]);
        }
      }
    } else {
      assert s == [s[0]] + s[1..];
      var rest := Insert(x, s[1..]);
      InsertSorts(x, s[1..]);
      LeqTotal(x, s[0]);
      forall j | 0 <= j < |rest|
        ensures Leq(s[0], rest[j])
      {
        assert rest[j] in multiset(rest);
        assert rest[j] == x || rest[j] in s[1..];
      }
    }
  }

  lemma {:induction false} SortSorts(s: seq<Name>)
    ensures Ascending(Sort(s)) && multiset(Sort(s)) == multiset(s)
  {
    if s != [] {
      assert s == [s[0]] + s[1..];
      SortSorts(s[1..]);
      InsertSorts(s[0], Sort(s[1..]));
    }
  }

  // ---- What the order should be ----

  /** Not yet placed, with every dependency placed. */
  predicate Ready(g: Graph, placed: seq<Name>, n: Name)
    requires WellFormed(g)
  {
    n in g.pub && n !in placed && forall d | d in DepsOf(g, n) :: d in placed
  }

  /** The alphabetically first of those that are ready. */
  ghost predicate LeastReady(g: Graph, placed: seq<Name>, n: Name)
    requires WellFormed(g)
  {
    Ready(g, placed, n) && forall m | Ready(g, placed, m) :: Leq(n, m)
  }

  ghost predicate GreedySoFar(g: Graph, order: seq<Name>)
    requires WellFormed(g)
  {
    forall i | 0 <= i < |order| :: LeastReady(g, order[..i], order[i])
  }

  /** Always the first that is ready, until none is. */
  ghost predicate Greedy(g: Graph, order: seq<Name>)
    requires WellFormed(g)
  {
    GreedySoFar(g, order) && forall n :: !Ready(g, order, n)
  }

  // ---- The sort in place ----

  /** How many of `deps`, repeats counted, are not placed. */
  function Missing(placed: seq<Name>, deps: seq<Name>): (r: nat)
  {
    if deps == [] then 0
    else Missing(placed, deps[..|deps| - 1]) + if deps[|deps| - 1] in placed then 0 else 1
  }

  lemma {:induction false} MissingNone(placed: seq<Name>, deps: seq<Name>)
    ensures Missing(placed, deps) == 0 <==> forall d | d in deps :: d in placed
  {
    if deps != [] {
      var front, last := deps[..|deps| - 1], deps[|deps| - 1];
      assert deps == front + [last];
      MissingNone(placed, front);
    }
  }

  lemma {:induction false} MissingShrinks(placed: seq<Name>, n: Name, deps: seq<Name>)
    requires n !in placed
    ensures Missing(placed + [n], deps) == Missing(placed, deps) - multiset(deps)[n]
  {
    if deps != [] {
      var front, last := deps[..|deps| - 1], deps[|deps| - 1];
      assert deps == front + [last];
      MissingShrinks(placed, n, front);
    }
  }

  lemma {:induction false} MissingAll(deps: seq<Name>)
    ensures Missing([], deps) == |deps|
  {
    if deps != [] {
      MissingAll(deps[..|deps| - 1]);
    }
  }

  /** `dependents[d]` lists each crate as often as the crate lists `d`. */
  ghost predicate Inverts(g: Graph, dependents: map<Name, seq<Name>>)
    requires WellFormed(g)
  {
    && (forall d | d in g.pub :: d in dependents)
    && (forall d | d in g.pub :: forall n | n in dependents[d] :: n in g.pub)
    && (forall d, n | d in g.pub && n in g.pub :: multiset(dependents[d])[n] == multiset(DepsOf(g, n))[d])
  }

  lemma TakeMore(s: seq<Name>, j: nat)
    requires j < |s|
    ensures multiset(s[..j + 1]) == multiset(s[..j])[s[j] := multiset(s[..j])[s[j]] + 1]
  {
    assert s[..j + 1] == s[..j] + [s[j]];
  }

  method AddDependent(g: Graph, n: Name, dependents: map<Name, seq<Name>>) returns (r: map<Name, seq<Name>>)
    requires WellFormed(g) && n in g.pub && forall d | d in g.pub :: d in dependents && multiset(dependents[d])[n] == 0
    ensures forall d | d in g.pub :: d in r && multiset(r[d]) == multiset(dependents[d])[n := multiset(DepsOf(g, n))[d]]
  {
    hide Within;
    r := dependents;
    var deps := DepsOf(g, n);
    for j := 0 to |deps|
      invariant forall d | d in g.pub ::
                  d in r && multiset(r[d]) == multiset(dependents[d])[n := multiset(deps[..j])[d]]
    {
      var d := deps[j];
      TakeMore(deps, j);
      r := r[d := r[d] + [n]];
    }
    assert deps[..|deps|] == deps;
  }

  /** Once the first `i` crates have been gone through. */
  ghost predicate Collected(g: Graph, i: nat, dependents: map<Name, seq<Name>>)
    requires WellFormed(g) && i <= |g.pub|
  {
    forall d | d in g.pub :: d in dependents &&
      forall n :: multiset(dependents[d])[n] == if n in g.pub[..i] then multiset(DepsOf(g, n))[d] else 0
  }

  method CollectDependents(g: Graph) returns (dependents: map<Name, seq<Name>>)
    requires WellFormed(g)
    ensures Inverts(g, dependents)
  {
    hide DepsOf, Collected, Distinct, Inverts;
    dependents := map n | n in g.pub :: [];
    NothingCollected(g, dependents);
    for i := 0 to |g.pub|
      invariant Collected(g, i, dependents)
    {
      ghost var before := dependents;
      NextIsNew(g, i, dependents);
      dependents := AddDependent(g, g.pub[i], dependents);
      OneMoreCollected(g, i, before, dependents);
    }
    AllCollected(g, dependents);
  }

  lemma NothingCollected(g: Graph, dependents: map<Name, seq<Name>>)
    requires WellFormed(g) && forall d | d in g.pub :: d in dependents && dependents[d] == []
    ensures Collected(g, 0, dependents)
  {
    assert g.pub[..0] == [];
  }

  lemma NextIsNew(g: Graph, i: nat, dependents: map<Name, seq<Name>>)
    requires WellFormed(g) && i < |g.pub| && Collected(g, i, dependents)
    ensures forall d | d in g.pub :: d in dependents && multiset(dependents[d])[g.pub[i]] == 0
  {
    hide DepsOf;
    assert g.pub[i] !in g.pub[..i];
  }

  lemma OneMoreCollected(g: Graph, i: nat, before: map<Name, seq<Name>>, after: map<Name, seq<Name>>)
    requires WellFormed(g) && i < |g.pub| && Collected(g, i, before)
    requires forall d | d in g.pub :: d in after && d in before &&
               multiset(after[d]) == multiset(before[d])[g.pub[i] := multiset(DepsOf(g, g.pub[i]))[d]]
    ensures Collected(g, i + 1, after)
  {
    hide DepsOf, Distinct;
    var m := g.pub[i];
    assert g.pub[..i + 1] == g.pub[..i] + [m];
    forall d | d in g.pub
      ensures d in after &&
        forall n :: multiset(after[d])[n] == if n in g.pub[..i + 1] then multiset(DepsOf(g, n))[d] else 0
    {
      assert forall n | n != m :: multiset(after[d])[n] == multiset(before[d])[n];
    }
  }

  lemma AllCollected(g: Graph, dependents: map<Name, seq<Name>>)
    requires WellFormed(g) && Collected(g, |g.pub|, dependents)
    ensures Inverts(g, dependents)
  {
    hide DepsOf, Distinct;
    assert g.pub[..|g.pub|] == g.pub;
    forall d, n | d in g.pub && n in dependents[d]
      ensures n in g.pub
    {
      assert n in multiset(dependents[d]);
    }
  }

  ghost function Waiting(g: Graph, placed: seq<Name>, indegree: map<Name, nat>): set<Name>
  {
    set n | n in g.pub && n !in placed && n in indegree && indegree[n] == 0
  }

  /** The state between turns of the loop. */
  ghost predicate Turn(g: Graph, order: seq<Name>, queue: seq<Name>, indegree: map<Name, nat>)
    requires WellFormed(g)
  {
    && GreedySoFar(g, order)
    && (forall n | n in g.pub :: n in indegree && indegree[n] == Missing(order, DepsOf(g, n)))
    && Ascending(queue) && multiset(queue) == multiset(Waiting(g, order, indegree))
  }

  method TopologicalOrder(g: Graph) returns (order: seq<Name>)
    requires WellFormed(g)
    ensures Greedy(g, order)
  {
    hide Sort, Missing, Turn, Greedy, Inverts, Releasing, LaterDependents, Waiting;
    var indegree: map<Name, nat> := map n | n in g.pub :: |DepsOf(g, n)|;
    var dependents := CollectDependents(g);
    var queue := ZeroDegree(g, indegree);
    SortSorts(queue);
    queue := Sort(queue);
    order := [];
    FirstTurn(g, queue, indegree);
    while |queue| > 0
      invariant Turn(g, order, queue, indegree)
      decreases Left(g, order)
    {
      var n := queue[0];
      TurnTakes(g, order, queue, indegree);
      queue := queue[1..];
      queue, indegree := Release(g, order, n, dependents, queue, indegree);
      TurnEnds(g, order, n, dependents, queue, indegree);
      order := order + [n];
    }
    LastTurn(g, order, queue, indegree);
  }

  ghost function Left(g: Graph, order: seq<Name>): set<Name>
  {
    set n | n in g.pub && n !in order
  }

  method ZeroDegree(g: Graph, indegree: map<Name, nat>) returns (queue: seq<Name>)
    requires WellFormed(g) && forall n | n in g.pub :: n in indegree
    ensures multiset(queue) == multiset(Waiting(g, [], indegree))
  {
    hide Distinct, ZeroSet;
    queue := [];
    NoneWaiting(g, indegree);
    for i := 0 to |g.pub|
      invariant multiset(queue) == multiset(ZeroSet(g.pub[..i], indegree))
    {
      ZeroGrows(g, i, indegree);
      if indegree[g.pub[i]] == 0 {
        queue := queue + [g.pub[i]];
      }
    }
    AllLookedAt(g, indegree);
  }

  lemma NoneWaiting(g: Graph, indegree: map<Name, nat>)
    ensures ZeroSet(g.pub[..0], indegree) == {}
  {
  }

  lemma AllLookedAt(g: Graph, indegree: map<Name, nat>)
    ensures ZeroSet(g.pub[..|g.pub|], indegree) == Waiting(g, [], indegree)
  {
    assert g.pub[..|g.pub|] == g.pub;
  }

  ghost function ZeroSet(names: seq<Name>, indegree: map<Name, nat>): set<Name>
  {
    set n | n in names && n in indegree && indegree[n] == 0
  }

  lemma ZeroGrows(g: Graph, i: nat, indegree: map<Name, nat>)
    requires Distinct(g.pub) && i < |g.pub| && g.pub[i] in indegree
    ensures multiset(ZeroSet(g.pub[..i + 1], indegree))
            == multiset(ZeroSet(g.pub[..i], indegree))
               + if indegree[g.pub[i]] == 0 then multiset{g.pub[i]} else multiset{}
  {
    var n, before := g.pub[i], ZeroSet(g.pub[..i], indegree);
    assert g.pub[..i + 1] == g.pub[..i] + [n];
    assert n !in before;
    assert ZeroSet(g.pub[..i + 1], indegree) == before + if indegree[n] == 0 then {n} else {};
  }

  lemma FirstTurn(g: Graph, queue: seq<Name>, indegree: map<Name, nat>)
    requires WellFormed(g) && forall n | n in g.pub :: n in indegree && indegree[n] == |DepsOf(g, n)|
    requires Ascending(queue) && multiset(queue) == multiset(Waiting(g, [], indegree))
    ensures Turn(g, [], queue, indegree)
  {
    hide Ascending, Waiting;
    forall n | n in g.pub
      ensures indegree[n] == Missing([], DepsOf(g, n))
    {
      MissingAll(DepsOf(g, n));
    }
  }

  /** What waits is what is ready. */
  lemma WaitingIsReady(g: Graph, order: seq<Name>, indegree: map<Name, nat>, n: Name)
    requires WellFormed(g) && forall m | m in g.pub :: m in indegree && indegree[m] == Missing(order, DepsOf(g, m))
    ensures n in Waiting(g, order, indegree) <==> Ready(g, order, n)
  {
    if n in g.pub {
      MissingNone(order, DepsOf(g, n));
    }
  }

  /** Whatever depends on `n` comes later. */
  ghost predicate LaterDependents(g: Graph, order: seq<Name>, n: Name)
    requires WellFormed(g)
  {
    && n in g.pub && n !in order
    && forall m | m in g.pub && n in DepsOf(g, m) :: m !in order + [n]
  }

  /** Halfway through a turn: `n` is placed, and the crates in `done` have been told. */
  ghost predicate Releasing(
    g: Graph, order: seq<Name>, n: Name, done: seq<Name>, queue: seq<Name>, indegree: map<Name, nat>)
    requires WellFormed(g)
  {
    && (forall m | m in g.pub :: m in indegree && indegree[m] == Missing(order, DepsOf(g, m)) - multiset(done)[m])
    && Ascending(queue) && multiset(queue) == multiset(Waiting(g, order + [n], indegree))
  }

  lemma TurnTakes(g: Graph, order: seq<Name>, queue: seq<Name>, indegree: map<Name, nat>)
    requires WellFormed(g) && Turn(g, order, queue, indegree) && queue != []
    ensures LeastReady(g, order, queue[0]) && LaterDependents(g, order, queue[0])
    ensures GreedySoFar(g, order) && Releasing(g, order, queue[0], [], queue[1..], indegree)
  {
    hide Leq, Missing, GreedySoFar, Ready, Waiting, Ascending, LaterDependents;
    FirstIsLeast(g, order, queue, indegree);
    ReadyIsNew(g, order, queue[0]);
    FirstLeaves(g, order, queue, indegree);
    RestAscends(queue);
  }

  lemma RestAscends(queue: seq<Name>)
    requires queue != [] && Ascending(queue)
    ensures Ascending(queue[1..])
  {
    hide Leq;
  }

  lemma FirstIsLeast(g: Graph, order: seq<Name>, queue: seq<Name>, indegree: map<Name, nat>)
    requires WellFormed(g) && Turn(g, order, queue, indegree) && queue != []
    ensures LeastReady(g, order, queue[0])
  {
    hide Leq, Missing, GreedySoFar, Ready, Waiting;
    var n := queue[0];
    assert n in multiset(queue);
    WaitingIsReady(g, order, indegree, n);
    forall m | Ready(g, order, m)
      ensures Leq(n, m)
    {
      WaitingIsReady(g, order, indegree, m);
      assert m in multiset(queue);
      LeqTotal(n, n);
    }
  }

  lemma FirstLeaves(g: Graph, order: seq<Name>, queue: seq<Name>, indegree: map<Name, nat>)
    requires queue != [] && multiset(queue) == multiset(Waiting(g, order, indegree))
    ensures multiset(queue[1..]) == multiset(Waiting(g, order + [queue[0]], indegree))
  {
    var n := queue[0];
    assert queue == [n] + queue[1..];
    var waiting := Waiting(g, order, indegree);
    assert n in multiset(queue);
    assert Waiting(g, order + [n], indegree) == waiting - {n};
    assert multiset(waiting) - multiset{n} == multiset(waiting - {n});
  }

  lemma ReadyIsNew(g: Graph, order: seq<Name>, n: Name)
    requires WellFormed(g) && GreedySoFar(g, order) && Ready(g, order, n)
    ensures LaterDependents(g, order, n)
  {
    hide DepsOf, Leq;
    forall k | 0 <= k < |order|
      ensures order[k] in g.pub && n !in DepsOf(g, order[k])
    {
      assert LeastReady(g, order[..k], order[k]);
      assert forall d | d in DepsOf(g, order[k]) :: d in order;
    }
  }

  /** One placed crate's dependents, each entry taking one off, those left with none to wait for queued. */
  method Release(g: Graph, ghost order: seq<Name>, n: Name, dependents: map<Name, seq<Name>>,
    queueIn: seq<Name>, indegreeIn: map<Name, nat>) returns (queue: seq<Name>, indegree: map<Name, nat>)
    requires WellFormed(g) && Inverts(g, dependents) && LaterDependents(g, order, n)
    requires Releasing(g, order, n, [], queueIn, indegreeIn)
    ensures n in dependents && Releasing(g, order, n, dependents[n], queue, indegree)
  {
    hide Releasing, Inverts, LaterDependents, Sort, Missing;
    queue, indegree := queueIn, indegreeIn;
    TellsAll(g, order, n, dependents);
    var list := dependents[n];
    for j := 0 to |list|
      invariant Releasing(g, order, n, list[..j], queue, indegree)
    {
      var dep := list[j];
      assert list[..j + 1] == list[..j] + [dep];
      ToldOnce(list, j);
      Told(g, order, n, list[..j], dep, queue, indegree);
      indegree := indegree[dep := indegree[dep] - 1];
      if indegree[dep] == 0 {
        queue := queue + [dep];
      }
      queue := Sort(queue);
    }
    assert list[..|list|] == list;
  }

  lemma TellsAll(g: Graph, order: seq<Name>, n: Name, dependents: map<Name, seq<Name>>)
    requires WellFormed(g) && Inverts(g, dependents) && LaterDependents(g, order, n)
    ensures n in dependents
    ensures forall m | m in dependents[n] :: m in g.pub && m !in order + [n]
    ensures forall m | m in g.pub :: multiset(dependents[n])[m] <= Missing(order, DepsOf(g, m))
  {
    hide Missing;
    forall m | m in dependents[n]
      ensures m in g.pub && m !in order + [n]
    {
      assert multiset(dependents[n])[m] > 0;
      assert n in DepsOf(g, m);
    }
    forall m | m in g.pub
      ensures multiset(dependents[n])[m] <= Missing(order, DepsOf(g, m))
    {
      MissingShrinks(order, n, DepsOf(g, m));
    }
  }

  lemma ToldOnce(list: seq<Name>, j: nat)
    requires j < |list|
    ensures multiset(list[..j])[list[j]] < multiset(list)[list[j]]
  {
    assert list == list[..j] + [list[j]] + list[j + 1..];
  }

  lemma Told(
    g: Graph, order: seq<Name>, n: Name, done: seq<Name>, dep: Name, queue: seq<Name>, indegree: map<Name, nat>)
    requires WellFormed(g) && Releasing(g, order, n, done, queue, indegree)
    requires dep in g.pub && dep !in order + [n] && multiset(done)[dep] < Missing(order, DepsOf(g, dep))
    ensures dep in indegree && indegree[dep] > 0
    ensures var left := indegree[dep := indegree[dep] - 1];
            Releasing(g, order, n, done + [dep], Sort(if left[dep] == 0 then queue + [dep] else queue), left)
  {
    hide Ascending, Missing, Sort, DepsOf, WellFormed, Waiting;
    var left := indegree[dep := indegree[dep] - 1];
    SortSorts(queue + [dep]);
    SortSorts(queue);
    ToldWaits(g, order + [n], dep, indegree);
  }

  lemma ToldWaits(g: Graph, placed: seq<Name>, dep: Name, indegree: map<Name, nat>)
    requires dep in g.pub && dep !in placed && dep in indegree && indegree[dep] > 0
    ensures var before, after := Waiting(g, placed, indegree), Waiting(g, placed, indegree[dep := indegree[dep] - 1]);
            multiset(after) == multiset(before) + if indegree[dep] == 1 then multiset{dep} else multiset{}
  {
    var left := indegree[dep := indegree[dep] - 1];
    var before, after := Waiting(g, placed, indegree), Waiting(g, placed, left);
    assert after == if left[dep] == 0 then before + {dep} else before;
  }

  lemma TurnEnds(
    g: Graph, order: seq<Name>, n: Name, dependents: map<Name, seq<Name>>, queue: seq<Name>, indegree: map<Name, nat>)
    requires WellFormed(g) && Inverts(g, dependents) && n in g.pub && n !in order
    requires GreedySoFar(g, order) && LeastReady(g, order, n) && Releasing(g, order, n, dependents[n], queue, indegree)
    ensures Turn(g, order + [n], queue, indegree)
    ensures Left(g, order + [n]) < Left(g, order)
  {
    hide Ascending, Missing, LeastReady, Waiting;
    forall m | m in g.pub
      ensures m in indegree && indegree[m] == Missing(order + [n], DepsOf(g, m))
    {
      MissingShrinks(order, n, DepsOf(g, m));
    }
    OneMorePlaced(g, order, n);
    assert n in Left(g, order) && n !in Left(g, order + [n]);
  }

  lemma OneMorePlaced(g: Graph, order: seq<Name>, n: Name)
    requires WellFormed(g) && GreedySoFar(g, order) && LeastReady(g, order, n)
    ensures GreedySoFar(g, order + [n])
  {
    hide LeastReady;
    var all := order + [n];
    forall i | 0 <= i < |all|
      ensures LeastReady(g, all[..i], all[i])
    {
      assert i < |order| ==> all[..i] == order[..i];
      assert all[..|order|] == order;
    }
  }

  lemma LastTurn(g: Graph, order: seq<Name>, queue: seq<Name>, indegree: map<Name, nat>)
    requires WellFormed(g) && Turn(g, order, queue, indegree) && queue == []
    ensures Greedy(g, order)
  {
    hide Ready, Missing, GreedySoFar, Waiting;
    forall n
      ensures !Ready(g, order, n)
    {
      WaitingIsReady(g, order, indegree, n);
      assert multiset(queue)[n] == 0;
    }
  }

  // ---- What the order means ----

  /** Every crate once, each after all it depends on. */
  ghost predicate Valid(g: Graph, t: seq<Name>)
    requires WellFormed(g)
  {
    Distinct(t) && (forall n :: n in t <==> n in g.pub) && DepsFirst(g, t)
  }

  predicate DepsFirst(g: Graph, t: seq<Name>)
    requires WellFormed(g)
  {
    forall i | 0 <= i < |t| :: t[i] in g.pub && forall d | d in DepsOf(g, t[i]) :: d in t[..i]
  }

  predicate IsCycle(g: Graph, c: seq<Name>)
    requires WellFormed(g)
  {
    && c != [] && (forall i | 0 <= i < |c| :: c[i] in g.pub)
    && (forall i | 0 <= i < |c| - 1 :: c[i + 1] in DepsOf(g, c[i]))
    && c[0] in DepsOf(g, c[|c| - 1])
  }

  ghost predicate Acyclic(g: Graph)
    requires WellFormed(g)
  {
    forall c :: !IsCycle(g, c)
  }

  lemma {:induction false} GreedyDistinct(g: Graph, order: seq<Name>)
    requires WellFormed(g) && GreedySoFar(g, order)
    ensures Distinct(order) && forall n | n in order :: n in g.pub
  {
    hide DepsOf, Leq;
    forall i, j | 0 <= i < j < |order|
      ensures order[i] != order[j]
    {
      assert LeastReady(g, order[..j], order[j]);
      assert order[i] in order[..j];
    }
    forall n | n in order
      ensures n in g.pub
    {
      var k :| 0 <= k < |order| && order[k] == n;
      assert LeastReady(g, order[..k], order[k]);
    }
  }

  /** Nothing on a cycle is ever placed. */
  lemma {:induction false} CycleNeverPlaced(g: Graph, t: seq<Name>, c: seq<Name>, k: nat)
    requires WellFormed(g) && DepsFirst(g, t) && IsCycle(g, c) && k <= |t|
    ensures forall i | 0 <= i < |c| :: c[i] !in t[..k]
  {
    hide DepsOf;
    if k > 0 {
      CycleNeverPlaced(g, t, c, k - 1);
      assert t[..k] == t[..k - 1] + [t[k - 1]];
      forall i | 0 <= i < |c|
        ensures c[i] != t[k - 1]
      {
        var next := if i == |c| - 1 then c[0] else c[i + 1];
        assert next in DepsOf(g, c[i]) && next !in t[..k - 1];
      }
    }
  }

  lemma CycleLeft(g: Graph, t: seq<Name>, c: seq<Name>)
    requires WellFormed(g) && DepsFirst(g, t) && IsCycle(g, c)
    ensures c[0] in Left(g, t)
  {
    hide DepsOf;
    CycleNeverPlaced(g, t, c, |t|);
    assert t[..|t|] == t;
  }

  lemma GreedyDepsFirst(g: Graph, order: seq<Name>)
    requires WellFormed(g) && GreedySoFar(g, order)
    ensures DepsFirst(g, order)
  {
    hide DepsOf, Leq;
    forall i | 0 <= i < |order|
      ensures order[i] in g.pub && forall d | d in DepsOf(g, order[i]) :: d in order[..i]
    {
      assert LeastReady(g, order[..i], order[i]);
    }
  }

  /** A crate left out waits for another that is left out. */
  lemma LeftWaits(g: Graph, order: seq<Name>, n: Name) returns (d: Name)
    requires WellFormed(g) && Greedy(g, order) && n in Left(g, order)
    ensures d in DepsOf(g, n) && d in Left(g, order) && d in g.pub
  {
    assert !Ready(g, order, n);
    d :| d in DepsOf(g, n) && d !in order;
  }

  /** A walk among the crates left out, each waiting for the next, ends in a cycle. */
  lemma {:induction false} WalkCycles(g: Graph, order: seq<Name>, path: seq<Name>) returns (c: seq<Name>)
    requires WellFormed(g) && Greedy(g, order) && path != []
    requires forall i | 0 <= i < |path| :: path[i] in g.pub && path[i] in Left(g, order)
    requires forall i | 0 <= i < |path| - 1 :: path[i + 1] in DepsOf(g, path[i])
    ensures IsCycle(g, c) && forall i | 0 <= i < |c| :: c[i] in Left(g, order)
    decreases Left(g, order) - (set n | n in path)
  {
    hide DepsOf, Greedy;
    var d := LeftWaits(g, order, path[|path| - 1]);
    if d in path {
      var i :| 0 <= i < |path| && path[i] == d;
      c := path[i..];
    } else {
      var longer := path + [d];
      assert d in (set n | n in longer) && d !in (set n | n in path);
      assert (set n | n in longer) == (set n | n in path) + {d};
      c := WalkCycles(g, order, longer);
    }
  }

  lemma {:induction false} DistinctCount(s: seq<Name>)
    requires Distinct(s)
    ensures |set n | n in s| == |s|
  {
    if s != [] {
      var front, last := s[..|s| - 1], s[|s| - 1];
      DistinctCount(front);
      assert s == front + [last];
      assert (set n | n in s) == (set n | n in front) + {last};
      assert last !in front;
    }
  }

  /** The length tells whether every crate was placed. */
  lemma CountTells(g: Graph, order: seq<Name>)
    requires WellFormed(g) && Distinct(order) && forall n | n in order :: n in g.pub
    ensures |order| == |g.pub| <==> Left(g, order) == {}
  {
    DistinctCount(order);
    DistinctCount(g.pub);
    var placed, all := set n | n in order, set n | n in g.pub;
    assert Left(g, order) == all - placed;
    assert all == placed + Left(g, order);
  }

  /** A short order leaves a cycle among the crates left out. */
  lemma {:induction false} ShortMeansCycle(g: Graph, order: seq<Name>) returns (c: seq<Name>)
    requires WellFormed(g) && Greedy(g, order) && |order| != |g.pub|
    ensures IsCycle(g, c) && forall i | 0 <= i < |c| :: c[i] in g.pub && c[i] !in order
  {
    hide DepsOf, Greedy, IsCycle;
    GreedyParts(g, order);
    GreedyDistinct(g, order);
    CountTells(g, order);
    var n :| n in Left(g, order);
    c := WalkCycles(g, order, [n]);
  }

  lemma GreedyParts(g: Graph, order: seq<Name>)
    requires WellFormed(g) && Greedy(g, order)
    ensures GreedySoFar(g, order)
  {
  }

  /** Every crate is placed exactly when no crate depends on itself, however far round. */
  lemma {:induction false} CompleteIffAcyclic(g: Graph, order: seq<Name>)
    requires WellFormed(g) && Greedy(g, order)
    ensures |order| == |g.pub| <==> Acyclic(g)
  {
    hide DepsOf, Greedy, GreedySoFar, IsCycle, Distinct, DepsFirst, WellFormed;
    GreedyParts(g, order);
    GreedyDistinct(g, order);
    CountTells(g, order);
    if |order| == |g.pub| {
      GreedyDepsFirst(g, order);
      forall c | IsCycle(g, c)
        ensures false
      {
        CycleLeft(g, order, c);
      }
    } else {
      var c := ShortMeansCycle(g, order);
    }
  }

  /** Orders compared crate by crate, alphabetically. */
  predicate NoLater(a: seq<Name>, b: seq<Name>)
  {
    a == [] || (b != [] && Leq(a[0], b[0]) && (a[0] == b[0] ==> NoLater(a[1..], b[1..])))
  }

  lemma {:induction false} NoLaterFrom(g: Graph, order: seq<Name>, t: seq<Name>, k: nat)
    requires WellFormed(g) && Greedy(g, order) && Valid(g, t)
    requires k <= |order| && k <= |t| && order[..k] == t[..k]
    ensures NoLater(order[k..], t[k..])
    decreases |order| - k
  {
    hide DepsOf, Leq;
    if k < |order| {
      assert LeastReady(g, order[..k], order[k]);
      PlacedLater(g, order, t, k);
      assert Ready(g, order[..k], t[k]);
      if order[k] == t[k] {
        assert order[..k + 1] == order[..k] + [order[k]] && t[..k + 1] == t[..k] + [t[k]];
        NoLaterFrom(g, order, t, k + 1);
        assert order[k..][1..] == order[k + 1..] && t[k..][1..] == t[k + 1..];
      }
    }
  }

  lemma PlacedLater(g: Graph, order: seq<Name>, t: seq<Name>, k: nat)
    requires WellFormed(g) && Valid(g, t) && k < |order| && k <= |t| && order[..k] == t[..k]
    requires Ready(g, order[..k], order[k])
    ensures k < |t| && Ready(g, order[..k], t[k])
  {
    hide DepsOf;
    assert order[k] in t;
    assert t[..|t|] == t;
  }

  /**
   Whenever the crates can be put in order at all, the sort puts every crate after what it depends on, and no other such
   order comes before it alphabetically.
   */
  lemma {:induction false} LeastOrder(g: Graph, order: seq<Name>, t: seq<Name>)
    requires WellFormed(g) && Greedy(g, order) && Valid(g, t)
    ensures Valid(g, order) && NoLater(order, t)
  {
    hide DepsOf, Leq, IsCycle, NoLater, Greedy, Valid;
    ValidMeansAcyclic(g, t);
    CompleteIffAcyclic(g, order);
    CompleteIsValid(g, order);
    NoLaterFrom(g, order, t, 0);
    assert order[0..] == order && t[0..] == t;
  }

  /** The least valid order is the only one: whatever is valid and no later than every valid order is the sort's. */
  lemma LeastIsUnique(g: Graph, order: seq<Name>, t: seq<Name>)
    requires WellFormed(g) && Greedy(g, order) && Valid(g, t) && forall u | Valid(g, u) :: NoLater(t, u)
    ensures t == order
  {
    hide DepsOf, Leq, NoLater, Greedy, Valid;
    LeastOrder(g, order, t);
    NoLaterAntisymmetric(order, t);
  }

  lemma {:induction false} NoLaterAntisymmetric(a: seq<Name>, b: seq<Name>)
    requires NoLater(a, b) && NoLater(b, a)
    ensures a == b
  {
    hide Leq;
    if a != [] {
      LeqAntisymmetric(a[0], b[0]);
      NoLaterAntisymmetric(a[1..], b[1..]);
      assert a == [a[0]] + a[1..] && b == [b[0]] + b[1..];
    }
  }

  lemma ValidMeansAcyclic(g: Graph, t: seq<Name>)
    requires WellFormed(g) && Valid(g, t)
    ensures Acyclic(g)
  {
    hide IsCycle, DepsFirst, Distinct;
    forall c | IsCycle(g, c)
      ensures false
    {
      CycleLeft(g, t, c);
    }
  }

  lemma CompleteIsValid(g: Graph, order: seq<Name>)
    requires WellFormed(g) && Greedy(g, order) && |order| == |g.pub|
    ensures Valid(g, order)
  {
    hide DepsOf, Leq;
    GreedyDistinct(g, order);
    CountTells(g, order);
    forall n
      ensures n in order <==> n in g.pub
    {
      assert n !in Left(g, order);
    }
    GreedyDepsFirst(g, order);
  }

  /** The order to publish in, or none if the crates' dependencies go round in a circle. */
  method PublishOrder(g: Graph) returns (r: Option<seq<Name>>)
    requires WellFormed(g)
    ensures r.Some? <==> Acyclic(g)
    ensures r.Some? ==> Valid(g, r.value) && forall t | Valid(g, t) :: NoLater(r.value, t)
  {
    hide Greedy, Valid, NoLater, IsCycle;
    var order := TopologicalOrder(g);
    CompleteIffAcyclic(g, order);
    if |order| != |g.pub| {
      return None;
    }
    CompleteIsValid(g, order);
    forall t | Valid(g, t)
      ensures NoLater(order, t)
    {
      LeastOrder(g, order, t);
    }
    return Some(order);
  }
}
