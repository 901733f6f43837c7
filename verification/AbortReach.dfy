/** The breadth-first search finds exactly the descendants, each once, on every link graph. */
module AbortReach {
  import opened Wrappers
  import opened AbortModel

  ghost predicate Distinct<T>(s: seq<T>) {
    forall i, j | 0 <= i < j < |s| :: s[i] != s[j]
  }

  lemma ChildIsDescendant(g: Graph, x: Id, y: Id)
    requires WF(g) && x in g.ids && y in g.ids && y in At(g, x).children
    ensures Descendant(g, x, y)
  {
    assert Walk(g, [x, y]);
  }

  lemma DescendantStep(g: Graph, x: Id, y: Id, z: Id)
    requires WF(g) && Descendant(g, x, y) && y in g.ids && z in g.ids && z in At(g, y).children
    ensures Descendant(g, x, z)
  {
    var p :| Walk(g, p) && |p| >= 2 && p[0] == x && p[|p| - 1] == y;
    assert Walk(g, p + [z]);
  }

  /** A set of ids that contains the registered children of `from`, and of its own members, contains every
      descendant. */
  lemma {:induction false} ClosedContains(g: Graph, from: Id, region: set<Id>, p: seq<Id>)
    requires WF(g) && Walk(g, p) && |p| >= 2 && p[0] == from
    requires forall x, y | x in g.ids && (x == from || x in region) && y in At(g, x).children && y in g.ids ::
               y in region
    ensures p[|p| - 1] in region
    decreases |p|
  {
    var q := p[..|p| - 1];
    assert p[|p| - 1] in At(g, p[|p| - 2]).children;
    if |p| > 2 {
      assert Walk(g, q);
      ClosedContains(g, from, region, q);
    }
  }

  /** One round of the search: what it lists, what is left in the queue, what is visited. */
  ghost function Round(g: Graph, queue: seq<Id>, visited: set<Id>): (seq<Id>, seq<Id>, set<Id>)
    requires WF(g) && queue != []
  {
    var current := queue[0];
    if current in visited then ([], queue[1..], visited)
    else if current in g.ids then ([current], queue[1..] + At(g, current).children, visited + {current})
    else ([], queue[1..], visited + {current})
  }

  lemma {:induction false} RoundLists(g: Graph, queue: seq<Id>, visited: set<Id>)
    requires WF(g) && queue != []
    ensures var (more, rest, seen) := Round(g, queue, visited);
      Bfs(g, queue, visited) == more + Bfs(g, rest, seen)
  {
    var b := Bfs(g, queue[1..], visited);
    var c := Bfs(g, queue[1..], visited + {queue[0]});
    assert [] + b == b && [] + c == c;
  }

  lemma RoundMeasure(g: Graph, queue: seq<Id>, visited: set<Id>)
    requires WF(g) && queue != []
    ensures var (more, rest, seen) := Round(g, queue, visited);
      || g.ids.Keys - seen < g.ids.Keys - visited
      || (g.ids.Keys - seen == g.ids.Keys - visited && |rest| < |queue|)
  {
    var (more, rest, seen) := Round(g, queue, visited);
    assert queue[0] in g.ids && queue[0] !in visited ==>
        queue[0] in g.ids.Keys - visited && queue[0] !in g.ids.Keys - seen;
  }

  /** A round preserves the total result, and visits a new registered id or shortens the queue. */
  lemma {:induction false} RoundProgress(g: Graph, queue: seq<Id>, visited: set<Id>, listed: seq<Id>)
    requires WF(g) && queue != []
    ensures var (more, rest, seen) := Round(g, queue, visited);
      && (listed + more) + Bfs(g, rest, seen) == listed + Bfs(g, queue, visited)
      && (g.ids.Keys - seen < g.ids.Keys - visited
          || (g.ids.Keys - seen == g.ids.Keys - visited && |rest| < |queue|))
  {
    var (more, rest, seen) := Round(g, queue, visited);
    var found := Bfs(g, rest, seen);
    RoundLists(g, queue, visited);
    RoundMeasure(g, queue, visited);
    assert (listed + more) + found == listed + (more + found);
  }

  /** One round of the search keeps its frontier below root, and its result is everything not yet visited. */
  lemma {:induction false} BfsSearches(g: Graph, root: Id, queue: seq<Id>, visited: set<Id>)
    requires WF(g) && root in g.ids
    requires forall z | z in queue && z in g.ids :: Descendant(g, root, z)
    ensures var ds := Bfs(g, queue, visited);
      && Distinct(ds)
      && (forall y | y in ds :: y in g.ids && y !in visited && Descendant(g, root, y))
      && (forall z | z in queue && z in g.ids :: z in visited || z in ds)
      && (forall y, z | y in ds && y in g.ids && z in At(g, y).children && z in g.ids :: z in visited || z in ds)
    decreases g.ids.Keys - visited, |queue|
  {
    if queue != [] {
      var current := queue[0];
      if current in visited {
        BfsSearches(g, root, queue[1..], visited);
      } else if current !in g.ids {
        assert g.ids.Keys - (visited + {current}) == g.ids.Keys - visited;
        BfsSearches(g, root, queue[1..], visited + {current});
      } else {
        assert current in g.ids.Keys - visited;
        var next := queue[1..] + At(g, current).children;
        forall z | z in next && z in g.ids ensures Descendant(g, root, z) {
          if z in At(g, current).children {
            DescendantStep(g, root, current, z);
          }
        }
        BfsSearches(g, root, next, visited + {current});
        forall z | z in queue && z in g.ids ensures z in visited || z in Bfs(g, queue, visited) {
          assert z == current || z in next;
        }
      }
    }
  }

  /** `cascadedTo` has no duplicates and is exactly the set of registered ids reachable from the root's children. */
  lemma {:induction false} BfsExact(g: Graph, root: Id)
    requires WF(g) && root in g.ids
    ensures var ds := Bfs(g, At(g, root).children, {});
            Distinct(ds) && forall y :: y in ds <==> Descendant(g, root, y)
  {
    var ds := Bfs(g, At(g, root).children, {});
    forall z | z in At(g, root).children && z in g.ids ensures Descendant(g, root, z) {
      ChildIsDescendant(g, root, z);
    }
    BfsSearches(g, root, At(g, root).children, {});
    forall y | Descendant(g, root, y) ensures y in ds {
      var p :| Walk(g, p) && |p| >= 2 && p[0] == root && p[|p| - 1] == y;
      ClosedContains(g, root, (set z | z in ds), p);
    }
  }
}
