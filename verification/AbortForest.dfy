/** Disciplined linking: the graph stays a forest and every abort is announced once. */
module AbortForest {
  import opened Wrappers
  import opened AbortModel
  import opened AbortCascade
  import opened AbortNotice
  import opened AbortReach
  import opened AbortTheorems
  import opened AbortRuns

  /** The converse of Structured: whoever is in a child set is registered and records that parent. */
  ghost predicate Mutual(g: Graph)
    requires WF(g)
  {
    forall p, c | p in g.ids && c in At(g, p).children :: c in g.ids && At(g, c).parentId == Some(p)
  }

  ghost predicate Acyclic(g: Graph)
    requires WF(g)
  {
    forall x | x in g.ids :: !Descendant(g, x, x)
  }

  ghost predicate Forest(g: Graph)
    requires WF(g)
  {
    Mutual(g) && Acyclic(g)
  }

  /** Every live linked node carries exactly one Notify closure for its recorded parent. */
  ghost predicate LinkedOnce(g: Graph)
    requires WF(g)
  {
    forall x | x in g.ids && !Aborted(g, x) && At(g, x).parentId.Some? ::
      multiset(SignalOf(g, x).listeners)[Notify(At(g, x).parentId.value, x)] == 1
  }

  // ----- walks

  /** Every child-set edge of h between registered nodes is an edge of g. */
  ghost predicate EdgesOf(h: Graph, g: Graph)
    requires WF(h) && WF(g)
  {
    forall x, y | x in h.ids && y in h.ids && y in At(h, x).children ::
      x in g.ids && y in g.ids && y in At(g, x).children
  }

  lemma WalkIn(h: Graph, g: Graph, p: seq<Id>)
    requires WF(h) && WF(g) && EdgesOf(h, g) && Walk(h, p) && |p| >= 2
    ensures Walk(g, p)
  {
    forall i | 0 <= i < |p| ensures p[i] in g.ids {
      if i < |p| - 1 {
        assert p[i + 1] in At(h, p[i]).children;
      } else {
        assert p[i - 1 + 1] in At(h, p[i - 1]).children;
      }
    }
  }

  lemma AcyclicIn(h: Graph, g: Graph)
    requires WF(h) && WF(g) && EdgesOf(h, g) && Acyclic(g)
    ensures Acyclic(h)
  {
    forall x | x in h.ids ensures !Descendant(h, x, x) {
      if Descendant(h, x, x) {
        var p :| Walk(h, p) && |p| >= 2 && p[0] == x && p[|p| - 1] == x;
        WalkIn(h, g, p);
        assert Descendant(g, x, x);
      }
    }
  }

  ghost predicate ClosedSet(h: Graph, inside: set<Id>)
    requires WF(h)
  {
    forall x, y | x in h.ids && x in inside && y in At(h, x).children && y in h.ids :: y in inside
  }

  /** A walk does not leave a set that is closed under h's edges. */
  lemma {:induction false} StaysInside(h: Graph, inside: set<Id>, p: seq<Id>, i: nat)
    requires WF(h) && Walk(h, p) && i < |p| && p[0] in inside
    requires ClosedSet(h, inside)
    ensures p[i] in inside
    decreases i
  {
    if i > 0 {
      StaysInside(h, inside, p, i - 1);
      assert p[i - 1 + 1] in At(h, p[i - 1]).children;
    }
  }

  /** h has at most the child-set edges of g and the edge p -> c. */
  ghost predicate OneMoreEdge(g: Graph, h: Graph, p: Id, c: Id)
    requires WF(g) && WF(h)
  {
    && h.ids.Keys == g.ids.Keys
    && forall x, y | x in h.ids && y in h.ids && y in At(h, x).children ::
         y in At(g, x).children || (x == p && y == c)
  }

  lemma BelowIsClosed(g: Graph, h: Graph, p: Id, c: Id) returns (below: set<Id>)
    requires WF(g) && WF(h) && OneMoreEdge(g, h, p, c) && c in g.ids && p != c && !Descendant(g, c, p)
    ensures c in below && p !in below && ClosedSet(h, below)
  {
    below := set y | y in g.ids && (y == c || Descendant(g, c, y));
    forall x, y | x in h.ids && x in below && y in At(h, x).children && y in h.ids ensures y in below {
      assert y in At(g, x).children;
      if x == c {
        ChildIsDescendant(g, c, y);
      } else {
        DescendantStep(g, c, x, y);
      }
    }
  }

  /** A cycle cannot enter a closed set that it also leaves, so it does not use the new edge. */
  lemma CycleAvoidsEdge(h: Graph, p: Id, c: Id, below: set<Id>, w: seq<Id>, i: nat)
    requires WF(h) && c in below && p !in below && ClosedSet(h, below)
    requires Walk(h, w) && |w| >= 2 && w[0] == w[|w| - 1] && i < |w| - 1
    ensures !(w[i] == p && w[i + 1] == c)
  {
    if w[0] in below {
      StaysInside(h, below, w, i);
    } else if w[i + 1] == c {
      var v := w[i + 1..];
      assert Walk(h, v);
      StaysInside(h, below, v, |v| - 1);
    }
  }

  /** One more edge p -> c closes no cycle unless p is c or below c. */
  lemma NewEdgeAcyclic(g: Graph, h: Graph, p: Id, c: Id)
    requires WF(g) && WF(h) && OneMoreEdge(g, h, p, c) && p in g.ids && c in g.ids && Acyclic(g)
    requires p != c && !Descendant(g, c, p)
    ensures Acyclic(h)
  {
    var below := BelowIsClosed(g, h, p, c);
    forall x | x in h.ids ensures !Descendant(h, x, x) {
      if Descendant(h, x, x) {
        var w :| Walk(h, w) && |w| >= 2 && w[0] == x && w[|w| - 1] == x;
        forall i | 0 <= i < |w| - 1 ensures w[i + 1] in At(g, w[i]).children {
          CycleAvoidsEdge(h, p, c, below, w, i);
        }
        assert Walk(g, w);
      }
    }
  }

  // ----- what keeps the forest

  /** Same ids, links and child sets: the forest properties carry over. */
  ghost predicate SameLinks(g: Graph, h: Graph)
    requires WF(g) && WF(h)
  {
    && h.ids == g.ids
    && forall x | x in g.ids :: At(h, x).parentId == At(g, x).parentId && At(h, x).children == At(g, x).children
  }

  lemma SameLinksForest(g: Graph, h: Graph)
    requires WF(g) && WF(h) && SameLinks(g, h) && Forest(g)
    ensures Forest(h)
  {
    AcyclicIn(h, g);
  }

  lemma ExtendsLinks(g: Graph, h: Graph)
    requires WF(g) && WF(h) && Extends(g, h)
    ensures SameLinks(g, h)
  {
    forall x | x in g.ids
      ensures At(h, x).parentId == At(g, x).parentId && At(h, x).children == At(g, x).children
    {
      ExtendsAt(g, h, x);
    }
  }

  lemma AbortLinks(g: Graph, id: Id, arg: Option<Reason>)
    requires Sound(g)
    ensures WF(AbortF(g, id, arg)) && SameLinks(g, AbortF(g, id, arg))
  {
    if id in g.ids && !Aborted(g, id) {
      var ds := MarkPhase(g, id, arg);
      ExtendsLinks(MarkAll(g, id, arg), AbortF(g, id, arg));
    }
  }

  lemma LinkLinks(g: Graph, p: Id, c: Id)
    requires Sound(g) && p in g.ids && c in g.ids
    ensures SameLinks(LinkEdge(g, p, c), LinkF(g, p, c))
  {
    var g1 := LinkEdge(g, p, c);
    if Aborted(g1, p) && !Aborted(g1, c) {
      var g2 := SetCascading(g1, c);
      assert SameLinks(g1, g2);
      ExtendsLinks(g2, LinkF(g, p, c));
    }
  }

  /** h is g with the edge p -> c recorded on both sides. */
  ghost predicate EdgeAdded(g: Graph, h: Graph, p: Id, c: Id)
    requires WF(g) && WF(h)
  {
    && h.ids == g.ids
    && forall x | x in g.ids ::
         && At(h, x).parentId == (if x == c then Some(p) else At(g, x).parentId)
         && At(h, x).children == (if x == p then Add(At(g, x).children, c) else At(g, x).children)
  }

  lemma EdgeMutualAt(g: Graph, h: Graph, p: Id, c: Id, x: Id, y: Id)
    requires WF(g) && WF(h) && Mutual(g) && EdgeAdded(g, h, p, c) && p in g.ids && c in g.ids
    requires At(g, c).parentId == None && x in g.ids && y in At(h, x).children
    ensures y in g.ids && At(h, y).parentId == Some(x)
  {
    assert y in At(g, x).children ==> y in g.ids && At(g, y).parentId == Some(x);
    assert y in At(g, x).children || (x == p && y == c);
  }

  lemma EdgeMutual(g: Graph, h: Graph, p: Id, c: Id)
    requires WF(g) && WF(h) && Mutual(g) && EdgeAdded(g, h, p, c) && p in g.ids && c in g.ids
    requires At(g, c).parentId == None
    ensures Mutual(h)
  {
    forall x, y | x in h.ids && y in At(h, x).children ensures y in h.ids && At(h, y).parentId == Some(x) {
      EdgeMutualAt(g, h, p, c, x, y);
    }
  }

  lemma EdgeForest(g: Graph, h: Graph, p: Id, c: Id)
    requires WF(g) && WF(h) && Forest(g) && EdgeAdded(g, h, p, c) && p in g.ids && c in g.ids
    requires At(g, c).parentId == None && p != c && !Descendant(g, c, p)
    ensures Forest(h)
  {
    EdgeMutual(g, h, p, c);
    forall x, y | x in h.ids && y in h.ids && y in At(h, x).children
      ensures y in At(g, x).children || (x == p && y == c)
    {
    }
    NewEdgeAcyclic(g, h, p, c);
  }

  /** When a link may be recorded: the child is parentless, or hangs on this parent already, and the parent is not
      the child or below it. */
  ghost predicate Linkable(g: Graph, p: Id, c: Id)
    requires WF(g) && p in g.ids && c in g.ids
  {
    At(g, c).parentId in {None, Some(p)} && p != c && !Descendant(g, c, p)
  }

  lemma EdgeForestSuffices(g: Graph, h: Graph, p: Id, c: Id)
    requires WF(g) && WF(h) && Structured(g) && Forest(g) && EdgeAdded(g, h, p, c) && p in g.ids && c in g.ids
    requires Linkable(g, p, c)
    ensures Forest(h)
  {
    if At(g, c).parentId == None {
      EdgeForest(g, h, p, c);
    } else {
      assert SameLinks(g, h);
      SameLinksForest(g, h);
    }
  }

  lemma DescendantKept(g: Graph, h: Graph, x: Id, y: Id)
    requires WF(g) && WF(h) && h.ids == g.ids && Descendant(g, x, y)
    requires forall z | z in g.ids :: forall w | w in At(g, z).children :: w in At(h, z).children
    ensures Descendant(h, x, y)
  {
    var p :| Walk(g, p) && |p| >= 2 && p[0] == x && p[|p| - 1] == y;
    assert Walk(h, p);
  }

  lemma EdgeForestNeeds(g: Graph, h: Graph, p: Id, c: Id)
    requires WF(g) && WF(h) && Structured(g) && EdgeAdded(g, h, p, c) && p in g.ids && c in g.ids && Forest(h)
    ensures Linkable(g, p, c)
  {
    ChildIsDescendant(h, p, c);
    if Descendant(g, c, p) {
      DescendantKept(g, h, c, p);
      DescendantStep(h, c, p, c);
    }
    if At(g, c).parentId.Some? {
      var q := At(g, c).parentId.value;
      assert c in At(h, q).children;
    }
  }

  /** Linking keeps the forest exactly when the child is parentless or already hangs on this parent, and the parent
      is neither the child nor below it. */
  lemma LinkForest(g: Graph, p: Id, c: Id)
    requires Sound(g) && Forest(g) && p in g.ids && c in g.ids
    ensures Forest(LinkF(g, p, c)) <==> Linkable(g, p, c)
  {
    var g1, h := LinkEdge(g, p, c), LinkF(g, p, c);
    assert EdgeAdded(g, g1, p, c) by { EdgeKeeps(g, p, c); }
    LinkLinks(g, p, c);
    if Linkable(g, p, c) {
      EdgeForestSuffices(g, g1, p, c);
      SameLinksForest(g1, h);
    }
    if Forest(h) {
      SameLinksForest(h, g1);
      EdgeForestNeeds(g, g1, p, c);
    }
  }

  lemma NewNodeEdge(g: Graph, h: Graph, id: Id, x: Id, y: Id)
    requires WF(g) && WF(h) && Mutual(g) && id !in g.ids && h.ids.Keys == g.ids.Keys + {id}
    requires At(h, id).children == [] && forall x | x in g.ids :: At(h, x) == At(g, x)
    requires x in h.ids && y in At(h, x).children
    ensures x in g.ids && y in g.ids && y in At(g, x).children && At(h, y).parentId == Some(x)
  {
    assert x != id && At(h, x) == At(g, x);
    assert At(g, y).parentId == Some(x);
  }

  /** A new node has no links, so links and child sets are those of the other nodes. */
  lemma NewNodeForest(g: Graph, h: Graph, id: Id)
    requires WF(g) && WF(h) && Forest(g) && id !in g.ids && h.ids.Keys == g.ids.Keys + {id}
    requires At(h, id).children == [] && forall x | x in g.ids :: At(h, x) == At(g, x)
    ensures Forest(h)
  {
    forall x, y | x in h.ids && y in At(h, x).children
      ensures x in g.ids && y in g.ids && y in At(g, x).children && At(h, y).parentId == Some(x)
    {
      NewNodeEdge(g, h, id, x, y);
    }
    assert EdgesOf(h, g) && Mutual(h);
    AcyclicIn(h, g);
  }

  lemma RegisterForest(g: Graph, id: Id, c: AbortController, s: Signal, r: GraphNode)
    requires Sound(g) && Forest(g)
    requires id !in g.ids ==> Current(g, c, s) && Usable(g, id, c, s, r) && r !in g.recs
    ensures WF(RegisterF(g, id, c, s, r)) && Forest(RegisterF(g, id, c, s, r))
  {
    if id !in g.ids {
      RegisterNodes(g, id, c, s, r);
      NewNodeForest(g, RegisterF(g, id, c, s, r), id);
    }
  }

  /** h is g without id: its recorded children are orphans, and its own parent edge is cut unless that id is empty. */
  ghost predicate DisposedBy(g: Graph, h: Graph, id: Id)
    requires WF(g) && WF(h) && id in g.ids
  {
    && (forall x :: x in h.ids <==> x in g.ids && x != id)
    && (forall x | x in h.ids ::
          At(h, x).parentId == if x in At(g, id).children then None else At(g, x).parentId)
    && (forall x, y | x in h.ids :: y in At(h, x).children <==>
          y in At(g, x).children && !(y == id && At(g, id).parentId == Some(x) && x != ""))
  }

  lemma DisposeDisposes(g: Graph, id: Id)
    requires Sound(g) && id in g.ids
    ensures DisposedBy(g, DisposeF(g, id), id)
  {
    DisposeNodes(g, id);
  }

  lemma DisposedMutual(g: Graph, h: Graph, id: Id)
    requires WF(g) && WF(h) && id in g.ids && DisposedBy(g, h, id) && Mutual(g)
    requires At(g, id).parentId != Some("")
    ensures Mutual(h)
  {
    forall p, c | p in h.ids && c in At(h, p).children ensures c in h.ids && At(h, c).parentId == Some(p) {
      assert At(g, c).parentId == Some(p);
      assert c !in At(g, id).children;
    }
  }

  lemma DisposedNotMutual(g: Graph, h: Graph, id: Id)
    requires WF(g) && WF(h) && id in g.ids && DisposedBy(g, h, id) && Structured(g)
    requires id != "" && At(g, id).parentId == Some("")
    ensures !Mutual(h)
  {
    assert "" in h.ids && id in At(h, "").children && id !in h.ids;
  }

  /** Dispose keeps the forest exactly when the node's parent id is not the empty string: that edge is never cut. */
  lemma DisposeForest(g: Graph, id: Id)
    requires Sound(g) && Forest(g) && id in g.ids
    ensures Forest(DisposeF(g, id)) <==> At(g, id).parentId != Some("")
  {
    var h := DisposeF(g, id);
    DisposeDisposes(g, id);
    if At(g, id).parentId == Some("") {
      if id == "" {
        ChildIsDescendant(g, id, id);
      }
      DisposedNotMutual(g, h, id);
    } else {
      DisposedMutual(g, h, id);
      AcyclicIn(h, g);
    }
  }

  // ----- one Notify closure per link

  lemma ExtendsOnce(g: Graph, h: Graph)
    requires WF(g) && WF(h) && Extends(g, h) && LinkedOnce(g)
    ensures LinkedOnce(h)
  {
    forall x | x in h.ids && !Aborted(h, x) && At(h, x).parentId.Some?
      ensures multiset(SignalOf(h, x).listeners)[Notify(At(h, x).parentId.value, x)] == 1
    {
      ExtendsAt(g, h, x);
    }
  }

  lemma MarksOnce(g: Graph, h: Graph, ds: seq<Id>)
    requires WF(g) && WF(h) && MarkedBy(g, h, ds) && LinkedOnce(g)
    ensures LinkedOnce(h)
  {
    forall x | x in h.ids && !Aborted(h, x) && At(h, x).parentId.Some?
      ensures multiset(SignalOf(h, x).listeners)[Notify(At(h, x).parentId.value, x)] == 1
    {
      assert SignalOf(h, x) == SignalOf(g, x);
    }
  }

  lemma AbortOnce(g: Graph, id: Id, arg: Option<Reason>)
    requires Sound(g) && LinkedOnce(g)
    ensures LinkedOnce(AbortF(g, id, arg))
  {
    if id in g.ids && !Aborted(g, id) {
      var g1 := MarkAll(g, id, arg);
      var ds := MarkPhase(g, id, arg);
      MarksOnce(g, g1, ds);
      ExtendsOnce(g1, AbortF(g, id, arg));
    }
  }

  lemma CountAppended(ls: seq<Listener>, l: Listener, n: Listener)
    ensures multiset(ls + [l])[n] == multiset(ls)[n] + (if l == n then 1 else 0)
  {
    assert multiset(ls + [l]) == multiset(ls) + multiset([l]);
  }

  /** Once only x's own link can have changed: its Notify count is one if it is live and linked. */
  ghost predicate OnceAt(g: Graph, x: Id)
    requires WF(g) && x in g.ids
  {
    !Aborted(g, x) && At(g, x).parentId.Some? ==>
      multiset(SignalOf(g, x).listeners)[Notify(At(g, x).parentId.value, x)] == 1
  }

  lemma LinkOnce(g: Graph, p: Id, c: Id)
    requires Sound(g) && LinkedOnce(g) && p in g.ids && c in g.ids && p != c
    requires Notify(p, c) !in SignalOf(g, c).listeners
    ensures LinkedOnce(LinkF(g, p, c))
  {
    var g1, h := LinkEdge(g, p, c), LinkF(g, p, c);
    assert Owned(g1) && At(g1, c).parentId == Some(p) && forall x | x in g.ids && x != c :: OnceAt(g1, x) by {
      EdgeOnce(g, p, c);
    }
    forall x | x in h.ids ensures OnceAt(h, x) {
      LinkCount(g1, p, c, x);
    }
  }

  lemma EdgeOnce(g: Graph, p: Id, c: Id)
    requires Sound(g) && LinkedOnce(g) && p in g.ids && c in g.ids
    ensures var g1 := LinkEdge(g, p, c);
      && Owned(g1) && At(g1, c).parentId == Some(p) && SignalOf(g1, c) == SignalOf(g, c)
      && forall x | x in g.ids && x != c :: OnceAt(g1, x)
  {
    EdgeKeeps(g, p, c);
    assert forall x | x in g.ids && x != c :: OnceAt(g, x);
  }

  lemma LinkCount(g: Graph, p: Id, c: Id, x: Id)
    requires WF(g) && Owned(g) && p in g.ids && c in g.ids && p != c && x in g.ids
    requires At(g, c).parentId == Some(p) && (x != c ==> OnceAt(g, x))
    requires Notify(p, c) !in SignalOf(g, c).listeners
    ensures var h :=
        if !Aborted(g, p) then
          Listen(Listen(g, At(g, p).controller, Cascade(g.ids[p], p, c)), At(g, c).controller, Notify(p, c))
        else if Aborted(g, c) then g
        else Fire(SetCascading(g, c), At(g, c).controller, SignalOf(g, p).reason);
      WF(h) && x in h.ids && OnceAt(h, x)
  {
    if !Aborted(g, p) {
      LiveLinkCount(g, p, c, x);
    } else if !Aborted(g, c) {
      var g2 := SetCascading(g, c);
      assert At(g2, x).(cascading := false) == At(g, x).(cascading := false);
      var h := Fire(g2, At(g, c).controller, SignalOf(g, p).reason);
      ExtendsAt(g2, h, x);
      ExtendsAt(g2, h, c);
    }
  }

  lemma LiveLinkCount(g: Graph, p: Id, c: Id, x: Id)
    requires WF(g) && Owned(g) && p in g.ids && c in g.ids && p != c && x in g.ids
    requires At(g, c).parentId == Some(p) && (x != c ==> OnceAt(g, x))
    requires Notify(p, c) !in SignalOf(g, c).listeners
    ensures var h := Listen(Listen(g, At(g, p).controller, Cascade(g.ids[p], p, c)), At(g, c).controller, Notify(p, c));
      WF(h) && OnceAt(h, x)
  {
    LiveLinkSignals(g, p, c, x);
    if At(g, x).parentId.Some? {
      var n := Notify(At(g, x).parentId.value, x);
      CountAppended(SignalOf(g, x).listeners, Cascade(g.ids[p], p, c), n);
      CountAppended(SignalOf(g, x).listeners, Notify(p, c), n);
    }
  }

  lemma LiveLinkSignals(g: Graph, p: Id, c: Id, x: Id)
    requires WF(g) && Owned(g) && p in g.ids && c in g.ids && p != c && x in g.ids
    ensures var h := Listen(Listen(g, At(g, p).controller, Cascade(g.ids[p], p, c)), At(g, c).controller, Notify(p, c));
      WF(h) && SignalOf(h, x) == SignalOf(g, x).(listeners := SignalOf(g, x).listeners +
        (if x == p then [Cascade(g.ids[p], p, c)] else if x == c then [Notify(p, c)] else []))
  {
    var h := Listen(Listen(g, At(g, p).controller, Cascade(g.ids[p], p, c)), At(g, c).controller, Notify(p, c));
    assert x != p ==> At(g, x).controller != At(g, p).controller;
    assert x != c ==> At(g, x).controller != At(g, c).controller;
  }

  lemma DisposeOnce(g: Graph, id: Id)
    requires Sound(g) && LinkedOnce(g) && id in g.ids
    ensures LinkedOnce(DisposeF(g, id))
  {
    DisposeNodes(g, id);
  }

  // ----- disciplined runs

  /** A child is linked only while parentless, never twice to the same parent id, never into its own subtree;
      a linked node is rearmed only with a dead controller; the empty id is not used as a parent. */
  ghost predicate Tidy(g: Graph, op: Op)
    requires WF(g)
  {
    match op
    case Link(p, c) =>
      p in g.ids && c in g.ids ==>
        && p != "" && p != c && At(g, c).parentId == None
        && !Descendant(g, c, p) && Notify(p, c) !in SignalOf(g, c).listeners
    case Rearm(id, _, s) => id in g.ids ==> At(g, id).parentId == None || s.reason.Some?
    case _ => true
  }

  ghost predicate Neat(g: Graph)
    requires WF(g)
  {
    Forest(g) && LinkedOnce(g) && forall x | x in g.ids :: At(g, x).parentId != Some("")
  }

  lemma RelistNeat(g: Graph, r: GraphNode, ts: seq<Token>)
    requires Sound(g) && Neat(g) && r in g.recs
    ensures var h := SetNode(g, r, g.recs[r].(listeners := ts)); WF(h) && Neat(h)
  {
    var h := SetNode(g, r, g.recs[r].(listeners := ts));
    RelistSound(g, r, ts);
    forall x | x in g.ids
      ensures At(h, x).parentId == At(g, x).parentId && At(h, x).children == At(g, x).children
      ensures SignalOf(h, x) == SignalOf(g, x)
    {
      assert At(h, x).(listeners := []) == At(g, x).(listeners := []);
    }
    SameLinksForest(g, h);
  }

  lemma RearmNeat(g: Graph, id: Id, c: AbortController, s: Signal)
    requires Sound(g) && Neat(g) && id in g.ids
    requires Current(g, c, s) && Usable(g, id, c, s, g.ids[id]) && (At(g, id).parentId == None || s.reason.Some?)
    ensures WF(RearmF(g, id, c, s)) && Neat(RearmF(g, id, c, s))
  {
    RearmKeepsRest(g, id, c, s);
    SameLinksForest(g, RearmF(g, id, c, s));
  }

  lemma LinkNeat(g: Graph, p: Id, c: Id)
    requires Sound(g) && Neat(g) && p in g.ids && c in g.ids && Tidy(g, Link(p, c))
    ensures Neat(LinkF(g, p, c))
  {
    LinkForest(g, p, c);
    LinkOnce(g, p, c);
    LinkLinks(g, p, c);
    EdgeKeeps(g, p, c);
  }

  lemma DisposeNeat(g: Graph, id: Id)
    requires Sound(g) && Neat(g) && id in g.ids
    ensures Neat(DisposeF(g, id))
  {
    DisposeForest(g, id);
    DisposeOnce(g, id);
    DisposeNodes(g, id);
  }

  lemma ApplyNeat(g: Graph, op: Op)
    requires Sound(g) && Neat(g) && Allowed(g, op) && Tidy(g, op)
    ensures WF(Apply(g, op)) && Neat(Apply(g, op))
  {
    match op
    case Register(id, c, s, r) =>
      RegisterForest(g, id, c, s, r);
      if id !in g.ids { RegisterNodes(g, id, c, s, r); }
    case Rearm(id, c, s) => if id in g.ids { RearmNeat(g, id, c, s); }
    case Link(p, c) => if p in g.ids && c in g.ids { LinkNeat(g, p, c); }
    case Subscribe(id, t) =>
      if id in g.ids { RelistNeat(g, g.ids[id], SubscribeF(g, id, t).recs[g.ids[id]].listeners); }
    case Unsubscribe(r, t) => RelistNeat(g, r, Remove(g.recs[r].listeners, t));
    case Abort(id, arg) =>
      AbortLinks(g, id, arg);
      SameLinksForest(g, AbortF(g, id, arg));
      AbortOnce(g, id, arg);
    case Direct(c, arg) =>
      ExtendsLinks(g, Fire(g, c, arg));
      SameLinksForest(g, Fire(g, c, arg));
      ExtendsOnce(g, Fire(g, c, arg));
    case Dispose(id) => if id in g.ids { DisposeNeat(g, id); }
  }

  /** After any tidy run child sets and recorded parents agree in both directions, links form a forest, and
      every live linked node is announced through exactly one closure. */
  lemma {:induction false} RunNeat(states: seq<Graph>, ops: seq<Op>, n: nat)
    requires IsRun(states, ops) && n <= |ops|
    requires forall i | 0 <= i < |ops| :: WF(states[i]) && Tidy(states[i], ops[i])
    ensures Sound(states[n]) && Neat(states[n])
    decreases n
  {
    RunSound(states, ops, n);
    if n > 0 {
      RunNeat(states, ops, n - 1);
      ApplyNeat(states[n - 1], ops[n - 1]);
    }
  }

  /** In a neat graph, aborting a live node through the graph calls each listener of its (live) parent exactly
      once, with the node's own reason, and calls nobody else. */
  lemma AbortNotifiesOnce(g: Graph, id: Id, arg: Option<Reason>)
    requires Sound(g) && Neat(g) && id in g.ids && !Aborted(g, id)
    ensures var rho := Some(Resolve(arg, At(g, id).controller));
      match At(g, id).parentId
      case None => AbortF(g, id, arg).notified == g.notified
      case Some(p) => p in g.ids && !Aborted(g, p) &&
                      AbortF(g, id, arg).notified == g.notified + Calls(At(g, p).listeners, p, id, rho)
  {
    AbortAnnounces(g, id, arg);
    OwedOnce(g, id, Resolve(arg, At(g, id).controller));
  }

  /** ... and so does aborting its controller directly. */
  lemma {:induction false} DirectNotifiesOnce(g: Graph, id: Id, arg: Option<Reason>)
    requires Sound(g) && Neat(g) && id in g.ids && !Aborted(g, id)
    ensures var c := At(g, id).controller; var rho := Some(Resolve(arg, c));
      match At(g, id).parentId
      case None => Fire(g, c, arg).notified == g.notified
      case Some(p) => p in g.ids && !Aborted(g, p) &&
                      Fire(g, c, arg).notified == g.notified + Calls(At(g, p).listeners, p, id, rho)
  {
    FireOwes(g, id, arg);
    OwedOnce(g, id, Resolve(arg, At(g, id).controller));
  }

  lemma OwedOnce(g: Graph, id: Id, rho: Reason)
    requires Sound(g) && Neat(g) && id in g.ids && !Aborted(g, id)
    ensures var owed := Owed(g, id, SignalOf(g, id).listeners, rho);
      match At(g, id).parentId
      case None => owed == []
      case Some(p) => p in g.ids && !Aborted(g, p) && owed == Calls(At(g, p).listeners, p, id, Some(rho))
  {
    assert Tied(g, id);
    match At(g, id).parentId
    case None =>
    case Some(p) =>
      var s := Calls(At(g, p).listeners, p, id, Some(rho));
      assert Repeat(1, s) == s + Repeat(0, s) == s;
  }
}
