/** Runs from the empty graph that reach the places where the code does less than one would expect. */
module AbortWitness {
  import opened Wrappers
  import opened AbortModel
  import opened AbortCascade
  import opened AbortReach
  import opened AbortTheorems
  import opened AbortRuns
  import opened AbortReasons

  const LIVE := Signal(None, [])

  /** Every operation is allowed where it stands. */
  ghost predicate Legal(ops: seq<Op>)
    decreases |ops|, 1
  {
    ops == [] ||
    (Legal(ops[..|ops| - 1]) && WF(Outcome(ops[..|ops| - 1])) && Allowed(Outcome(ops[..|ops| - 1]), ops[|ops| - 1]))
  }

  ghost function Outcome(ops: seq<Op>): Graph
    requires Legal(ops)
    decreases |ops|, 2
  {
    if ops == [] then EMPTY else Apply(Outcome(ops[..|ops| - 1]), ops[|ops| - 1])
  }

  /** g is what the run under ops from the empty graph ends in. */
  ghost predicate Reached(ops: seq<Op>, g: Graph) {
    Legal(ops) && Outcome(ops) == g
  }

  lemma ReachStep(ops: seq<Op>, g: Graph, op: Op, h: Graph)
    requires Reached(ops, g) && WF(g) && Allowed(g, op) && h == Apply(g, op)
    ensures Reached(ops + [op], h)
  {
    assert (ops + [op])[..|ops|] == ops;
  }

  lemma {:induction false} ReachedIsRun(ops: seq<Op>, g: Graph) returns (states: seq<Graph>)
    requires Reached(ops, g)
    ensures IsRun(states, ops) && states[|ops|] == g
    decreases |ops|
  {
    if ops == [] {
      states := [EMPTY];
    } else {
      var front, op := ops[..|ops| - 1], ops[|ops| - 1];
      var before := ReachedIsRun(front, Outcome(front));
      states := before + [g];
      forall i | 0 <= i < |ops|
        ensures WF(states[i]) && Allowed(states[i], ops[i]) && states[i + 1] == Apply(states[i], ops[i])
      {
        assert i < |front| ==> ops[i] == front[i] && states[i] == before[i] && states[i + 1] == before[i + 1];
      }
    }
  }

  lemma ReachedSound(ops: seq<Op>, g: Graph)
    requires Reached(ops, g)
    ensures Sound(g)
  {
    var states := ReachedIsRun(ops, g);
    RunSound(states, ops, |ops|);
  }

  // ----- single steps

  ghost function Registered(g: Graph, id: Id, c: AbortController, r: GraphNode): Graph {
    g.(ids := g.ids[id := r], recs := g.recs[r := Node(c, [], None, [], false)], sigs := g.sigs[c := LIVE])
  }

  /** A live controller nobody uses, under a new id. */
  lemma ReachRegister(ops: seq<Op>, g: Graph, id: Id, c: AbortController, r: GraphNode)
    requires Reached(ops, g) && id !in g.ids && c !in g.sigs && r !in g.recs
    ensures Reached(ops + [Register(id, c, LIVE, r)], Registered(g, id, c, r))
  {
    ReachedSound(ops, g);
    assert Usable(g, id, c, LIVE, r);
    ReachStep(ops, g, Register(id, c, LIVE, r), Registered(g, id, c, r));
  }

  /** What linking two different nodes under a live parent does to records and signals. */
  ghost function LinkedLive(g: Graph, p: Id, c: Id, rp: GraphNode, rc: GraphNode, cp: AbortController,
          cc: AbortController): Graph
    requires rp in g.recs && rc in g.recs && cp in g.sigs && cc in g.sigs
  {
    g.(recs := g.recs[rc := g.recs[rc].(parentId := Some(p))]
                     [rp := g.recs[rp].(children := Add(g.recs[rp].children, c))],
       sigs := g.sigs[cp := g.sigs[cp].(listeners := g.sigs[cp].listeners + [Cascade(rp, p, c)])]
                     [cc := g.sigs[cc].(listeners := g.sigs[cc].listeners + [Notify(p, c)])])
  }

  lemma LinkIsLive(g: Graph, p: Id, c: Id, rp: GraphNode, rc: GraphNode, cp: AbortController, cc: AbortController)
    requires WF(g) && p in g.ids && c in g.ids && g.ids[p] == rp && g.ids[c] == rc && rp != rc
    requires g.recs[rp].controller == cp && g.recs[rc].controller == cc && cp != cc && g.sigs[cp].reason.None?
    ensures LinkF(g, p, c) == LinkedLive(g, p, c, rp, rc, cp, cc)
  {
  }

  lemma ReachLink(ops: seq<Op>, g: Graph, p: Id, c: Id, rp: GraphNode, rc: GraphNode, cp: AbortController,
          cc: AbortController)
    requires Reached(ops, g) && p in g.ids && c in g.ids && g.ids[p] == rp && g.ids[c] == rc && rp != rc
    requires rp in g.recs && rc in g.recs && g.recs[rp].controller == cp && g.recs[rc].controller == cc && cp != cc
    requires cp in g.sigs && cc in g.sigs && g.sigs[cp].reason.None?
    ensures Reached(ops + [Link(p, c)], LinkedLive(g, p, c, rp, rc, cp, cc))
  {
    ReachedSound(ops, g);
    LinkIsLive(g, p, c, rp, rc, cp, cc);
    ReachStep(ops, g, Link(p, c), LinkedLive(g, p, c, rp, rc, cp, cc));
  }

  // ----- parent and child

  function PairOps(p: Id, x: Id, c: AbortController, d: AbortController, rp: GraphNode, rx: GraphNode): seq<Op> {
    [] + [Register(p, c, LIVE, rp)] + [Register(x, d, LIVE, rx)] + [Link(p, x)]
  }

  ghost predicate PairShape(g: Graph, p: Id, x: Id, c: AbortController, d: AbortController, rp: GraphNode,
          rx: GraphNode) {
    && g.ids.Keys == {p, x} && g.recs.Keys == {rp, rx} && g.sigs.Keys == {c, d}
    && g.ids[p] == rp && g.ids[x] == rx
    && g.recs[rp] == Node(c, [x], None, [], false) && g.recs[rx] == Node(d, [], Some(p), [], false)
    && g.sigs[c] == Signal(None, [Cascade(rp, p, x)]) && g.sigs[d] == Signal(None, [Notify(p, x)])
  }

  lemma PairReached(p: Id, x: Id, c: AbortController, d: AbortController, rp: GraphNode, rx: GraphNode)
    returns (g: Graph)
    requires p != x && c != d && rp != rx
    ensures Reached(PairOps(p, x, c, d, rp, rx), g) && PairShape(g, p, x, c, d, rp, rx)
  {
    ReachRegister([], EMPTY, p, c, rp);
    var g1 := Registered(EMPTY, p, c, rp);
    var ops1 := [] + [Register(p, c, LIVE, rp)];
    ReachRegister(ops1, g1, x, d, rx);
    var g2 := Registered(g1, x, d, rx);
    ReachLink(ops1 + [Register(x, d, LIVE, rx)], g2, p, x, rp, rx, c, d);
    g := LinkedLive(g2, p, x, rp, rx, c, d);
    PairIs(p, x, c, d, rp, rx);
  }

  lemma PairIs(p: Id, x: Id, c: AbortController, d: AbortController, rp: GraphNode, rx: GraphNode)
    requires p != x && c != d && rp != rx
    ensures var g := Registered(Registered(EMPTY, p, c, rp), x, d, rx);
      PairShape(LinkedLive(g, p, x, rp, rx, c, d), p, x, c, d, rp, rx)
  {
    assert [] + [Cascade(rp, p, x)] == [Cascade(rp, p, x)] && [] + [Notify(p, x)] == [Notify(p, x)];
    assert Add([], x) == [x];
  }

  // ----- a child's own abort, and its parent's later one

  lemma OwnAbort(g: Graph, p: Id, x: Id, c: AbortController, d: AbortController, rp: GraphNode, rx: GraphNode)
    requires p != x && c != d && rp != rx && PairShape(g, p, x, c, d, rp, rx) && Sound(g)
    ensures var h := AbortF(g, x, None);
      Sound(h) && h.ids == g.ids && Aborted(h, x) && !At(h, x).cascading && !Aborted(h, p) && At(h, p).children == [x]
  {
    AbortSound(g, x, None);
    NoDescendants(g, x);
    AbortExact(g, x, None, x);
    AbortExact(g, x, None, p);
  }

  lemma NoDescendants(g: Graph, x: Id)
    requires WF(g) && x in g.ids && At(g, x).children == []
    ensures forall y :: !Descendant(g, x, y)
  {
    forall p | Walk(g, p) && |p| >= 2 ensures p[0] != x {
      assert p[0 + 1] in At(g, p[0]).children;
    }
  }

  /** A child that aborts itself is not cascading; once its parent aborts later, it is. */
  lemma OwnAbortBecomesCascading(c: AbortController, d: AbortController, rp: GraphNode, rx: GraphNode)
    returns (g: Graph, h: Graph)
    requires c != d && rp != rx
    ensures Reached(PairOps("p", "x", c, d, rp, rx) + [Abort("x", None)], g)
    ensures Reached(PairOps("p", "x", c, d, rp, rx) + [Abort("x", None)] + [Abort("p", None)], h)
    ensures WF(g) && "x" in g.ids && Aborted(g, "x") && !At(g, "x").cascading
    ensures WF(h) && "x" in h.ids && At(h, "x").cascading
  {
    var ops := PairOps("p", "x", c, d, rp, rx);
    var before := PairReached("p", "x", c, d, rp, rx);
    ReachedSound(ops, before);
    g := AbortF(before, "x", None);
    OwnAbort(before, "p", "x", c, d, rp, rx);
    ReachStep(ops, before, Abort("x", None), g);
    h := AbortF(g, "p", None);
    ReachStep(ops + [Abort("x", None)], g, Abort("p", None), h);
    ChildIsDescendant(g, "p", "x");
    AbortExact(g, "p", None, "x");
  }

  // ----- the empty parent id

  /** A child disposed under a parent whose id is the empty string stays in that parent's child set. */
  lemma EmptyParentKeepsEdge(c: AbortController, d: AbortController, rp: GraphNode, rx: GraphNode) returns (h: Graph)
    requires c != d && rp != rx
    ensures Reached(PairOps("", "x", c, d, rp, rx) + [Dispose("x")], h)
    ensures WF(h) && "" in h.ids && "x" !in h.ids && "x" in At(h, "").children
  {
    var ops := PairOps("", "x", c, d, rp, rx);
    var g := PairReached("", "x", c, d, rp, rx);
    ReachedSound(ops, g);
    h := DisposeF(g, "x");
    ReachStep(ops, g, Dispose("x"), h);
    DisposeNodes(g, "x");
  }

  // ----- two parents, two reasons

  function TwoParentOps(a: AbortController, b: AbortController, x: AbortController, ra: GraphNode, rb: GraphNode,
          rx: GraphNode): seq<Op> {
    PairOps("a", "x", a, x, ra, rx) + [Register("b", b, LIVE, rb)] + [Link("b", "x")]
  }

  ghost predicate TwoParentShape(g: Graph, a: AbortController, b: AbortController, x: AbortController, ra: GraphNode,
          rb: GraphNode, rx: GraphNode) {
    && g.ids.Keys == {"a", "x", "b"} && g.ids["a"] == ra && g.ids["x"] == rx && g.ids["b"] == rb
    && {ra, rb, rx} <= g.recs.Keys && {a, b, x} <= g.sigs.Keys
    && g.recs[ra] == Node(a, ["x"], None, [], false)
    && g.recs[rb].controller == b && g.recs[rb].parentId == None
    && g.recs[rx].controller == x && g.recs[rx].parentId == Some("b") && g.recs[rx].children == []
    && g.sigs[a].reason == None && g.sigs[x].reason == None
  }

  lemma SecondParentIs(g: Graph, a: AbortController, b: AbortController, x: AbortController, ra: GraphNode,
          rb: GraphNode, rx: GraphNode)
    requires a != b && b != x && a != x && ra != rb && rb != rx && ra != rx
    requires PairShape(g, "a", "x", a, x, ra, rx)
    ensures TwoParentShape(LinkedLive(Registered(g, "b", b, rb), "b", "x", rb, rx, b, x), a, b, x, ra, rb, rx)
  {
  }

  lemma TwoParentsReached(a: AbortController, b: AbortController, x: AbortController, ra: GraphNode, rb: GraphNode,
          rx: GraphNode)
    returns (g: Graph)
    requires a != b && b != x && a != x && ra != rb && rb != rx && ra != rx
    ensures Reached(TwoParentOps(a, b, x, ra, rb, rx), g) && TwoParentShape(g, a, b, x, ra, rb, rx)
  {
    var ops := PairOps("a", "x", a, x, ra, rx);
    var g3 := PairReached("a", "x", a, x, ra, rx);
    g := SecondParent(ops, g3, a, b, x, ra, rb, rx);
  }

  lemma SecondParent(ops: seq<Op>, g3: Graph, a: AbortController, b: AbortController, x: AbortController,
          ra: GraphNode, rb: GraphNode, rx: GraphNode)
    returns (g: Graph)
    requires a != b && b != x && a != x && ra != rb && rb != rx && ra != rx
    requires Reached(ops, g3) && PairShape(g3, "a", "x", a, x, ra, rx)
    ensures Reached(ops + [Register("b", b, LIVE, rb)] + [Link("b", "x")], g) && TwoParentShape(g, a, b, x, ra, rb, rx)
  {
    ReachRegister(ops, g3, "b", b, rb);
    var g4 := Registered(g3, "b", b, rb);
    ReachLink(ops + [Register("b", b, LIVE, rb)], g4, "b", "x", rb, rx, b, x);
    g := LinkedLive(g4, "b", "x", rb, rx, b, x);
    SecondParentIs(g3, a, b, x, ra, rb, rx);
  }

  lemma LastLinks(g: Graph, p: seq<Id>)
    requires WF(g) && LinkWalk(g, p) && |p| >= 2
    ensures At(g, p[|p| - 1]).parentId == Some(p[|p| - 2])
    ensures |p| >= 3 ==> At(g, p[|p| - 2]).parentId.Some?
  {
    assert At(g, p[|p| - 2 + 1]).parentId == Some(p[|p| - 2]);
    assert |p| >= 3 ==> At(g, p[|p| - 3 + 1]).parentId == Some(p[|p| - 3]);
  }

  lemma NotAnHeir(g: Graph, a: Id, b: Id, x: Id)
    requires WF(g) && x in g.ids && b in g.ids && a != b && At(g, x).parentId == Some(b) && At(g, b).parentId == None
    ensures !Heir(g, a, x)
  {
    forall p | LinkWalk(g, p) && |p| >= 2 && p[|p| - 1] == x ensures p[0] != a {
      LastLinks(g, p);
    }
  }

  /** The search below the first parent lists the child alone, and nothing in front of it takes the child along. */
  lemma {:induction false} ChildTakesItself(g: Graph)
    requires WF(g) && "a" in g.ids && "x" in g.ids && At(g, "a").children == ["x"] && At(g, "x").children == []
    requires !Heir(g, "a", "x")
    ensures var order := ["a"] + Bfs(g, At(g, "a").children, {}); "x" in order && Taker(g, order, "x") == "x"
  {
    assert ["x"][1..] + [] == [];
    assert Bfs(g, [], {"x"}) == [];
    assert Bfs(g, ["x"], {}) == ["x"] + Bfs(g, ["x"][1..] + [], {} + {"x"});
    var order := ["a"] + ["x"];
    assert order[1..] == ["x"];
    assert Taker(g, ["x"], "x") == "x";
  }

  /** A child linked under two parents hangs on the second by its recorded link. Aborting the first without a reason
      still reaches it, but with an AbortError of its own. */
  lemma TwoParentsTwoReasons(a: AbortController, b: AbortController, x: AbortController, ra: GraphNode, rb: GraphNode,
                             rx: GraphNode)
    returns (h: Graph)
    requires a != b && b != x && a != x && ra != rb && rb != rx && ra != rx
    ensures Reached(TwoParentOps(a, b, x, ra, rb, rx) + [Abort("a", None)], h)
    ensures WF(h) && "a" in h.ids && "x" in h.ids
    ensures SignalOf(h, "a").reason == Some(AbortError(a)) && SignalOf(h, "x").reason == Some(AbortError(x))
  {
    var ops := TwoParentOps(a, b, x, ra, rb, rx);
    var g := TwoParentsReached(a, b, x, ra, rb, rx);
    ReachedSound(ops, g);
    h := AbortF(g, "a", None);
    ReachStep(ops, g, Abort("a", None), h);
    NotAnHeir(g, "a", "b", "x");
    ChildTakesItself(g);
    ChildIsDescendant(g, "a", "x");
    WhoseError(g, "a", "x");
    AbortExact(g, "a", None, "a");
  }

  // ----- a controller that outlived its node

  function RelinkOps(c: AbortController, d: AbortController, e: AbortController, rp: GraphNode, rx: GraphNode,
          rq: GraphNode): seq<Op> {
    PairOps("p", "x", c, d, rp, rx) + [Dispose("p")] + [Register("p", e, LIVE, rq)] + [Link("p", "x")]
  }

  /** The old record and controller are still there, with the closure for the child. */
  ghost predicate StaleShape(g: Graph, c: AbortController, d: AbortController, e: AbortController, rp: GraphNode,
          rx: GraphNode, rq: GraphNode) {
    && g.ids.Keys == {"p", "x"} && {rp, rx, rq} <= g.recs.Keys && {c, d, e} <= g.sigs.Keys
    && g.ids["p"] == rq && g.ids["x"] == rx
    && g.recs[rp].controller == c && g.recs[rx] == Node(d, [], Some("p"), [], false) && g.recs[rq].controller == e
    && g.recs[rq].parentId == None
    && g.sigs[c] == Signal(None, [Cascade(rp, "p", "x")])
    && g.sigs[d] == Signal(None, [Notify("p", "x"), Notify("p", "x")])
    && g.sigs[e].reason == None
  }

  ghost predicate DisposedShape(g: Graph, c: AbortController, d: AbortController, rp: GraphNode, rx: GraphNode) {
    && g.ids.Keys == {"x"} && g.recs.Keys == {rp, rx} && g.sigs.Keys == {c, d}
    && g.ids["x"] == rx && g.recs[rp].controller == c && g.recs[rx] == Node(d, [], None, [], false)
    && g.sigs[c] == Signal(None, [Cascade(rp, "p", "x")]) && g.sigs[d] == Signal(None, [Notify("p", "x")])
  }

  lemma DisposedParent(g: Graph, c: AbortController, d: AbortController, rp: GraphNode, rx: GraphNode)
    requires WF(g) && c != d && rp != rx && PairShape(g, "p", "x", c, d, rp, rx)
    ensures DisposedShape(DisposeF(g, "p"), c, d, rp, rx)
  {
    assert Detach(g, "p") == g;
    assert "x" in ["x"];
    assert Names(g, ["x"], rx);
  }

  lemma RelinkIs(g: Graph, c: AbortController, d: AbortController, e: AbortController, rp: GraphNode, rx: GraphNode,
          rq: GraphNode)
    requires c != d && d != e && c != e && rp != rx && rx != rq && rp != rq && DisposedShape(g, c, d, rp, rx)
    ensures StaleShape(LinkedLive(Registered(g, "p", e, rq), "p", "x", rq, rx, e, d), c, d, e, rp, rx, rq)
  {
    assert [Notify("p", "x")] + [Notify("p", "x")] == [Notify("p", "x"), Notify("p", "x")];
  }

  lemma RelinkReached(c: AbortController, d: AbortController, e: AbortController, rp: GraphNode, rx: GraphNode,
          rq: GraphNode)
    returns (g: Graph)
    requires c != d && d != e && c != e && rp != rx && rx != rq && rp != rq
    ensures Reached(RelinkOps(c, d, e, rp, rx, rq), g) && StaleShape(g, c, d, e, rp, rx, rq)
  {
    var ops := PairOps("p", "x", c, d, rp, rx);
    var g3 := PairReached("p", "x", c, d, rp, rx);
    ReachedSound(ops, g3);
    DisposedParent(g3, c, d, rp, rx);
    var g4 := DisposeF(g3, "p");
    ReachStep(ops, g3, Dispose("p"), g4);
    g := Relink(ops + [Dispose("p")], g4, c, d, e, rp, rx, rq);
  }

  lemma Relink(ops: seq<Op>, g4: Graph, c: AbortController, d: AbortController, e: AbortController, rp: GraphNode,
          rx: GraphNode, rq: GraphNode)
    returns (g: Graph)
    requires c != d && d != e && c != e && rp != rx && rx != rq && rp != rq
    requires Reached(ops, g4) && DisposedShape(g4, c, d, rp, rx)
    ensures Reached(ops + [Register("p", e, LIVE, rq)] + [Link("p", "x")], g) && StaleShape(g, c, d, e, rp, rx, rq)
  {
    ReachRegister(ops, g4, "p", e, rq);
    var g5 := Registered(g4, "p", e, rq);
    ReachLink(ops + [Register("p", e, LIVE, rq)], g5, "p", "x", rq, rx, e, d);
    g := LinkedLive(g5, "p", "x", rq, rx, e, d);
    RelinkIs(g4, c, d, e, rp, rx, rq);
  }

  lemma {:induction false} StaleReachesChild(g: Graph, c: AbortController, d: AbortController, e: AbortController,
          rp: GraphNode, rx: GraphNode, rq: GraphNode)
    requires c != d && d != e && c != e && WF(g) && StaleShape(g, c, d, e, rp, rx, rq)
    ensures Aborted(Fire(g, c, None), "x")
  {
    var h := Fire(g, c, None);
    FireCompletes(g, c, None);
    assert NewlyAborted(g, h, c) && Cascade(rp, "p", "x") in g.sigs[c].listeners;
    ExtendsAt(g, h, "x");
    assert Done(h, Cascade(rp, "p", "x"));
  }

  lemma ChildFenced(g: Graph, c: AbortController, d: AbortController, e: AbortController, rp: GraphNode,
          rx: GraphNode, rq: GraphNode)
    requires WF(g) && StaleShape(g, c, d, e, rp, rx, rq)
    ensures Region(g, {"x"}) && forall l | l in g.sigs[c].listeners :: Inside(g, c, l, {"x"})
  {
    forall x, l | x in {"x"} && x in g.ids && l in SignalOf(g, x).listeners
      ensures Inside(g, At(g, x).controller, l, {"x"})
    {
      assert l.Notify?;
    }
  }

  lemma {:induction false} StaleSparesParent(g: Graph, c: AbortController, d: AbortController, e: AbortController,
          rp: GraphNode, rx: GraphNode, rq: GraphNode)
    requires c != d && d != e && c != e && WF(g) && StaleShape(g, c, d, e, rp, rx, rq)
    ensures !Aborted(Fire(g, c, None), "p")
  {
    var h := Fire(g, c, None);
    ChildFenced(g, c, d, e, rp, rx, rq);
    FireWithin(g, c, None, {"x"});
    ExtendsAt(g, h, "p");
    assert !InRegion(g, e, {"x"});
    assert !NewlyAborted(g, h, e);
  }

  /** The stale controller of a disposed node aborts a child that was relinked under a new node with the old id;
      the new parent lives on. */
  lemma StaleControllerKills(c: AbortController, d: AbortController, e: AbortController, rp: GraphNode, rx: GraphNode,
          rq: GraphNode)
    returns (h: Graph)
    requires c != d && d != e && c != e && rp != rx && rx != rq && rp != rq
    ensures Reached(RelinkOps(c, d, e, rp, rx, rq) + [Direct(c, None)], h)
    ensures WF(h) && "p" in h.ids && "x" in h.ids && Aborted(h, "x") && !Aborted(h, "p")
  {
    var ops := RelinkOps(c, d, e, rp, rx, rq);
    var g := RelinkReached(c, d, e, rp, rx, rq);
    ReachedSound(ops, g);
    StaleReachesChild(g, c, d, e, rp, rx, rq);
    StaleSparesParent(g, c, d, e, rp, rx, rq);
    h := Fire(g, c, None);
    ReachStep(ops, g, Direct(c, None), h);
  }
}
