/**
  The state of an abort graph as a value, and every operation of the graph as a
  function on that value. Controllers and node records are heap objects; here they
  serve only as identities. The class in AbortGraph.dfy is proved to compute exactly
  these functions.
 */
module AbortModel {
  import opened Wrappers

  type Id = string

  /** Identity of a callback passed to onChildAborted. */
  type Token = nat

  /** An abort reason: the caller's value, or the AbortError a controller mints when it is given none. */
  datatype Reason = Given(value: string) | AbortError(minted: AbortController)

  /** The two closures linkChild installs. A cascade closure captures its parent's record, not only the id. */
  datatype Listener =
    | Cascade(parent: GraphNode, parentId: Id, childId: Id)
    | Notify(parentId: Id, childId: Id)

  /** One call of a subscribed callback. */
  datatype Event = Event(listener: Token, parentId: Id, childId: Id, reason: Option<Reason>)

  datatype AbortRecord = AbortRecord(cascadedTo: seq<Id>, reason: Option<Reason>)

  /** Section 3.2 of the DOM Standard: a signal is aborted when its abort reason is not undefined. */
  class AbortController {
    var reason: Option<Reason>
    var listeners: seq<Listener>

    constructor ()
      ensures reason == None && listeners == []
    {
      reason, listeners := None, [];
    }
  }

  class GraphNode {
    var controller: AbortController
    var children: seq<Id>
    var parentId: Option<Id>
    var listeners: seq<Token>
    var cascading: bool

    constructor (c: AbortController)
      ensures controller == c && children == [] && parentId == None && listeners == [] && !cascading
    {
      controller, children, parentId, listeners, cascading := c, [], None, [], false;
    }
  }

  datatype Signal = Signal(reason: Option<Reason>, listeners: seq<Listener>)

  datatype Node = Node(
    controller: AbortController, children: seq<Id>, parentId: Option<Id>, listeners: seq<Token>, cascading: bool)

  /** `recs` and `sigs` also hold disposed records and replaced controllers: closures may still reach them. */
  datatype Graph = Graph(
    ids: map<Id, GraphNode>,
    recs: map<GraphNode, Node>,
    sigs: map<AbortController, Signal>,
    notified: seq<Event>,
    trace: seq<AbortRecord>)

  // ----- well-formedness and reading

  ghost predicate WF(g: Graph) {
    && (forall id | id in g.ids :: g.ids[id] in g.recs)
    && (forall r | r in g.recs :: g.recs[r].controller in g.sigs)
    && (forall c, l | c in g.sigs && l in g.sigs[c].listeners && l.Cascade? :: l.parent in g.recs)
  }

  ghost function At(g: Graph, id: Id): Node
    requires WF(g) && id in g.ids
  {
    g.recs[g.ids[id]]
  }

  ghost function SignalOf(g: Graph, id: Id): Signal
    requires WF(g) && id in g.ids
  {
    g.sigs[At(g, id).controller]
  }

  ghost predicate Aborted(g: Graph, id: Id)
    requires WF(g) && id in g.ids
  {
    SignalOf(g, id).reason.Some?
  }

  ghost function Live(g: Graph): set<AbortController> {
    set c | c in g.sigs && g.sigs[c].reason.None?
  }

  function Resolve(arg: Option<Reason>, c: AbortController): Reason {
    match arg case Some(r) => r case None => AbortError(c)
  }

  /** The listener still concerns a registered child whose recorded parent is the one it was made for. */
  ghost predicate Effective(g: Graph, l: Listener)
    requires WF(g)
  {
    l.childId in g.ids && At(g, l.childId).parentId == Some(l.parentId)
  }

  // ----- small updates

  ghost function SetNode(g: Graph, r: GraphNode, n: Node): Graph {
    g.(recs := g.recs[r := n])
  }

  ghost function SetCascading(g: Graph, id: Id): Graph
    requires WF(g) && id in g.ids
  {
    SetNode(g, g.ids[id], At(g, id).(cascading := true))
  }

  ghost function SetSignal(g: Graph, c: AbortController, s: Signal): Graph {
    g.(sigs := g.sigs[c := s])
  }

  function Calls(listeners: seq<Token>, parentId: Id, childId: Id, reason: Option<Reason>): seq<Event> {
    seq(|listeners|, i requires 0 <= i < |listeners| => Event(listeners[i], parentId, childId, reason))
  }

  /** What a Notify closure does when it runs in state g. */
  ghost function Announce(g: Graph, l: Listener): seq<Event>
    requires WF(g)
  {
    if l.Notify? && Effective(g, l) && !At(g, l.childId).cascading && l.parentId in g.ids then
      Calls(At(g, l.parentId).listeners, l.parentId, l.childId, SignalOf(g, l.childId).reason)
    else []
  }

  // ----- firing a controller

  /** A record either is as it was, or was marked cascading while its controller went from live to aborted. */
  ghost predicate RecordStep(g: Graph, h: Graph, r: GraphNode)
    requires WF(g) && r in g.recs && r in h.recs && h.sigs.Keys == g.sigs.Keys
  {
    || h.recs[r] == g.recs[r]
    || (&& h.recs[r] == g.recs[r].(cascading := true)
        && g.sigs[g.recs[r].controller].reason.None?
        && h.sigs[g.recs[r].controller].reason.Some?)
  }

  /** A controller either is as it was, or was aborted and lost its once-only listeners. */
  ghost predicate SignalStep(g: Graph, h: Graph, c: AbortController)
    requires c in g.sigs && c in h.sigs
  {
    || h.sigs[c] == g.sigs[c]
    || (g.sigs[c].reason.None? && h.sigs[c].reason.Some? && h.sigs[c].listeners == [])
  }

  /** h is g after some controllers were aborted. */
  ghost predicate Extends(g: Graph, h: Graph)
    requires WF(g)
  {
    && h.ids == g.ids && h.trace == g.trace
    && h.recs.Keys == g.recs.Keys && h.sigs.Keys == g.sigs.Keys
    && (forall r | r in g.recs :: RecordStep(g, h, r))
    && (forall c | c in g.sigs :: SignalStep(g, h, c))
  }

  lemma ExtendsWF(g: Graph, h: Graph)
    requires WF(g) && Extends(g, h)
    ensures WF(h) && Live(h) <= Live(g)
  {
    forall r | r in h.recs ensures h.recs[r].controller in h.sigs {
      assert RecordStep(g, h, r);
    }
    forall c | c in h.sigs
      ensures c in Live(h) ==> c in Live(g)
      ensures forall l | l in h.sigs[c].listeners && l.Cascade? :: l.parent in h.recs
    {
      assert SignalStep(g, h, c);
    }
  }

  lemma ExtendsTrans(g: Graph, h: Graph, k: Graph)
    requires WF(g) && Extends(g, h) && WF(h) && Extends(h, k)
    ensures Extends(g, k)
  {
    forall c | c in g.sigs ensures SignalStep(g, k, c) {
      assert SignalStep(g, h, c) && SignalStep(h, k, c);
    }
    forall r | r in g.recs ensures RecordStep(g, k, r) {
      assert RecordStep(g, h, r) && RecordStep(h, k, r);
      assert SignalStep(g, h, g.recs[r].controller) && SignalStep(h, k, g.recs[r].controller);
    }
  }

  /** `controller.abort(arg)`: idempotent, then every listener runs once, synchronously and in order. */
  ghost function Fire(g: Graph, c: AbortController, arg: Option<Reason>): (h: Graph)
    requires WF(g) && c in g.sigs
    ensures Extends(g, h) && WF(h) && h.sigs[c].reason.Some?
    ensures g.sigs[c].reason.None? ==> h.sigs[c] == Signal(Some(Resolve(arg, c)), [])
    decreases Live(g), 0, 0
  {
    if g.sigs[c].reason.Some? then g
    else
      var g1 := SetSignal(g, c, Signal(Some(Resolve(arg, c)), []));
      assert Extends(g, g1);
      ExtendsWF(g, g1);
      assert c in Live(g) && c !in Live(g1);
      var h := Dispatch(g1, g.sigs[c].listeners);
      ExtendsTrans(g, g1, h);
      assert SignalStep(g1, h, c);
      h
  }

  ghost function Dispatch(g: Graph, ls: seq<Listener>): (h: Graph)
    requires WF(g)
    requires forall l | l in ls && l.Cascade? :: l.parent in g.recs
    ensures Extends(g, h) && WF(h)
    decreases Live(g), |ls|, 2
  {
    if ls == [] then g
    else
      var g1 := RunListener(g, ls[0]);
      ExtendsWF(g, g1);
      var h := Dispatch(g1, ls[1..]);
      ExtendsTrans(g, g1, h);
      h
  }

  ghost function RunListener(g: Graph, l: Listener): (h: Graph)
    requires WF(g) && (l.Cascade? ==> l.parent in g.recs)
    ensures Extends(g, h) && WF(h)
    decreases Live(g), 0, 1
  {
    match l
    case Cascade(parent, _, childId) =>
      if !Effective(g, l) || Aborted(g, childId) then g
      else
        var g1 := SetCascading(g, childId);
        var c := At(g, childId).controller;
        assert WF(g1) && Live(g1) == Live(g);
        var h := Fire(g1, c, g.sigs[g.recs[parent].controller].reason);
        MarkedExtends(g, childId, h);
        h
    case Notify(_, _) => g.(notified := g.notified + Announce(g, l))
  }

  lemma MarkedExtends(g: Graph, id: Id, h: Graph)
    requires WF(g) && id in g.ids && !Aborted(g, id)
    requires WF(SetCascading(g, id)) && Extends(SetCascading(g, id), h)
    requires h.sigs[At(g, id).controller].reason.Some?
    ensures Extends(g, h)
  {
    var g1 := SetCascading(g, id);
    forall c | c in g.sigs ensures SignalStep(g, h, c) {
      assert SignalStep(g1, h, c);
    }
    forall r | r in g.recs ensures RecordStep(g, h, r) {
      assert RecordStep(g1, h, r);
    }
  }

  // ----- descendants

  /** A walk along child sets through registered nodes. */
  ghost predicate Walk(g: Graph, p: seq<Id>)
    requires WF(g)
  {
    && |p| >= 1
    && (forall i | 0 <= i < |p| :: p[i] in g.ids)
    && (forall i | 0 <= i < |p| - 1 :: p[i + 1] in At(g, p[i]).children)
  }

  /** to is reached from `from` by at least one child-set step. In a link cycle a node is its own descendant. */
  ghost predicate Descendant(g: Graph, from: Id, to: Id)
    requires WF(g)
  {
    exists p :: Walk(g, p) && |p| >= 2 && p[0] == from && p[|p| - 1] == to
  }

  /** The breadth-first search of `abort`, from a queue and a set of ids already visited. */
  ghost function Bfs(g: Graph, queue: seq<Id>, visited: set<Id>): seq<Id>
    requires WF(g)
    decreases g.ids.Keys - visited, |queue|
  {
    if queue == [] then []
    else
      var current := queue[0];
      if current in visited then Bfs(g, queue[1..], visited)
      else if current !in g.ids then
        assert g.ids.Keys - (visited + {current}) == g.ids.Keys - visited;
        Bfs(g, queue[1..], visited + {current})
      else
        assert current in g.ids.Keys - visited;
        [current] + Bfs(g, queue[1..] + At(g, current).children, visited + {current})
  }

  ghost predicate Names(g: Graph, ids: seq<Id>, r: GraphNode) {
    exists id :: id in ids && id in g.ids && g.ids[id] == r
  }

  ghost function Mark(g: Graph, ids: seq<Id>): Graph {
    g.(recs := map r | r in g.recs :: if Names(g, ids, r) then g.recs[r].(cascading := true) else g.recs[r])
  }

  /** Abort whatever the listeners missed. */
  ghost function MopUp(g: Graph, ids: seq<Id>, arg: Option<Reason>): (h: Graph)
    requires WF(g)
    ensures Extends(g, h) && WF(h)
    decreases |ids|
  {
    if ids == [] then g
    else
      var g1 := if ids[0] in g.ids then Fire(g, At(g, ids[0]).controller, arg) else g;
      var h := MopUp(g1, ids[1..], arg);
      ExtendsTrans(g, g1, h);
      h
  }

  // ----- the operations

  function Add(s: seq<Id>, id: Id): (r: seq<Id>)
    ensures forall y :: y in r <==> y in s || y == id
  {
    if id in s then s else s + [id]
  }

  function Remove<T(==, !new)>(s: seq<T>, x: T): (r: seq<T>)
    ensures forall y :: y in r <==> y in s && y != x
  {
    if s == [] then [] else (if s[0] == x then [] else [s[0]]) + Remove(s[1..], x)
  }

  ghost function RegisterF(g: Graph, id: Id, c: AbortController, s: Signal, r: GraphNode): Graph {
    if id in g.ids then g
    else g.(ids := g.ids[id := r], recs := g.recs[r := Node(c, [], None, [], false)], sigs := g.sigs[c := s])
  }

  ghost function RearmF(g: Graph, id: Id, c: AbortController, s: Signal): Graph
    requires WF(g) && id in g.ids
  {
    SetNode(SetSignal(g, c, s), g.ids[id], At(g, id).(controller := c, cascading := false))
  }

  ghost function LinkEdge(g: Graph, parentId: Id, childId: Id): (h: Graph)
    requires WF(g) && parentId in g.ids && childId in g.ids
    ensures WF(h)
  {
    var g1 := SetNode(g, g.ids[childId], At(g, childId).(parentId := Some(parentId)));
    SetNode(g1, g.ids[parentId], At(g1, parentId).(children := Add(At(g1, parentId).children, childId)))
  }

  ghost function Listen(g: Graph, c: AbortController, l: Listener): Graph
    requires c in g.sigs
  {
    SetSignal(g, c, g.sigs[c].(listeners := g.sigs[c].listeners + [l]))
  }

  /** The signal half of linkChild: a dead parent takes the child with it, a live one gets the two closures. */
  ghost function Connect(g: Graph, parentId: Id, childId: Id): (h: Graph)
    requires WF(g) && parentId in g.ids && childId in g.ids
    ensures WF(h)
  {
    if Aborted(g, parentId) then
      if Aborted(g, childId) then g
      else Fire(SetCascading(g, childId), At(g, childId).controller, SignalOf(g, parentId).reason)
    else
      var g1 := Listen(g, At(g, parentId).controller, Cascade(g.ids[parentId], parentId, childId));
      Listen(g1, At(g, childId).controller, Notify(parentId, childId))
  }

  ghost function LinkF(g: Graph, parentId: Id, childId: Id): (h: Graph)
    requires WF(g) && parentId in g.ids && childId in g.ids
    ensures WF(h)
  {
    Connect(LinkEdge(g, parentId, childId), parentId, childId)
  }

  /** The firing half of `abort`: the root's controller, then whatever the listeners missed. */
  ghost function FireAll(g: Graph, id: Id, ds: seq<Id>, arg: Option<Reason>): (h: Graph)
    requires WF(g) && id in g.ids
    ensures Extends(g, h) && WF(h)
  {
    var g1 := Fire(g, At(g, id).controller, arg);
    var h := MopUp(g1, ds, arg);
    ExtendsTrans(g, g1, h);
    h
  }

  /** The marking half: the search result, every descendant marked, and the trace record. */
  ghost function MarkAll(g: Graph, id: Id, arg: Option<Reason>): (h: Graph)
    requires WF(g) && id in g.ids
    ensures WF(h) && h.ids == g.ids
  {
    var ds := Bfs(g, At(g, id).children, {});
    Mark(g, ds).(trace := g.trace + [AbortRecord(ds, arg)])
  }

  ghost function AbortF(g: Graph, id: Id, arg: Option<Reason>): (h: Graph)
    requires WF(g)
    ensures WF(h)
  {
    if id !in g.ids || Aborted(g, id) then g
    else FireAll(MarkAll(g, id, arg), id, Bfs(g, At(g, id).children, {}), arg)
  }

  ghost function Orphan(g: Graph, ids: seq<Id>): Graph {
    g.(recs := map r | r in g.recs :: if Names(g, ids, r) then g.recs[r].(parentId := None) else g.recs[r])
  }

  /** The parent edge is cut only for a non-empty parent id: the source tests the id for truthiness. */
  ghost function Detach(g: Graph, id: Id): (h: Graph)
    requires WF(g) && id in g.ids
    ensures WF(h) && h.ids == g.ids
  {
    match At(g, id).parentId
    case Some(p) =>
      if p != "" && p in g.ids then
        SetNode(g, g.ids[p], At(g, p).(children := Remove(At(g, p).children, id)))
      else g
    case None => g
  }

  ghost function DisposeF(g: Graph, id: Id): (h: Graph)
    requires WF(g)
    ensures WF(h)
  {
    if id !in g.ids then g
    else
      var g1 := Detach(g, id);
      var g2 := Orphan(g1, At(g1, id).children);
      g2.(ids := g2.ids - {id})
  }

  ghost function SubscribeF(g: Graph, id: Id, t: Token): Graph
    requires WF(g) && id in g.ids
  {
    var n := At(g, id);
    SetNode(g, g.ids[id], n.(listeners := if t in n.listeners then n.listeners else n.listeners + [t]))
  }

  ghost function UnsubscribeF(g: Graph, r: GraphNode, t: Token): Graph
    requires r in g.recs
  {
    SetNode(g, r, g.recs[r].(listeners := Remove(g.recs[r].listeners, t)))
  }
}
