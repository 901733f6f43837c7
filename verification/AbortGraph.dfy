/**
  The abort graph itself: heap objects for controllers and node records, a map from ids to records, and the
  operations as they update them. Every operation is proved to compute the function of the same name in
  AbortModel.dfy, and to keep the graph sound.
 */
module AbortGraphClass {
  import opened Wrappers
  import opened AbortModel
  import opened AbortReach
  import opened AbortTheorems
  import opened AbortRuns
  import opened AbortLinks

  datatype GraphError = ParentNotRegistered(id: Id) | ChildNotRegistered(id: Id) | NotRegistered(id: Id)

  lemma OrphanNone(g: Graph)
    ensures Orphan(g, []) == g
  {
    assert Orphan(g, []).recs == g.recs;
  }

  class AbortGraph {
    var nodes: map<Id, GraphNode>
    /** The calls made to subscribed callbacks, oldest first. */
    var notified: seq<Event>
    /** The abort records handed to the witness sink, oldest first. */
    var trace: seq<AbortRecord>

    /** Every record and every controller the graph has ever held: closures keep them alive. */
    ghost var records: set<GraphNode>
    ghost var signals: set<AbortController>

    ghost function View(): Graph
      reads this, records, signals
    {
      Graph(
        nodes,
        map r | r in records :: Node(r.controller, r.children, r.parentId, r.listeners, r.cascading),
        map c | c in signals :: Signal(c.reason, c.listeners),
        notified,
        trace)
    }

    ghost predicate Valid()
      reads this, records, signals
    {
      Sound(View())
    }

    constructor ()
      ensures Valid() && View() == EMPTY && records == {} && signals == {}
    {
      nodes, notified, trace := map[], [], [];
      records, signals := {}, {};
      new;
      assert View() == EMPTY;
    }

    /** Afterwards the graph is sound exactly when the id was known or the controller is usable for it. */
    method Register(id: Id, controller: AbortController) returns (ghost record: GraphNode)
      requires Valid()
      modifies this
      ensures var s := Signal(controller.reason, controller.listeners);
        && View() == RegisterF(old(View()), id, controller, s, record)
        && (Valid() <==> old(id in nodes) || Usable(old(View()), id, controller, s, record))
      ensures old(id !in nodes) ==> fresh(record)
      ensures records == old(records) + (if old(id in nodes) then {} else {record})
      ensures signals == old(signals) + (if old(id in nodes) then {} else {controller})
    {
      if id in nodes {
        record := nodes[id];
        return;
      }
      ghost var g := View();
      record := Attach(id, controller);
      RegisterSound(g, id, controller, Signal(controller.reason, controller.listeners), record);
    }

    method Attach(id: Id, controller: AbortController) returns (n: GraphNode)
      requires id !in nodes
      modifies this
      ensures fresh(n) && records == old(records) + {n} && signals == old(signals) + {controller}
      ensures View() == RegisterF(old(View()), id, controller, Signal(controller.reason, controller.listeners), n)
    {
      ghost var g := View();
      n := new GraphNode(controller);
      nodes := nodes[id := n];
      records, signals := records + {n}, signals + {controller};
      assert View().recs == g.recs[n := Node(controller, [], None, [], false)];
      assert View().sigs == g.sigs[controller := Signal(controller.reason, controller.listeners)];
    }

    /** A record is updated in place: the view changes at that record only. */
    method SetCascadingMark(n: GraphNode)
      requires n in records
      modifies n`cascading
      ensures View() == SetNode(old(View()), n, old(View()).recs[n].(cascading := true))
    {
      ghost var g := View();
      n.cascading := true;
      assert View().recs == SetNode(g, n, g.recs[n].(cascading := true)).recs;
      assert View().sigs == g.sigs;
    }

    /** The signal's own part of an abort: the reason is set and the once-only listeners are taken off. */
    method TakeListeners(c: AbortController, arg: Option<Reason>) returns (ls: seq<Listener>)
      requires WF(View()) && c in signals && c.reason.None?
      modifies c
      ensures ls == old(View()).sigs[c].listeners
      ensures View() == SetSignal(old(View()), c, Signal(Some(Resolve(arg, c)), []))
      ensures Extends(old(View()), View()) && WF(View()) && Live(View()) < Live(old(View()))
    {
      ghost var g := View();
      ls := c.listeners;
      c.reason := Some(Resolve(arg, c));
      c.listeners := [];
      ghost var g1 := SetSignal(g, c, Signal(Some(Resolve(arg, c)), []));
      assert View().sigs == g1.sigs;
      assert View().recs == g1.recs;
      assert Extends(g, g1);
      ExtendsWF(g, g1);
      assert c in Live(g) && c !in Live(g1);
    }

    /** `controller.abort(reason)`, fired through the graph's closures. Sections 3.1 and 3.2 of the DOM Standard:
        aborting twice does nothing; listeners run synchronously, in the order they were added, once each. */
    method FireController(c: AbortController, arg: Option<Reason>)
      requires WF(View()) && c in signals
      modifies this`notified, signals, records`cascading
      ensures View() == Fire(old(View()), c, arg)
      decreases Live(View()), 0, 0
    {
      if c.reason.Some? {
        return;
      }
      var ls := TakeListeners(c, arg);
      RunAll(ls);
    }

    /** Event dispatch: each taken listener in turn. */
    method RunAll(ls: seq<Listener>)
      requires WF(View()) && forall l | l in ls && l.Cascade? :: l.parent in records
      modifies this`notified, signals, records`cascading
      ensures View() == Dispatch(old(View()), ls)
      decreases Live(View()), |ls|, 2
    {
      if ls != [] {
        ghost var g := View();
        Run(ls[0]);
        ExtendsWF(g, View());
        RunAll(ls[1..]);
      }
    }

    method Run(l: Listener)
      requires WF(View()) && (l.Cascade? ==> l.parent in records)
      modifies this`notified, signals, records`cascading
      ensures View() == RunListener(old(View()), l)
      decreases Live(View()), 0, 1
    {
      match l
      case Cascade(parent, parentId, childId) =>
        if childId !in nodes || nodes[childId].parentId != Some(parentId) {
          return;
        }
        var child := nodes[childId];
        if child.controller.reason.Some? {
          return;
        }
        ghost var g := View();
        SetCascadingMark(child);
        assert Live(View()) == Live(g);
        FireController(child.controller, parent.controller.reason);
      case Notify(parentId, childId) =>
        RunNotify(parentId, childId);
    }

    method RunNotify(parentId: Id, childId: Id)
      requires WF(View())
      modifies this`notified
      ensures View() == RunListener(old(View()), Notify(parentId, childId))
    {
      if childId !in nodes || nodes[childId].parentId != Some(parentId) {
        return;
      }
      var child := nodes[childId];
      if child.cascading || parentId !in nodes {
        return;
      }
      ghost var g := View();
      var calls := nodes[parentId].listeners;
      var i := 0;
      while i < |calls|
        modifies this`notified
        invariant i <= |calls|
        invariant notified == g.notified + Calls(calls[..i], parentId, childId, child.controller.reason)
      {
        notified := notified + [Event(calls[i], parentId, childId, child.controller.reason)];
        i := i + 1;
      }
      assert calls[..i] == calls;
      assert View().recs == g.recs && View().sigs == g.sigs;
    }

    // ----- rearm

    /** Afterwards the graph is sound exactly when nothing changed, or the controller is usable and the guard holds. */
    method Rearm(id: Id, controller: AbortController) returns (r: Result<(), GraphError>)
      requires Valid()
      modifies this, records
      ensures r == if old(id in nodes) then Success(()) else Failure(NotRegistered(id))
      ensures r.Failure? ==> View() == old(View())
      ensures records == old(records) && signals == old(signals) + (if r.Success? then {controller} else {})
      ensures var s := Signal(controller.reason, controller.listeners);
        r.Success? ==>
          && View() == RearmF(old(View()), id, controller, s)
          && (Valid() <==> Usable(old(View()), id, controller, s, old(nodes[id])) && RearmGuard(old(View()), id, s))
    {
      if id !in nodes {
        return Failure(NotRegistered(id));
      }
      ghost var g := View();
      ReplaceController(nodes[id], controller);
      RearmSound(g, id, controller, Signal(controller.reason, controller.listeners));
      return Success(());
    }

    method ReplaceController(n: GraphNode, controller: AbortController)
      requires n in records
      modifies this`signals, n
      ensures signals == old(signals) + {controller}
      ensures var g, s := old(View()), Signal(controller.reason, controller.listeners);
        View() == SetNode(SetSignal(g, controller, s), n, g.recs[n].(controller := controller, cascading := false))
    {
      ghost var g := View();
      n.controller := controller;
      n.cascading := false;
      signals := signals + {controller};
      assert View().recs == g.recs[n := g.recs[n].(controller := controller, cascading := false)];
      assert View().sigs == g.sigs[controller := Signal(controller.reason, controller.listeners)];
    }

    // ----- linkChild

    /** A live child linked under a dead parent aborts at once, with the parent's reason, and is marked. */
    method LinkChild(parentId: Id, childId: Id) returns (r: Result<(), GraphError>)
      requires Valid()
      modifies this`notified, records, signals
      ensures Valid()
      ensures r == if parentId !in nodes then Failure(ParentNotRegistered(parentId))
                   else if childId !in nodes then Failure(ChildNotRegistered(childId))
                   else Success(())
      ensures View() == if r.Success? then LinkF(old(View()), parentId, childId) else old(View())
      ensures r.Success? && old(Aborted(View(), parentId) && !Aborted(View(), childId)) ==>
                && SignalOf(View(), childId).reason == old(SignalOf(View(), parentId).reason)
                && At(View(), childId).cascading
      ensures r.Success? && old(!Aborted(View(), parentId) || Aborted(View(), childId)) ==>
                forall x | x in nodes :: SignalOf(View(), x).reason == old(SignalOf(View(), x).reason)
    {
      if parentId !in nodes {
        return Failure(ParentNotRegistered(parentId));
      }
      if childId !in nodes {
        return Failure(ChildNotRegistered(childId));
      }
      LinkReasons(View(), parentId, childId);
      RecordEdge(parentId, childId);
      ConnectSignals(parentId, childId);
      return Success(());
    }

    method RecordEdge(parentId: Id, childId: Id)
      requires WF(View()) && parentId in nodes && childId in nodes
      modifies records`parentId, records`children
      ensures View() == LinkEdge(old(View()), parentId, childId)
    {
      SetParent(nodes[childId], parentId);
      AddChild(nodes[parentId], childId);
    }

    method ConnectSignals(parentId: Id, childId: Id)
      requires WF(View()) && parentId in nodes && childId in nodes
      modifies this`notified, records`cascading, signals
      ensures View() == Connect(old(View()), parentId, childId)
    {
      var parent := nodes[parentId];
      var child := nodes[childId];
      if parent.controller.reason.Some? {
        if child.controller.reason.None? {
          SetCascadingMark(child);
          FireController(child.controller, parent.controller.reason);
        }
      } else {
        AddListener(parent.controller, Cascade(parent, parentId, childId));
        AddListener(child.controller, Notify(parentId, childId));
      }
    }

    method SetParent(n: GraphNode, parentId: Id)
      requires n in records
      modifies n`parentId
      ensures View() == SetNode(old(View()), n, old(View()).recs[n].(parentId := Some(parentId)))
    {
      ghost var g := View();
      n.parentId := Some(parentId);
      assert View().recs == SetNode(g, n, g.recs[n].(parentId := Some(parentId))).recs;
      assert View().sigs == g.sigs;
    }

    method AddChild(n: GraphNode, childId: Id)
      requires n in records
      modifies n`children
      ensures View() == SetNode(old(View()), n, old(View()).recs[n].(children := Add(old(n.children), childId)))
    {
      ghost var g := View();
      n.children := Add(n.children, childId);
      assert View().recs == SetNode(g, n, g.recs[n].(children := n.children)).recs;
      assert View().sigs == g.sigs;
    }

    method AddListener(c: AbortController, l: Listener)
      requires c in signals
      modifies c`listeners
      ensures View() == Listen(old(View()), c, l)
    {
      ghost var g := View();
      c.listeners := c.listeners + [l];
      assert View().sigs == Listen(g, c, l).sigs;
      assert View().recs == g.recs;
    }

    // ----- onChildAborted

    /** On success the caller also gets the record its unsubscribe function will work on. */
    method OnChildAborted(parentId: Id, listener: Token) returns (r: Result<GraphNode, GraphError>)
      requires Valid()
      modifies records`listeners
      ensures Valid()
      ensures r == if parentId in nodes then Success(nodes[parentId]) else Failure(NotRegistered(parentId))
      ensures View() == if r.Success? then SubscribeF(old(View()), parentId, listener) else old(View())
    {
      if parentId !in nodes {
        return Failure(NotRegistered(parentId));
      }
      var n := nodes[parentId];
      SetListeners(n, if listener in n.listeners then n.listeners else n.listeners + [listener]);
      return Success(n);
    }

    method Unsubscribe(n: GraphNode, listener: Token)
      requires Valid() && n in records
      modifies n`listeners
      ensures Valid() && View() == UnsubscribeF(old(View()), n, listener)
    {
      SetListeners(n, Remove(n.listeners, listener));
    }

    method SetListeners(n: GraphNode, ts: seq<Token>)
      requires Valid() && n in records
      modifies n`listeners
      ensures Valid() && View() == SetNode(old(View()), n, old(View()).recs[n].(listeners := ts))
    {
      ghost var g := View();
      RelistSound(g, n, ts);
      n.listeners := ts;
      assert View().recs == SetNode(g, n, g.recs[n].(listeners := ts)).recs;
      assert View().sigs == g.sigs;
    }

    // ----- abort

    /** Aborts id and everything below it: exactly root and its registered descendants end up aborted. */
    method Abort(id: Id, reason: Option<Reason>)
      requires Valid()
      modifies this`notified, this`trace, records`cascading, signals
      ensures Valid() && View() == AbortF(old(View()), id, reason)
      ensures old(id in nodes && !Aborted(View(), id)) ==>
                forall x | x in nodes ::
                  Aborted(View(), x) <==> old(Aborted(View(), x)) || x == id || old(Descendant(View(), id, x))
      ensures old(id !in nodes || Aborted(View(), id)) ==> View() == old(View())
    {
      ghost var g := View();
      AbortSound(g, id, reason);
      if id !in nodes {
        return;
      }
      var root := nodes[id];
      if root.controller.reason.Some? {
        return;
      }
      forall x | x in nodes
        ensures Aborted(AbortF(g, id, reason), x) <==> Aborted(g, x) || x == id || Descendant(g, id, x)
      {
        AbortExact(g, id, reason, x);
      }
      AbortLive(id, reason);
    }

    method AbortLive(id: Id, reason: Option<Reason>)
      requires WF(View()) && id in nodes && !Aborted(View(), id)
      modifies this`notified, this`trace, records`cascading, signals
      ensures View() == AbortF(old(View()), id, reason)
    {
      var root := nodes[id];
      var descendants := MarkDescendants(id, reason);
      FireController(root.controller, reason);
      AbortMissed(descendants, reason);
    }

    /** The search, and its record for the witness. */
    method MarkDescendants(id: Id, reason: Option<Reason>) returns (descendants: seq<Id>)
      requires WF(View()) && id in nodes
      modifies this`trace, records`cascading
      ensures descendants == Bfs(old(View()), At(old(View()), id).children, {})
      ensures View() == MarkAll(old(View()), id, reason)
    {
      descendants := CollectDescendants(nodes[id].children, id);
      RecordTrace(AbortRecord(descendants, reason));
    }

    method RecordTrace(record: AbortRecord)
      modifies this`trace
      ensures View() == old(View()).(trace := old(View()).trace + [record])
    {
      ghost var g := View();
      trace := trace + [record];
      assert View().recs == g.recs && View().sigs == g.sigs;
    }

    /** The breadth-first search: marks and lists every registered id it reaches. It ends on every graph, cyclic
        or not: an iteration visits a new registered id or shortens the queue. */
    method CollectDescendants(children: seq<Id>, ghost id: Id) returns (descendants: seq<Id>)
      requires WF(View()) && id in nodes && children == At(View(), id).children
      modifies records`cascading
      ensures descendants == Bfs(old(View()), children, {})
      ensures View() == Mark(old(View()), descendants)
    {
      ghost var g := View();
      descendants := [];
      var queue := children;
      var visited: set<Id> := {};
      assert View().recs == Mark(g, []).recs;
      while queue != []
        invariant WF(View()) && View() == Mark(g, descendants)
        invariant descendants + Bfs(g, queue, visited) == Bfs(g, children, {})
        decreases g.ids.Keys - visited, |queue|
      {
        RoundProgress(g, queue, visited, descendants);
        descendants, queue, visited := SearchRound(g, descendants, queue, visited);
      }
    }

    method SearchRound(ghost g: Graph, descendants: seq<Id>, queue: seq<Id>, visited: set<Id>)
      returns (longer: seq<Id>, rest: seq<Id>, seen: set<Id>)
      requires WF(g) && WF(View()) && View() == Mark(g, descendants) && queue != []
      modifies records`cascading
      ensures WF(View()) && View() == Mark(g, longer)
      ensures var (more, r, v) := Round(g, queue, visited); longer == descendants + more && rest == r && seen == v
    {
      var current := queue[0];
      longer, rest, seen := descendants, queue[1..], visited;
      if current !in visited {
        seen := visited + {current};
        if current in nodes {
          longer := MarkAndList(g, descendants, current);
          rest := rest + nodes[current].children;
        }
      }
    }

    method MarkAndList(ghost g: Graph, descendants: seq<Id>, current: Id) returns (longer: seq<Id>)
      requires WF(g) && WF(View()) && current in nodes && View() == Mark(g, descendants)
      modifies records`cascading
      ensures longer == descendants + [current] && View() == Mark(g, longer) && WF(View())
      ensures nodes[current].children == At(g, current).children
    {
      longer := descendants + [current];
      var n := nodes[current];
      SetCascadingMark(n);
      forall r | r in g.recs ensures Names(g, longer, r) <==> Names(g, descendants, r) || r == n {
        assert current in longer;
        assert forall x | x in longer :: x in descendants || x == current;
        assert forall x | x in descendants :: x in longer;
      }
      assert View().recs == Mark(g, longer).recs;
    }

    method AbortMissed(descendants: seq<Id>, reason: Option<Reason>)
      requires WF(View())
      modifies this`notified, records`cascading, signals
      ensures View() == MopUp(old(View()), descendants, reason)
    {
      ghost var g := View();
      var i := 0;
      while i < |descendants|
        invariant i <= |descendants|
        invariant WF(View()) && MopUp(View(), descendants[i..], reason) == MopUp(g, descendants, reason)
      {
        assert descendants[i..][1..] == descendants[i + 1..];
        AbortIfRegistered(descendants[i], reason);
        i := i + 1;
      }
    }

    method AbortIfRegistered(id: Id, reason: Option<Reason>)
      requires WF(View())
      modifies this`notified, records`cascading, signals
      ensures WF(View())
      ensures View() == if id in nodes then Fire(old(View()), At(old(View()), id).controller, reason) else old(View())
    {
      if id in nodes && nodes[id].controller.reason.None? {
        FireController(nodes[id].controller, reason);
      }
    }

    /** `controller.abort(reason)` called by the owner of a controller, not through the graph. */
    method AbortDirectly(c: AbortController, reason: Option<Reason>)
      requires Valid() && c in signals
      modifies this`notified, records`cascading, signals
      ensures Valid() && View() == Fire(old(View()), c, reason)
    {
      DirectSound(View(), c, reason);
      FireController(c, reason);
    }

    // ----- dispose

    method Dispose(id: Id)
      requires Valid()
      modifies this`nodes, records
      ensures Valid() && View() == DisposeF(old(View()), id)
    {
      ghost var g := View();
      DisposeSound(g, id);
      if id !in nodes {
        return;
      }
      DetachFromParent(id);
      OrphanAll(nodes[id].children);
      Forget(id);
    }

    method DetachFromParent(id: Id)
      requires WF(View()) && id in nodes
      modifies records`children
      ensures View() == Detach(old(View()), id) && WF(View())
    {
      var p := nodes[id].parentId;
      if p.Some? && p.value != "" && p.value in nodes {
        RemoveChild(nodes[p.value], id);
      }
    }

    method Forget(id: Id)
      modifies this`nodes
      ensures View() == old(View()).(ids := old(View()).ids - {id})
    {
      ghost var g := View();
      nodes := nodes - {id};
      assert View().recs == g.recs && View().sigs == g.sigs;
    }

    method RemoveChild(n: GraphNode, childId: Id)
      requires n in records
      modifies n`children
      ensures View() == SetNode(old(View()), n, old(View()).recs[n].(children := Remove(old(n.children), childId)))
    {
      ghost var g := View();
      n.children := Remove(n.children, childId);
      assert View().recs == SetNode(g, n, g.recs[n].(children := n.children)).recs;
      assert View().sigs == g.sigs;
    }

    method OrphanAll(children: seq<Id>)
      requires WF(View())
      modifies records`parentId
      ensures View() == Orphan(old(View()), children)
    {
      ghost var g := View();
      OrphanNone(g);
      var i := 0;
      while i < |children|
        invariant i <= |children|
        invariant View() == Orphan(g, children[..i])
      {
        assert children[..i + 1] == children[..i] + [children[i]];
        OrphanOne(g, children[..i], children[i]);
        i := i + 1;
      }
      assert children[..i] == children;
    }

    method OrphanOne(ghost g: Graph, ghost done: seq<Id>, childId: Id)
      requires WF(g) && View() == Orphan(g, done)
      modifies records`parentId
      ensures View() == Orphan(g, done + [childId])
    {
      forall r | r in g.recs
        ensures Names(g, done + [childId], r) <==>
                Names(g, done, r) || (childId in g.ids && g.ids[childId] == r)
      {
        assert childId in done + [childId];
        assert forall x | x in done :: x in done + [childId];
        assert forall x | x in done + [childId] :: x in done || x == childId;
      }
      if childId in nodes {
        assert nodes[childId] in View().recs;
        nodes[childId].parentId := None;
      }
      assert View().sigs == g.sigs;
      assert View().recs == Orphan(g, done + [childId]).recs;
    }

    // ----- reading

    method IsCascading(id: Id) returns (b: bool)
      requires Valid()
      ensures b <==> id in nodes && At(View(), id).cascading
      ensures b ==> Aborted(View(), id)
    {
      b := id in nodes && nodes[id].cascading;
    }

    /** Every listed child is registered or stale; every node that records id as its parent is listed. */
    method ChildrenOf(id: Id) returns (children: seq<Id>)
      requires Valid()
      ensures children == if id in nodes then At(View(), id).children else []
      ensures forall x | x in nodes && At(View(), x).parentId == Some(id) :: x in children
    {
      children := if id in nodes then nodes[id].children else [];
    }
  }
}
