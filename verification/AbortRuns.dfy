/** Every operation keeps the invariants, so every run does; and where an operation keeps one only under a
    condition, exactly when. */
module AbortRuns {
  import opened Wrappers
  import opened AbortModel
  import opened AbortCascade
  import opened AbortNotice
  import opened AbortTheorems

  // ----- soundness, operation by operation

  /** A controller the graph has not seen, without closures of any graph. It may be aborted. */
  ghost predicate Fresh(g: Graph, c: AbortController, s: Signal) {
    c !in g.sigs && s.listeners == []
  }

  /** s is the present state of c. */
  ghost predicate Current(g: Graph, c: AbortController, s: Signal) {
    c in g.sigs ==> s == g.sigs[c]
  }

  /** A closure that belongs on the signal of id, whose record is r. */
  ghost predicate Belongs(l: Listener, id: Id, r: GraphNode) {
    match l
    case Cascade(parent, parentId, _) => parent == r && parentId == id
    case Notify(_, childId) => childId == id
  }

  /** No other registered node uses c, and all closures c carries were made for id. */
  ghost predicate Usable(g: Graph, id: Id, c: AbortController, s: Signal, r: GraphNode)
    requires WF(g)
  {
    && (forall x | x in g.ids && x != id :: At(g, x).controller != c)
    && (forall l | l in s.listeners :: Belongs(l, id, r))
  }

  /** The records the closures of s work on are known, or the new record r. */
  ghost predicate ParentsKnown(g: Graph, s: Signal, r: GraphNode) {
    forall l | l in s.listeners && l.Cascade? :: l.parent in g.recs || l.parent == r
  }

  lemma RegisterWF(g: Graph, id: Id, c: AbortController, s: Signal, r: GraphNode)
    requires WF(g) && id !in g.ids && Current(g, c, s) && ParentsKnown(g, s, r) && r !in g.recs
    ensures WF(RegisterF(g, id, c, s, r))
  {
    var h := RegisterF(g, id, c, s, r);
    forall x | x in h.ids ensures h.ids[x] in h.recs {
      assert x == id || g.ids[x] in g.recs;
    }
    forall q | q in h.recs ensures h.recs[q].controller in h.sigs {
      assert q == r || g.recs[q].controller in g.sigs;
    }
    forall d, l | d in h.sigs && l in h.sigs[d].listeners && l.Cascade? ensures l.parent in h.recs {
      assert d in g.sigs || d == c;
    }
  }

  lemma RegisterNodes(g: Graph, id: Id, c: AbortController, s: Signal, r: GraphNode)
    requires WF(g) && id !in g.ids && Current(g, c, s) && ParentsKnown(g, s, r) && r !in g.recs
    ensures var h := RegisterF(g, id, c, s, r);
      && WF(h) && h.ids.Keys == g.ids.Keys + {id}
      && At(h, id) == Node(c, [], None, [], false) && SignalOf(h, id) == s
      && forall x | x in g.ids :: h.ids[x] == g.ids[x] && At(h, x) == At(g, x) && SignalOf(h, x) == SignalOf(g, x)
  {
    RegisterWF(g, id, c, s, r);
  }

  lemma RegisterUsable(g: Graph, id: Id, c: AbortController, s: Signal, r: GraphNode)
    requires Sound(g) && id !in g.ids && Current(g, c, s) && Usable(g, id, c, s, r) && r !in g.recs
    ensures Sound(RegisterF(g, id, c, s, r))
  {
    var h := RegisterF(g, id, c, s, r);
    RegisterNodes(g, id, c, s, r);
    forall x | x in h.ids
      ensures Tied(h, x)
      ensures forall l | l in SignalOf(h, x).listeners :: OwnedListener(h, x, l)
    {
      if x != id {
        assert Tied(g, x);
        assert forall l | l in SignalOf(g, x).listeners :: OwnedListener(g, x, l);
      } else {
        assert forall l | l in s.listeners :: Belongs(l, id, r);
      }
    }
  }

  /** Registering a new id keeps the graph sound exactly when no other node uses the controller and all closures
      it carries were made for that id. A known id changes nothing. */
  lemma RegisterSound(g: Graph, id: Id, c: AbortController, s: Signal, r: GraphNode)
    requires Sound(g) && Current(g, c, s) && r !in g.recs
    ensures Sound(RegisterF(g, id, c, s, r)) <==> id in g.ids || Usable(g, id, c, s, r)
    ensures id in g.ids ==> RegisterF(g, id, c, s, r) == g
  {
    if id !in g.ids {
      var h := RegisterF(g, id, c, s, r);
      if Usable(g, id, c, s, r) {
        RegisterUsable(g, id, c, s, r);
      }
      if Sound(h) {
        assert At(h, id).controller == c && SignalOf(h, id) == s;
        forall x | x in g.ids ensures At(g, x).controller != c {
          assert At(h, x).controller == At(g, x).controller;
        }
        forall l | l in s.listeners ensures Belongs(l, id, r) {
          assert OwnedListener(h, id, l);
        }
      }
    }
  }

  /** y stays covered by the new signal s of id: it is dead, or s is live and carries the closure for it. */
  ghost predicate StaysTied(g: Graph, id: Id, s: Signal, y: Id)
    requires WF(g) && id in g.ids && y in g.ids
  {
    Aborted(g, y) || (s.reason.None? && Cascade(g.ids[id], id, y) in s.listeners)
  }

  /** The caller's duty: linked children are dead (or the new controller already carries their closures), and the
      node is a root, or is replaced by a dead controller, or its live parent's controller carries the closure for
      it. */
  ghost predicate RearmGuard(g: Graph, id: Id, s: Signal)
    requires WF(g) && id in g.ids
  {
    && (forall y | y in g.ids && y != id && At(g, y).parentId == Some(id) :: StaysTied(g, id, s, y))
    && match At(g, id).parentId
       case None => true
       case Some(p) =>
         || s.reason.Some?
         || (if p == id then Cascade(g.ids[id], id, id) in s.listeners
             else p in g.ids && !Aborted(g, p) && Cascade(g.ids[p], p, id) in SignalOf(g, p).listeners)
  }

  lemma RearmNodes(g: Graph, id: Id, c: AbortController, s: Signal)
    requires Sound(g) && id in g.ids && Current(g, c, s) && ParentsKnown(g, s, g.ids[id])
    ensures var h := RearmF(g, id, c, s);
      && WF(h) && Structured(h)
      && At(h, id) == At(g, id).(controller := c, cascading := false) && SignalOf(h, id) == s
      && forall x | x in g.ids && x != id :: At(h, x) == At(g, x) && SignalOf(h, x) == SignalOf(g, x)
  {
    var h := RearmF(g, id, c, s);
    forall x | x in g.ids && x != id ensures g.ids[x] != g.ids[id] {
      assert At(g, x).controller != At(g, id).controller;
    }
    assert At(h, id) == At(g, id).(controller := c, cascading := false);
    assert forall x | x in g.ids && x != id :: At(h, x) == At(g, x) && SignalOf(h, x) == SignalOf(g, x);
  }

  lemma RearmKeepsRest(g: Graph, id: Id, c: AbortController, s: Signal)
    requires Sound(g) && id in g.ids && Current(g, c, s) && Usable(g, id, c, s, g.ids[id])
    ensures var h := RearmF(g, id, c, s);
      && WF(h) && Structured(h) && Owned(h) && Unmarked(h)
      && At(h, id) == At(g, id).(controller := c, cascading := false) && SignalOf(h, id) == s
      && forall x | x in g.ids && x != id :: At(h, x) == At(g, x) && SignalOf(h, x) == SignalOf(g, x)
  {
    var h := RearmF(g, id, c, s);
    RearmNodes(g, id, c, s);
    forall x, l | x in h.ids && l in SignalOf(h, x).listeners ensures OwnedListener(h, x, l) {
      if x == id {
        assert Belongs(l, id, g.ids[id]);
      } else {
        assert OwnedListener(g, x, l);
      }
    }
  }

  lemma RearmTied(g: Graph, id: Id, c: AbortController, s: Signal, x: Id)
    requires Sound(g) && id in g.ids && Current(g, c, s) && Usable(g, id, c, s, g.ids[id]) && x in g.ids
    ensures WF(RearmF(g, id, c, s))
    ensures x != id ==>
              (Tied(RearmF(g, id, c, s), x) <==> (At(g, x).parentId == Some(id) ==> StaysTied(g, id, s, x)))
  {
    RearmKeepsRest(g, id, c, s);
    assert Tied(g, x);
  }

  /** Rearming keeps the graph sound exactly when the controller is usable for this node and the guard holds. */
  lemma RearmSound(g: Graph, id: Id, c: AbortController, s: Signal)
    requires Sound(g) && id in g.ids && Current(g, c, s)
    ensures Sound(RearmF(g, id, c, s)) <==> Usable(g, id, c, s, g.ids[id]) && RearmGuard(g, id, s)
  {
    var h := RearmF(g, id, c, s);
    if Usable(g, id, c, s, g.ids[id]) {
      RearmKeepsRest(g, id, c, s);
      forall x | x in g.ids && x != id
        ensures Tied(h, x) <==> (At(g, x).parentId == Some(id) ==> StaysTied(g, id, s, x))
      {
        RearmTied(g, id, c, s, x);
      }
    } else if Sound(h) {
      SoundIsUsable(g, id, c, s);
    }
  }

  lemma SoundIsUsable(g: Graph, id: Id, c: AbortController, s: Signal)
    requires Sound(g) && id in g.ids && Current(g, c, s) && Sound(RearmF(g, id, c, s))
    ensures Usable(g, id, c, s, g.ids[id])
  {
    var h := RearmF(g, id, c, s);
    forall x | x in g.ids && x != id ensures At(g, x).controller != c {
      assert At(g, x).controller != At(g, id).controller;
      assert At(h, x) == At(g, x) && At(h, id).controller == c;
    }
    forall l | l in s.listeners ensures Belongs(l, id, g.ids[id]) {
      assert SignalOf(h, id) == s;
      assert OwnedListener(h, id, l);
    }
  }

  /** Why the guard is needed: rearm over a live linked child, abort the new controller, and the child survives. */
  lemma {:induction false} RearmLosesChild(g: Graph, id: Id, c: AbortController, s: Signal, y: Id, arg: Option<Reason>)
    requires Sound(g) && id in g.ids && Fresh(g, c, s) && s.reason.None?
    requires y in g.ids && y != id && At(g, y).parentId == Some(id) && !Aborted(g, y)
    ensures var h := RearmF(g, id, c, s);
      WF(h) && c in h.sigs && !AbortClosed(Fire(h, c, arg))
  {
    var h := RearmF(g, id, c, s);
    RearmKeepsRest(g, id, c, s);
    var k := Fire(h, c, arg);
    var h1 := SetSignal(h, c, Signal(Some(Resolve(arg, c)), []));
    assert h.sigs[c] == s && WF(h1);
    assert k == Dispatch(h1, []) == h1;
    assert At(k, y) == At(h, y) && At(k, id) == At(h, id);
  }

  /** The edge linkChild records: parent and child set agree, everything else is as before. */
  lemma EdgeKeeps(g: Graph, p: Id, c: Id)
    requires Sound(g) && p in g.ids && c in g.ids
    ensures var h := LinkEdge(g, p, c);
      && h.ids == g.ids && h.sigs == g.sigs && h.recs.Keys == g.recs.Keys
      && (forall x | x in g.ids :: At(h, x) == At(g, x).(
            parentId := if x == c then Some(p) else At(g, x).parentId,
            children := if x == p then Add(At(g, x).children, c) else At(g, x).children))
      && Structured(h) && Owned(h) && Unmarked(h)
      && forall x | x in g.ids && x != c :: Tied(h, x)
  {
    var h := LinkEdge(g, p, c);
    forall x, y | x in g.ids && y in g.ids && x != y ensures g.ids[x] != g.ids[y] {
      assert At(g, x).controller != At(g, y).controller;
    }
    forall x | x in g.ids
      ensures At(h, x) == At(g, x).(
                parentId := if x == c then Some(p) else At(g, x).parentId,
                children := if x == p then Add(At(g, x).children, c) else At(g, x).children)
      ensures x != c ==> Tied(h, x)
    {
      assert Tied(g, x);
    }
    OwnedKept(g, h);
  }

  lemma LinkSound(g: Graph, p: Id, c: Id)
    requires Sound(g) && p in g.ids && c in g.ids
    ensures Sound(LinkF(g, p, c))
  {
    var g1 := LinkEdge(g, p, c);
    EdgeKeeps(g, p, c);
    if Aborted(g1, p) {
      if Aborted(g1, c) {
        assert Tied(g1, c);
      } else {
        LinkUnderDead(g1, p, c);
      }
    } else {
      LinkUnderLive(g1, p, c);
    }
  }

  /** The child of a dead parent, marked and fired: every node keeps its links, and c is now dead too. */
  lemma {:induction false} FiredUnderDead(g: Graph, g1: Graph, c: Id, arg: Option<Reason>, x: Id)
    requires WF(g) && Structured(g) && Owned(g) && Unmarked(g) && c in g.ids && x in g.ids
    requires !Aborted(g, c) && (x != c ==> Tied(g, x)) && g1 == SetCascading(g, c)
    requires At(g1, x) == At(g, x).(cascading := At(g, x).cascading || x == c)
    requires At(g, x).parentId.Some? && At(g, x).parentId.value in g.ids ==>
               At(g1, At(g, x).parentId.value).controller == At(g, At(g, x).parentId.value).controller
    ensures var h := Fire(g1, At(g, c).controller, arg);
      && Tied(h, x) && (At(h, x).cascading ==> Aborted(h, x))
      && At(h, x).parentId == At(g, x).parentId && At(h, x).children == At(g, x).children
  {
    var h := Fire(g1, At(g, c).controller, arg);
    FireCompletes(g1, At(g, c).controller, arg);
    ExtendsAt(g1, h, x);
    assert RecordStep(g1, h, g.ids[x]);
    if x != c {
      assert Tied(g1, x);
      ExtendsTied(g1, h, x);
    }
  }

  lemma LinkUnderDead(g: Graph, p: Id, c: Id)
    requires WF(g) && Structured(g) && Owned(g) && Unmarked(g) && p in g.ids && c in g.ids
    requires !Aborted(g, c) && forall x | x in g.ids && x != c :: Tied(g, x)
    ensures Sound(Fire(SetCascading(g, c), At(g, c).controller, SignalOf(g, p).reason))
  {
    var g1 := SetCascading(g, c);
    var arg := SignalOf(g, p).reason;
    var h := Fire(g1, At(g, c).controller, arg);
    forall x | x in g.ids ensures At(g1, x) == At(g, x).(cascading := At(g, x).cascading || x == c) {
      assert x != c ==> At(g, x).controller != At(g, c).controller;
    }
    OwnedKept(g, g1);
    OwnedExtends(g1, h);
    forall x | x in g.ids
      ensures Tied(h, x) && (At(h, x).cascading ==> Aborted(h, x))
      ensures At(h, x).parentId == At(g, x).parentId && At(h, x).children == At(g, x).children
    {
      FiredUnderDead(g, g1, c, arg, x);
    }
  }

  lemma LinkUnderLive(g: Graph, p: Id, c: Id)
    requires WF(g) && Structured(g) && Owned(g) && Unmarked(g) && p in g.ids && c in g.ids
    requires At(g, c).parentId == Some(p) && !Aborted(g, p) && forall x | x in g.ids && x != c :: Tied(g, x)
    ensures Sound(Listen(Listen(g, At(g, p).controller, Cascade(g.ids[p], p, c)), At(g, c).controller, Notify(p, c)))
  {
    var h := Listen(Listen(g, At(g, p).controller, Cascade(g.ids[p], p, c)), At(g, c).controller, Notify(p, c));
    forall x | x in g.ids
      ensures SignalOf(h, x).reason == SignalOf(g, x).reason
      ensures forall l | l in SignalOf(g, x).listeners :: l in SignalOf(h, x).listeners
      ensures forall l | l in SignalOf(h, x).listeners :: OwnedListener(h, x, l)
    {
      assert x != p ==> At(g, x).controller != At(g, p).controller;
      assert x != c ==> At(g, x).controller != At(g, c).controller;
      assert forall l | l in SignalOf(g, x).listeners :: OwnedListener(g, x, l);
    }
    assert Cascade(g.ids[p], p, c) in SignalOf(h, p).listeners;
    forall x | x in h.ids ensures Tied(h, x) {
      assert x != c ==> Tied(g, x);
    }
  }

  /** What dispose leaves: id is gone, its recorded children are orphans, no other parent link changes. */
  lemma {:induction false} DisposeNodes(g: Graph, id: Id)
    requires WF(g) && Structured(g) && Owned(g) && id in g.ids
    ensures var h := DisposeF(g, id);
      && h.ids == g.ids - {id} && h.sigs == g.sigs && h.recs.Keys == g.recs.Keys
      && (forall x | x in h.ids ::
            At(h, x) == At(g, x).(
              parentId := if x in At(g, id).children then None else At(g, x).parentId,
              children := if At(g, id).parentId == Some(x) && x != "" then Remove(At(g, x).children, id)
                          else At(g, x).children))
  {
    var h := DisposeF(g, id);
    var g1 := Detach(g, id);
    forall x, y | x in g.ids && y in g.ids && x != y ensures g.ids[x] != g.ids[y] {
      assert At(g, x).controller != At(g, y).controller;
    }
    forall x | x in h.ids
      ensures At(h, x) == At(g, x).(
              parentId := if x in At(g, id).children then None else At(g, x).parentId,
              children := if At(g, id).parentId == Some(x) && x != "" then Remove(At(g, x).children, id)
                          else At(g, x).children)
    {
      assert x in At(g1, id).children <==> x in At(g, id).children;
      assert Names(g1, At(g1, id).children, g.ids[x]) <==> x in At(g, id).children;
    }
  }

  lemma DisposedNode(g: Graph, id: Id, x: Id)
    requires Sound(g) && id in g.ids && x in g.ids && x != id
    ensures var h := DisposeF(g, id);
      && x in h.ids && SignalOf(h, x) == SignalOf(g, x) && At(h, x).controller == At(g, x).controller
      && (At(h, x).cascading == At(g, x).cascading)
      && Tied(h, x)
      && (At(h, x).parentId.Some? ==> var p := At(h, x).parentId.value; p in h.ids && x in At(h, p).children)
  {
    DisposeNodes(g, id);
    assert Tied(g, x);
  }

  lemma DisposeSound(g: Graph, id: Id)
    requires Sound(g)
    ensures Sound(DisposeF(g, id))
  {
    if id in g.ids {
      var h := DisposeF(g, id);
      assert h.ids == g.ids - {id} by { DisposeNodes(g, id); }
      forall x | x in h.ids
        ensures SignalOf(h, x) == SignalOf(g, x) && At(h, x).controller == At(g, x).controller
        ensures At(h, x).cascading == At(g, x).cascading && Tied(h, x)
        ensures At(h, x).parentId.Some? ==> var p := At(h, x).parentId.value; p in h.ids && x in At(h, p).children
      {
        DisposedNode(g, id, x);
      }
      forall x, l | x in h.ids && l in SignalOf(h, x).listeners ensures OwnedListener(h, x, l) {
        assert OwnedListener(g, x, l);
      }
    }
  }

  lemma RelistSound(g: Graph, r: GraphNode, ts: seq<Token>)
    requires Sound(g) && r in g.recs
    ensures var h := SetNode(g, r, g.recs[r].(listeners := ts));
      && Sound(h) && forall x | x in g.ids :: At(h, x).(listeners := []) == At(g, x).(listeners := [])
  {
    var h := SetNode(g, r, g.recs[r].(listeners := ts));
    assert forall x | x in g.ids :: At(h, x).(listeners := []) == At(g, x).(listeners := []);
    forall x | x in h.ids ensures Tied(h, x) {
      assert Tied(g, x);
      assert At(h, x).(listeners := []) == At(g, x).(listeners := []);
    }
    OwnedKept(g, h);
  }

  // ----- runs

  datatype Op =
    | Register(id: Id, c: AbortController, s: Signal, r: GraphNode)
    | Rearm(id: Id, c: AbortController, s: Signal)
    | Link(parentId: Id, childId: Id)
    | Subscribe(id: Id, t: Token)
    | Unsubscribe(r: GraphNode, t: Token)
    | Abort(id: Id, arg: Option<Reason>)
    | Direct(c: AbortController, arg: Option<Reason>)
    | Dispose(id: Id)

  /** Registrations bring new records; a controller given to register or rearm is usable for that id, and rearm
      is used with discipline. */
  ghost predicate Allowed(g: Graph, op: Op)
    requires WF(g)
  {
    match op
    case Register(id, c, s, r) => id !in g.ids ==> Current(g, c, s) && Usable(g, id, c, s, r) && r !in g.recs
    case Rearm(id, c, s) =>
      id in g.ids ==> Current(g, c, s) && Usable(g, id, c, s, g.ids[id]) && RearmGuard(g, id, s)
    case Unsubscribe(r, _) => r in g.recs
    case Direct(c, _) => c in g.sigs
    case _ => true
  }

  /** An operation that throws leaves the graph alone. */
  ghost function Apply(g: Graph, op: Op): Graph
    requires WF(g) && Allowed(g, op)
  {
    match op
    case Register(id, c, s, r) => RegisterF(g, id, c, s, r)
    case Rearm(id, c, s) => if id in g.ids then RearmF(g, id, c, s) else g
    case Link(p, c) => if p in g.ids && c in g.ids then LinkF(g, p, c) else g
    case Subscribe(id, t) => if id in g.ids then SubscribeF(g, id, t) else g
    case Unsubscribe(r, t) => UnsubscribeF(g, r, t)
    case Abort(id, arg) => AbortF(g, id, arg)
    case Direct(c, arg) => Fire(g, c, arg)
    case Dispose(id) => DisposeF(g, id)
  }

  lemma ApplySound(g: Graph, op: Op)
    requires Sound(g) && Allowed(g, op)
    ensures Sound(Apply(g, op))
  {
    match op
    case Register(id, c, s, r) => if id !in g.ids { RegisterSound(g, id, c, s, r); }
    case Rearm(id, c, s) => if id in g.ids { RearmSound(g, id, c, s); }
    case Link(p, c) => if p in g.ids && c in g.ids { LinkSound(g, p, c); }
    case Subscribe(id, t) =>
      if id in g.ids { RelistSound(g, g.ids[id], SubscribeF(g, id, t).recs[g.ids[id]].listeners); }
    case Unsubscribe(r, t) => RelistSound(g, r, Remove(g.recs[r].listeners, t));
    case Abort(id, arg) => AbortSound(g, id, arg);
    case Direct(c, arg) => DirectSound(g, c, arg);
    case Dispose(id) => DisposeSound(g, id);
  }

  /** Links, registrations, subscriptions and disposal leave the marks of aborted nodes as they are; a rearmed node
      loses its mark. */
  lemma PassiveMarks(g: Graph, op: Op, x: Id)
    requires Sound(g) && Allowed(g, op) && x in g.ids && Aborted(g, x) && !At(g, x).cascading
    requires !op.Abort? && !op.Direct? && !op.Link?
    ensures WF(Apply(g, op)) && (x in Apply(g, op).ids ==> !At(Apply(g, op), x).cascading)
  {
    match op
    case Register(id, c, s, r) => if id !in g.ids { RegisterSound(g, id, c, s, r); }
    case Rearm(id, c, s) => if id in g.ids { RearmNodes(g, id, c, s); }
    case Subscribe(id, t) =>
      if id in g.ids { RelistSound(g, g.ids[id], SubscribeF(g, id, t).recs[g.ids[id]].listeners); }
    case Unsubscribe(r, t) => RelistSound(g, r, Remove(g.recs[r].listeners, t));
    case Dispose(id) => if id in g.ids { DisposeNodes(g, id); }
  }

  lemma LinkMarks(g: Graph, p: Id, c: Id, x: Id)
    requires Sound(g) && p in g.ids && c in g.ids && x in g.ids && Aborted(g, x) && !At(g, x).cascading
    ensures x in LinkF(g, p, c).ids && !At(LinkF(g, p, c), x).cascading
  {
    var g1 := LinkEdge(g, p, c);
    EdgeKeeps(g, p, c);
    if Aborted(g1, p) && !Aborted(g1, c) {
      var g2 := SetCascading(g1, c);
      assert At(g1, x).controller != At(g1, c).controller;
      assert At(g2, x) == At(g1, x);
      ExtendsAt(g2, LinkF(g, p, c), x);
    }
  }

  /** Over every operation: a node that was aborted on its own, and so is not marked, becomes cascading exactly when
      `abort` is called on a live node above it. */
  lemma MarkedLaterExactly(g: Graph, op: Op, x: Id)
    requires Sound(g) && Allowed(g, op) && x in g.ids && Aborted(g, x) && !At(g, x).cascading
    ensures WF(Apply(g, op))
    ensures x in Apply(g, op).ids && At(Apply(g, op), x).cascading <==>
              op.Abort? && op.id in g.ids && !Aborted(g, op.id) && Descendant(g, op.id, x)
  {
    match op
    case Abort(id, arg) => if id in g.ids && !Aborted(g, id) { AbortExact(g, id, arg, x); }
    case Direct(c, arg) => ExtendsAt(g, Fire(g, c, arg), x);
    case Link(p, c) => if p in g.ids && c in g.ids { LinkMarks(g, p, c, x); }
    case _ => PassiveMarks(g, op, x);
  }

  const EMPTY := Graph(map[], map[], map[], [], [])

  /** states is the history of a run from the empty graph under ops. */
  ghost predicate IsRun(states: seq<Graph>, ops: seq<Op>) {
    && |states| == |ops| + 1 && states[0] == EMPTY
    && forall i | 0 <= i < |ops| ::
         WF(states[i]) && Allowed(states[i], ops[i]) && states[i + 1] == Apply(states[i], ops[i])
  }

  /** After any run no live node has an aborted recorded parent, and the graph is sound. */
  lemma {:induction false} RunSound(states: seq<Graph>, ops: seq<Op>, n: nat)
    requires IsRun(states, ops) && n <= |ops|
    ensures Sound(states[n]) && AbortClosed(states[n])
    decreases n
  {
    if n > 0 {
      RunSound(states, ops, n - 1);
      ApplySound(states[n - 1], ops[n - 1]);
    }
    SoundIsClosed(states[n]);
  }
}
