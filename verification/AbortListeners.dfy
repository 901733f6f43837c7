/** Subscriptions: who listens after onChildAborted and after unsubscribing, and that a listener hears of a child's
    abort exactly once. */
module AbortListeners {
  import opened Wrappers
  import opened AbortModel
  import opened AbortCascade
  import opened AbortReach
  import opened AbortTheorems
  import opened AbortRuns
  import opened AbortForest

  // ----- the listeners of a record are a set

  /** No record, registered or not, lists a listener twice. */
  ghost predicate Single(g: Graph) {
    forall r | r in g.recs :: Distinct(g.recs[r].listeners)
  }

  /** Records of h have the listeners they had in g; new ones have none. */
  ghost predicate SameListeners(g: Graph, h: Graph) {
    forall r | r in h.recs :: h.recs[r].listeners == if r in g.recs then g.recs[r].listeners else []
  }

  lemma ExtendsListeners(g: Graph, h: Graph)
    requires WF(g) && Extends(g, h)
    ensures SameListeners(g, h)
  {
    forall r | r in h.recs ensures h.recs[r].listeners == g.recs[r].listeners {
      assert RecordStep(g, h, r);
    }
  }

  lemma LinkListeners(g: Graph, p: Id, c: Id)
    requires WF(g) && p in g.ids && c in g.ids
    ensures SameListeners(g, LinkF(g, p, c))
  {
    var e := LinkEdge(g, p, c);
    assert SameListeners(g, e);
    if Aborted(e, p) && !Aborted(e, c) {
      var m := SetCascading(e, c);
      assert SameListeners(e, m);
      ExtendsListeners(m, LinkF(g, p, c));
    }
  }

  lemma AbortKeepsListeners(g: Graph, id: Id, arg: Option<Reason>)
    requires WF(g)
    ensures SameListeners(g, AbortF(g, id, arg))
  {
    if id in g.ids && !Aborted(g, id) {
      assert SameListeners(g, MarkAll(g, id, arg));
      ExtendsListeners(MarkAll(g, id, arg), AbortF(g, id, arg));
    }
  }

  lemma {:induction false} RemoveDistinct(s: seq<Token>, t: Token)
    requires Distinct(s)
    ensures Distinct(Remove(s, t))
  {
    if s != [] {
      var rest := Remove(s[1..], t);
      RemoveDistinct(s[1..], t);
      assert forall y | y in rest :: y in s[1..];
      assert forall y | y in s[1..] :: y != s[0];
      assert s[0] !in rest;
      assert Distinct([s[0]] + rest);
    }
  }

  /** Only subscribing and unsubscribing touch the listeners of a record. */
  lemma PassiveListeners(g: Graph, op: Op)
    requires WF(g) && Allowed(g, op) && !op.Subscribe? && !op.Unsubscribe?
    ensures SameListeners(g, Apply(g, op))
  {
    match op
    case Link(p, c) => if p in g.ids && c in g.ids { LinkListeners(g, p, c); }
    case Abort(id, arg) => AbortKeepsListeners(g, id, arg);
    case Direct(c, arg) => ExtendsListeners(g, Fire(g, c, arg));
    case _ =>
  }

  lemma ApplySingle(g: Graph, op: Op)
    requires WF(g) && Allowed(g, op) && Single(g)
    ensures Single(Apply(g, op))
  {
    match op
    case Unsubscribe(r, t) => RemoveDistinct(g.recs[r].listeners, t);
    case Subscribe(id, t) =>
    case _ =>
      PassiveListeners(g, op);
      assert Single(Apply(g, op)) by {
        forall r | r in Apply(g, op).recs ensures Distinct(Apply(g, op).recs[r].listeners) {
          assert r in g.recs ==> Distinct(g.recs[r].listeners);
        }
      }
  }

  /** After any run no record lists a listener twice. */
  lemma {:induction false} RunSingle(states: seq<Graph>, ops: seq<Op>, n: nat)
    requires IsRun(states, ops) && n <= |ops|
    ensures Single(states[n])
    decreases n
  {
    if n > 0 {
      RunSingle(states, ops, n - 1);
      ApplySingle(states[n - 1], ops[n - 1]);
    }
  }

  // ----- subscribing and unsubscribing

  /** h is g with other listeners on the record r. */
  ghost predicate OnlyRelisted(g: Graph, h: Graph, r: GraphNode) {
    && h.ids == g.ids && h.sigs == g.sigs && h.notified == g.notified && h.trace == g.trace
    && h.recs.Keys == g.recs.Keys && r in g.recs
    && h.recs[r].(listeners := []) == g.recs[r].(listeners := [])
    && forall q | q in g.recs && q != r :: h.recs[q] == g.recs[q]
  }

  /** After subscribing, exactly the old listeners and the new one listen to the node; nothing else changes. */
  lemma Subscribed(g: Graph, id: Id, t: Token)
    requires WF(g) && id in g.ids
    ensures var h := SubscribeF(g, id, t);
      && WF(h) && OnlyRelisted(g, h, g.ids[id])
      && (forall u :: u in At(h, id).listeners <==> u == t || u in At(g, id).listeners)
      && At(g, id).listeners <= At(h, id).listeners
  {
  }

  /** After unsubscribing, exactly the other listeners listen to that record; nothing else changes. */
  lemma Unsubscribed(g: Graph, r: GraphNode, t: Token)
    requires WF(g) && r in g.recs
    ensures var h := UnsubscribeF(g, r, t);
      && WF(h) && OnlyRelisted(g, h, r)
      && (forall u :: u in h.recs[r].listeners <==> u != t && u in g.recs[r].listeners)
  {
  }

  lemma {:induction false} RemoveAdded(s: seq<Token>, t: Token)
    requires t !in s
    ensures Remove(s + [t], t) == s
  {
    if s == [] {
      assert Remove([t], t) == [] + Remove([t][1..], t);
    } else {
      assert (s + [t])[1..] == s[1..] + [t];
      RemoveAdded(s[1..], t);
    }
  }

  /** Unsubscribing undoes subscribing a new listener. */
  lemma UnsubscribeUndoes(g: Graph, id: Id, t: Token)
    requires WF(g) && id in g.ids && t !in At(g, id).listeners
    ensures UnsubscribeF(SubscribeF(g, id, t), g.ids[id], t) == g
  {
    RemoveAdded(At(g, id).listeners, t);
    assert UnsubscribeF(SubscribeF(g, id, t), g.ids[id], t).recs == g.recs;
  }

  // ----- hearing of an abort

  /** How often t is called in the events from index n on. */
  function Heard(events: seq<Event>, t: Token): nat {
    if events == [] then 0 else (if events[0].listener == t then 1 else 0) + Heard(events[1..], t)
  }

  lemma {:induction false} CallsHeard(ts: seq<Token>, p: Id, c: Id, reason: Option<Reason>, t: Token)
    requires Distinct(ts)
    ensures Heard(Calls(ts, p, c, reason), t) == if t in ts then 1 else 0
  {
    if ts != [] {
      var calls := Calls(ts, p, c, reason);
      assert calls[1..] == Calls(ts[1..], p, c, reason);
      CallsHeard(ts[1..], p, c, reason, t);
      assert forall y | y in ts[1..] :: y != ts[0];
    }
  }

  /** What the listeners of x's recorded parent are told when x aborts with arg. */
  ghost function Told(g: Graph, x: Id, arg: Option<Reason>): seq<Event>
    requires WF(g) && x in g.ids
  {
    match At(g, x).parentId
    case None => []
    case Some(p) =>
      if p in g.ids then Calls(At(g, p).listeners, p, x, Some(Resolve(arg, At(g, x).controller))) else []
  }

  lemma AbortTells(g: Graph, x: Id, arg: Option<Reason>)
    requires Sound(g) && Neat(g) && x in g.ids && !Aborted(g, x)
    ensures AbortF(g, x, arg).notified == g.notified + Told(g, x, arg)
    ensures At(g, x).parentId.Some? ==> At(g, x).parentId.value in g.ids
  {
    AbortNotifiesOnce(g, x, arg);
  }

  lemma {:induction false} ToldOnce(g: Graph, x: Id, arg: Option<Reason>, t: Token)
    requires WF(g) && Single(g) && x in g.ids
    ensures Heard(Told(g, x, arg), t) ==
              match At(g, x).parentId
              case None => 0
              case Some(p) => if p in g.ids && t in At(g, p).listeners then 1 else 0
  {
    match At(g, x).parentId
    case None =>
    case Some(p) =>
      if p in g.ids {
        assert Distinct(g.recs[g.ids[p]].listeners);
        CallsHeard(At(g, p).listeners, p, x, Some(Resolve(arg, At(g, x).controller)), t);
      }
  }

  lemma RelistSingle(g: Graph, r: GraphNode, ts: seq<Token>)
    requires Sound(g) && Neat(g) && Single(g) && r in g.recs && Distinct(ts)
    ensures var h := SetNode(g, r, g.recs[r].(listeners := ts));
      && Sound(h) && Neat(h) && Single(h)
      && forall x | x in g.ids :: At(h, x).(listeners := []) == At(g, x).(listeners := [])
  {
    RelistSound(g, r, ts);
    RelistNeat(g, r, ts);
  }

  /** Subscribe, then abort a live child: the subscriber is called exactly once. */
  lemma SubscriberHears(g: Graph, p: Id, x: Id, t: Token, arg: Option<Reason>) returns (events: seq<Event>)
    requires Sound(g) && Neat(g) && Single(g) && p in g.ids && x in g.ids && !Aborted(g, x)
    requires At(g, x).parentId == Some(p)
    ensures AbortF(SubscribeF(g, p, t), x, arg).notified == g.notified + events && Heard(events, t) == 1
  {
    var h := SubscribeF(g, p, t);
    ApplySingle(g, Subscribe(p, t));
    RelistSingle(g, g.ids[p], At(h, p).listeners);
    assert SignalOf(h, x) == SignalOf(g, x) && At(h, x).parentId == Some(p);
    events := Told(h, x, arg);
    AbortTells(h, x, arg);
    ToldOnce(h, x, arg, t);
  }

  /** Unsubscribe, then abort a live child: the former subscriber is not called. */
  lemma FormerSubscriberIsSilent(g: Graph, p: Id, x: Id, t: Token, arg: Option<Reason>) returns (events: seq<Event>)
    requires Sound(g) && Neat(g) && Single(g) && p in g.ids && x in g.ids && !Aborted(g, x)
    requires At(g, x).parentId == Some(p)
    ensures AbortF(UnsubscribeF(g, g.ids[p], t), x, arg).notified == g.notified + events && Heard(events, t) == 0
  {
    var h := UnsubscribeF(g, g.ids[p], t);
    RemoveDistinct(At(g, p).listeners, t);
    RelistSingle(g, g.ids[p], At(h, p).listeners);
    assert SignalOf(h, x) == SignalOf(g, x) && At(h, x).parentId == Some(p);
    events := Told(h, x, arg);
    AbortTells(h, x, arg);
    ToldOnce(h, x, arg, t);
  }
}
