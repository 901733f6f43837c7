/**
  Which subscribed callbacks an abort calls: only those of the recorded parent of the node
  that was aborted first, once for every Notify closure made for that parent.
 */
module AbortNotice {
  import opened Wrappers
  import opened AbortModel
  import opened AbortCascade

  /** A Notify closure that stays silent because its child is marked as part of a cascade. */
  ghost predicate Muted(g: Graph, l: Listener)
    requires WF(g)
  {
    l.Notify? && l.childId in g.ids ==> At(g, l.childId).cascading
  }

  function Repeat(n: nat, s: seq<Event>): seq<Event> {
    if n == 0 then [] else s + Repeat(n - 1, s)
  }

  /** The calls owed when x, whose listeners are ls, aborts with reason rho as the first of its cascade. */
  ghost function Owed(g: Graph, x: Id, ls: seq<Listener>, rho: Reason): seq<Event>
    requires WF(g) && x in g.ids
  {
    match At(g, x).parentId
    case None => []
    case Some(p) =>
      if At(g, x).cascading || p !in g.ids then []
      else Repeat(multiset(ls)[Notify(p, x)], Calls(At(g, p).listeners, p, x, Some(rho)))
  }

  lemma OwnedKept(g: Graph, h: Graph)
    requires WF(g) && WF(h) && Owned(g) && h.ids == g.ids
    requires forall x | x in g.ids ::
               && At(h, x).controller == At(g, x).controller
               && forall l | l in SignalOf(h, x).listeners :: l in SignalOf(g, x).listeners
    ensures Owned(h)
  {
    forall x, l | x in h.ids && l in SignalOf(h, x).listeners ensures OwnedListener(h, x, l) {
      assert OwnedListener(g, x, l);
    }
  }

  lemma OwnedExtends(g: Graph, h: Graph)
    requires WF(g) && WF(h) && Owned(g) && Extends(g, h)
    ensures Owned(h)
  {
    forall x | x in g.ids
      ensures At(h, x).controller == At(g, x).controller
      ensures forall l | l in SignalOf(h, x).listeners :: l in SignalOf(g, x).listeners
    {
      ExtendsAt(g, h, x);
    }
    OwnedKept(g, h);
  }

  lemma {:induction false} FireQuiet(g: Graph, c: AbortController, arg: Option<Reason>)
    requires WF(g) && c in g.sigs && Owned(g)
    requires forall l | l in g.sigs[c].listeners :: Muted(g, l)
    ensures Fire(g, c, arg).notified == g.notified
    decreases Live(g), 0, 0
  {
    if g.sigs[c].reason.None? {
      var g1 := SetSignal(g, c, Signal(Some(Resolve(arg, c)), []));
      assert Extends(g, g1);
      ExtendsWF(g, g1);
      assert c in Live(g) && c !in Live(g1);
      OwnedExtends(g, g1);
      forall l | l in g.sigs[c].listeners ensures Muted(g1, l) {
        assert Muted(g, l);
      }
      DispatchQuiet(g1, g.sigs[c].listeners);
    }
  }

  lemma {:induction false} DispatchQuiet(g: Graph, ls: seq<Listener>)
    requires WF(g) && Owned(g)
    requires forall l | l in ls && l.Cascade? :: l.parent in g.recs
    requires forall l | l in ls :: Muted(g, l)
    ensures Dispatch(g, ls).notified == g.notified
    decreases Live(g), |ls|, 2
  {
    if ls != [] {
      var g1 := RunListener(g, ls[0]);
      ExtendsWF(g, g1);
      OwnedExtends(g, g1);
      RunQuiet(g, ls[0]);
      forall l | l in ls[1..] ensures Muted(g1, l) {
        assert Muted(g, l);
        if l.childId in g.ids {
          ExtendsAt(g, g1, l.childId);
        }
      }
      DispatchQuiet(g1, ls[1..]);
    }
  }

  lemma {:induction false} RunQuiet(g: Graph, l: Listener)
    requires WF(g) && Owned(g) && (l.Cascade? ==> l.parent in g.recs) && Muted(g, l)
    ensures RunListener(g, l).notified == g.notified
    decreases Live(g), 0, 1
  {
    if l.Cascade? && Effective(g, l) && !Aborted(g, l.childId) {
      var y := l.childId;
      var g1 := SetCascading(g, y);
      assert Live(g1) == Live(g);
      assert forall x | x in g.ids :: At(g1, x) == At(g, x) || At(g1, x) == At(g, x).(cascading := true);
      OwnedKept(g, g1);
      forall k | k in SignalOf(g, y).listeners ensures Muted(g1, k) {
        assert OwnedListener(g, y, k);
      }
      FireQuiet(g1, At(g, y).controller, g.sigs[g.recs[l.parent].controller].reason);
    }
  }

  lemma OwedCons(g: Graph, x: Id, l: Listener, ls: seq<Listener>)
    requires WF(g) && x in g.ids && Aborted(g, x) && (l.Notify? ==> l.childId == x)
    ensures var rho := SignalOf(g, x).reason.value;
            Owed(g, x, [l] + ls, rho) == Announce(g, l) + Owed(g, x, ls, rho)
  {
    var p := At(g, x).parentId;
    if p.Some? {
      var n := Notify(p.value, x);
      assert multiset([l] + ls) == multiset([l]) + multiset(ls);
      assert multiset([l] + ls)[n] == (if l == n then 1 else 0) + multiset(ls)[n];
    }
  }

  lemma OwedKept(g: Graph, h: Graph, x: Id, ls: seq<Listener>, rho: Reason)
    requires WF(g) && WF(h) && Extends(g, h) && x in g.ids && Aborted(g, x)
    ensures Owed(h, x, ls, rho) == Owed(g, x, ls, rho)
  {
    ExtendsAt(g, h, x);
    var p := At(g, x).parentId;
    if p.Some? && p.value in g.ids {
      ExtendsAt(g, h, p.value);
    }
  }

  lemma {:induction false} RunAnnounces(g: Graph, l: Listener)
    requires WF(g) && Owned(g) && (l.Cascade? ==> l.parent in g.recs)
    ensures RunListener(g, l).notified == g.notified + Announce(g, l)
  {
    if l.Cascade? {
      RunQuiet(g, l);
    }
  }

  lemma {:induction false} RunKeepsNode(g: Graph, x: Id, l: Listener)
    requires WF(g) && Owned(g) && x in g.ids && Aborted(g, x) && (l.Cascade? ==> l.parent in g.recs)
    ensures var h := RunListener(g, l);
      Owned(h) && x in h.ids && SignalOf(h, x) == SignalOf(g, x)
  {
    var h := RunListener(g, l);
    OwnedExtends(g, h);
    ExtendsAt(g, h, x);
  }

  /** One listener's share of what is owed, and the facts the rest of the dispatch needs. */
  lemma {:induction false} RunOwes(g: Graph, x: Id, l: Listener, ls: seq<Listener>)
    requires WF(g) && Owned(g) && x in g.ids && Aborted(g, x)
    requires (l.Cascade? ==> l.parent in g.recs) && (l.Notify? ==> l.childId == x)
    ensures var h := RunListener(g, l);
            var rho := SignalOf(g, x).reason.value;
            && WF(h) && Extends(g, h) && Owned(h) && x in h.ids && SignalOf(h, x) == SignalOf(g, x)
            && h.notified + Owed(h, x, ls, rho) == g.notified + Owed(g, x, [l] + ls, rho)
  {
    var h := RunListener(g, l);
    var rho := SignalOf(g, x).reason.value;
    RunKeepsNode(g, x, l);
    assert h.notified + Owed(h, x, ls, rho) == g.notified + Owed(g, x, [l] + ls, rho) by {
      RunAnnounces(g, l);
      OwedKept(g, h, x, ls, rho);
      OwedCons(g, x, l, ls);
      Regroup(g.notified, Announce(g, l), Owed(g, x, ls, rho));
    }
  }

  lemma Regroup(a: seq<Event>, b: seq<Event>, c: seq<Event>)
    ensures (a + b) + c == a + (b + c)
  {
  }

  lemma {:induction false} DispatchOwes(g: Graph, x: Id, ls: seq<Listener>)
    requires WF(g) && Owned(g) && x in g.ids && Aborted(g, x)
    requires forall l | l in ls && l.Cascade? :: l.parent in g.recs
    requires forall l | l in ls && l.Notify? :: l.childId == x
    ensures Dispatch(g, ls).notified == g.notified + Owed(g, x, ls, SignalOf(g, x).reason.value)
    decreases |ls|
  {
    if ls == [] {
      assert Owed(g, x, ls, SignalOf(g, x).reason.value) == [];
    } else {
      var g1 := RunListener(g, ls[0]);
      RunOwes(g, x, ls[0], ls[1..]);
      assert ls == [ls[0]] + ls[1..];
      DispatchOwes(g1, x, ls[1..]);
    }
  }

  /** Aborting x while it is live sends exactly what is owed to its recorded parent; the rest of the cascade is
      silent. */
  lemma {:induction false} FireOwes(g: Graph, x: Id, arg: Option<Reason>)
    requires WF(g) && Owned(g) && x in g.ids && !Aborted(g, x)
    ensures var c := At(g, x).controller;
            Fire(g, c, arg).notified == g.notified + Owed(g, x, SignalOf(g, x).listeners, Resolve(arg, c))
  {
    var c := At(g, x).controller;
    var ls := SignalOf(g, x).listeners;
    var g1 := SetSignal(g, c, Signal(Some(Resolve(arg, c)), []));
    assert Extends(g, g1);
    ExtendsWF(g, g1);
    OwnedExtends(g, g1);
    forall l | l in ls && l.Notify? ensures l.childId == x {
      assert OwnedListener(g, x, l);
    }
    DispatchOwes(g1, x, ls);
  }

  lemma {:induction false} FireMarked(g: Graph, x: Id, arg: Option<Reason>)
    requires WF(g) && Owned(g) && x in g.ids && At(g, x).cascading
    ensures Fire(g, At(g, x).controller, arg).notified == g.notified
  {
    forall l | l in SignalOf(g, x).listeners ensures Muted(g, l) {
      assert OwnedListener(g, x, l);
    }
    FireQuiet(g, At(g, x).controller, arg);
  }

  lemma {:induction false} MopUpQuiet(g: Graph, ids: seq<Id>, arg: Option<Reason>)
    requires WF(g) && Owned(g)
    requires forall x | x in ids && x in g.ids :: At(g, x).cascading
    ensures MopUp(g, ids, arg).notified == g.notified
    decreases |ids|
  {
    if ids != [] {
      var g1 := g;
      if ids[0] in g.ids {
        FireMarked(g, ids[0], arg);
        g1 := Fire(g, At(g, ids[0]).controller, arg);
        OwnedExtends(g, g1);
      }
      forall y | y in ids[1..] && y in g1.ids ensures At(g1, y).cascading {
        ExtendsAt(g, g1, y);
      }
      MopUpQuiet(g1, ids[1..], arg);
    }
  }
}
