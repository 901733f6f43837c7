/**
  What firing one controller does: completeness (no listener that should abort a child is
  missed), containment (nothing outside a closed region is aborted, and with which reason)
  and which notifications are sent.
 */
module AbortCascade {
  import opened Wrappers
  import opened AbortModel

  ghost predicate OwnedListener(g: Graph, x: Id, l: Listener)
    requires x in g.ids
  {
    match l
    case Cascade(parent, parentId, _) => parent == g.ids[x] && parentId == x
    case Notify(_, childId) => childId == x
  }

  /** Registered nodes have different controllers, and a node's controller carries only closures made for it. */
  ghost predicate Owned(g: Graph)
    requires WF(g)
  {
    && (forall x, y | x in g.ids && y in g.ids && x != y :: At(g, x).controller != At(g, y).controller)
    && (forall x, l | x in g.ids && l in SignalOf(g, x).listeners :: OwnedListener(g, x, l))
  }

  // ----- completeness

  ghost predicate NewlyAborted(g: Graph, h: Graph, c: AbortController) {
    && c in g.sigs && c in h.sigs
    && g.sigs[c].reason.None? && h.sigs[c].reason.Some?
  }

  /** If l is a cascade closure that still holds, its child is aborted. */
  ghost predicate Done(g: Graph, l: Listener)
    requires WF(g)
  {
    l.Cascade? && Effective(g, l) ==> Aborted(g, l.childId)
  }

  /** Every cascade closure of a controller aborted between g and h has had its effect in h. */
  ghost predicate Settled(g: Graph, h: Graph)
    requires WF(h)
  {
    forall c, l | c in g.sigs && NewlyAborted(g, h, c) && l in g.sigs[c].listeners :: Done(h, l)
  }

  lemma ExtendsAt(g: Graph, h: Graph, x: Id)
    requires WF(g) && WF(h) && Extends(g, h) && x in g.ids
    ensures At(h, x).(cascading := At(g, x).cascading) == At(g, x)
    ensures At(g, x).cascading ==> At(h, x).cascading
    ensures Aborted(g, x) ==> At(h, x) == At(g, x) && SignalOf(h, x) == SignalOf(g, x)
    ensures SignalStep(g, h, At(g, x).controller)
  {
    assert RecordStep(g, h, g.ids[x]);
    assert SignalStep(g, h, At(g, x).controller);
  }

  lemma DoneKept(g: Graph, h: Graph, l: Listener)
    requires WF(g) && WF(h) && Extends(g, h) && Done(g, l)
    ensures Done(h, l)
  {
    if l.childId in g.ids {
      ExtendsAt(g, h, l.childId);
    }
  }

  lemma SettledTrans(g: Graph, h: Graph, k: Graph)
    requires WF(g) && WF(h) && WF(k) && Extends(g, h) && Extends(h, k)
    requires Settled(g, h) && Settled(h, k)
    ensures Settled(g, k)
  {
    forall c, l | NewlyAborted(g, k, c) && l in g.sigs[c].listeners ensures Done(k, l) {
      assert SignalStep(g, h, c);
      if NewlyAborted(g, h, c) {
        DoneKept(h, k, l);
      } else {
        assert NewlyAborted(h, k, c);
      }
    }
  }

  lemma {:induction false} FireCompletes(g: Graph, c: AbortController, arg: Option<Reason>)
    requires WF(g) && c in g.sigs
    ensures Settled(g, Fire(g, c, arg))
    decreases Live(g), 0, 0
  {
    if g.sigs[c].reason.None? {
      var g1 := SetSignal(g, c, Signal(Some(Resolve(arg, c)), []));
      assert Extends(g, g1);
      ExtendsWF(g, g1);
      assert c in Live(g) && c !in Live(g1);
      DispatchCompletes(g1, g.sigs[c].listeners);
      var h := Fire(g, c, arg);
      forall d, l | NewlyAborted(g, h, d) && l in g.sigs[d].listeners ensures Done(h, l) {
        if d != c {
          assert NewlyAborted(g1, h, d);
        }
      }
    }
  }

  lemma {:induction false} DispatchCompletes(g: Graph, ls: seq<Listener>)
    requires WF(g)
    requires forall l | l in ls && l.Cascade? :: l.parent in g.recs
    ensures Settled(g, Dispatch(g, ls))
    ensures forall l | l in ls :: Done(Dispatch(g, ls), l)
    decreases Live(g), |ls|, 2
  {
    if ls != [] {
      var g1 := RunListener(g, ls[0]);
      var h := Dispatch(g, ls);
      ExtendsWF(g, g1);
      RunCompletes(g, ls[0]);
      DispatchCompletes(g1, ls[1..]);
      SettledTrans(g, g1, h);
      DoneKept(g1, h, ls[0]);
    }
  }

  lemma {:induction false} RunCompletes(g: Graph, l: Listener)
    requires WF(g) && (l.Cascade? ==> l.parent in g.recs)
    ensures Settled(g, RunListener(g, l)) && Done(RunListener(g, l), l)
    decreases Live(g), 0, 1
  {
    if l.Cascade? && Effective(g, l) && !Aborted(g, l.childId) {
      var g1 := SetCascading(g, l.childId);
      var c := At(g, l.childId).controller;
      assert Live(g1) == Live(g);
      var arg := g.sigs[g.recs[l.parent].controller].reason;
      FireCompletes(g1, c, arg);
      var h := Fire(g1, c, arg);
      assert h == RunListener(g, l);
      forall d, k | NewlyAborted(g, h, d) && k in g.sigs[d].listeners ensures Done(h, k) {
        assert NewlyAborted(g1, h, d);
      }
      ExtendsAt(g1, h, l.childId);
    }
  }

  // ----- containment

  /** Listener l can abort only children in region, and would give them the reason of controller c. */
  ghost predicate Inside(g: Graph, c: AbortController, l: Listener, region: set<Id>)
    requires WF(g)
  {
    l.Cascade? && Effective(g, l) && !Aborted(g, l.childId) ==>
      && l.childId in region
      && l.parent in g.recs && g.recs[l.parent].controller == c
  }

  /** The cascade closures on the controllers of a region stay in the region. */
  ghost predicate Region(g: Graph, region: set<Id>)
    requires WF(g)
  {
    forall x, l | x in region && x in g.ids && l in SignalOf(g, x).listeners ::
      Inside(g, At(g, x).controller, l, region)
  }

  ghost predicate InRegion(g: Graph, c: AbortController, region: set<Id>)
    requires WF(g)
  {
    exists x :: x in region && x in g.ids && At(g, x).controller == c
  }

  /** Between g and h only controllers of the region (and c) were aborted, all with reason rho, and only
      records of the region were marked. */
  ghost predicate Within(g: Graph, h: Graph, region: set<Id>, c: AbortController, rho: Reason)
    requires WF(g) && WF(h)
  {
    && (forall d | d in g.sigs && NewlyAborted(g, h, d) ::
          (d == c || InRegion(g, d, region)) && h.sigs[d].reason == Some(rho))
    && (forall r | r in g.recs && r in h.recs && h.recs[r] != g.recs[r] ::
          exists x :: x in region && x in g.ids && g.ids[x] == r)
  }

  lemma InsideKept(g: Graph, h: Graph, c: AbortController, l: Listener, region: set<Id>)
    requires WF(g) && WF(h) && Extends(g, h) && Inside(g, c, l, region)
    ensures Inside(h, c, l, region)
  {
    if l.childId in g.ids {
      ExtendsAt(g, h, l.childId);
    }
    if l.Cascade? && l.parent in g.recs {
      assert RecordStep(g, h, l.parent);
    }
  }

  lemma RegionKept(g: Graph, h: Graph, region: set<Id>)
    requires WF(g) && WF(h) && Extends(g, h) && Region(g, region)
    ensures Region(h, region)
  {
    forall x, l | x in region && x in h.ids && l in SignalOf(h, x).listeners
      ensures Inside(h, At(h, x).controller, l, region)
    {
      ExtendsAt(g, h, x);
      assert l in SignalOf(g, x).listeners;
      InsideKept(g, h, At(g, x).controller, l, region);
    }
  }

  lemma InRegionKept(g: Graph, h: Graph, c: AbortController, region: set<Id>)
    requires WF(g) && WF(h) && Extends(g, h) && InRegion(h, c, region)
    ensures InRegion(g, c, region)
  {
    var x :| x in region && x in h.ids && At(h, x).controller == c;
    ExtendsAt(g, h, x);
  }

  lemma WithinTrans(g: Graph, h: Graph, k: Graph, region: set<Id>, c: AbortController, rho: Reason)
    requires WF(g) && WF(h) && WF(k) && Extends(g, h) && Extends(h, k)
    requires Within(g, h, region, c, rho) && Within(h, k, region, c, rho)
    ensures Within(g, k, region, c, rho)
  {
    forall d | NewlyAborted(g, k, d)
      ensures (d == c || InRegion(g, d, region)) && k.sigs[d].reason == Some(rho)
    {
      assert SignalStep(g, h, d) && SignalStep(h, k, d);
      if NewlyAborted(h, k, d) {
        if d != c {
          InRegionKept(g, h, d, region);
        }
      } else {
        assert NewlyAborted(g, h, d);
      }
    }
    forall r | r in g.recs && r in k.recs && k.recs[r] != g.recs[r]
      ensures exists x :: x in region && x in g.ids && g.ids[x] == r
    {
      assert h.recs[r] != g.recs[r] || k.recs[r] != h.recs[r];
    }
  }

  lemma {:induction false} FireWithin(g: Graph, c: AbortController, arg: Option<Reason>, region: set<Id>)
    requires WF(g) && c in g.sigs && Region(g, region)
    requires forall l | l in g.sigs[c].listeners :: Inside(g, c, l, region)
    ensures Within(g, Fire(g, c, arg), region, c, Resolve(arg, c))
    decreases Live(g), 0, 0
  {
    if g.sigs[c].reason.None? {
      var rho := Resolve(arg, c);
      var g1 := SetSignal(g, c, Signal(Some(rho), []));
      assert Extends(g, g1);
      ExtendsWF(g, g1);
      assert c in Live(g) && c !in Live(g1);
      RegionKept(g, g1, region);
      forall l | l in g.sigs[c].listeners ensures Inside(g1, c, l, region) {
        InsideKept(g, g1, c, l, region);
      }
      DispatchWithin(g1, c, g.sigs[c].listeners, region);
      assert Within(g, g1, region, c, rho);
      WithinTrans(g, g1, Fire(g, c, arg), region, c, rho);
    }
  }

  lemma {:induction false} DispatchWithin(g: Graph, c: AbortController, ls: seq<Listener>, region: set<Id>)
    requires WF(g) && c in g.sigs && g.sigs[c].reason.Some? && Region(g, region)
    requires forall l | l in ls && l.Cascade? :: l.parent in g.recs
    requires forall l | l in ls :: Inside(g, c, l, region)
    ensures Within(g, Dispatch(g, ls), region, c, g.sigs[c].reason.value)
    decreases Live(g), |ls|, 2
  {
    if ls != [] {
      var g1 := RunListener(g, ls[0]);
      ExtendsWF(g, g1);
      RunWithin(g, c, ls[0], region);
      RegionKept(g, g1, region);
      forall l | l in ls[1..] ensures Inside(g1, c, l, region) {
        InsideKept(g, g1, c, l, region);
      }
      assert SignalStep(g, g1, c);
      DispatchWithin(g1, c, ls[1..], region);
      WithinTrans(g, g1, Dispatch(g, ls), region, c, g.sigs[c].reason.value);
    }
  }

  /** Marking the child first, and firing its controller d, stays within the region of the parent's controller c. */
  lemma MarkedWithin(g: Graph, y: Id, h: Graph, region: set<Id>, c: AbortController, rho: Reason)
    requires WF(g) && WF(h) && y in g.ids && y in region && WF(SetCascading(g, y))
    requires Within(SetCascading(g, y), h, region, At(g, y).controller, rho)
    ensures Within(g, h, region, c, rho)
  {
    var g1 := SetCascading(g, y);
    forall e | NewlyAborted(g, h, e)
      ensures InRegion(g, e, region) && h.sigs[e].reason == Some(rho)
    {
      assert NewlyAborted(g1, h, e);
      if e != At(g, y).controller {
        var x :| x in region && x in g1.ids && At(g1, x).controller == e;
        assert At(g, x).controller == e;
      }
    }
    forall r | r in g.recs && r in h.recs && h.recs[r] != g.recs[r]
      ensures exists x :: x in region && x in g.ids && g.ids[x] == r
    {
      assert h.recs[r] == g1.recs[r] ==> r == g.ids[y];
    }
  }

  lemma {:induction false} RunWithin(g: Graph, c: AbortController, l: Listener, region: set<Id>)
    requires WF(g) && c in g.sigs && g.sigs[c].reason.Some? && Region(g, region)
    requires (l.Cascade? ==> l.parent in g.recs) && Inside(g, c, l, region)
    ensures Within(g, RunListener(g, l), region, c, g.sigs[c].reason.value)
    decreases Live(g), 0, 1
  {
    if l.Cascade? && Effective(g, l) && !Aborted(g, l.childId) {
      var y := l.childId;
      var rho := g.sigs[c].reason.value;
      var g1 := SetCascading(g, y);
      assert Live(g1) == Live(g);
      SetCascadingRegion(g, y, region);
      FireWithin(g1, At(g, y).controller, Some(rho), region);
      MarkedWithin(g, y, RunListener(g, l), region, c, rho);
    }
  }

  lemma SetCascadingRegion(g: Graph, y: Id, region: set<Id>)
    requires WF(g) && y in g.ids && y in region && Region(g, region)
    ensures WF(SetCascading(g, y)) && Region(SetCascading(g, y), region)
    ensures forall l | l in SignalOf(g, y).listeners ::
              Inside(SetCascading(g, y), At(g, y).controller, l, region)
  {
    var g1 := SetCascading(g, y);
    assert forall x | x in g.ids :: At(g1, x) == At(g, x) || At(g1, x) == At(g, x).(cascading := true);
    forall x, l | x in region && x in g.ids && l in SignalOf(g, x).listeners
      ensures Inside(g1, At(g1, x).controller, l, region)
    {
      assert Inside(g, At(g, x).controller, l, region);
      if l.childId in g.ids {
        assert At(g1, l.childId).parentId == At(g, l.childId).parentId;
        assert At(g1, l.childId).controller == At(g, l.childId).controller;
      }
    }
  }
}
