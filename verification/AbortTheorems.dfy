/** What `abort` and a direct controller abort do to a sound graph, stated without reference to listeners. */
module AbortTheorems {
  import opened Wrappers
  import opened AbortModel
  import opened AbortCascade
  import opened AbortNotice
  import opened AbortReach

  // ----- the invariant of every reachable graph

  /** A recorded parent is registered and has the child in its child set. */
  ghost predicate Structured(g: Graph)
    requires WF(g)
  {
    forall x | x in g.ids && At(g, x).parentId.Some? ::
      var p := At(g, x).parentId.value; p in g.ids && x in At(g, p).children
  }

  /** x is aborted, or its recorded parent is live and its controller carries the cascade closure for x. */
  ghost predicate Tied(g: Graph, x: Id)
    requires WF(g) && x in g.ids
  {
    At(g, x).parentId.Some? && !Aborted(g, x) ==>
      var p := At(g, x).parentId.value;
      p in g.ids && !Aborted(g, p) && Cascade(g.ids[p], p, x) in SignalOf(g, p).listeners
  }

  ghost predicate Linked(g: Graph)
    requires WF(g)
  {
    forall x | x in g.ids :: Tied(g, x)
  }

  /** Between operations only aborted nodes are marked. */
  ghost predicate Unmarked(g: Graph)
    requires WF(g)
  {
    forall x | x in g.ids && At(g, x).cascading :: Aborted(g, x)
  }

  ghost predicate Sound(g: Graph) {
    WF(g) && Structured(g) && Owned(g) && Linked(g) && Unmarked(g)
  }

  /** Abort closure: no live node has an aborted recorded parent. */
  ghost predicate AbortClosed(g: Graph)
    requires WF(g)
  {
    forall x | x in g.ids && At(g, x).parentId.Some? && At(g, x).parentId.value in g.ids &&
               Aborted(g, At(g, x).parentId.value) :: Aborted(g, x)
  }

  lemma LinkedIsClosed(g: Graph)
    requires WF(g) && Linked(g)
    ensures AbortClosed(g)
  {
    forall x | x in g.ids && At(g, x).parentId.Some? && At(g, x).parentId.value in g.ids &&
               Aborted(g, At(g, x).parentId.value)
      ensures Aborted(g, x)
    {
      assert Tied(g, x);
    }
  }

  lemma SoundIsClosed(g: Graph)
    requires Sound(g)
    ensures AbortClosed(g)
  {
    LinkedIsClosed(g);
  }

  /** Aborting controllers keeps the invariant, as long as every closure of an aborted controller has run. */
  lemma ExtendsSound(g: Graph, h: Graph)
    requires WF(g) && WF(h) && Structured(g) && Owned(g) && Linked(g) && Extends(g, h) && Settled(g, h)
    ensures Structured(h) && Owned(h) && Linked(h)
    ensures Unmarked(g) ==> Unmarked(h)
  {
    OwnedExtends(g, h);
    forall x | x in h.ids && At(h, x).parentId.Some?
      ensures var p := At(h, x).parentId.value; p in h.ids && x in At(h, p).children
    {
      ExtendsAt(g, h, x);
      ExtendsAt(g, h, At(g, x).parentId.value);
    }
    forall x | x in h.ids ensures Tied(h, x) {
      assert Tied(g, x);
      ExtendsTied(g, h, x);
    }
    forall x | x in h.ids && At(h, x).cascading ensures Unmarked(g) ==> Aborted(h, x) {
      ExtendsAt(g, h, x);
      assert RecordStep(g, h, g.ids[x]);
    }
  }

  lemma ExtendsTied(g: Graph, h: Graph, x: Id)
    requires WF(g) && WF(h) && Extends(g, h) && Settled(g, h) && x in g.ids && Tied(g, x)
    ensures Tied(h, x)
  {
    ExtendsAt(g, h, x);
    if At(h, x).parentId.Some? && !Aborted(h, x) {
      var p := At(g, x).parentId.value;
      ExtendsAt(g, h, p);
      assert Aborted(h, p) ==> Done(h, Cascade(g.ids[p], p, x));
    }
  }

  // ----- mopping up

  ghost predicate ReasonFits(arg: Option<Reason>, got: Option<Reason>) {
    match arg case Some(r) => got == Some(r) case None => got.Some? && got.value.AbortError?
  }

  /** Between g and h only controllers and records of the region changed, and the reasons fit arg. */
  ghost predicate Covered(g: Graph, h: Graph, region: set<Id>, arg: Option<Reason>)
    requires WF(g) && WF(h)
  {
    && (forall d | d in g.sigs && NewlyAborted(g, h, d) ::
          InRegion(g, d, region) && ReasonFits(arg, h.sigs[d].reason))
    && (forall r | r in g.recs && r in h.recs && h.recs[r] != g.recs[r] ::
          exists x :: x in region && x in g.ids && g.ids[x] == r)
  }

  lemma CoveredTrans(g: Graph, h: Graph, k: Graph, region: set<Id>, arg: Option<Reason>)
    requires WF(g) && WF(h) && WF(k) && Extends(g, h) && Extends(h, k)
    requires Covered(g, h, region, arg) && Covered(h, k, region, arg)
    ensures Covered(g, k, region, arg)
  {
    forall d | d in g.sigs && NewlyAborted(g, k, d)
      ensures InRegion(g, d, region) && ReasonFits(arg, k.sigs[d].reason)
    {
      assert SignalStep(g, h, d) && SignalStep(h, k, d);
      if NewlyAborted(h, k, d) {
        InRegionKept(g, h, d, region);
      } else {
        assert NewlyAborted(g, h, d);
      }
    }
    forall r | r in g.recs && r in k.recs && k.recs[r] != g.recs[r]
      ensures exists x :: x in region && x in g.ids && g.ids[x] == r
    {
      assert h.recs[r] != g.recs[r] || k.recs[r] != h.recs[r];
    }
  }

  lemma {:induction false} FireCovered(g: Graph, x: Id, arg: Option<Reason>, region: set<Id>)
    requires WF(g) && x in g.ids && x in region && Region(g, region)
    ensures Covered(g, Fire(g, At(g, x).controller, arg), region, arg)
  {
    var c := At(g, x).controller;
    FireWithin(g, c, arg, region);
  }

  lemma {:induction false} MopUpCovers(g: Graph, ids: seq<Id>, arg: Option<Reason>, region: set<Id>)
    requires WF(g) && Region(g, region) && forall x | x in ids :: x in region
    ensures var h := MopUp(g, ids, arg);
      && Covered(g, h, region, arg) && Settled(g, h)
      && forall x | x in ids && x in g.ids :: Aborted(h, x)
    decreases |ids|
  {
    if ids != [] {
      var h := MopUp(g, ids, arg);
      var g1 := g;
      if ids[0] in g.ids {
        var c := At(g, ids[0]).controller;
        g1 := Fire(g, c, arg);
        FireCovered(g, ids[0], arg, region);
        FireCompletes(g, c, arg);
        RegionKept(g, g1, region);
        ExtendsAt(g, g1, ids[0]);
      }
      MopUpCovers(g1, ids[1..], arg, region);
      CoveredTrans(g, g1, h, region, arg);
      SettledTrans(g, g1, h);
      forall x | x in ids && x in g.ids ensures Aborted(h, x) {
        if x == ids[0] {
          ExtendsAt(g1, h, x);
        }
      }
    }
  }

  // ----- abort

  function Elems(s: seq<Id>): set<Id> {
    set y | y in s
  }

  /** The marking phase: exactly the named nodes become cascading, nothing else changes. */
  lemma MarkKeeps(g: Graph, ids: seq<Id>, trace: seq<AbortRecord>)
    requires WF(g) && Owned(g)
    ensures var h := Mark(g, ids).(trace := trace);
      && WF(h) && Owned(h)
      && (forall x | x in g.ids :: At(h, x) == At(g, x).(cascading := At(g, x).cascading || x in ids))
      && (Structured(g) ==> Structured(h)) && (Linked(g) ==> Linked(h))
  {
    var h := Mark(g, ids).(trace := trace);
    forall x | x in g.ids
      ensures At(h, x) == At(g, x).(cascading := At(g, x).cascading || x in ids)
      ensures Tied(g, x) ==> Tied(h, x)
    {
      assert x in ids ==> Names(g, ids, g.ids[x]);
    }
    OwnedKept(g, h);
  }

  /** Cascade closures of a sound graph stay among the descendants of root. */
  lemma DescendantsRegion(g: Graph, root: Id, region: set<Id>)
    requires WF(g) && Structured(g) && Owned(g) && root in g.ids
    requires forall y :: y in region <==> Descendant(g, root, y)
    ensures Region(g, region)
    ensures forall l | l in SignalOf(g, root).listeners :: Inside(g, At(g, root).controller, l, region)
  {
    forall x, l | x in g.ids && (x == root || x in region) && l in SignalOf(g, x).listeners
      ensures Inside(g, At(g, x).controller, l, region)
    {
      assert OwnedListener(g, x, l);
      if l.Cascade? && Effective(g, l) {
        var y := l.childId;
        assert y in At(g, x).children;
        if x == root {
          ChildIsDescendant(g, x, y);
        } else {
          DescendantStep(g, root, x, y);
        }
      }
    }
  }

  lemma RegionIgnoresMarks(g: Graph, h: Graph, region: set<Id>, root: Id)
    requires WF(g) && WF(h) && h.ids == g.ids && h.sigs == g.sigs && h.recs.Keys == g.recs.Keys
    requires forall r | r in g.recs :: h.recs[r] == g.recs[r] || h.recs[r] == g.recs[r].(cascading := true)
    requires Region(g, region) && root in g.ids
    requires forall l | l in SignalOf(g, root).listeners :: Inside(g, At(g, root).controller, l, region)
    ensures Region(h, region)
    ensures forall l | l in SignalOf(h, root).listeners :: Inside(h, At(h, root).controller, l, region)
  {
    forall x, l | x in g.ids && (x == root || x in region) && l in SignalOf(h, x).listeners
      ensures Inside(h, At(h, x).controller, l, region)
    {
      assert Inside(g, At(g, x).controller, l, region);
      assert l.childId in g.ids ==> At(h, l.childId).parentId == At(g, l.childId).parentId
                                    && At(h, l.childId).controller == At(g, l.childId).controller;
    }
  }

  /** The cascade closures of root, and of the nodes of region, stay in region. */
  ghost predicate Fenced(g: Graph, root: Id, region: set<Id>)
    requires WF(g) && root in g.ids
  {
    Region(g, region) && forall l | l in SignalOf(g, root).listeners :: Inside(g, At(g, root).controller, l, region)
  }

  /** Nodes of h are those of g, with exactly the ids of ds marked in addition. */
  ghost predicate MarkedBy(g: Graph, h: Graph, ds: seq<Id>)
    requires WF(g) && WF(h)
  {
    && h.ids == g.ids && h.sigs == g.sigs && h.recs.Keys == g.recs.Keys && h.notified == g.notified
    && forall x | x in g.ids :: At(h, x) == At(g, x).(cascading := At(g, x).cascading || x in ds)
  }

  lemma MarkPhase(g: Graph, id: Id, arg: Option<Reason>) returns (ds: seq<Id>)
    requires Sound(g) && id in g.ids
    ensures ds == Bfs(g, At(g, id).children, {})
    ensures Distinct(ds) && forall y :: y in ds <==> Descendant(g, id, y)
    ensures var g1 := MarkAll(g, id, arg);
      && MarkedBy(g, g1, ds) && Owned(g1) && Structured(g1) && Linked(g1) && Fenced(g1, id, Elems(ds))
  {
    ds := Bfs(g, At(g, id).children, {});
    BfsExact(g, id);
    MarkKeeps(g, ds, g.trace + [AbortRecord(ds, arg)]);
    DescendantsRegion(g, id, Elems(ds));
    RegionIgnoresMarks(g, MarkAll(g, id, arg), Elems(ds), id);
  }

  lemma {:induction false} FirePhase(g: Graph, id: Id, arg: Option<Reason>, region: set<Id>)
    requires WF(g) && id in g.ids && !Aborted(g, id) && Fenced(g, id, region)
    ensures var c := At(g, id).controller; var h := Fire(g, c, arg);
      && Settled(g, h) && Region(h, region)
      && Within(g, h, region, c, Resolve(arg, c))
      && SignalOf(h, id) == Signal(Some(Resolve(arg, c)), [])
  {
    var c := At(g, id).controller;
    var h := Fire(g, c, arg);
    FireCompletes(g, c, arg);
    FireWithin(g, c, arg, region);
    RegionKept(g, h, region);
    ExtendsAt(g, h, id);
  }

  /** Every closure has run, everything in ds is aborted, and only root and ds were touched. */
  lemma FireAllCovers(g: Graph, id: Id, arg: Option<Reason>, ds: seq<Id>)
    requires WF(g) && id in g.ids && !Aborted(g, id) && Fenced(g, id, Elems(ds))
    ensures var h := FireAll(g, id, ds, arg);
      && Settled(g, h) && Covered(g, h, Elems(ds) + {id}, arg)
      && SignalOf(h, id).reason == Some(Resolve(arg, At(g, id).controller))
      && (forall x | x in ds && x in g.ids :: Aborted(h, x))
  {
    var region, h := Elems(ds), FireAll(g, id, ds, arg);
    var g1 := Fire(g, At(g, id).controller, arg);
    FirePhase(g, id, arg, region);
    MopUpCovers(g1, ds, arg, region);
    SettledTrans(g, g1, h);
    ExtendsAt(g1, h, id);
    ExtendsAt(g, h, id);
    Widen(g, g1, h, region, id, arg);
  }

  lemma Widen(g: Graph, h: Graph, k: Graph, region: set<Id>, id: Id, arg: Option<Reason>)
    requires WF(g) && WF(h) && WF(k) && Extends(g, h) && Extends(h, k) && id in g.ids
    requires Within(g, h, region, At(g, id).controller, Resolve(arg, At(g, id).controller))
    requires Covered(h, k, region, arg)
    ensures Covered(g, k, region + {id}, arg)
  {
    var wide := region + {id};
    forall d | d in g.sigs && NewlyAborted(g, h, d)
      ensures InRegion(g, d, wide) && ReasonFits(arg, h.sigs[d].reason)
    {
      if d == At(g, id).controller {
        assert id in wide;
      } else {
        var x :| x in region && x in g.ids && At(g, x).controller == d;
        assert x in wide;
      }
    }
    forall d | d in h.sigs && NewlyAborted(h, k, d) ensures InRegion(h, d, wide) {
      var x :| x in region && x in h.ids && At(h, x).controller == d;
      assert x in wide;
    }
    forall r | r in g.recs && r in h.recs && h.recs[r] != g.recs[r]
      ensures exists x :: x in wide && x in g.ids && g.ids[x] == r
    {
      var x :| x in region && x in g.ids && g.ids[x] == r;
      assert x in wide;
    }
    forall r | r in h.recs && r in k.recs && k.recs[r] != h.recs[r]
      ensures exists x :: x in wide && x in h.ids && h.ids[x] == r
    {
      var x :| x in region && x in h.ids && h.ids[x] == r;
      assert x in wide;
    }
    CoveredTrans(g, h, k, wide, arg);
  }

  lemma RegionMember(g: Graph, region: set<Id>, x: Id)
    requires WF(g) && Owned(g) && x in g.ids
    ensures InRegion(g, At(g, x).controller, region) ==> x in region
    ensures (exists y :: y in region && y in g.ids && g.ids[y] == g.ids[x]) ==> x in region
  {
    assert forall y | y in g.ids && g.ids[y] == g.ids[x] :: At(g, y).controller == At(g, x).controller;
  }

  /** Firing touches the node of x only if x is covered, and leaves the record of a marked node alone. */
  lemma CoveredNode(g: Graph, h: Graph, region: set<Id>, arg: Option<Reason>, x: Id)
    requires WF(g) && WF(h) && Owned(g) && Extends(g, h) && Covered(g, h, region, arg) && x in g.ids
    ensures x !in region ==> At(h, x) == At(g, x) && SignalOf(h, x) == SignalOf(g, x)
    ensures At(g, x).cascading ==> At(h, x) == At(g, x)
  {
    ExtendsAt(g, h, x);
    RegionMember(g, region, x);
    assert SignalOf(h, x) != SignalOf(g, x) ==> NewlyAborted(g, h, At(g, x).controller);
  }

  /** The root's own record is never marked by firing: its controller is aborted first. */
  lemma RootKept(g: Graph, id: Id, arg: Option<Reason>, ds: seq<Id>)
    requires WF(g) && id in g.ids && !Aborted(g, id) && id !in ds && Owned(g) && Fenced(g, id, Elems(ds))
    ensures At(FireAll(g, id, ds, arg), id) == At(g, id)
  {
    var g1, h := Fire(g, At(g, id).controller, arg), FireAll(g, id, ds, arg);
    FirePhase(g, id, arg, Elems(ds));
    ExtendsAt(g, g1, id);
    ExtendsAt(g1, h, id);
    RegionMember(g, Elems(ds), id);
  }

  lemma FireAllNode(g: Graph, id: Id, arg: Option<Reason>, ds: seq<Id>, x: Id)
    requires WF(g) && Owned(g) && id in g.ids && !Aborted(g, id) && Fenced(g, id, Elems(ds)) && x in g.ids
    requires x in ds ==> At(g, x).cascading
    ensures var h := FireAll(g, id, ds, arg);
      && (Aborted(h, x) <==> Aborted(g, x) || x == id || x in ds)
      && At(h, x) == At(g, x)
      && (x == id ==> SignalOf(h, x).reason == Some(Resolve(arg, At(g, id).controller)))
  {
    var h := FireAll(g, id, ds, arg);
    FireAllCovers(g, id, arg, ds);
    CoveredNode(g, h, Elems(ds) + {id}, arg, x);
    ExtendsAt(g, h, x);
    if x == id && x !in ds {
      RootKept(g, id, arg, ds);
    }
  }

  /** The whole effect of `abort(id, arg)` on the nodes: exactly root and its registered descendants end up
      aborted, and exactly the descendants are marked. */
  lemma AbortExact(g: Graph, id: Id, arg: Option<Reason>, x: Id)
    requires Sound(g) && id in g.ids && !Aborted(g, id) && x in g.ids
    ensures var h := AbortF(g, id, arg);
      && h.ids == g.ids && h.recs.Keys == g.recs.Keys && h.sigs.Keys == g.sigs.Keys
      && (Aborted(h, x) <==> Aborted(g, x) || x == id || Descendant(g, id, x))
      && At(h, x) == At(g, x).(cascading := At(g, x).cascading || Descendant(g, id, x))
      && (x == id ==> SignalOf(h, x).reason == Some(Resolve(arg, At(g, id).controller)))
  {
    var ds := MarkPhase(g, id, arg);
    FireAllNode(MarkAll(g, id, arg), id, arg, ds, x);
  }

  lemma FireAllTouchesOnly(g: Graph, id: Id, arg: Option<Reason>, ds: seq<Id>, c: AbortController)
    requires WF(g) && id in g.ids && !Aborted(g, id) && Fenced(g, id, Elems(ds)) && c in g.sigs
    ensures var h := FireAll(g, id, ds, arg);
      h.sigs[c] != g.sigs[c] ==>
        && g.sigs[c].reason.None? && ReasonFits(arg, h.sigs[c].reason) && h.sigs[c].listeners == []
        && exists x :: x in g.ids && At(g, x).controller == c && (x == id || x in ds)
  {
    var h := FireAll(g, id, ds, arg);
    FireAllCovers(g, id, arg, ds);
    assert SignalStep(g, h, c);
  }

  /** No controller changes but those of root and its live descendants; each of those gets the caller's reason,
      or a minted AbortError when the caller gave none. */
  lemma AbortTouchesOnly(g: Graph, id: Id, arg: Option<Reason>, c: AbortController)
    requires Sound(g) && id in g.ids && !Aborted(g, id) && c in g.sigs
    ensures var h := AbortF(g, id, arg);
      c in h.sigs && (h.sigs[c] != g.sigs[c] ==>
        && g.sigs[c].reason.None? && ReasonFits(arg, h.sigs[c].reason) && h.sigs[c].listeners == []
        && exists x :: x in g.ids && At(g, x).controller == c && (x == id || Descendant(g, id, x)))
  {
    var g1 := MarkAll(g, id, arg);
    var ds := MarkPhase(g, id, arg);
    FireAllTouchesOnly(g1, id, arg, ds, c);
    if AbortF(g, id, arg).sigs[c] != g.sigs[c] {
      var x :| x in g1.ids && At(g1, x).controller == c && (x == id || x in ds);
      assert At(g, x).controller == c;
    }
  }

  lemma {:induction false} AbortCalls(g: Graph, id: Id, arg: Option<Reason>, ds: seq<Id>)
    requires Sound(g) && id in g.ids && !Aborted(g, id) && ds == Bfs(g, At(g, id).children, {})
    requires MarkedBy(g, MarkAll(g, id, arg), ds) && Owned(MarkAll(g, id, arg))
    ensures AbortF(g, id, arg).notified == g.notified +
              if id in ds then [] else Owed(g, id, SignalOf(g, id).listeners, Resolve(arg, At(g, id).controller))
  {
    var g1 := MarkAll(g, id, arg);
    FireAllQuiet(g1, id, arg, ds);
    OwedIgnoresMarks(g, g1, ds, id, Resolve(arg, At(g, id).controller));
  }

  /** Notification discipline of `abort`: only callbacks of the root's recorded parent are called, and none
      when the root is its own descendant. */
  lemma AbortAnnounces(g: Graph, id: Id, arg: Option<Reason>)
    requires Sound(g) && id in g.ids && !Aborted(g, id)
    ensures AbortF(g, id, arg).notified == g.notified +
              if Descendant(g, id, id) then []
              else Owed(g, id, SignalOf(g, id).listeners, Resolve(arg, At(g, id).controller))
  {
    var ds := MarkPhase(g, id, arg);
    AbortCalls(g, id, arg, ds);
  }

  /** The witness record of an abort lists the descendants, each once, with the caller's reason. */
  lemma AbortRecords(g: Graph, id: Id, arg: Option<Reason>) returns (ds: seq<Id>)
    requires Sound(g) && id in g.ids && !Aborted(g, id)
    ensures AbortF(g, id, arg).trace == g.trace + [AbortRecord(ds, arg)]
    ensures Distinct(ds) && forall y :: y in ds <==> Descendant(g, id, y)
  {
    ds := MarkPhase(g, id, arg);
  }

  lemma FireAllQuiet(g: Graph, id: Id, arg: Option<Reason>, ds: seq<Id>)
    requires WF(g) && id in g.ids && !Aborted(g, id) && Owned(g)
    requires forall x | x in ds && x in g.ids :: At(g, x).cascading
    ensures FireAll(g, id, ds, arg).notified ==
              g.notified + Owed(g, id, SignalOf(g, id).listeners, Resolve(arg, At(g, id).controller))
  {
    var g1 := Fire(g, At(g, id).controller, arg);
    FireOwes(g, id, arg);
    OwnedExtends(g, g1);
    forall x | x in ds && x in g1.ids ensures At(g1, x).cascading {
      ExtendsAt(g, g1, x);
    }
    MopUpQuiet(g1, ds, arg);
  }

  lemma OwedIgnoresMarks(g: Graph, h: Graph, ds: seq<Id>, id: Id, rho: Reason)
    requires Sound(g) && WF(h) && MarkedBy(g, h, ds) && id in g.ids && !Aborted(g, id)
    ensures var ls := SignalOf(g, id).listeners;
            Owed(h, id, ls, rho) == if id in ds then [] else Owed(g, id, ls, rho)
  {
    var p := At(g, id).parentId;
    if p.Some? && p.value in g.ids {
      assert At(h, p.value).listeners == At(g, p.value).listeners;
    }
  }

  lemma AbortSound(g: Graph, id: Id, arg: Option<Reason>)
    requires Sound(g)
    ensures Sound(AbortF(g, id, arg))
  {
    if id in g.ids && !Aborted(g, id) {
      var g1, h := MarkAll(g, id, arg), AbortF(g, id, arg);
      var ds := MarkPhase(g, id, arg);
      FireAllCovers(g1, id, arg, ds);
      ExtendsSound(g1, h);
      forall x | x in h.ids && At(h, x).cascading ensures Aborted(h, x) {
        AbortExact(g, id, arg, x);
      }
    }
  }

  // ----- a controller aborted directly

  /** A walk along recorded parent links. */
  ghost predicate LinkWalk(g: Graph, p: seq<Id>)
    requires WF(g)
  {
    && |p| >= 1
    && (forall i | 0 <= i < |p| :: p[i] in g.ids)
    && (forall i | 0 <= i < |p| - 1 :: At(g, p[i + 1]).parentId == Some(p[i]))
  }

  ghost predicate Heir(g: Graph, from: Id, to: Id)
    requires WF(g)
  {
    exists p :: LinkWalk(g, p) && |p| >= 2 && p[0] == from && p[|p| - 1] == to
  }

  lemma HeirsFenced(g: Graph, root: Id, region: set<Id>)
    requires WF(g) && Structured(g) && Owned(g) && root in g.ids
    requires forall y :: y in region <==> y in g.ids && Heir(g, root, y)
    ensures Fenced(g, root, region)
  {
    forall x, l | x in g.ids && (x == root || x in region) && l in SignalOf(g, x).listeners
      ensures Inside(g, At(g, x).controller, l, region)
    {
      assert OwnedListener(g, x, l);
      if l.Cascade? && Effective(g, l) {
        var y := l.childId;
        if x == root {
          assert LinkWalk(g, [x, y]);
        } else {
          var p :| LinkWalk(g, p) && |p| >= 2 && p[0] == root && p[|p| - 1] == x;
          assert LinkWalk(g, p + [y]);
        }
      }
    }
  }

  lemma {:induction false} ClosedAlong(g: Graph, p: seq<Id>)
    requires WF(g) && AbortClosed(g) && LinkWalk(g, p) && Aborted(g, p[0])
    ensures Aborted(g, p[|p| - 1])
    decreases |p|
  {
    if |p| > 1 {
      ClosedAlong(g, p[..|p| - 1]);
      assert At(g, p[|p| - 1]).parentId == Some(p[|p| - 2]);
    }
  }

  lemma {:induction false} DirectSound(g: Graph, c: AbortController, arg: Option<Reason>)
    requires Sound(g) && c in g.sigs
    ensures Sound(Fire(g, c, arg))
  {
    FireCompletes(g, c, arg);
    ExtendsSound(g, Fire(g, c, arg));
  }

  lemma HeirsWithin(g: Graph, x: Id, arg: Option<Reason>) returns (region: set<Id>)
    requires Sound(g) && x in g.ids && !Aborted(g, x)
    ensures forall y :: y in region <==> y in g.ids && Heir(g, x, y)
    ensures var c := At(g, x).controller; Within(g, Fire(g, c, arg), region, c, Resolve(arg, c))
  {
    region := set y | y in g.ids && Heir(g, x, y);
    HeirsFenced(g, x, region);
    FireWithin(g, At(g, x).controller, arg, region);
  }

  lemma HeirAborted(g: Graph, h: Graph, x: Id, y: Id)
    requires WF(g) && WF(h) && Extends(g, h) && AbortClosed(h) && x in g.ids && y in g.ids && Aborted(h, x)
             && Heir(g, x, y)
    ensures Aborted(h, y)
  {
    var p :| LinkWalk(g, p) && |p| >= 2 && p[0] == x && p[|p| - 1] == y;
    forall i | 0 <= i < |p| ensures At(h, p[i]).parentId == At(g, p[i]).parentId {
      ExtendsAt(g, h, p[i]);
    }
    ClosedAlong(h, p);
  }

  /** Aborting a live node's controller without going through the graph aborts exactly its live heirs by
      recorded links. */
  lemma {:induction false} DirectExact(g: Graph, x: Id, arg: Option<Reason>, y: Id)
    requires Sound(g) && x in g.ids && !Aborted(g, x) && y in g.ids
    ensures Aborted(Fire(g, At(g, x).controller, arg), y) <==> Aborted(g, y) || y == x || Heir(g, x, y)
  {
    var c := At(g, x).controller;
    var h := Fire(g, c, arg);
    var region := HeirsWithin(g, x, arg);
    ExtendsAt(g, h, y);
    if Heir(g, x, y) {
      DirectSound(g, c, arg);
      SoundIsClosed(h);
      HeirAborted(g, h, x, y);
    }
    RegionMember(g, region, y);
    assert NewlyAborted(g, h, At(g, y).controller) ==> y in region || At(g, y).controller == c;
  }

  /** ... and every controller it changes belongs to a registered node and gets the one reason. */
  lemma {:induction false} DirectTouchesOnly(g: Graph, x: Id, arg: Option<Reason>, d: AbortController)
    requires Sound(g) && x in g.ids && !Aborted(g, x) && d in g.sigs
    ensures var c := At(g, x).controller; var h := Fire(g, c, arg);
      h.sigs[d] != g.sigs[d] ==>
        && h.sigs[d] == Signal(Some(Resolve(arg, c)), [])
        && exists y :: y in g.ids && At(g, y).controller == d && (y == x || Heir(g, x, y))
  {
    var c := At(g, x).controller;
    var h := Fire(g, c, arg);
    var region := HeirsWithin(g, x, arg);
    assert SignalStep(g, h, d);
    if NewlyAborted(g, h, d) && d != c {
      var y :| y in region && y in g.ids && At(g, y).controller == d;
    }
  }

  /** A controller that no registered node uses any more (disposed or replaced) still reaches a child that was
      relinked under the same parent id. It is harmless exactly when every closure it carries is spent. */
  lemma {:induction false} StaleFire(g: Graph, c: AbortController, arg: Option<Reason>)
    requires Sound(g) && c in g.sigs && g.sigs[c].reason.None?
    requires forall x | x in g.ids :: At(g, x).controller != c
    ensures (forall d | d in g.sigs && d != c :: Fire(g, c, arg).sigs[d] == g.sigs[d])
            <==> (forall l | l in g.sigs[c].listeners :: Done(g, l))
  {
    var h := Fire(g, c, arg);
    FireCompletes(g, c, arg);
    if forall l | l in g.sigs[c].listeners :: Done(g, l) {
      FireWithin(g, c, arg, {});
      forall d | d in g.sigs && d != c ensures h.sigs[d] == g.sigs[d] {
        assert SignalStep(g, h, d);
      }
    }
    if forall d | d in g.sigs && d != c :: h.sigs[d] == g.sigs[d] {
      forall l | l in g.sigs[c].listeners ensures Done(g, l) {
        assert NewlyAborted(g, h, c) && Done(h, l);
        if l.childId in g.ids {
          ExtendsAt(g, h, l.childId);
        }
      }
    }
  }
}
