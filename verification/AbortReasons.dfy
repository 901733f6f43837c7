/**
  Which reason each node ends up with when `abort` is given none: the cascade hands on the root's AbortError; of the
  nodes it misses, the first in search order starts with one of its own and hands it on, and so on.
 */
module AbortReasons {
  import opened Wrappers
  import opened AbortModel
  import opened AbortCascade
  import opened AbortTheorems

  // ----- whose error a missed node gets

  /** d is x, or has x below it by recorded parent links: firing d takes x along. */
  ghost predicate Takes(g: Graph, d: Id, x: Id)
    requires WF(g)
  {
    d in g.ids && (d == x || Heir(g, d, x))
  }

  /** The first id of the list that takes x along. */
  ghost function Taker(g: Graph, ids: seq<Id>, x: Id): (d: Id)
    requires WF(g) && x in g.ids && x in ids
    ensures Takes(g, d, x)
    decreases |ids|
  {
    if Takes(g, ids[0], x) then ids[0] else Taker(g, ids[1..], x)
  }

  /** The part of the invariant that holds throughout an abort, when marks run ahead of the signals. */
  ghost predicate MidAbort(g: Graph) {
    WF(g) && Structured(g) && Owned(g) && Linked(g)
  }

  /** Same nodes, controllers and links. */
  ghost predicate SameShape(g: Graph, h: Graph)
    requires WF(g) && WF(h)
  {
    && h.ids == g.ids
    && forall x | x in g.ids ::
         At(h, x).parentId == At(g, x).parentId && At(h, x).controller == At(g, x).controller
  }

  lemma HeirSame(g: Graph, h: Graph, x: Id, y: Id)
    requires WF(g) && WF(h) && SameShape(g, h)
    ensures Heir(g, x, y) <==> Heir(h, x, y)
  {
    if p :| LinkWalk(g, p) && |p| >= 2 && p[0] == x && p[|p| - 1] == y {
      assert LinkWalk(h, p);
    }
    if p :| LinkWalk(h, p) && |p| >= 2 && p[0] == x && p[|p| - 1] == y {
      assert LinkWalk(g, p);
    }
  }

  lemma {:induction false} TakerSame(g: Graph, h: Graph, ids: seq<Id>, x: Id)
    requires WF(g) && WF(h) && SameShape(g, h) && x in g.ids && x in ids
    ensures Taker(g, ids, x) == Taker(h, ids, x)
    decreases |ids|
  {
    HeirSame(g, h, ids[0], x);
    if !Takes(g, ids[0], x) {
      TakerSame(g, h, ids[1..], x);
    }
  }

  lemma ExtendsShape(g: Graph, h: Graph)
    requires WF(g) && WF(h) && Extends(g, h)
    ensures SameShape(g, h)
  {
    forall x | x in g.ids
      ensures At(h, x).parentId == At(g, x).parentId && At(h, x).controller == At(g, x).controller
    {
      ExtendsAt(g, h, x);
    }
  }

  /** Within a region, a live node is aborted only as one of its nodes or as the one fired, and for that reason. */
  lemma FireStays(g: Graph, h: Graph, region: set<Id>, c: AbortController, rho: Reason, x: Id)
    requires WF(g) && WF(h) && Owned(g) && Extends(g, h) && Within(g, h, region, c, rho) && x in g.ids && !Aborted(g, x)
    ensures Aborted(h, x) ==> SignalOf(h, x).reason == Some(rho)
    ensures Aborted(h, x) ==> x in region || At(g, x).controller == c
  {
    ExtendsAt(g, h, x);
    RegionMember(g, region, x);
    assert Aborted(h, x) ==> NewlyAborted(g, h, At(g, x).controller);
  }

  /** Firing a live node in the middle of an abort takes exactly the live nodes it takes along, all with one reason,
      and leaves the graph ready for the next. */
  lemma {:induction false} FireTakes(g: Graph, y: Id, arg: Option<Reason>, x: Id)
    requires MidAbort(g) && y in g.ids && !Aborted(g, y) && x in g.ids && !Aborted(g, x)
    ensures var c := At(g, y).controller; var h := Fire(g, c, arg);
      && MidAbort(h) && SameShape(g, h)
      && if Takes(g, y, x) then SignalOf(h, x).reason == Some(Resolve(arg, c)) else !Aborted(h, x)
  {
    var c := At(g, y).controller;
    var h := Fire(g, c, arg);
    var region := set z | z in g.ids && Heir(g, y, z);
    HeirsFenced(g, y, region);
    FirePhase(g, y, arg, region);
    ExtendsSound(g, h);
    ExtendsShape(g, h);
    FireStays(g, h, region, c, Resolve(arg, c), x);
    assert At(g, x).controller == c ==> x == y;
    if Heir(g, y, x) {
      LinkedIsClosed(h);
      ExtendsAt(g, h, y);
      HeirAborted(g, h, y, x);
    }
  }

  /** A live node has no aborted node above it. */
  lemma TakenMeansLive(g: Graph, y: Id, x: Id)
    requires MidAbort(g) && x in g.ids && !Aborted(g, x) && Takes(g, y, x)
    ensures !Aborted(g, y)
  {
    if Aborted(g, y) && y != x {
      LinkedIsClosed(g);
      HeirAborted(g, g, y, x);
    }
  }

  lemma {:induction false} MopUpKeeps(g: Graph, ids: seq<Id>, x: Id)
    requires WF(g) && x in g.ids && Aborted(g, x)
    ensures SignalOf(MopUp(g, ids, None), x) == SignalOf(g, x)
  {
    ExtendsAt(g, MopUp(g, ids, None), x);
  }

  /** The mop-up gives a live node the AbortError of the first listed node that takes it along. */
  lemma {:induction false} MopUpGives(g: Graph, ids: seq<Id>, x: Id)
    requires MidAbort(g) && x in g.ids && !Aborted(g, x) && x in ids
    ensures SignalOf(MopUp(g, ids, None), x).reason == Some(AbortError(At(g, Taker(g, ids, x)).controller))
    decreases |ids|
  {
    var y := ids[0];
    if y in g.ids && !Aborted(g, y) {
      var g1 := Fire(g, At(g, y).controller, None);
      FireTakes(g, y, None, x);
      if Takes(g, y, x) {
        MopUpKeeps(g1, ids[1..], x);
      } else {
        MopUpGives(g1, ids[1..], x);
        TakerSame(g, g1, ids[1..], x);
      }
    } else {
      assert !Takes(g, y, x) by {
        if Takes(g, y, x) {
          TakenMeansLive(g, y, x);
        }
      }
      MopUpGives(g, ids[1..], x);
    }
  }

  lemma MarkedShape(g: Graph, m: Graph, ds: seq<Id>)
    requires WF(g) && WF(m) && MarkedBy(g, m, ds)
    ensures SameShape(g, m)
  {
  }

  /** The whole of `abort(id)` without a reason: every live node it reaches gets the AbortError of the first node, in
      the order root and then search result, that is the node itself or has it below by recorded parent links. */
  lemma {:induction false} WhoseError(g: Graph, id: Id, x: Id)
    requires Sound(g) && id in g.ids && !Aborted(g, id) && x in g.ids && !Aborted(g, x)
    requires x == id || Descendant(g, id, x)
    ensures var order := [id] + Bfs(g, At(g, id).children, {});
      && x in order
      && SignalOf(AbortF(g, id, None), x).reason == Some(AbortError(At(g, Taker(g, order, x)).controller))
  {
    var m := MarkAll(g, id, None);
    var ds := MarkPhase(g, id, None);
    var order := [id] + ds;
    assert order[1..] == ds;
    MarkedShape(g, m, ds);
    TakerSame(g, m, order, x);
    FireThenMop(m, id, ds, x);
  }

  lemma {:induction false} FireThenMop(m: Graph, id: Id, ds: seq<Id>, x: Id)
    requires MidAbort(m) && id in m.ids && !Aborted(m, id) && x in m.ids && !Aborted(m, x) && x in [id] + ds
    ensures SignalOf(FireAll(m, id, ds, None), x).reason ==
              Some(AbortError(At(m, Taker(m, [id] + ds, x)).controller))
  {
    var h := Fire(m, At(m, id).controller, None);
    assert ([id] + ds)[1..] == ds;
    FireTakes(m, id, None, x);
    if Takes(m, id, x) {
      MopUpKeeps(h, ds, x);
    } else {
      MopUpGives(h, ds, x);
      TakerSame(m, h, ds, x);
    }
  }

  lemma HeirIsDescendant(g: Graph, x: Id, y: Id)
    requires WF(g) && Structured(g) && Heir(g, x, y)
    ensures Descendant(g, x, y)
  {
    var p :| LinkWalk(g, p) && |p| >= 2 && p[0] == x && p[|p| - 1] == y;
    forall i | 0 <= i < |p| - 1 ensures p[i + 1] in At(g, p[i]).children {
      assert At(g, p[i + 1]).parentId == Some(p[i]);
    }
    assert Walk(g, p);
  }

  /** `abort(id)` without a reason: of the live nodes, exactly the root and its heirs by recorded parent links get the
      root's AbortError. */
  lemma AbortErrorOf(g: Graph, id: Id, x: Id)
    requires Sound(g) && id in g.ids && !Aborted(g, id) && x in g.ids && !Aborted(g, x)
    ensures SignalOf(AbortF(g, id, None), x).reason == Some(AbortError(At(g, id).controller))
            <==> x == id || Heir(g, id, x)
  {
    AbortExact(g, id, None, x);
    if Heir(g, id, x) {
      HeirIsDescendant(g, id, x);
    }
    if x == id || Descendant(g, id, x) {
      WhoseError(g, id, x);
      var order := [id] + Bfs(g, At(g, id).children, {});
      assert Takes(g, Taker(g, order, x), x);
      assert Taker(g, order, x) != id ==> At(g, Taker(g, order, x)).controller != At(g, id).controller;
    }
  }

  ghost predicate OneReason(g: Graph, h: Graph, id: Id)
    requires WF(g) && WF(h) && h.ids == g.ids && id in g.ids
  {
    forall x | x in g.ids && !Aborted(g, x) && Aborted(h, x) :: SignalOf(h, x).reason == SignalOf(h, id).reason
  }

  /** All nodes an abort reaches get the same reason exactly when the caller gave one, or every live node below
      the root hangs on it by recorded parent links, not only through child sets. */
  lemma OneReasonExactly(g: Graph, id: Id, arg: Option<Reason>)
    requires Sound(g) && id in g.ids && !Aborted(g, id)
    ensures AbortF(g, id, arg).ids == g.ids
    ensures OneReason(g, AbortF(g, id, arg), id) <==>
              arg.Some? || forall x | x in g.ids && !Aborted(g, x) && x != id && Descendant(g, id, x) :: Heir(g, id, x)
  {
    var h := AbortF(g, id, arg);
    AbortExact(g, id, arg, id);
    forall x | x in g.ids && !Aborted(g, x)
      ensures Aborted(h, x) <==> x == id || Descendant(g, id, x)
      ensures Aborted(h, x) ==>
              (SignalOf(h, x).reason == SignalOf(h, id).reason <==> arg.Some? || x == id || Heir(g, id, x))
    {
      AbortExact(g, id, arg, x);
      match arg
      case None => AbortErrorOf(g, id, x);
      case Some(r) =>
        AbortTouchesOnly(g, id, arg, At(g, x).controller);
        assert Aborted(h, x) ==> h.sigs[At(g, x).controller] != g.sigs[At(g, x).controller];
    }
  }
}
