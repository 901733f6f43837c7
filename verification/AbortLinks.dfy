/** Which nodes a direct abort marks, and what linking under a dead parent does: the child and everything below it
    abort with the parent's reason. */
module AbortLinks {
  import opened Wrappers
  import opened AbortModel
  import opened AbortCascade
  import opened AbortNotice
  import opened AbortTheorems
  import opened AbortRuns
  import opened AbortReasons

  // ----- whoever is taken along is marked

  /** Every node aborted between g and h is marked in h, the nodes of controller c aside. */
  ghost predicate MarksNew(g: Graph, h: Graph, c: Option<AbortController>)
    requires WF(g) && WF(h) && h.ids == g.ids
  {
    forall x | x in g.ids && !Aborted(g, x) && Aborted(h, x) && c != Some(At(g, x).controller) :: At(h, x).cascading
  }

  lemma MarksNewTrans(g: Graph, h: Graph, k: Graph)
    requires WF(g) && WF(h) && WF(k) && Extends(g, h) && Extends(h, k)
    requires MarksNew(g, h, None) && MarksNew(h, k, None)
    ensures MarksNew(g, k, None)
  {
    forall x | x in g.ids && !Aborted(g, x) && Aborted(k, x) ensures At(k, x).cascading {
      ExtendsAt(g, h, x);
      ExtendsAt(h, k, x);
    }
  }

  lemma MarksNewBut(g: Graph, g1: Graph, h: Graph, c: AbortController)
    requires WF(g) && WF(g1) && WF(h) && g1.ids == g.ids && g1.recs == g.recs && h.ids == g.ids
    requires forall d | d in g.sigs && d != c :: d in g1.sigs && g1.sigs[d] == g.sigs[d]
    requires MarksNew(g1, h, None)
    ensures MarksNew(g, h, Some(c))
  {
    forall x | x in g.ids && !Aborted(g, x) && Aborted(h, x) && At(g, x).controller != c ensures At(h, x).cascading {
      assert At(g1, x) == At(g, x);
    }
  }

  lemma {:induction false} FireMarksNew(g: Graph, c: AbortController, arg: Option<Reason>)
    requires WF(g) && c in g.sigs && Owned(g)
    ensures MarksNew(g, Fire(g, c, arg), Some(c))
    decreases Live(g), 0, 0
  {
    if g.sigs[c].reason.None? {
      var g1 := SetSignal(g, c, Signal(Some(Resolve(arg, c)), []));
      assert Extends(g, g1);
      ExtendsWF(g, g1);
      assert c in Live(g) && c !in Live(g1);
      assert Owned(g1) by { OwnedExtends(g, g1); }
      DispatchMarksNew(g1, g.sigs[c].listeners);
      MarksNewBut(g, g1, Fire(g, c, arg), c);
    }
  }

  lemma {:induction false} DispatchMarksNew(g: Graph, ls: seq<Listener>)
    requires WF(g) && Owned(g)
    requires forall l | l in ls && l.Cascade? :: l.parent in g.recs
    ensures MarksNew(g, Dispatch(g, ls), None)
    decreases Live(g), |ls|, 2
  {
    if ls != [] {
      var g1 := RunListener(g, ls[0]);
      ExtendsWF(g, g1);
      OwnedExtends(g, g1);
      RunMarksNew(g, ls[0]);
      DispatchMarksNew(g1, ls[1..]);
      MarksNewTrans(g, g1, Dispatch(g, ls));
    }
  }

  lemma {:induction false} RunMarksNew(g: Graph, l: Listener)
    requires WF(g) && Owned(g) && (l.Cascade? ==> l.parent in g.recs)
    ensures MarksNew(g, RunListener(g, l), None)
    decreases Live(g), 0, 1
  {
    if l.Cascade? && Effective(g, l) && !Aborted(g, l.childId) {
      var y := l.childId;
      var g1 := SetCascading(g, y);
      var c, arg := At(g, y).controller, g.sigs[g.recs[l.parent].controller].reason;
      assert Live(g1) == Live(g);
      assert forall x | x in g.ids :: At(g1, x).controller == At(g, x).controller;
      assert Owned(g1) by { OwnedKept(g, g1); }
      FireMarksNew(g1, c, arg);
      MarkedFirst(g, g1, Fire(g1, c, arg), y);
    }
  }

  lemma MarkedFirst(g: Graph, g1: Graph, h: Graph, y: Id)
    requires WF(g) && WF(g1) && WF(h) && Owned(g) && y in g.ids && g1.ids == g.ids && g1.sigs == g.sigs
    requires forall x | x in g.ids :: At(g1, x).controller == At(g, x).controller
    requires At(g1, y).cascading && Extends(g1, h) && MarksNew(g1, h, Some(At(g, y).controller))
    ensures MarksNew(g, h, None)
  {
    forall x | x in g.ids && !Aborted(g, x) && Aborted(h, x) ensures At(h, x).cascading {
      ExtendsAt(g1, h, y);
      assert x != y ==> At(g, x).controller != At(g, y).controller;
    }
  }

  /** The node fired first is not marked: its controller is dead before any closure runs. */
  lemma {:induction false} FiredKeepsNode(g: Graph, x: Id, arg: Option<Reason>)
    requires WF(g) && x in g.ids && !Aborted(g, x)
    ensures At(Fire(g, At(g, x).controller, arg), x) == At(g, x)
  {
    var c := At(g, x).controller;
    var g1 := SetSignal(g, c, Signal(Some(Resolve(arg, c)), []));
    assert Extends(g, g1);
    ExtendsWF(g, g1);
    ExtendsAt(g1, Dispatch(g1, g.sigs[c].listeners), x);
  }

  /** A direct abort leaves every node as it is but for one thing: exactly the live heirs of the fired node are marked
      cascading, and the node itself is not. */
  lemma {:induction false} DirectNodes(g: Graph, x: Id, arg: Option<Reason>, y: Id)
    requires Sound(g) && x in g.ids && !Aborted(g, x) && y in g.ids
    ensures At(Fire(g, At(g, x).controller, arg), y) ==
              At(g, y).(cascading := At(g, y).cascading || (y != x && !Aborted(g, y) && Heir(g, x, y)))
  {
    var c := At(g, x).controller;
    var h := Fire(g, c, arg);
    DirectExact(g, x, arg, y);
    FireMarksNew(g, c, arg);
    ExtendsAt(g, h, y);
    assert RecordStep(g, h, g.ids[y]);
    if y == x {
      FiredKeepsNode(g, x, arg);
    } else {
      assert At(g, y).controller != c;
    }
  }

  // ----- linking

  /** From a walk along parent links that starts at c and ends elsewhere, the part behind its last c. */
  lemma {:induction false} LeaveOnce(g: Graph, c: Id, p: seq<Id>) returns (q: seq<Id>)
    requires WF(g) && LinkWalk(g, p) && p[0] == c && p[|p| - 1] != c
    ensures LinkWalk(g, q) && |q| >= 2 && q[0] == c && q[|q| - 1] == p[|p| - 1] && c !in q[1..]
    decreases |p|
  {
    if i :| 1 <= i < |p| && p[i] == c {
      q := LeaveOnce(g, c, p[i..]);
    } else {
      q := p;
    }
  }

  /** h records another parent for c; otherwise the nodes of g and h have the same parents. */
  ghost predicate Reparented(g: Graph, h: Graph, c: Id)
    requires WF(g) && WF(h)
  {
    h.ids == g.ids && forall x | x in g.ids && x != c :: At(h, x).parentId == At(g, x).parentId
  }

  lemma HeirMoved(g: Graph, h: Graph, c: Id, y: Id)
    requires WF(g) && WF(h) && Reparented(g, h, c) && y != c && Heir(g, c, y)
    ensures Heir(h, c, y)
  {
    var p :| LinkWalk(g, p) && |p| >= 2 && p[0] == c && p[|p| - 1] == y;
    var q := LeaveOnce(g, c, p);
    forall i | 0 <= i < |q| - 1 ensures At(h, q[i + 1]).parentId == Some(q[i]) {
      assert q[1..][i] == q[i + 1];
    }
    assert LinkWalk(h, q);
  }

  /** Re-parenting a node does not change who hangs below it. */
  lemma HeirsMove(g: Graph, h: Graph, c: Id, y: Id)
    requires WF(g) && WF(h) && Reparented(g, h, c)
    ensures y == c || Heir(g, c, y) <==> y == c || Heir(h, c, y)
  {
    if y != c && Heir(g, c, y) {
      HeirMoved(g, h, c, y);
    }
    if y != c && Heir(h, c, y) {
      HeirMoved(h, g, c, y);
    }
  }

  /** The graph between recording the edge and firing the child: c marked, and everything else in place. */
  lemma MarkedEdge(g: Graph, p: Id, c: Id) returns (m: Graph)
    requires Sound(g) && p in g.ids && c in g.ids && Aborted(g, p) && !Aborted(g, c)
    ensures WF(m) && Structured(m) && Owned(m) && Reparented(g, m, c) && m.sigs == g.sigs && m.ids == g.ids
    ensures m.notified == g.notified && m.trace == g.trace && m.recs.Keys == g.recs.Keys
    ensures forall x | x in g.ids ::
              At(m, x) == At(g, x).(
                parentId := if x == c then Some(p) else At(g, x).parentId,
                children := if x == p then Add(At(g, x).children, c) else At(g, x).children,
                cascading := At(g, x).cascading || x == c)
    ensures LinkF(g, p, c) == Fire(m, At(g, c).controller, SignalOf(g, p).reason)
  {
    var e := LinkEdge(g, p, c);
    EdgeKeeps(g, p, c);
    m := SetCascading(e, c);
    forall x | x in g.ids ensures At(m, x) == At(e, x).(cascading := At(e, x).cascading || x == c) {
      assert x != c ==> At(e, x).controller != At(e, c).controller;
    }
    OwnedKept(e, m);
  }

  /** Firing a live node whose heirs' closures all hold: who is aborted, and with what. */
  lemma {:induction false} FiredNode(g: Graph, c: Id, rho: Reason, x: Id)
    requires WF(g) && Structured(g) && Owned(g) && c in g.ids && x in g.ids && !Aborted(g, c)
    requires AbortClosed(Fire(g, At(g, c).controller, Some(rho)))
    ensures var h := Fire(g, At(g, c).controller, Some(rho));
      && (Aborted(h, x) <==> Aborted(g, x) || x == c || Heir(g, c, x))
      && (Aborted(h, x) && !Aborted(g, x) ==> SignalOf(h, x) == Signal(Some(rho), []))
  {
    var cc := At(g, c).controller;
    var h := Fire(g, cc, Some(rho));
    var region := set y | y in g.ids && Heir(g, c, y);
    HeirsFenced(g, c, region);
    FirePhase(g, c, Some(rho), region);
    ExtendsAt(g, h, x);
    assert At(g, x).controller == cc ==> x == c;
    if !Aborted(g, x) {
      FireStays(g, h, region, cc, rho, x);
    }
    if Heir(g, c, x) {
      HeirAborted(g, h, c, x);
    }
  }

  lemma {:induction false} FiredController(g: Graph, c: Id, rho: Reason, d: AbortController)
    requires WF(g) && Structured(g) && Owned(g) && c in g.ids && !Aborted(g, c) && d in g.sigs
    ensures var h := Fire(g, At(g, c).controller, Some(rho));
      h.sigs[d] != g.sigs[d] ==>
        && g.sigs[d].reason.None? && h.sigs[d] == Signal(Some(rho), [])
        && exists y :: y in g.ids && At(g, y).controller == d && (y == c || Heir(g, c, y))
  {
    var cc := At(g, c).controller;
    var h := Fire(g, cc, Some(rho));
    var region := set y | y in g.ids && Heir(g, c, y);
    HeirsFenced(g, c, region);
    FirePhase(g, c, Some(rho), region);
    assert SignalStep(g, h, d);
    if NewlyAborted(g, h, d) && d != cc {
      var y :| y in region && y in g.ids && At(g, y).controller == d;
    }
  }

  /** Linking a live child under a dead parent: exactly the child and the live nodes below it are aborted, all with the
      parent's reason; exactly these are marked; the edge is recorded; nobody is notified. */
  lemma {:induction false} LinkUnderDeadExact(g: Graph, p: Id, c: Id, x: Id)
    requires Sound(g) && p in g.ids && c in g.ids && Aborted(g, p) && !Aborted(g, c) && x in g.ids
    ensures var h := LinkF(g, p, c);
      && h.ids == g.ids && h.notified == g.notified && h.trace == g.trace
      && (Aborted(h, x) <==> Aborted(g, x) || x == c || Heir(g, c, x))
      && (!Aborted(g, x) && Aborted(h, x) ==> SignalOf(h, x) == Signal(SignalOf(g, p).reason, []))
      && At(h, x) == At(g, x).(
           parentId := if x == c then Some(p) else At(g, x).parentId,
           children := if x == p then Add(At(g, x).children, c) else At(g, x).children,
           cascading := At(g, x).cascading || (!Aborted(g, x) && Aborted(h, x)))
  {
    var h := LinkF(g, p, c);
    var m := MarkedEdge(g, p, c);
    var cc, arg := At(g, c).controller, SignalOf(g, p).reason;
    assert AbortClosed(h) by {
      LinkSound(g, p, c);
      SoundIsClosed(h);
    }
    FiredNode(m, c, arg.value, x);
    HeirsMove(g, m, c, x);
    FireMarked(m, c, arg);
    FireMarksNew(m, cc, arg);
    ExtendsAt(m, h, x);
    ExtendsAt(m, h, c);
    assert RecordStep(m, h, m.ids[x]);
    assert At(m, x).controller == cc ==> x == c;
  }

  /** ... and every controller it changes was live, belongs to such a node and gets the parent's reason. */
  lemma {:induction false} LinkTouchesOnly(g: Graph, p: Id, c: Id, d: AbortController)
    requires Sound(g) && p in g.ids && c in g.ids && Aborted(g, p) && !Aborted(g, c) && d in g.sigs
    ensures var h := LinkF(g, p, c);
      d in h.sigs && (h.sigs[d] != g.sigs[d] ==>
        && g.sigs[d].reason.None? && h.sigs[d] == Signal(SignalOf(g, p).reason, [])
        && exists y :: y in g.ids && At(g, y).controller == d && (y == c || Heir(g, c, y)))
  {
    var h := LinkF(g, p, c);
    var m := MarkedEdge(g, p, c);
    FiredController(m, c, SignalOf(g, p).reason.value, d);
    if h.sigs[d] != g.sigs[d] {
      var y :| y in m.ids && At(m, y).controller == d && (y == c || Heir(m, c, y));
      HeirsMove(g, m, c, y);
      assert At(g, y).controller == d;
    }
  }

  /** Under a live parent, or for a dead child, linking aborts and announces nothing and marks nobody: the edge is
      recorded, and under a live parent the two closures are added. */
  lemma LinkQuietly(g: Graph, p: Id, c: Id, x: Id)
    requires Sound(g) && p in g.ids && c in g.ids && (!Aborted(g, p) || Aborted(g, c)) && x in g.ids
    ensures var h := LinkF(g, p, c);
      && h.ids == g.ids && h.notified == g.notified && h.trace == g.trace
      && At(h, x) == At(g, x).(
           parentId := if x == c then Some(p) else At(g, x).parentId,
           children := if x == p then Add(At(g, x).children, c) else At(g, x).children)
      && SignalOf(h, x) == SignalOf(g, x).(listeners := SignalOf(g, x).listeners +
           (if x == p && !Aborted(g, p) then [Cascade(g.ids[p], p, c)] else []) +
           (if x == c && !Aborted(g, p) then [Notify(p, c)] else []))
      && h.sigs.Keys == g.sigs.Keys && forall d | d in g.sigs :: h.sigs[d].reason == g.sigs[d].reason
  {
    EdgeKeeps(g, p, c);
    assert x != p ==> At(g, x).controller != At(g, p).controller;
    assert x != c ==> At(g, x).controller != At(g, c).controller;
    var ls := SignalOf(g, x).listeners;
    assert ls + [] == ls;
  }

  lemma LinkReasons(g: Graph, p: Id, c: Id)
    requires Sound(g) && p in g.ids && c in g.ids
    ensures var h := LinkF(g, p, c);
      && Sound(h) && h.ids == g.ids
      && if Aborted(g, p) && !Aborted(g, c) then SignalOf(h, c).reason == SignalOf(g, p).reason && At(h, c).cascading
         else forall x | x in g.ids :: SignalOf(h, x).reason == SignalOf(g, x).reason
  {
    LinkSound(g, p, c);
    if Aborted(g, p) && !Aborted(g, c) {
      LinkUnderDeadExact(g, p, c, c);
    } else {
      LinkQuietly(g, p, c, c);
      forall x | x in g.ids ensures SignalOf(LinkF(g, p, c), x).reason == SignalOf(g, x).reason {
        LinkQuietly(g, p, c, x);
      }
    }
  }
}
