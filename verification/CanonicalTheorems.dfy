/** The signing form is canonical and reads back as the data it was made from, and the joined input determines its
    fields. */
module CanonicalTheorems {
  import opened CanonicalJson
  import opened CanonicalProofs
  import opened JsonReader

  // ----- the key order is a strict total order

  lemma {:induction false} LexIrreflexive(a: Str)
    ensures !LexLess(a, a)
  {
    if a != [] {
      LexIrreflexive(a[1..]);
    }
  }

  lemma {:induction false} LexTransitive(a: Str, b: Str, c: Str)
    requires LexLess(a, b) && LexLess(b, c)
    ensures LexLess(a, c)
  {
    if a != [] && a[0] == b[0] && b[0] == c[0] {
      LexTransitive(a[1..], b[1..], c[1..]);
    }
  }

  lemma {:induction false} LexTotal(a: Str, b: Str)
    ensures a == b || LexLess(a, b) || LexLess(b, a)
    decreases |a|
  {
    if a != [] && b != [] && a[0] == b[0] {
      LexTotal(a[1..], b[1..]);
      assert a == [a[0]] + a[1..] && b == [b[0]] + b[1..];
    }
  }

  lemma KeyOrder(a: Str, b: Str, c: Str)
    ensures !KeyLess(a, a)
    ensures KeyLess(a, b) && KeyLess(b, c) ==> KeyLess(a, c)
    ensures a == b || KeyLess(a, b) || KeyLess(b, a)
  {
    LexIrreflexive(a);
    LexTotal(a, b);
    if LexLess(a, b) && LexLess(b, c) {
      LexTransitive(a, b, c);
    }
  }

  // ----- sorted members are determined by their set

  ghost predicate Sorted(ms: seq<Member>) {
    forall i, j | 0 <= i < j < |ms| :: KeyLess(ms[i].key, ms[j].key)
  }

  lemma {:induction false} InsertSorts(m: Member, ms: seq<Member>)
    requires Sorted(ms) && forall x | x in ms :: x.key != m.key
    ensures Sorted(Insert(m, ms)) && forall x :: x in Insert(m, ms) <==> x == m || x in ms
    decreases |ms|
  {
    if ms != [] {
      KeyOrder(m.key, ms[0].key, m.key);
      if KeyLess(m.key, ms[0].key) {
        forall j | 0 <= j < |ms| ensures KeyLess(m.key, ms[j].key) {
          if j > 0 {
            KeyOrder(m.key, ms[0].key, ms[j].key);
          }
        }
      } else {
        assert ms[0] in ms;
        InsertSorts(m, ms[1..]);
        forall x | x in Insert(m, ms[1..]) ensures KeyLess(ms[0].key, x.key) {
        }
      }
    }
  }

  lemma {:induction false} SortMembersSorts(ms: seq<Member>)
    requires DistinctKeys(ms)
    ensures Sorted(SortMembers(ms))
    ensures forall x :: x in SortMembers(ms) <==>
              exists m :: m in ms && m.key != PROTO && x == Member(m.key, SortValue(m.value))
    decreases |ms|
  {
    if ms != [] {
      SortMembersSorts(ms[1..]);
      if ms[0].key != PROTO {
        var m := Member(ms[0].key, SortValue(ms[0].value));
        forall x | x in SortMembers(ms[1..]) ensures x.key != m.key {
          var y :| y in ms[1..] && y.key != PROTO && x == Member(y.key, SortValue(y.value));
        }
        InsertSorts(m, SortMembers(ms[1..]));
      }
      assert forall x :: x in ms <==> x == ms[0] || x in ms[1..];
    }
  }

  lemma Inhabited(ms: seq<Member>)
    ensures ms != [] <==> exists m :: m in ms
  {
    if ms != [] {
      assert ms[0] in ms;
    }
  }

  lemma {:induction false} SortedUnique(xs: seq<Member>, ys: seq<Member>)
    requires Sorted(xs) && Sorted(ys) && forall m :: m in xs <==> m in ys
    ensures xs == ys
    decreases |xs|
  {
    Inhabited(xs);
    Inhabited(ys);
    if xs != [] {
      assert xs[0] in ys && ys[0] in xs;
      KeyOrder(xs[0].key, ys[0].key, xs[0].key);
      assert xs[0] == ys[0];
      forall m ensures m in xs[1..] <==> m in ys[1..] {
        assert m in xs[1..] ==> m in xs && KeyLess(xs[0].key, m.key);
        assert m in ys[1..] ==> m in ys && KeyLess(ys[0].key, m.key);
        KeyOrder(xs[0].key, xs[0].key, xs[0].key);
      }
      SortedUnique(xs[1..], ys[1..]);
      assert xs == [xs[0]] + xs[1..] && ys == [ys[0]] + ys[1..];
    }
  }

  // ----- equality up to the order of members

  /** Equal up to the order of members at every depth, members named __proto__ aside. */
  ghost predicate Equivalent(a: Json, b: Json)
    decreases a
  {
    match a
    case Arr(xs) => b.Arr? && |xs| == |b.items| && forall i | 0 <= i < |xs| :: Equivalent(xs[i], b.items[i])
    case Obj(ms) =>
      && b.Obj?
      && (forall m | m in ms && m.key != PROTO ::
            exists n :: n in b.members && n.key == m.key && Equivalent(m.value, n.value))
      && (forall n | n in b.members && n.key != PROTO :: exists m :: m in ms && m.key == n.key)
    case _ => a == b
  }

  lemma SameKeySame(ms: seq<Member>, m: Member, n: Member)
    requires DistinctKeys(ms) && m in ms && n in ms && m.key == n.key
    ensures m == n
  {
  }

  /** The sorted image of a member. */
  ghost predicate Image(ms: seq<Member>, x: Member) {
    exists m :: m in ms && m.key != PROTO && x == Member(m.key, SortValue(m.value))
  }

  lemma {:induction false} SortCanonical(a: Json, b: Json)
    requires Valid(a) && Valid(b)
    ensures SortValue(a) == SortValue(b) <==> Equivalent(a, b)
    decreases a
  {
    match a
    case Arr(xs) =>
      if b.Arr? && |xs| == |b.items| {
        forall i | 0 <= i < |xs| ensures SortValue(xs[i]) == SortValue(b.items[i]) <==> Equivalent(xs[i], b.items[i]) {
          SortCanonical(xs[i], b.items[i]);
        }
        ItemsCanonical(xs, b.items);
      } else if b.Arr? {
        assert |SortItems(xs)| != |SortItems(b.items)|;
      }
    case Obj(ms) =>
      if b.Obj? {
        forall m, n | m in ms && n in b.members
          ensures SortValue(m.value) == SortValue(n.value) <==> Equivalent(m.value, n.value)
        {
          SortCanonical(m.value, n.value);
        }
        MembersCanonical(ms, b.members);
      }
    case _ =>
  }

  lemma {:induction false} ItemsCanonical(xs: seq<Json>, ys: seq<Json>)
    requires |xs| == |ys|
    ensures SortItems(xs) == SortItems(ys) <==> forall i | 0 <= i < |xs| :: SortValue(xs[i]) == SortValue(ys[i])
  {
    if SortItems(xs) == SortItems(ys) {
      forall i | 0 <= i < |xs| ensures SortValue(xs[i]) == SortValue(ys[i]) {
        assert SortItems(xs)[i] == SortItems(ys)[i];
      }
    }
  }

  /** Every member of ms has a partner in ns with the same key and the same sorted value. */
  ghost predicate Partnered(ms: seq<Member>, ns: seq<Member>) {
    forall m | m in ms && m.key != PROTO ::
      exists n :: n in ns && n.key == m.key && SortValue(n.value) == SortValue(m.value)
  }

  /** Every key of ns is a key of ms. */
  ghost predicate KeysIn(ns: seq<Member>, ms: seq<Member>) {
    forall n | n in ns && n.key != PROTO :: exists m :: m in ms && m.key == n.key
  }

  lemma EquivalentMeans(ms: seq<Member>, ns: seq<Member>)
    requires forall m, n | m in ms && n in ns ::
               SortValue(m.value) == SortValue(n.value) <==> Equivalent(m.value, n.value)
    ensures Equivalent(Obj(ms), Obj(ns)) <==> Partnered(ms, ns) && KeysIn(ns, ms)
  {
  }

  lemma {:induction false} MembersCanonical(ms: seq<Member>, ns: seq<Member>)
    requires DistinctKeys(ms) && DistinctKeys(ns)
    requires forall m, n | m in ms && n in ns ::
               SortValue(m.value) == SortValue(n.value) <==> Equivalent(m.value, n.value)
    ensures SortMembers(ms) == SortMembers(ns) <==> Equivalent(Obj(ms), Obj(ns))
  {
    EquivalentMeans(ms, ns);
    SortedMeans(ms, ns);
  }

  lemma {:induction false} SortedMeans(ms: seq<Member>, ns: seq<Member>)
    requires DistinctKeys(ms) && DistinctKeys(ns)
    ensures SortMembers(ms) == SortMembers(ns) <==> Partnered(ms, ns) && KeysIn(ns, ms)
  {
    SortMembersSorts(ms);
    SortMembersSorts(ns);
    assert forall x :: x in SortMembers(ms) <==> Image(ms, x);
    assert forall x :: x in SortMembers(ns) <==> Image(ns, x);
    if Partnered(ms, ns) && KeysIn(ns, ms) {
      PartneredAgree(ms, ns);
      forall x ensures x in SortMembers(ms) <==> x in SortMembers(ns) {
        if Image(ms, x) {
          ImageForward(ms, ns, x);
        }
        if Image(ns, x) {
          ImageBackward(ms, ns, x);
        }
      }
      SortedUnique(SortMembers(ms), SortMembers(ns));
    }
    if SortMembers(ms) == SortMembers(ns) {
      ImagesPartnered(ms, ns);
    }
  }

  lemma ImageForward(ms: seq<Member>, ns: seq<Member>, x: Member)
    requires Partnered(ms, ns) && Image(ms, x)
    ensures Image(ns, x)
  {
    var m :| m in ms && m.key != PROTO && x == Member(m.key, SortValue(m.value));
    var n :| n in ns && n.key == m.key && SortValue(n.value) == SortValue(m.value);
    assert n.key != PROTO && x == Member(n.key, SortValue(n.value));
  }

  /** Members with the same key sort to the same value. */
  ghost predicate Agree(ms: seq<Member>, ns: seq<Member>) {
    forall m, n | m in ms && n in ns && m.key == n.key && m.key != PROTO :: SortValue(m.value) == SortValue(n.value)
  }

  lemma PartneredAgree(ms: seq<Member>, ns: seq<Member>)
    requires DistinctKeys(ns) && Partnered(ms, ns)
    ensures Agree(ms, ns)
  {
    forall m, n | m in ms && n in ns && m.key == n.key && m.key != PROTO
      ensures SortValue(m.value) == SortValue(n.value)
    {
      var n' :| n' in ns && n'.key == m.key && SortValue(n'.value) == SortValue(m.value);
      SameKeySame(ns, n, n');
    }
  }

  lemma ImageBackward(ms: seq<Member>, ns: seq<Member>, x: Member)
    requires Agree(ms, ns) && KeysIn(ns, ms) && Image(ns, x)
    ensures Image(ms, x)
  {
    var n :| n in ns && n.key != PROTO && x == Member(n.key, SortValue(n.value));
    var m :| m in ms && m.key == n.key;
    assert x == Member(m.key, SortValue(m.value));
  }

  lemma ImagesPartnered(ms: seq<Member>, ns: seq<Member>)
    requires forall x :: Image(ms, x) <==> Image(ns, x)
    ensures Partnered(ms, ns) && KeysIn(ns, ms)
  {
    forall m | m in ms && m.key != PROTO
      ensures exists n :: n in ns && n.key == m.key && SortValue(n.value) == SortValue(m.value)
    {
      assert Image(ms, Member(m.key, SortValue(m.value)));
      var n :| n in ns && n.key != PROTO && Member(m.key, SortValue(m.value)) == Member(n.key, SortValue(n.value));
    }
    forall n | n in ns && n.key != PROTO ensures exists m :: m in ms && m.key == n.key {
      assert Image(ns, Member(n.key, SortValue(n.value)));
      var m :| m in ms && m.key != PROTO && Member(n.key, SortValue(n.value)) == Member(m.key, SortValue(m.value));
    }
  }

  // ----- the main theorem

  lemma {:induction false} SortValid(v: Json)
    requires Valid(v)
    ensures Valid(SortValue(v))
    decreases v
  {
    match v
    case Arr(xs) =>
      forall x | x in SortItems(xs) ensures Valid(x) {
        var i :| 0 <= i < |xs| && SortItems(xs)[i] == x;
        SortValid(xs[i]);
      }
    case Obj(ms) =>
      SortMembersSorts(ms);
      var r := SortMembers(ms);
      forall i, j | 0 <= i < j < |r| ensures r[i].key != r[j].key {
        KeyOrder(r[i].key, r[i].key, r[i].key);
      }
      forall x | x in r ensures Valid(x.value) {
        var m :| m in ms && m.key != PROTO && x == Member(m.key, SortValue(m.value));
        SortValid(m.value);
      }
    case _ =>
  }

  /** Two values have the same canonical text exactly when they are equal up to the order of members at every
      depth, members named __proto__ aside. */
  lemma {:induction false} StableStringifyCanonical(a: Json, b: Json)
    requires Valid(a) && Valid(b)
    ensures StableStringify(a) == StableStringify(b) <==> Equivalent(a, b)
  {
    SortCanonical(a, b);
    SortValid(a);
    SortValid(b);
    if StableStringify(a) == StableStringify(b) {
      SerInjective(SortValue(a), SortValue(b));
    }
  }

  /** Equal up to the order of members at every depth. */
  ghost predicate SameData(a: Json, b: Json)
    decreases a
  {
    match a
    case Arr(xs) => b.Arr? && |xs| == |b.items| && forall i | 0 <= i < |xs| :: SameData(xs[i], b.items[i])
    case Obj(ms) =>
      && b.Obj?
      && (forall m | m in ms :: exists n :: n in b.members && n.key == m.key && SameData(m.value, n.value))
      && (forall n | n in b.members :: exists m :: m in ms && m.key == n.key)
    case _ => a == b
  }

  ghost predicate NoProto(v: Json) {
    match v
    case Arr(xs) => forall x | x in xs :: NoProto(x)
    case Obj(ms) => forall m | m in ms :: m.key != PROTO && NoProto(m.value)
    case _ => true
  }

  lemma {:induction false} EquivalentIsSame(a: Json, b: Json)
    requires NoProto(a) && NoProto(b)
    ensures Equivalent(a, b) <==> SameData(a, b)
    decreases a
  {
    match a
    case Arr(xs) =>
      if b.Arr? && |xs| == |b.items| {
        forall i | 0 <= i < |xs| ensures Equivalent(xs[i], b.items[i]) <==> SameData(xs[i], b.items[i]) {
          EquivalentIsSame(xs[i], b.items[i]);
        }
      }
    case Obj(ms) =>
      if b.Obj? {
        forall m, n | m in ms && n in b.members ensures Equivalent(m.value, n.value) <==> SameData(m.value, n.value) {
          EquivalentIsSame(m.value, n.value);
        }
      }
    case _ =>
  }

  /** So without __proto__ members the text is canonical in the plain sense. */
  lemma {:induction false} CanonicalWithoutProto(a: Json, b: Json)
    requires Valid(a) && Valid(b) && NoProto(a) && NoProto(b)
    ensures StableStringify(a) == StableStringify(b) <==> SameData(a, b)
  {
    StableStringifyCanonical(a, b);
    EquivalentIsSame(a, b);
  }

  /** Sorting keeps the data, members named __proto__ aside. */
  lemma {:induction false} SortKeepsData(v: Json)
    requires Valid(v)
    ensures Equivalent(v, SortValue(v)) && (NoProto(v) ==> SameData(v, SortValue(v)))
    decreases v
  {
    match v
    case Arr(xs) =>
      forall i | 0 <= i < |xs|
        ensures Equivalent(xs[i], SortItems(xs)[i]) && (NoProto(v) ==> SameData(xs[i], SortItems(xs)[i]))
      {
        SortKeepsData(xs[i]);
      }
    case Obj(ms) =>
      var r := SortMembers(ms);
      SortMembersSorts(ms);
      forall m | m in ms && m.key != PROTO
        ensures exists n :: n in r && n.key == m.key && Equivalent(m.value, n.value)
        ensures NoProto(v) ==> exists n :: n in r && n.key == m.key && SameData(m.value, n.value)
      {
        SortKeepsData(m.value);
        assert Member(m.key, SortValue(m.value)) in r;
      }
    case _ =>
  }

  /** The text signed is JSON: a reader gets from it the value with its members sorted, and that is the value signed, up
      to the order of members, without its __proto__ members. */
  lemma {:induction false} ReadsBack(v: Json)
    requires Valid(v)
    ensures ReadJson(StableStringify(v)) == Got(SortValue(v), [])
    ensures Equivalent(v, SortValue(v)) && (NoProto(v) ==> SameData(v, SortValue(v)))
  {
    SortValid(v);
    SerReadBack(SortValue(v));
    SortKeepsData(v);
  }

  /** With __proto__ members it is not canonical: such a member is left out of the text. */
  lemma ProtoIsForgotten()
    ensures var a, b := Obj([Member(PROTO, Null)]), Obj([]);
      Valid(a) && Valid(b) && StableStringify(a) == StableStringify(b) && !SameData(a, b)
  {
    var a, b := Obj([Member(PROTO, Null)]), Obj([]);
    assert [Member(PROTO, Null)][1..] == [];
    assert SortMembers([Member(PROTO, Null)]) == SortMembers([]);
    assert Member(PROTO, Null) in a.members;
  }

  // ----- the NUL-joined input

  /** The only NUL of a joined pair of clean fields shows where they meet. */
  lemma OneNul(s: Str, r: Str, s2: Str, r2: Str)
    requires 0 !in s && 0 !in r && s + [0] + r == s2 + [0] + r2
    ensures s == s2 && r == r2
  {
    var x, y := s + [0] + r, s2 + [0] + r2;
    forall i | 0 <= i < |x| && i != |s| ensures x[i] != 0 {
      assert x[i] == if i < |s| then s[i] else r[i - |s| - 1];
    }
    assert y[|s2|] == 0;
    assert x[..|s|] == s && y[..|s2|] == s2 && x[|s| + 1..] == r && y[|s2| + 1..] == r2;
  }

  /** A clean last field starts behind the last NUL. */
  lemma LastNul(x: Str, t: Str, y: Str, u: Str)
    requires 0 !in t && 0 !in u && x + [0] + t == y + [0] + u
    ensures x == y && t == u
  {
    var a, b := x + [0] + t, y + [0] + u;
    forall i | |x| < i < |a| ensures a[i] != 0 {
      assert a[i] == t[i - |x| - 1];
    }
    forall i | |y| < i < |b| ensures b[i] != 0 {
      assert b[i] == u[i - |y| - 1];
    }
    assert a[|x|] == 0 && b[|y|] == 0;
    assert a[..|x|] == x && b[..|y|] == y && a[|x| + 1..] == t && b[|y| + 1..] == u;
  }

  function Joined(s: Str, r: Str): Str {
    s + [0] + r
  }

  /** Two fields can be read back from the joined pair exactly when neither contains NUL. */
  lemma JoinedDetermines(s: Str, r: Str)
    ensures (forall s2, r2 | Joined(s2, r2) == Joined(s, r) :: s2 == s && r2 == r) <==> 0 !in s && 0 !in r
  {
    if 0 !in s && 0 !in r {
      forall s2, r2 | Joined(s2, r2) == Joined(s, r) ensures s2 == s && r2 == r {
        OneNul(s, r, s2, r2);
      }
    } else {
      var s2, r2 := OtherSplit(s, r);
      assert Joined(s2, r2) == Joined(s, r) && s2 != s;
    }
  }

  /** Splitting at another NUL. */
  lemma OtherSplit(s: Str, r: Str) returns (s2: Str, r2: Str)
    requires 0 in s || 0 in r
    ensures Joined(s2, r2) == Joined(s, r) && s2 != s
  {
    if 0 in s {
      var i :| 0 <= i < |s| && s[i] == 0;
      s2, r2 := s[..i], s[i + 1..] + [0] + r;
      assert s == s[..i] + [0] + s[i + 1..];
    } else {
      var i :| 0 <= i < |r| && r[i] == 0;
      s2, r2 := s + [0] + r[..i], r[i + 1..];
      assert r == r[..i] + [0] + r[i + 1..];
    }
  }

  lemma ResponseJoin(s: Str, r: Str, v: Json)
    ensures ResponseCanonical(s, r, v) == ELICITATION_RESPONSE + [0] + Joined(s, r) + [0] + StableStringify(v)
  {
    var kind, t := ELICITATION_RESPONSE + [0], StableStringify(v);
    assert kind + s + [0] + r + [0] + t == kind + (s + [0] + r) + [0] + t;
  }

  /** For all responses: the inputs are equal exactly when the joined ids are and the results are equal up to
      member order. */
  lemma {:induction false} ResponsesSame(s1: Str, r1: Str, v1: Json, s2: Str, r2: Str, v2: Json)
    requires Valid(v1) && Valid(v2)
    ensures ResponseCanonical(s1, r1, v1) == ResponseCanonical(s2, r2, v2) <==>
              Joined(s1, r1) == Joined(s2, r2) && Equivalent(v1, v2)
  {
    var kind := ELICITATION_RESPONSE + [0];
    var t1, t2 := StableStringify(v1), StableStringify(v2);
    StableStringifyCanonical(v1, v2);
    ResponseJoin(s1, r1, v1);
    ResponseJoin(s2, r2, v2);
    SortValid(v1);
    SortValid(v2);
    SerClean(SortValue(v1));
    SerClean(SortValue(v2));
    if ResponseCanonical(s1, r1, v1) == ResponseCanonical(s2, r2, v2) {
      LastNul(kind + Joined(s1, r1), t1, kind + Joined(s2, r2), t2);
      assert (kind + Joined(s1, r1))[|kind|..] == Joined(s1, r1);
      assert (kind + Joined(s2, r2))[|kind|..] == Joined(s2, r2);
    }
  }

  lemma AbortsSame(s1: Str, n1: Str, s2: Str, n2: Str)
    ensures AbortCanonical(s1, n1) == AbortCanonical(s2, n2) <==> Joined(s1, n1) == Joined(s2, n2)
  {
    var kind := ABORT_REQUEST + [0];
    assert AbortCanonical(s1, n1) == kind + Joined(s1, n1) && AbortCanonical(s2, n2) == kind + Joined(s2, n2);
    assert (kind + Joined(s1, n1))[|kind|..] == Joined(s1, n1);
    assert (kind + Joined(s2, n2))[|kind|..] == Joined(s2, n2);
  }

  /** No other response has this one's input exactly when its own ids contain no NUL, whatever the other holds. */
  lemma {:induction false} ResponseDetermines(s: Str, r: Str, v: Json)
    requires Valid(v)
    ensures (forall s2, r2, v2 | Valid(v2) && ResponseCanonical(s2, r2, v2) == ResponseCanonical(s, r, v) ::
              s2 == s && r2 == r && Equivalent(v, v2)) <==> 0 !in s && 0 !in r
  {
    JoinedDetermines(s, r);
    if 0 !in s && 0 !in r {
      forall s2, r2, v2 | Valid(v2) && ResponseCanonical(s2, r2, v2) == ResponseCanonical(s, r, v)
        ensures s2 == s && r2 == r && Equivalent(v, v2)
      {
        ResponsesSame(s, r, v, s2, r2, v2);
      }
    } else {
      var s2, r2 := OtherSplit(s, r);
      ResponseJoin(s, r, v);
      ResponseJoin(s2, r2, v);
      assert ResponseCanonical(s2, r2, v) == ResponseCanonical(s, r, v) && s2 != s;
    }
  }

  /** No other abort has this one's input exactly when its session and nonce contain no NUL. */
  lemma AbortDetermines(s: Str, n: Str)
    ensures (forall s2, n2 | AbortCanonical(s2, n2) == AbortCanonical(s, n) :: s2 == s && n2 == n) <==>
              0 !in s && 0 !in n
  {
    JoinedDetermines(s, n);
    forall s2, n2 ensures AbortCanonical(s2, n2) == AbortCanonical(s, n) <==> Joined(s2, n2) == Joined(s, n) {
      AbortsSame(s2, n2, s, n);
    }
    if !(0 !in s && 0 !in n) {
      var s2, n2 := OtherSplit(s, n);
      assert AbortCanonical(s2, n2) == AbortCanonical(s, n) && s2 != s;
    }
  }

  /** No response shares its input with an abort, whatever the fields are. */
  lemma KindsDiffer(s1: Str, r1: Str, v: Json, s2: Str, n2: Str)
    ensures ResponseCanonical(s1, r1, v) != AbortCanonical(s2, n2)
  {
    assert ResponseCanonical(s1, r1, v)[0] == 101;
    assert AbortCanonical(s2, n2)[0] == 97;
  }

  /** An instance: with a NUL in the session the boundary between the two fields can move. */
  lemma NulMovesBoundary()
    ensures AbortCanonical([1, 0, 2], [3]) == AbortCanonical([1], [2, 0, 3])
  {
  }
}
