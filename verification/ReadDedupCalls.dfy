/**
  From tool calls to reads: which calls count as the same call, and what the counts of the report come to on the calls
  themselves.
 */
module ReadDedupCalls {
  import opened Wrappers
  import opened ReadDedup

  datatype Call = Call(subagentId: string, name: string, argsFingerprint: string,
                       resourceFingerprint: Option<string>, at: int)

  function ByArgs(calls: seq<Call>): (rs: seq<Read>)
    ensures |rs| == |calls|
  {
    seq(|calls|, i requires 0 <= i < |calls| =>
      Read(calls[i].name + "|" + calls[i].argsFingerprint, calls[i].subagentId, calls[i].at))
  }

  // ----- which calls are the same call

  predicate SameCall(c: Call, d: Call) {
    c.name == d.name && c.argsFingerprint == d.argsFingerprint
  }

  /** The name of d continues the name of c behind a bar, and the fingerprint of c makes up for it: the joined texts
      are equal although the calls are not. */
  predicate RunsOn(c: Call, d: Call) {
    c.name + "|" <= d.name && c.argsFingerprint == d.name[|c.name| + 1..] + "|" + d.argsFingerprint
  }

  ghost predicate MixesUp(calls: seq<Call>) {
    exists c, d | c in calls && d in calls :: RunsOn(c, d)
  }

  lemma RunOnMeets(c: Call, d: Call)
    requires RunsOn(c, d)
    ensures c.name + "|" + c.argsFingerprint == d.name + "|" + d.argsFingerprint && !SameCall(c, d)
  {
    assert d.name == c.name + "|" + d.name[|c.name| + 1..];
  }

  lemma ShorterRunsOn(c: Call, d: Call)
    requires c.name + "|" + c.argsFingerprint == d.name + "|" + d.argsFingerprint && |c.name| < |d.name|
    ensures RunsOn(c, d)
  {
    var key, rest := c.name + "|" + c.argsFingerprint, d.name[|c.name| + 1..];
    assert key[..|c.name| + 1] == c.name + "|" && key[..|d.name|] == d.name;
    assert key[|c.name| + 1..] == c.argsFingerprint;
    assert key == d.name + ("|" + d.argsFingerprint);
    assert key[|c.name| + 1..] == rest + ("|" + d.argsFingerprint);
    assert rest + "|" + d.argsFingerprint == rest + ("|" + d.argsFingerprint);
  }

  /** Two calls fall into one group exactly when they are the same call, or the one runs on into the other. */
  lemma KeysMeet(calls: seq<Call>, i: nat, j: nat)
    requires i < |calls| && j < |calls|
    ensures ByArgs(calls)[i].key == ByArgs(calls)[j].key <==>
              SameCall(calls[i], calls[j]) || RunsOn(calls[i], calls[j]) || RunsOn(calls[j], calls[i])
  {
    var c, d := calls[i], calls[j];
    if RunsOn(c, d) {
      RunOnMeets(c, d);
    }
    if RunsOn(d, c) {
      RunOnMeets(d, c);
    }
    if c.name + "|" + c.argsFingerprint == d.name + "|" + d.argsFingerprint {
      if |c.name| < |d.name| {
        ShorterRunsOn(c, d);
      } else if |d.name| < |c.name| {
        ShorterRunsOn(d, c);
      } else {
        assert (c.name + "|" + c.argsFingerprint)[..|c.name|] == c.name;
        assert (d.name + "|" + d.argsFingerprint)[..|c.name|] == d.name;
        assert (c.name + "|" + c.argsFingerprint)[|c.name| + 1..] == c.argsFingerprint;
        assert (d.name + "|" + d.argsFingerprint)[|c.name| + 1..] == d.argsFingerprint;
      }
    }
  }

  lemma RunOnHasBars(c: Call, d: Call)
    requires RunsOn(c, d)
    ensures '|' in d.name && '|' in c.argsFingerprint
  {
    assert d.name[|c.name|] == (c.name + "|")[|c.name|] == '|';
    assert c.argsFingerprint[|d.name[|c.name| + 1..]|] == '|';
  }

  /** Names without bars, or fingerprints without bars, are never mixed up. */
  lemma BarFree(calls: seq<Call>)
    requires (forall c | c in calls :: '|' !in c.name) || (forall c | c in calls :: '|' !in c.argsFingerprint)
    ensures !MixesUp(calls)
  {
    if c, d :| c in calls && d in calls && RunsOn(c, d) {
      RunOnHasBars(c, d);
    }
  }

  // ----- counting

  function Elements<T(==)>(s: seq<T>): set<T> {
    set x | x in s
  }

  ghost predicate Collide<A, B>(a: seq<A>, b: seq<B>)
    requires |a| == |b|
  {
    exists i, j | 0 <= i < |a| && 0 <= j < |a| :: a[i] == a[j] && b[i] != b[j]
  }

  lemma ElementsNext<T>(s: seq<T>, x: T)
    ensures Elements(s + [x]) == Elements(s) + {x}
  {
  }

  lemma CollideNext<A, B>(a: seq<A>, x: A, b: seq<B>, y: B)
    requires |a| == |b|
    ensures Collide(a + [x], b + [y]) <==> Collide(a, b) || exists k :: 0 <= k < |a| && a[k] == x && b[k] != y
  {
    var a', b' := a + [x], b + [y];
    if i, j :| 0 <= i < |a| && 0 <= j < |a| && a[i] == a[j] && b[i] != b[j] {
      assert a'[i] == a'[j] && b'[i] != b'[j];
    }
    if k :| 0 <= k < |a| && a[k] == x && b[k] != y {
      assert a'[k] == a'[|a|] && b'[k] != b'[|a|];
    }
    if i, j :| 0 <= i < |a'| && 0 <= j < |a'| && a'[i] == a'[j] && b'[i] != b'[j] {
      assert i == |a| ==> a[j] == x && b[j] != y;
      assert j == |a| ==> a[i] == x && b[i] != y;
      assert i < |a| && j < |a| ==> a[i] == a[j] && b[i] != b[j];
    }
  }

  lemma KeysStep<A, B>(a: seq<A>, x: A, b: seq<B>, y: B)
    requires |a| == |b| && |Elements(a)| <= |Elements(b)|
    requires |Elements(a)| == |Elements(b)| <==> !Collide(a, b)
    requires forall i | 0 <= i < |a| && b[i] == y :: a[i] == x
    ensures |Elements(a) + {x}| <= |Elements(b) + {y}|
    ensures |Elements(a) + {x}| == |Elements(b) + {y}| <==>
              !(Collide(a, b) || exists k :: 0 <= k < |a| && a[k] == x && b[k] != y)
  {
    if y in b {
      var k :| 0 <= k < |b| && b[k] == y;
      assert Elements(a) + {x} == Elements(a) && Elements(b) + {y} == Elements(b);
      assert (exists i :: 0 <= i < |a| && a[i] == x && b[i] != y) ==> Collide(a, b);
    } else {
      assert y !in Elements(b);
      assert x in a <==> exists k :: 0 <= k < |a| && a[k] == x && b[k] != y;
      assert x in a ==> Elements(a) + {x} == Elements(a);
    }
  }

  /** If equal labels b mean equal keys a, there are at most as many keys as labels, and as many exactly when different
      labels always mean different keys. */
  lemma {:induction false} KeysVersusLabels<A, B>(a: seq<A>, b: seq<B>)
    requires |a| == |b| && forall i, j | 0 <= i < |a| && 0 <= j < |a| && b[i] == b[j] :: a[i] == a[j]
    ensures |Elements(a)| <= |Elements(b)|
    ensures |Elements(a)| == |Elements(b)| <==> !Collide(a, b)
    decreases |a|
  {
    if a != [] {
      var n := |a| - 1;
      var a', x, b', y := a[..n], a[n], b[..n], b[n];
      assert a == a' + [x] && b == b' + [y];
      KeysVersusLabels(a', b');
      ElementsNext(a', x);
      ElementsNext(b', y);
      CollideNext(a', x, b', y);
      KeysStep(a', x, b', y);
    }
  }

  function CallPairs(calls: seq<Call>): set<(string, string)> {
    set c | c in calls :: (c.name, c.argsFingerprint)
  }

  function Callers(calls: seq<Call>): set<(string, string, string)> {
    set c | c in calls :: (c.name, c.argsFingerprint, c.subagentId)
  }

  lemma MixIffCollide(calls: seq<Call>, a: seq<string>, b: seq<(string, string)>)
    requires |a| == |b| == |calls|
    requires forall i | 0 <= i < |calls| ::
               a[i] == ByArgs(calls)[i].key && b[i] == (calls[i].name, calls[i].argsFingerprint)
    ensures Collide(a, b) <==> MixesUp(calls)
  {
    forall i, j | 0 <= i < |calls| && 0 <= j < |calls|
      ensures a[i] == a[j] && b[i] != b[j] <==> RunsOn(calls[i], calls[j]) || RunsOn(calls[j], calls[i])
    {
      KeysMeet(calls, i, j);
      if RunsOn(calls[i], calls[j]) {
        RunOnMeets(calls[i], calls[j]);
      }
      if RunsOn(calls[j], calls[i]) {
        RunOnMeets(calls[j], calls[i]);
      }
    }
    if c, d :| c in calls && d in calls && RunsOn(c, d) {
      var i, j :| 0 <= i < |calls| && 0 <= j < |calls| && calls[i] == c && calls[j] == d;
      assert a[i] == a[j] && b[i] != b[j];
    }
  }

  /** The number of groups is at most the number of different (tool, arguments) pairs, and is that number exactly when
      no call runs on into another. */
  lemma GroupsArePairs(calls: seq<Call>)
    ensures |Keys(ByArgs(calls))| <= |CallPairs(calls)|
    ensures |Keys(ByArgs(calls))| == |CallPairs(calls)| <==> !MixesUp(calls)
  {
    var rs := ByArgs(calls);
    var a := seq(|calls|, i requires 0 <= i < |calls| => rs[i].key);
    var b := seq(|calls|, i requires 0 <= i < |calls| => (calls[i].name, calls[i].argsFingerprint));
    KeysVersusLabels(a, b);
    MixIffCollide(calls, a, b);
    assert Elements(a) == Keys(rs) by {
      assert forall i | 0 <= i < |calls| :: a[i] == rs[i].key && rs[i] in rs;
    }
    assert Elements(b) == CallPairs(calls) by {
      assert forall i | 0 <= i < |calls| :: b[i] == (calls[i].name, calls[i].argsFingerprint) && calls[i] in calls;
    }
  }

  /** Without mix-ups, two calls fall into one group exactly when they are the same call. */
  lemma OneGroupOneCall(calls: seq<Call>, i: nat, j: nat)
    requires i < |calls| && j < |calls| && !MixesUp(calls)
    ensures ByArgs(calls)[i].key == ByArgs(calls)[j].key <==> SameCall(calls[i], calls[j])
  {
    KeysMeet(calls, i, j);
    assert !RunsOn(calls[i], calls[j]) && !RunsOn(calls[j], calls[i]);
  }

  /** Without mix-ups, the self duplicates are the calls beyond the first of the same agent, tool and arguments. */
  lemma SelfCounts(calls: seq<Call>)
    requires !MixesUp(calls)
    ensures SelfDuplicates(ByArgs(calls)) == |calls| - |Callers(calls)|
  {
    var rs := ByArgs(calls);
    var a := seq(|calls|, i requires 0 <= i < |calls| => (rs[i].key, rs[i].agent));
    var b := seq(|calls|, i requires 0 <= i < |calls| =>
      (calls[i].name, calls[i].argsFingerprint, calls[i].subagentId));
    forall i, j | 0 <= i < |calls| && 0 <= j < |calls| ensures a[i] == a[j] <==> b[i] == b[j] {
      OneGroupOneCall(calls, i, j);
    }
    KeysVersusLabels(a, b);
    assert Elements(a) == Pairs(rs) by {
      assert forall i | 0 <= i < |calls| :: a[i] == (rs[i].key, rs[i].agent) && rs[i] in rs;
    }
    assert Elements(b) == Callers(calls) by {
      assert forall i | 0 <= i < |calls| ::
        b[i] == (calls[i].name, calls[i].argsFingerprint, calls[i].subagentId) && calls[i] in calls;
    }
  }

  // ----- calls of one agent that another made first

  lemma {:induction false} OwnedAtMost(rs: seq<Read>, owners: map<string, string>)
    ensures Owned(rs, owners) <= |rs|
    ensures Owned(rs, owners) == |rs| <==> forall r | r in rs :: IsOwned(r, owners)
  {
    if rs != [] {
      assert rs == Front(rs) + [Final(rs)];
      assert Final(rs) in rs;
      OwnedAtMost(Front(rs), owners);
    }
  }

  lemma OwnerInGroup(rs: seq<Read>, r: Read) returns (s: Read)
    requires r in rs
    ensures s in rs && s.key == r.key && r.key in Owners(rs) && Owners(rs)[r.key] == s.agent
  {
    GroupNonempty(rs, r.key);
    WithinMembers(rs, {r.key});
    s :| s in Group(rs, r.key) && s.agent == Owner(Group(rs, r.key));
  }

  /** No cross-agent duplicates means that no two agents share a group. */
  lemma NoneShared(rs: seq<Read>)
    ensures CrossDuplicates(rs) == 0 <==> forall r, s | r in rs && s in rs && r.key == s.key :: r.agent == s.agent
  {
    OwnedAtMost(rs, Owners(rs));
    if forall r, s | r in rs && s in rs && r.key == s.key :: r.agent == s.agent {
      forall r | r in rs ensures IsOwned(r, Owners(rs)) {
        var s := OwnerInGroup(rs, r);
      }
    }
  }

  ghost predicate AgentsShare(calls: seq<Call>) {
    exists c, d | c in calls && d in calls :: SameCall(c, d) && c.subagentId != d.subagentId
  }

  ghost predicate ReadsShare(rs: seq<Read>) {
    exists r, s | r in rs && s in rs :: r.key == s.key && r.agent != s.agent
  }

  lemma ShareReads(calls: seq<Call>)
    requires !MixesUp(calls) && AgentsShare(calls)
    ensures ReadsShare(ByArgs(calls))
  {
    var c, d :| c in calls && d in calls && SameCall(c, d) && c.subagentId != d.subagentId;
    var i, j :| 0 <= i < |calls| && 0 <= j < |calls| && calls[i] == c && calls[j] == d;
    OneGroupOneCall(calls, i, j);
    var rs := ByArgs(calls);
    assert rs[i] in rs && rs[j] in rs;
  }

  lemma ShareCalls(calls: seq<Call>)
    requires !MixesUp(calls) && ReadsShare(ByArgs(calls))
    ensures AgentsShare(calls)
  {
    var rs := ByArgs(calls);
    var r, s :| r in rs && s in rs && r.key == s.key && r.agent != s.agent;
    var i, j :| 0 <= i < |rs| && 0 <= j < |rs| && rs[i] == r && rs[j] == s;
    OneGroupOneCall(calls, i, j);
    assert SameCall(calls[i], calls[j]);
  }

  /** Without mix-ups, the cross-agent count is zero exactly when no two agents made the same call. */
  lemma CrossIsZero(calls: seq<Call>)
    requires !MixesUp(calls)
    ensures CrossDuplicates(ByArgs(calls)) == 0 <==> !AgentsShare(calls)
  {
    NoneShared(ByArgs(calls));
    if AgentsShare(calls) {
      ShareReads(calls);
    }
    if ReadsShare(ByArgs(calls)) {
      ShareCalls(calls);
    }
  }

  /** d is the earliest of the calls that are the same call as c. */
  ghost predicate MadeFirst(calls: seq<Call>, c: Call, d: Call) {
    d in calls && SameCall(c, d) && forall e | e in calls && SameCall(c, e) :: d.at <= e.at
  }

  /** Another agent made the call first. */
  ghost predicate Repeats(calls: seq<Call>, c: Call) {
    exists d | d in calls :: MadeFirst(calls, c, d) && d.subagentId != c.subagentId
  }

  /** How many of the first n calls repeat another agent's. */
  ghost function Repeated(calls: seq<Call>, n: nat): nat
    requires n <= |calls|
  {
    if n == 0 then 0 else Repeated(calls, n - 1) + if Repeats(calls, calls[n - 1]) then 1 else 0
  }

  ghost predicate DistinctSeqs(calls: seq<Call>) {
    forall i, j | 0 <= i < j < |calls| :: calls[i].at != calls[j].at
  }

  lemma EarliestInGroup(group: seq<Read>) returns (r: Read)
    requires group != []
    ensures r in group && r.agent == Owner(group) && forall s | s in group :: r.at <= s.at
  {
    InOrderLists(group);
    assert Final(group).agent in Agents(group);
    var agents, first := InOrder(group), Firsts(group);
    LeaderIsEarliest(agents, first);
    FirstIsEarliest(group, Owner(group));
    r :| r in group && r.agent == Owner(group) && r.at == First(group, Owner(group));
    forall s | s in group ensures r.at <= s.at {
      FirstIsEarliest(group, s.agent);
      assert s.agent in agents;
    }
  }

  /** The position of the earliest call of a group, by the agent that owns it. */
  lemma FirstOfGroup(calls: seq<Call>, i: nat) returns (j: nat)
    requires i < |calls| && !MixesUp(calls)
    ensures j < |calls| && MadeFirst(calls, calls[i], calls[j])
    ensures IsOwned(ByArgs(calls)[i], Owners(ByArgs(calls))) <==> calls[i].subagentId == calls[j].subagentId
  {
    var rs := ByArgs(calls);
    var r := rs[i];
    assert r in rs;
    GroupNonempty(rs, r.key);
    WithinMembers(rs, {r.key});
    var s := EarliestInGroup(Group(rs, r.key));
    j :| 0 <= j < |rs| && rs[j] == s;
    OneGroupOneCall(calls, i, j);
    forall e | e in calls && SameCall(calls[i], e) ensures calls[j].at <= e.at {
      var k :| 0 <= k < |calls| && calls[k] == e;
      OneGroupOneCall(calls, i, k);
      assert rs[k] in rs;
    }
  }

  lemma RepeatsMeans(calls: seq<Call>, i: nat)
    requires i < |calls| && !MixesUp(calls) && DistinctSeqs(calls)
    ensures IsOwned(ByArgs(calls)[i], Owners(ByArgs(calls))) <==> !Repeats(calls, calls[i])
  {
    var j := FirstOfGroup(calls, i);
    forall d | d in calls && MadeFirst(calls, calls[i], d) ensures d == calls[j] {
      var k :| 0 <= k < |calls| && calls[k] == d;
      assert calls[k].at == calls[j].at;
    }
  }

  lemma {:induction false} OwnedPlusRepeated(calls: seq<Call>, rs: seq<Read>, owners: map<string, string>, n: nat)
    requires n <= |calls| == |rs|
    requires forall i | 0 <= i < |calls| :: IsOwned(rs[i], owners) <==> !Repeats(calls, calls[i])
    ensures Owned(rs[..n], owners) + Repeated(calls, n) == n
  {
    if n > 0 {
      OwnedPlusRepeated(calls, rs, owners, n - 1);
      assert Front(rs[..n]) == rs[..n - 1] && Final(rs[..n]) == rs[n - 1];
    }
  }

  lemma AllRepeatsMean(calls: seq<Call>)
    requires !MixesUp(calls) && DistinctSeqs(calls)
    ensures forall i | 0 <= i < |calls| ::
              IsOwned(ByArgs(calls)[i], Owners(ByArgs(calls))) <==> !Repeats(calls, calls[i])
  {
    forall i | 0 <= i < |calls|
      ensures IsOwned(ByArgs(calls)[i], Owners(ByArgs(calls))) <==> !Repeats(calls, calls[i])
    {
      RepeatsMeans(calls, i);
    }
  }

  lemma {:induction false} OwnedAndRepeated(calls: seq<Call>, rs: seq<Read>, owners: map<string, string>)
    requires |calls| == |rs|
    requires forall i | 0 <= i < |calls| :: IsOwned(rs[i], owners) <==> !Repeats(calls, calls[i])
    ensures Owned(rs, owners) + Repeated(calls, |calls|) == |rs|
  {
    OwnedPlusRepeated(calls, rs, owners, |rs|);
    assert rs[..|rs|] == rs;
  }

  /** Without mix-ups and with distinct sequence numbers, the cross-agent count is the number of calls that another
      agent made first. */
  lemma {:induction false} CrossCounts(calls: seq<Call>)
    requires !MixesUp(calls) && DistinctSeqs(calls)
    ensures CrossDuplicates(ByArgs(calls)) == Repeated(calls, |calls|)
  {
    AllRepeatsMean(calls);
    OwnedAndRepeated(calls, ByArgs(calls), Owners(ByArgs(calls)));
  }

  // ----- calls with a resource

  /** The positions of the calls that carry a resource fingerprint. */
  function Carriers(calls: seq<Call>, n: nat): seq<nat>
    requires n <= |calls|
  {
    if n == 0 then []
    else Carriers(calls, n - 1) + if calls[n - 1].resourceFingerprint.Some? then [n - 1] else []
  }

  lemma {:induction false} CarriersAre(calls: seq<Call>, n: nat)
    requires n <= |calls|
    ensures forall i: nat :: i in Carriers(calls, n) <==> i < n && calls[i].resourceFingerprint.Some?
    ensures forall a, b | 0 <= a < b < |Carriers(calls, n)| :: Carriers(calls, n)[a] < Carriers(calls, n)[b]
  {
    if n > 0 {
      CarriersAre(calls, n - 1);
      var before := Carriers(calls, n - 1);
      assert forall a | 0 <= a < |before| :: before[a] in before;
    }
  }

  function OnResource(c: Call): Call
    requires c.resourceFingerprint.Some?
  {
    c.(argsFingerprint := c.resourceFingerprint.value)
  }

  /** The calls that carry a resource fingerprint, in order, seen through it. */
  function ResourceCalls(calls: seq<Call>): (rs: seq<Call>)
    ensures |rs| == |Carriers(calls, |calls|)|
  {
    CarriersAre(calls, |calls|);
    var at := Carriers(calls, |calls|);
    seq(|at|, i requires 0 <= i < |at| => assert at[i] in at; OnResource(calls[at[i]]))
  }

  function ByResource(calls: seq<Call>): seq<Read> {
    ByArgs(ResourceCalls(calls))
  }

  lemma ResourceMembers(calls: seq<Call>)
    ensures forall d :: d in ResourceCalls(calls) <==>
              exists c :: c in calls && c.resourceFingerprint.Some? && OnResource(c) == d
  {
    CarriersAre(calls, |calls|);
    var at, rs := Carriers(calls, |calls|), ResourceCalls(calls);
    forall c | c in calls && c.resourceFingerprint.Some? ensures OnResource(c) in rs {
      var i: nat :| i < |calls| && calls[i] == c;
      assert i in at;
      var k :| 0 <= k < |at| && at[k] == i;
      assert rs[k] == OnResource(c);
    }
    forall d | d in rs ensures exists c :: c in calls && c.resourceFingerprint.Some? && OnResource(c) == d {
      var k :| 0 <= k < |rs| && rs[k] == d;
      assert at[k] in at && calls[at[k]] in calls && OnResource(calls[at[k]]) == d;
    }
  }

  /** Two agents used one tool on one resource. */
  ghost predicate AgentsShareResource(calls: seq<Call>) {
    exists c, d | c in calls && d in calls ::
      && c.name == d.name && c.resourceFingerprint.Some? && c.resourceFingerprint == d.resourceFingerprint
      && c.subagentId != d.subagentId
  }

  lemma ResourceShare(calls: seq<Call>)
    ensures AgentsShare(ResourceCalls(calls)) <==> AgentsShareResource(calls)
  {
    ResourceMembers(calls);
    var rs := ResourceCalls(calls);
    if c, d :| c in calls && d in calls && c.name == d.name && c.resourceFingerprint.Some?
               && c.resourceFingerprint == d.resourceFingerprint && c.subagentId != d.subagentId {
      assert SameCall(OnResource(c), OnResource(d)) && OnResource(c) in rs && OnResource(d) in rs;
    }
    if r, s :| r in rs && s in rs && SameCall(r, s) && r.subagentId != s.subagentId {
      var c :| c in calls && c.resourceFingerprint.Some? && OnResource(c) == r;
      var d :| d in calls && d.resourceFingerprint.Some? && OnResource(d) == s;
    }
  }

  /** The file overlap, on the calls: it is over exactly the calls that carry a resource fingerprint, and without
      mix-ups it is zero exactly when no two agents used one tool on one resource. */
  lemma {:induction false} OverlapIsZero(calls: seq<Call>)
    requires !MixesUp(ResourceCalls(calls))
    ensures |ByResource(calls)| == |Carriers(calls, |calls|)|
    ensures CrossDuplicates(ByResource(calls)) == 0 <==> !AgentsShareResource(calls)
  {
    CrossIsZero(ResourceCalls(calls));
    ResourceShare(calls);
  }

  /** All counts of the report on the calls. */
  lemma {:induction false} CountsMean(calls: seq<Call>)
    ensures var rs := ByArgs(calls);
      && |Keys(rs)| <= |CallPairs(calls)| && (|Keys(rs)| == |CallPairs(calls)| <==> !MixesUp(calls))
      && (!MixesUp(calls) ==> SelfDuplicates(rs) == |calls| - |Callers(calls)|)
      && (!MixesUp(calls) ==> (CrossDuplicates(rs) == 0 <==> !AgentsShare(calls)))
      && (!MixesUp(calls) && DistinctSeqs(calls) ==> CrossDuplicates(rs) == Repeated(calls, |calls|))
      && Agents(rs) == set c | c in calls :: c.subagentId
  {
    GroupsArePairs(calls);
    if !MixesUp(calls) {
      SelfCounts(calls);
      CrossIsZero(calls);
      if DistinctSeqs(calls) {
        CrossCounts(calls);
      }
    }
    SameAgents(calls);
  }

  lemma SameAgents(calls: seq<Call>)
    ensures Agents(ByArgs(calls)) == set c | c in calls :: c.subagentId
  {
    var rs := ByArgs(calls);
    forall c | c in calls ensures c.subagentId in Agents(rs) {
      var i :| 0 <= i < |calls| && calls[i] == c;
      assert rs[i] in rs;
    }
  }

  /** The overlap of the report on the calls. */
  lemma ResourceMeans(calls: seq<Call>)
    ensures ByResource(calls) != [] <==> exists c :: c in calls && c.resourceFingerprint.Some?
    ensures !MixesUp(ResourceCalls(calls)) ==>
              (CrossDuplicates(ByResource(calls)) == 0 <==> !AgentsShareResource(calls))
  {
    ResourceMembers(calls);
    var rs := ResourceCalls(calls);
    assert rs != [] ==> rs[0] in rs;
    assert ByResource(calls) != [] <==> rs != [];
    if c :| c in calls && c.resourceFingerprint.Some? {
      assert OnResource(c) in rs;
    }
    if !MixesUp(rs) {
      OverlapIsZero(calls);
    }
  }
}
