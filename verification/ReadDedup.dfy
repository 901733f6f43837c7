/**
  What the read-duplication report counts, said on the list of calls alone. A read is a tool call seen through one
  fingerprint: its key is the tool name and the fingerprint joined by a bar.
 */
module ReadDedup {
  datatype Read = Read(key: string, agent: string, at: int)

  function Front(rs: seq<Read>): seq<Read>
    requires rs != []
  {
    rs[..|rs| - 1]
  }

  function Final(rs: seq<Read>): Read
    requires rs != []
  {
    rs[|rs| - 1]
  }

  function Keys(rs: seq<Read>): set<string> {
    set r | r in rs :: r.key
  }

  function Agents(rs: seq<Read>): set<string> {
    set r | r in rs :: r.agent
  }

  function Pairs(rs: seq<Read>): set<(string, string)> {
    set r | r in rs :: (r.key, r.agent)
  }

  /** The reads whose key is in keys, in order. */
  function Within(rs: seq<Read>, keys: set<string>): seq<Read> {
    if rs == [] then []
    else if Final(rs).key in keys then Within(Front(rs), keys) + [Final(rs)]
    else Within(Front(rs), keys)
  }

  lemma {:induction false} WithinMembers(rs: seq<Read>, keys: set<string>)
    ensures forall r :: r in Within(rs, keys) <==> r in rs && r.key in keys
  {
    if rs != [] {
      assert rs == Front(rs) + [Final(rs)];
      WithinMembers(Front(rs), keys);
    }
  }

  function Group(rs: seq<Read>, key: string): seq<Read> {
    Within(rs, {key})
  }

  function Calls(rs: seq<Read>, agent: string): nat {
    if rs == [] then 0 else Calls(Front(rs), agent) + (if Final(rs).agent == agent then 1 else 0)
  }

  /** The agents in the order of their first read in the list. */
  function InOrder(rs: seq<Read>): seq<string> {
    if rs == [] then []
    else
      var s := InOrder(Front(rs));
      if Final(rs).agent in s then s else s + [Final(rs).agent]
  }

  predicate Distinct(s: seq<string>) {
    forall i, j | 0 <= i < j < |s| :: s[i] != s[j]
  }

  lemma FrontAgents(rs: seq<Read>)
    requires rs != []
    ensures Agents(rs) == Agents(Front(rs)) + {Final(rs).agent}
  {
    assert rs == Front(rs) + [Final(rs)];
  }

  lemma {:induction false} InOrderLists(rs: seq<Read>)
    ensures forall a :: a in InOrder(rs) <==> a in Agents(rs)
    ensures Distinct(InOrder(rs))
  {
    if rs != [] {
      FrontAgents(rs);
      InOrderLists(Front(rs));
    }
  }

  /** The smallest sequence number of an agent's reads. */
  function First(rs: seq<Read>, agent: string): int
    requires agent in Agents(rs)
  {
    FrontAgents(rs);
    var last := Final(rs);
    if agent !in Agents(Front(rs)) then last.at
    else
      var n := First(Front(rs), agent);
      if last.agent == agent && last.at < n then last.at else n
  }

  lemma {:induction false} FirstIsEarliest(rs: seq<Read>, agent: string)
    requires agent in Agents(rs)
    ensures exists r :: r in rs && r.agent == agent && r.at == First(rs, agent)
    ensures forall r | r in rs && r.agent == agent :: First(rs, agent) <= r.at
  {
    assert rs == Front(rs) + [Final(rs)];
    assert Final(rs) in rs;
    if agent in Agents(Front(rs)) {
      FirstIsEarliest(Front(rs), agent);
    }
  }

  function Firsts(rs: seq<Read>): map<string, int> {
    map a | a in Agents(rs) :: First(rs, a)
  }

  predicate Known(agents: seq<string>, first: map<string, int>) {
    forall a | a in agents :: a in first
  }

  /** The first agent in the list with the smallest first read. */
  function Leader(agents: seq<string>, first: map<string, int>): (l: string)
    requires agents != [] && Known(agents, first)
    ensures l in agents
  {
    var last := agents[|agents| - 1];
    if |agents| == 1 then last
    else
      var l := Leader(agents[..|agents| - 1], first);
      if first[last] < first[l] then last else l
  }

  lemma {:induction false} LeaderIsEarliest(agents: seq<string>, first: map<string, int>)
    requires agents != [] && Known(agents, first)
    ensures forall a | a in agents :: first[Leader(agents, first)] <= first[a]
  {
    if |agents| > 1 {
      var front := agents[..|agents| - 1];
      assert agents == front + [agents[|agents| - 1]];
      LeaderIsEarliest(front, first);
    }
  }

  /** The agent a group's original read belongs to. */
  function Owner(group: seq<Read>): (o: string)
    requires group != []
    ensures o in Agents(group)
  {
    InOrderLists(group);
    assert Final(group).agent in Agents(group);
    Leader(InOrder(group), Firsts(group))
  }

  lemma GroupNonempty(rs: seq<Read>, key: string)
    requires key in Keys(rs)
    ensures Group(rs, key) != []
  {
    WithinMembers(rs, {key});
    var r :| r in rs && r.key == key;
    assert r in Group(rs, key);
  }

  function Owners(rs: seq<Read>): map<string, string> {
    map k | k in Keys(rs) :: (GroupNonempty(rs, k); Owner(Group(rs, k)))
  }

  predicate IsOwned(r: Read, owners: map<string, string>) {
    r.key in owners && owners[r.key] == r.agent
  }

  function Owned(rs: seq<Read>, owners: map<string, string>): nat {
    if rs == [] then 0 else Owned(Front(rs), owners) + (if IsOwned(Final(rs), owners) then 1 else 0)
  }

  /** Reads beyond the first of the same agent in the same group. */
  function SelfDuplicates(rs: seq<Read>): int {
    |rs| - |Pairs(rs)|
  }

  /** Reads by any agent other than the owner of the group. */
  function CrossDuplicates(rs: seq<Read>): int {
    |rs| - Owned(rs, Owners(rs))
  }

  // ----- bounds

  function OwnedKeys(rs: seq<Read>, owners: map<string, string>): set<string> {
    set r | r in rs && IsOwned(r, owners) :: r.key
  }

  function LentPairs(rs: seq<Read>, owners: map<string, string>): set<(string, string)> {
    set r | r in rs && !IsOwned(r, owners) :: (r.key, r.agent)
  }

  lemma {:induction false} OwnedKeysFit(rs: seq<Read>, owners: map<string, string>)
    ensures |OwnedKeys(rs, owners)| <= Owned(rs, owners)
  {
    if rs != [] {
      var front, last := Front(rs), Final(rs);
      OwnedKeysFit(front, owners);
      assert rs == front + [last];
      assert OwnedKeys(rs, owners) == OwnedKeys(front, owners) + (if IsOwned(last, owners) then {last.key} else {});
    }
  }

  lemma {:induction false} LentPairsFit(rs: seq<Read>, owners: map<string, string>)
    ensures |LentPairs(rs, owners)| <= |rs| - Owned(rs, owners)
  {
    if rs != [] {
      var front, last := Front(rs), Final(rs);
      LentPairsFit(front, owners);
      assert rs == front + [last];
      assert LentPairs(rs, owners) ==
             LentPairs(front, owners) + (if IsOwned(last, owners) then {} else {(last.key, last.agent)});
    }
  }

  function Graph(m: map<string, string>): set<(string, string)> {
    set k | k in m :: (k, m[k])
  }

  lemma {:induction false} GraphSize(m: map<string, string>)
    ensures |Graph(m)| == |m.Keys|
    decreases |m.Keys|
  {
    if k :| k in m {
      var rest := m - {k};
      GraphSize(rest);
      forall p | p in Graph(m) ensures p in Graph(rest) + {(k, m[k])} {
        assert p.0 == k || p.0 in rest;
      }
      assert Graph(m) == Graph(rest) + {(k, m[k])};
      assert m.Keys == rest.Keys + {k};
    }
  }

  lemma SubsetSize<T>(a: set<T>, b: set<T>)
    requires a <= b
    ensures |a| <= |b|
  {
    assert b == a + (b - a);
  }

  lemma OwnerReads(rs: seq<Read>, key: string)
    requires key in Keys(rs)
    ensures key in OwnedKeys(rs, Owners(rs))
  {
    GroupNonempty(rs, key);
    WithinMembers(rs, {key});
    var r :| r in Group(rs, key) && r.agent == Owner(Group(rs, key));
    assert r in rs && IsOwned(r, Owners(rs));
  }

  /** Cross-agent duplicates are at most the calls beyond one per group, and both kinds together are at least
      those. */
  lemma DuplicateBounds(rs: seq<Read>)
    ensures 0 <= CrossDuplicates(rs) <= |rs| - |Keys(rs)| <= CrossDuplicates(rs) + SelfDuplicates(rs)
    ensures 0 <= SelfDuplicates(rs)
  {
    var owners := Owners(rs);
    OwnedKeysFit(rs, owners);
    LentPairsFit(rs, owners);
    forall k | k in Keys(rs) ensures k in OwnedKeys(rs, owners) {
      OwnerReads(rs, k);
    }
    SubsetSize(Keys(rs), OwnedKeys(rs, owners));
    GraphSize(owners);
    assert owners.Keys == Keys(rs);
    assert Pairs(rs) <= Graph(owners) + LentPairs(rs, owners);
    SubsetSize(Pairs(rs), Graph(owners) + LentPairs(rs, owners));
    PairsFit(rs);
  }

  lemma {:induction false} PairsFit(rs: seq<Read>)
    ensures |Pairs(rs)| <= |rs|
  {
    if rs != [] {
      var front, last := Front(rs), Final(rs);
      PairsFit(front);
      assert rs == front + [last];
      assert Pairs(rs) == Pairs(front) + {(last.key, last.agent)};
    }
  }

  // ----- order

  ghost predicate SameReads(rs: seq<Read>, other: seq<Read>) {
    multiset(rs) == multiset(other)
  }

  ghost predicate DistinctTimes(rs: seq<Read>) {
    forall i, j | 0 <= i < j < |rs| :: rs[i].at != rs[j].at
  }

  lemma SameMembers(rs: seq<Read>, other: seq<Read>)
    requires SameReads(rs, other)
    ensures forall r :: r in rs <==> r in other
    ensures |rs| == |other|
  {
    assert forall r :: r in rs <==> r in multiset(rs);
    assert forall r :: r in other <==> r in multiset(other);
    assert |multiset(rs)| == |multiset(other)|;
  }

  lemma {:induction false} OwnedJoin(a: seq<Read>, b: seq<Read>, owners: map<string, string>)
    ensures Owned(a + b, owners) == Owned(a, owners) + Owned(b, owners)
  {
    if b == [] {
      assert a + b == a;
    } else {
      OwnedJoin(a, Front(b), owners);
      assert Front(a + b) == a + Front(b);
    }
  }

  function Without(rs: seq<Read>, i: nat): seq<Read>
    requires i < |rs|
  {
    rs[..i] + rs[i + 1..]
  }

  lemma WithoutOne(rs: seq<Read>, i: nat)
    requires i < |rs|
    ensures multiset(Without(rs, i)) == multiset(rs) - multiset{rs[i]}
  {
    assert rs == rs[..i] + [rs[i]] + rs[i + 1..];
    assert multiset(rs) == multiset(rs[..i]) + multiset{rs[i]} + multiset(rs[i + 1..]);
  }

  lemma {:induction false} OwnedWithout(rs: seq<Read>, i: nat, owners: map<string, string>)
    requires i < |rs|
    ensures Owned(rs, owners) == Owned(Without(rs, i), owners) + if IsOwned(rs[i], owners) then 1 else 0
  {
    var r := [rs[i]];
    assert rs == rs[..i] + (r + rs[i + 1..]);
    OwnedJoin(rs[..i], rs[i + 1..], owners);
    OwnedJoin(rs[..i], r + rs[i + 1..], owners);
    OwnedJoin(r, rs[i + 1..], owners);
    assert Owned(r, owners) == Owned([], owners) + if IsOwned(rs[i], owners) then 1 else 0;
  }

  /** A count depends on which reads there are, not on their order. */
  lemma {:induction false} OwnedAnyOrder(rs: seq<Read>, other: seq<Read>, owners: map<string, string>)
    requires SameReads(rs, other)
    ensures Owned(rs, owners) == Owned(other, owners)
  {
    SameMembers(rs, other);
    if rs != [] {
      var n := |rs| - 1;
      assert rs[n] in other;
      var i :| 0 <= i < |other| && other[i] == rs[n];
      WithoutOne(rs, n);
      WithoutOne(other, i);
      OwnedWithout(rs, n, owners);
      OwnedWithout(other, i, owners);
      OwnedAnyOrder(Without(rs, n), Without(other, i), owners);
    }
  }

  /** Without ties the owner is the agent of the earliest read of the group. */
  lemma OwnerIsEarliest(group: seq<Read>, r: Read)
    requires r in group && forall s | s in group && s != r :: r.at < s.at
    ensures Owner(group) == r.agent
  {
    var o := Owner(group);
    InOrderLists(group);
    FirstIsEarliest(group, o);
    FirstIsEarliest(group, r.agent);
    LeaderIsEarliest(InOrder(group), Firsts(group));
    var s :| s in group && s.agent == o && s.at == First(group, o);
    assert r.agent in InOrder(group);
    assert Firsts(group)[o] <= Firsts(group)[r.agent] <= r.at;
  }

  lemma {:induction false} HeadLeads(agents: seq<string>, first: map<string, int>)
    requires agents != [] && Known(agents, first)
    requires forall a | a in agents :: first[agents[0]] <= first[a]
    ensures Leader(agents, first) == agents[0]
  {
    if |agents| > 1 {
      HeadLeads(agents[..|agents| - 1], first);
    }
  }

  lemma {:induction false} HeadInOrder(group: seq<Read>)
    requires group != []
    ensures InOrder(group) != [] && InOrder(group)[0] == group[0].agent
  {
    if |group| == 1 {
      assert InOrder(Front(group)) == [];
    } else {
      HeadInOrder(Front(group));
    }
  }

  /** On a tie for the earliest read, the agent listed first owns the group. */
  lemma FirstListedOwns(group: seq<Read>)
    requires group != [] && forall r | r in group :: group[0].at <= r.at
    ensures Owner(group) == group[0].agent
  {
    HeadInOrder(group);
    InOrderLists(group);
    var a := group[0].agent;
    assert group[0] in group;
    FirstIsEarliest(group, a);
    forall b | b in Agents(group) ensures First(group, a) <= First(group, b) {
      FirstIsEarliest(group, b);
    }
    HeadLeads(InOrder(group), Firsts(group));
  }

  lemma {:induction false} Whole(rs: seq<Read>, key: string)
    requires forall r | r in rs :: r.key == key
    ensures Group(rs, key) == rs
  {
    if rs != [] {
      assert rs == Front(rs) + [Final(rs)];
      Whole(Front(rs), key);
    }
  }

  lemma {:induction false} OwnedThree(x: Read, y: Read, z: Read, owners: map<string, string>)
    ensures Owned([x, y, z], owners) == (if IsOwned(x, owners) then 1 else 0) +
              (if IsOwned(y, owners) then 1 else 0) + (if IsOwned(z, owners) then 1 else 0)
  {
    assert Front([x, y, z]) == [x, y] && Front([x, y]) == [x] && Front([x]) == [];
    assert Owned([x], owners) == if IsOwned(x, owners) then 1 else 0;
    assert Owned([x, y], owners) == Owned([x], owners) + if IsOwned(y, owners) then 1 else 0;
  }

  lemma OneGroup(x: Read, y: Read, z: Read)
    requires x.key == y.key == z.key && x.at <= y.at && x.at <= z.at
    ensures CrossDuplicates([x, y, z]) ==
              (if y.agent == x.agent then 0 else 1) + (if z.agent == x.agent then 0 else 1)
  {
    var rs := [x, y, z];
    Whole(rs, x.key);
    FirstListedOwns(rs);
    assert x in rs;
    assert Owners(rs)[x.key] == x.agent;
    OwnedThree(x, y, z, Owners(rs));
  }

  /** With a tie, reordering the same calls changes the cross-agent count. */
  lemma TiesFollowOrder(key: string, a: string, b: string)
    requires a != b
    ensures var x, y, z := Read(key, a, 1), Read(key, b, 1), Read(key, b, 2);
      SameReads([x, y, z], [y, z, x]) && CrossDuplicates([x, y, z]) == 2 && CrossDuplicates([y, z, x]) == 1
  {
    var x, y, z := Read(key, a, 1), Read(key, b, 1), Read(key, b, 2);
    OneGroup(x, y, z);
    OneGroup(y, z, x);
  }

  // ----- one group at a time

  /** One read more, seen through a choice of keys. */
  lemma {:induction false} WithinNext(rs: seq<Read>, keys: set<string>, owners: map<string, string>)
    requires rs != []
    ensures |Within(rs, keys)| == |Within(Front(rs), keys)| + if Final(rs).key in keys then 1 else 0
    ensures Owned(Within(rs, keys), owners) == Owned(Within(Front(rs), keys), owners) +
              if Final(rs).key in keys && IsOwned(Final(rs), owners) then 1 else 0
  {
    var before := Within(Front(rs), keys);
    assert Front(before + [Final(rs)]) == before;
  }

  lemma {:induction false} WithinGrows(rs: seq<Read>, keys: set<string>, more: set<string>, k: string,
                                       owners: map<string, string>)
    requires k !in keys && more == keys + {k}
    ensures |Within(rs, more)| == |Within(rs, keys)| + |Group(rs, k)|
    ensures Owned(Within(rs, more), owners) == Owned(Within(rs, keys), owners) + Owned(Group(rs, k), owners)
  {
    if rs != [] {
      WithinGrows(Front(rs), keys, more, k, owners);
      WithinNext(rs, keys, owners);
      WithinNext(rs, more, owners);
      WithinNext(rs, {k}, owners);
    }
  }

  function Row(k: string, agents: set<string>): set<(string, string)> {
    set a | a in agents :: (k, a)
  }

  lemma {:induction false} RowSize(k: string, agents: set<string>)
    ensures |Row(k, agents)| == |agents|
  {
    if a :| a in agents {
      RowSize(k, agents - {a});
      assert Row(k, agents) == Row(k, agents - {a}) + {(k, a)};
    }
  }

  lemma {:induction false} PairsGrow(rs: seq<Read>, keys: set<string>, k: string)
    requires k !in keys
    ensures |Pairs(Within(rs, keys + {k}))| == |Pairs(Within(rs, keys))| + |Agents(Group(rs, k))|
  {
    WithinMembers(rs, keys + {k});
    WithinMembers(rs, keys);
    WithinMembers(rs, {k});
    var row := Row(k, Agents(Group(rs, k)));
    RowSize(k, Agents(Group(rs, k)));
    assert Pairs(Within(rs, keys + {k})) == Pairs(Within(rs, keys)) + row;
    assert Pairs(Within(rs, keys)) !! row;
  }

  lemma {:induction false} WithinAll(rs: seq<Read>, keys: set<string>)
    requires Keys(rs) <= keys
    ensures Within(rs, keys) == rs
  {
    if rs != [] {
      assert rs == Front(rs) + [Final(rs)];
      assert Final(rs) in rs;
      WithinAll(Front(rs), keys);
    }
  }

  lemma {:induction false} OwnedInGroup(group: seq<Read>, k: string, owners: map<string, string>)
    requires k in owners && forall r | r in group :: r.key == k
    ensures Owned(group, owners) == Calls(group, owners[k])
  {
    if group != [] {
      assert group == Front(group) + [Final(group)];
      assert Final(group) in group;
      OwnedInGroup(Front(group), k, owners);
    }
  }

  // ----- agents of one group

  function Total(agents: seq<string>, group: seq<Read>): nat {
    if agents == [] then 0 else Calls(group, agents[0]) + Total(agents[1..], group)
  }

  lemma {:induction false} TotalNext(agents: seq<string>, group: seq<Read>)
    requires group != [] && Distinct(agents)
    ensures Total(agents, group) == Total(agents, Front(group)) + if Final(group).agent in agents then 1 else 0
  {
    if agents != [] {
      TotalNext(agents[1..], group);
      assert agents == [agents[0]] + agents[1..];
    }
  }

  lemma {:induction false} TotalNone(agents: seq<string>)
    ensures Total(agents, []) == 0
  {
    if agents != [] {
      TotalNone(agents[1..]);
    }
  }

  /** Counting a group agent by agent counts every read once. */
  lemma {:induction false} TotalIsLength(agents: seq<string>, group: seq<Read>)
    requires Distinct(agents)
    requires forall a | a in Agents(group) :: a in agents
    ensures Total(agents, group) == |group|
  {
    if group == [] {
      TotalNone(agents);
    } else {
      assert group == Front(group) + [Final(group)];
      assert Final(group).agent in Agents(group);
      TotalNext(agents, group);
      TotalIsLength(agents, Front(group));
    }
  }

  lemma {:induction false} DistinctSize(s: seq<string>, all: set<string>)
    requires forall a :: a in s <==> a in all
    requires Distinct(s)
    ensures |s| == |all|
  {
    if s != [] {
      assert s == [s[0]] + s[1..];
      DistinctSize(s[1..], all - {s[0]});
      assert all == (all - {s[0]}) + {s[0]};
    } else {
      assert all == {};
    }
  }

  lemma {:induction false} CallsPositive(group: seq<Read>, a: string)
    ensures Calls(group, a) > 0 <==> a in Agents(group)
  {
    if group != [] {
      assert group == Front(group) + [Final(group)];
      assert Agents(group) == Agents(Front(group)) + {Final(group).agent};
      CallsPositive(Front(group), a);
    }
  }

  // ----- exactly when the order does not matter

  /** r is one of the earliest reads of its group. */
  predicate Earliest(rs: seq<Read>, r: Read) {
    r in rs && forall s | s in rs && s.key == r.key :: r.at <= s.at
  }

  function CallsIn(rs: seq<Read>, key: string, agent: string): nat {
    Calls(Group(rs, key), agent)
  }

  /** In every group, all agents tied for the earliest read have equally many calls. */
  ghost predicate EvenTies(rs: seq<Read>) {
    forall r, s | Earliest(rs, r) && Earliest(rs, s) && r.key == s.key ::
      CallsIn(rs, r.key, r.agent) == CallsIn(rs, s.key, s.agent)
  }

  ghost predicate OrderFree(rs: seq<Read>) {
    forall other | SameReads(rs, other) :: CrossDuplicates(other) == CrossDuplicates(rs)
  }

  /** Whatever the order, the owner of a group is one of the agents tied for its earliest read. */
  lemma OwnerIsTied(rs: seq<Read>, key: string) returns (r: Read)
    requires key in Keys(rs)
    ensures Earliest(rs, r) && r.key == key && r.agent == Owners(rs)[key]
  {
    GroupNonempty(rs, key);
    WithinMembers(rs, {key});
    var group := Group(rs, key);
    var o := Owner(group);
    InOrderLists(group);
    FirstIsEarliest(group, o);
    LeaderIsEarliest(InOrder(group), Firsts(group));
    r :| r in group && r.agent == o && r.at == First(group, o);
    forall s | s in rs && s.key == key ensures r.at <= s.at {
      assert s in group && s.agent in InOrder(group);
      FirstIsEarliest(group, s.agent);
      assert Firsts(group)[o] <= Firsts(group)[s.agent];
    }
  }

  /** Two choices of owners with equally many calls in each group own equally many reads. */
  lemma {:induction false} EqualOwners(rs: seq<Read>, keys: set<string>, a: map<string, string>, b: map<string, string>)
    requires keys <= a.Keys && keys <= b.Keys
    requires forall k | k in keys :: CallsIn(rs, k, a[k]) == CallsIn(rs, k, b[k])
    ensures Owned(Within(rs, keys), a) == Owned(Within(rs, keys), b)
    decreases |keys|
  {
    if k :| k in keys {
      var rest := keys - {k};
      EqualOwners(rs, rest, a, b);
      WithinMembers(rs, {k});
      WithinGrows(rs, rest, keys, k, a);
      WithinGrows(rs, rest, keys, k, b);
      OwnedInGroup(Group(rs, k), k, a);
      OwnedInGroup(Group(rs, k), k, b);
    } else {
      assert keys == {};
      NoneWithin(rs);
    }
  }

  lemma {:induction false} NoneWithin(rs: seq<Read>)
    ensures Within(rs, {}) == []
  {
    if rs != [] {
      NoneWithin(Front(rs));
    }
  }

  lemma EvenTiesSuffice(rs: seq<Read>, other: seq<Read>)
    requires EvenTies(rs) && SameReads(rs, other)
    ensures CrossDuplicates(other) == CrossDuplicates(rs)
  {
    SameMembers(rs, other);
    var a, b := Owners(rs), Owners(other);
    assert Keys(rs) == Keys(other);
    forall k | k in Keys(rs) ensures CallsIn(rs, k, a[k]) == CallsIn(rs, k, b[k]) {
      var r := OwnerIsTied(rs, k);
      var s := OwnerIsTied(other, k);
      assert Earliest(rs, s);
    }
    EqualOwners(rs, Keys(rs), a, b);
    WithinAll(rs, Keys(rs));
    OwnedAnyOrder(rs, other, b);
  }

  // ----- moving one read to the front

  lemma {:induction false} WithinJoin(a: seq<Read>, b: seq<Read>, keys: set<string>)
    ensures Within(a + b, keys) == Within(a, keys) + Within(b, keys)
  {
    if b == [] {
      assert a + b == a;
    } else {
      WithinJoin(a, Front(b), keys);
      assert Front(a + b) == a + Front(b) && Final(a + b) == Final(b);
      assert Within(a, keys) + (Within(Front(b), keys) + [Final(b)]) ==
             (Within(a, keys) + Within(Front(b), keys)) + [Final(b)];
    }
  }

  lemma {:induction false} WithinOne(r: Read, keys: set<string>)
    ensures Within([r], keys) == if r.key in keys then [r] else []
  {
    assert Front([r]) == [];
  }

  function ToFront(rs: seq<Read>, i: nat): seq<Read>
    requires i < |rs|
  {
    [rs[i]] + Without(rs, i)
  }

  lemma ToFrontSame(rs: seq<Read>, i: nat)
    requires i < |rs|
    ensures SameReads(rs, ToFront(rs, i))
  {
    WithoutOne(rs, i);
    assert multiset(ToFront(rs, i)) == multiset{rs[i]} + multiset(Without(rs, i));
    assert rs[i] in multiset(rs);
  }

  /** The other groups do not notice the move. */
  lemma ToFrontOthers(rs: seq<Read>, i: nat, k: string)
    requires i < |rs| && k != rs[i].key
    ensures Group(ToFront(rs, i), k) == Group(rs, k)
  {
    var r := [rs[i]];
    assert rs == rs[..i] + (r + rs[i + 1..]);
    WithinOne(rs[i], {k});
    WithinJoin(rs[..i], r + rs[i + 1..], {k});
    WithinJoin(r, rs[i + 1..], {k});
    WithinJoin(r, Without(rs, i), {k});
    WithinJoin(rs[..i], rs[i + 1..], {k});
    assert [] + Group(rs[i + 1..], k) == Group(rs[i + 1..], k);
    assert [] + Group(Without(rs, i), k) == Group(Without(rs, i), k);
  }

  /** An earliest read at the front makes its agent the owner of its group. */
  lemma ToFrontOwns(rs: seq<Read>, i: nat)
    requires i < |rs| && Earliest(rs, rs[i])
    ensures rs[i].key in Owners(ToFront(rs, i)) && Owners(ToFront(rs, i))[rs[i].key] == rs[i].agent
  {
    var other, k := ToFront(rs, i), rs[i].key;
    ToFrontSame(rs, i);
    SameMembers(rs, other);
    WithinOne(rs[i], {k});
    WithinJoin([rs[i]], Without(rs, i), {k});
    WithinMembers(other, {k});
    assert Group(other, k)[0] == rs[i];
    assert rs[i] in other;
    FirstListedOwns(Group(other, k));
  }

  lemma ToFrontOwners(rs: seq<Read>, i: nat)
    requires i < |rs| && Earliest(rs, rs[i])
    ensures Owners(ToFront(rs, i)) == Owners(rs)[rs[i].key := rs[i].agent]
  {
    var other := ToFront(rs, i);
    ToFrontSame(rs, i);
    SameMembers(rs, other);
    ToFrontOwns(rs, i);
    assert Keys(other) == Keys(rs);
    assert rs[i] in rs;
    forall k | k in Keys(rs) && k != rs[i].key ensures Owners(other)[k] == Owners(rs)[k] {
      ToFrontOthers(rs, i, k);
    }
  }

  /** Reads owned when one group is given to this agent. */
  lemma {:induction false} OwnedBy(rs: seq<Read>, k: string, agent: string)
    requires k in Keys(rs)
    ensures Owned(rs, Owners(rs)[k := agent]) ==
            Owned(Within(rs, Keys(rs) - {k}), Owners(rs)) + CallsIn(rs, k, agent)
  {
    var owners, rest := Owners(rs)[k := agent], Keys(rs) - {k};
    WithinAll(rs, Keys(rs));
    WithinGrows(rs, rest, Keys(rs), k, owners);
    WithinMembers(rs, {k});
    OwnedInGroup(Group(rs, k), k, owners);
    EqualOwners(rs, rest, owners, Owners(rs));
  }

  /** What the count is after the move: all other groups as before, this one owned by that agent. */
  lemma {:induction false} ToFrontCount(rs: seq<Read>, i: nat)
    requires i < |rs| && Earliest(rs, rs[i])
    ensures var k := rs[i].key;
      CrossDuplicates(ToFront(rs, i)) ==
      |rs| - Owned(Within(rs, Keys(rs) - {k}), Owners(rs)) - CallsIn(rs, k, rs[i].agent)
  {
    var other, k := ToFront(rs, i), rs[i].key;
    ToFrontSame(rs, i);
    SameMembers(rs, other);
    ToFrontOwners(rs, i);
    OwnedAnyOrder(rs, other, Owners(other));
    assert rs[i] in rs && k in Keys(rs);
    OwnedBy(rs, k, rs[i].agent);
  }

  /** The cross-agent count of a list is the same for every order of its calls exactly when, in every group, all
      agents tied for the earliest call have equally many calls. */
  lemma OrderFreeExactly(rs: seq<Read>)
    ensures OrderFree(rs) <==> EvenTies(rs)
  {
    if EvenTies(rs) {
      forall other | SameReads(rs, other) ensures CrossDuplicates(other) == CrossDuplicates(rs) {
        EvenTiesSuffice(rs, other);
      }
    }
    if OrderFree(rs) {
      forall r, s | Earliest(rs, r) && Earliest(rs, s) && r.key == s.key
        ensures CallsIn(rs, r.key, r.agent) == CallsIn(rs, s.key, s.agent)
      {
        var i :| 0 <= i < |rs| && rs[i] == r;
        var j :| 0 <= j < |rs| && rs[j] == s;
        ToFrontSame(rs, i);
        ToFrontSame(rs, j);
        ToFrontCount(rs, i);
        ToFrontCount(rs, j);
      }
    }
  }

  /** Groups, agents and self duplicates never depend on the order. */
  lemma RestAnyOrder(rs: seq<Read>, other: seq<Read>)
    requires SameReads(rs, other)
    ensures Keys(rs) == Keys(other) && Agents(rs) == Agents(other)
    ensures SelfDuplicates(rs) == SelfDuplicates(other)
  {
    SameMembers(rs, other);
    assert Pairs(rs) == Pairs(other);
  }

  /** In particular with distinct sequence numbers: every group then has one earliest read. */
  lemma DistinctTimesEvenTies(rs: seq<Read>)
    requires DistinctTimes(rs)
    ensures EvenTies(rs)
  {
    forall r, s | Earliest(rs, r) && Earliest(rs, s) && r.key == s.key ensures r == s {
      var i :| 0 <= i < |rs| && rs[i] == r;
      var j :| 0 <= j < |rs| && rs[j] == s;
    }
  }

  /** The report's counts do not depend on the order of the calls when their sequence numbers are distinct. */
  lemma CountsAnyOrder(rs: seq<Read>, other: seq<Read>)
    requires SameReads(rs, other) && DistinctTimes(rs)
    ensures Keys(rs) == Keys(other) && Agents(rs) == Agents(other)
    ensures SelfDuplicates(rs) == SelfDuplicates(other)
    ensures CrossDuplicates(rs) == CrossDuplicates(other)
  {
    RestAnyOrder(rs, other);
    DistinctTimesEvenTies(rs);
    EvenTiesSuffice(rs, other);
  }
}
