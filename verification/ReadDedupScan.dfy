/** The report as it is computed: calls grouped into shared group records, then one pass over the groups. */
module ReadDedupScan {
  import opened Wrappers
  import opened ReadDedup
  import opened ReadDedupCalls

  class FingerprintGroup {
    var agents: set<string>
    var totalCalls: nat
    var callDetails: seq<Read>

    constructor ()
      ensures Holds([])
    {
      agents, totalCalls, callDetails := {}, 0, [];
    }

    ghost predicate Holds(group: seq<Read>)
      reads this
    {
      callDetails == group && totalCalls == |group| && agents == Agents(group)
    }

    method Add(r: Read)
      requires Holds(callDetails)
      modifies this
      ensures Holds(old(callDetails) + [r])
    {
      agents := agents + {r.agent};
      totalCalls := totalCalls + 1;
      callDetails := callDetails + [r];
    }
  }

  type Groups = map<string, FingerprintGroup>

  ghost predicate Grouped(groups: Groups, order: seq<string>, rs: seq<Read>)
    reads groups.Values
  {
    Listed(groups, order, rs) && Hold(groups, rs)
  }

  /** One group for each key, in the order of the first call. */
  ghost predicate Listed(groups: Groups, order: seq<string>, rs: seq<Read>) {
    && (forall k :: k in order <==> k in Keys(rs))
    && Distinct(order)
    && groups.Keys == Keys(rs)
  }

  lemma GroupNext(rs: seq<Read>, n: nat, k: string)
    requires n < |rs|
    ensures Group(rs[..n + 1], k) == Group(rs[..n], k) + if rs[n].key == k then [rs[n]] else []
    ensures Keys(rs[..n + 1]) == Keys(rs[..n]) + {rs[n].key}
    ensures rs[n].key !in Keys(rs[..n]) ==> Group(rs[..n], rs[n].key) == []
  {
    assert rs[..n + 1] == rs[..n] + [rs[n]];
    assert Front(rs[..n + 1]) == rs[..n];
    WithinMembers(rs[..n], {rs[n].key});
    var group := Group(rs[..n], rs[n].key);
    assert group != [] ==> group[0] in group && group[0] in rs[..n];
  }

  ghost predicate Apart(groups: Groups) {
    forall k, l | k in groups && l in groups && k != l :: groups[k] != groups[l]
  }

  ghost predicate Hold(groups: Groups, rs: seq<Read>)
    reads groups.Values
  {
    forall k | k in groups :: groups[k].Holds(Group(rs, k))
  }

  /** The group of this call's key, made when the key is new. */
  method Reserve(groups: Groups, order: seq<string>, ghost rs: seq<Read>, ghost n: nat, key: string)
    returns (groups': Groups, order': seq<string>)
    requires n < |rs| && key == rs[n].key && Grouped(groups, order, rs[..n]) && Apart(groups)
    ensures Listed(groups', order', rs[..n + 1]) && Hold(groups', rs[..n]) && Apart(groups')
    ensures fresh(groups'.Values - groups.Values)
  {
    GroupNext(rs, n, key);
    groups', order' := groups, order;
    if key !in groups {
      var g := new FingerprintGroup();
      groups', order' := groups[key := g], order + [key];
    }
  }

  method Count(groups: Groups, ghost rs: seq<Read>, ghost n: nat, r: Read)
    requires n < |rs| && r == rs[n] && r.key in groups && Hold(groups, rs[..n]) && Apart(groups)
    modifies groups[r.key]
    ensures Hold(groups, rs[..n + 1])
  {
    groups[r.key].Add(r);
    forall k | k in groups ensures groups[k].Holds(Group(rs[..n + 1], k)) {
      GroupNext(rs, n, k);
    }
  }

  /** The groups and the order their keys came in. */
  method GroupReads(rs: seq<Read>) returns (groups: Groups, order: seq<string>)
    ensures fresh(groups.Values) && Grouped(groups, order, rs)
  {
    groups, order := map[], [];
    for n := 0 to |rs|
      invariant fresh(groups.Values) && Grouped(groups, order, rs[..n]) && Apart(groups)
    {
      groups, order := Reserve(groups, order, rs, n, rs[n].key);
      GroupNext(rs, n, rs[n].key);
      Count(groups, rs, n, rs[n]);
    }
    assert rs[..|rs|] == rs;
  }

  // ----- one group

  lemma GroupStep(group: seq<Read>, n: nat)
    requires n < |group|
    ensures Front(group[..n + 1]) == group[..n] && Final(group[..n + 1]) == group[n]
    ensures Agents(group[..n + 1]) == Agents(group[..n]) + {group[n].agent}
  {
    assert group[..n + 1] == group[..n] + [group[n]];
  }

  /** How often each agent called, and the agents in the order the map lists them. */
  method PerAgent(group: seq<Read>) returns (perAgent: map<string, nat>, agents: seq<string>)
    ensures agents == InOrder(group) && perAgent.Keys == Agents(group)
    ensures forall a | a in perAgent :: perAgent[a] == Calls(group, a)
  {
    perAgent, agents := map[], [];
    for n := 0 to |group|
      invariant agents == InOrder(group[..n]) && perAgent.Keys == Agents(group[..n])
      invariant forall a | a in perAgent :: perAgent[a] == Calls(group[..n], a)
    {
      GroupStep(group, n);
      var a := group[n].agent;
      CallsPositive(group[..n], a);
      InOrderLists(group[..n]);
      if a !in perAgent {
        agents := agents + [a];
      }
      perAgent := perAgent[a := (if a in perAgent then perAgent[a] else 0) + 1];
    }
    assert group[..|group|] == group;
  }

  method FirstSeq(group: seq<Read>) returns (first: map<string, int>)
    ensures first == Firsts(group)
  {
    first := map[];
    for n := 0 to |group|
      invariant first == Firsts(group[..n])
    {
      GroupStep(group, n);
      var r := group[n];
      if r.agent !in first || r.at < first[r.agent] {
        first := first[r.agent := r.at];
      }
      assert first.Keys == Agents(group[..n + 1]);
    }
    assert group[..|group|] == group;
  }

  /** Places a after every agent whose first read is not later. */
  function Insert(agents: seq<string>, a: string, first: map<string, int>): (s: seq<string>)
    requires Known(agents, first) && a in first
    ensures Known(s, first) && s != []
  {
    if agents == [] || first[a] < first[agents[0]] then [a] + agents
    else [agents[0]] + Insert(agents[1..], a, first)
  }

  /** The stable sort by first read. */
  function Sorted(agents: seq<string>, first: map<string, int>): (s: seq<string>)
    requires Known(agents, first)
    ensures Known(s, first) && (agents != [] ==> s != [])
  {
    if agents == [] then [] else Insert(Sorted(agents[..|agents| - 1], first), agents[|agents| - 1], first)
  }

  lemma {:induction false} InsertTotal(agents: seq<string>, a: string, first: map<string, int>, group: seq<Read>)
    requires Known(agents, first) && a in first
    ensures Total(Insert(agents, a, first), group) == Total(agents, group) + Calls(group, a)
  {
    if agents == [] || first[a] < first[agents[0]] {
      assert ([a] + agents)[1..] == agents;
    } else {
      InsertTotal(agents[1..], a, first, group);
    }
  }

  lemma {:induction false} InsertKeeps(agents: seq<string>, a: string, first: map<string, int>)
    requires Known(agents, first) && a in first
    ensures multiset(Insert(agents, a, first)) == multiset(agents) + multiset{a}
  {
    if agents != [] && first[a] >= first[agents[0]] {
      InsertKeeps(agents[1..], a, first);
      assert agents == [agents[0]] + agents[1..];
    }
  }

  lemma {:induction false} TotalAppend(agents: seq<string>, a: string, group: seq<Read>)
    ensures Total(agents + [a], group) == Total(agents, group) + Calls(group, a)
  {
    if agents == [] {
      assert ([a])[1..] == [];
    } else {
      TotalAppend(agents[1..], a, group);
      assert (agents + [a])[1..] == agents[1..] + [a];
    }
  }

  lemma {:induction false} SortedTotal(agents: seq<string>, first: map<string, int>, group: seq<Read>)
    requires Known(agents, first)
    ensures Total(Sorted(agents, first), group) == Total(agents, group)
  {
    if agents != [] {
      var front, a := agents[..|agents| - 1], agents[|agents| - 1];
      assert front + [a] == agents;
      TotalAppend(front, a, group);
      SortedTotal(front, first, group);
      InsertTotal(Sorted(front, first), a, first, group);
    }
  }

  /** Sorting keeps the agents. */
  lemma {:induction false} SortedKeeps(agents: seq<string>, first: map<string, int>)
    requires Known(agents, first)
    ensures multiset(Sorted(agents, first)) == multiset(agents)
  {
    if agents != [] {
      var front, a := agents[..|agents| - 1], agents[|agents| - 1];
      SortedKeeps(front, first);
      InsertKeeps(Sorted(front, first), a, first);
      AppendBag(front, a);
      assert front + [a] == agents;
    }
  }

  lemma AppendBag(agents: seq<string>, a: string)
    ensures multiset(agents + [a]) == multiset(agents) + multiset{a}
  {
  }

  /** Sorting puts the owner first. */
  lemma {:induction false} SortedHead(agents: seq<string>, first: map<string, int>)
    requires Known(agents, first) && agents != []
    ensures Sorted(agents, first)[0] == Leader(agents, first)
  {
    var front, a := agents[..|agents| - 1], agents[|agents| - 1];
    if front == [] {
      assert Sorted(front, first) == [];
    } else {
      SortedHead(front, first);
    }
  }

  predicate InAscending(agents: seq<string>, first: map<string, int>)
    requires Known(agents, first)
  {
    forall i | 0 < i < |agents| :: first[agents[i - 1]] <= first[agents[i]]
  }

  lemma {:induction false} InsertAscends(agents: seq<string>, a: string, first: map<string, int>)
    requires Known(agents, first) && a in first && InAscending(agents, first)
    ensures InAscending(Insert(agents, a, first), first)
    ensures Insert(agents, a, first)[0] == if agents == [] || first[a] < first[agents[0]] then a else agents[0]
  {
    if agents != [] && first[a] >= first[agents[0]] {
      InsertAscends(agents[1..], a, first);
    }
  }

  lemma {:induction false} SortedAscends(agents: seq<string>, first: map<string, int>)
    requires Known(agents, first)
    ensures InAscending(Sorted(agents, first), first)
  {
    if agents != [] {
      SortedAscends(agents[..|agents| - 1], first);
      InsertAscends(Sorted(agents[..|agents| - 1], first), agents[|agents| - 1], first);
    }
  }

  method SelfOf(group: seq<Read>, perAgent: map<string, nat>, agents: seq<string>) returns (n: int)
    requires agents == InOrder(group) && perAgent.Keys == Agents(group)
    requires forall a | a in perAgent :: perAgent[a] == Calls(group, a)
    ensures n == |group| - |Agents(group)|
  {
    n := 0;
    InOrderLists(group);
    for i := 0 to |agents|
      invariant n + Total(agents[i..], group) - (|agents| - i) == Total(agents, group) - |agents|
    {
      CallsPositive(group, agents[i]);
      assert agents[i..][1..] == agents[i + 1..];
      if perAgent[agents[i]] > 1 {
        n := n + perAgent[agents[i]] - 1;
      }
    }
    TotalIsLength(agents, group);
    DistinctSize(agents, Agents(group));
  }

  /** The calls of every agent after the first in the sorted list. */
  method CrossOf(group: seq<Read>, perAgent: map<string, nat>, agents: seq<string>) returns (n: int)
    requires group != [] && agents == InOrder(group) && perAgent.Keys == Agents(group)
    requires forall a | a in perAgent :: perAgent[a] == Calls(group, a)
    ensures n == |group| - Calls(group, Owner(group))
  {
    n := 0;
    InOrderLists(group);
    TotalIsLength(agents, group);
    assert Final(group).agent in Agents(group);
    if |perAgent| > 1 {
      var first := FirstSeq(group);
      var sorted := Sorted(agents, first);
      SortedKeeps(agents, first);
      SortedTotal(agents, first, group);
      SortedHead(agents, first);
      for i := 1 to |sorted|
        invariant n + Total(sorted[i..], group) == Total(sorted[1..], group)
      {
        assert sorted[i] in multiset(agents);
        assert sorted[i..][1..] == sorted[i + 1..];
        n := n + perAgent[sorted[i]];
      }
    } else {
      DistinctSize(agents, Agents(group));
      assert |perAgent.Keys| <= 1;
      assert agents == [Owner(group)];
      assert Total(agents[1..], group) == 0;
    }
  }

  /** What one group adds to the two counts. */
  method CountGroup(group: seq<Read>) returns (cross: int, self: int)
    requires group != []
    ensures cross == |group| - Calls(group, Owner(group)) && self == |group| - |Agents(group)|
  {
    var perAgent, agents := PerAgent(group);
    self := SelfOf(group, perAgent, agents);
    cross := CrossOf(group, perAgent, agents);
  }

  // ----- all groups

  function Done(order: seq<string>, m: nat): set<string>
    requires m <= |order|
  {
    set i | 0 <= i < m :: order[i]
  }

  /** The running counts after the first m groups. */
  ghost predicate Counted(rs: seq<Read>, order: seq<string>, m: nat, cross: int, self: int)
    requires m <= |order|
  {
    var part := Within(rs, Done(order, m));
    self == |part| - |Pairs(part)| && cross == |part| - Owned(part, Owners(rs))
  }

  lemma CountedNone(rs: seq<Read>, order: seq<string>)
    ensures Counted(rs, order, 0, 0, 0)
  {
    NoneWithin(rs);
    assert Done(order, 0) == {};
  }

  lemma CountedNext(rs: seq<Read>, order: seq<string>, m: nat, cross: int, self: int)
    requires m < |order| && Distinct(order)
    requires order[m] in Keys(rs) && Counted(rs, order, m, cross, self)
    ensures var group := Group(rs, order[m]);
      && group != []
      && Counted(rs, order, m + 1, cross + |group| - Calls(group, Owner(group)), self + |group| - |Agents(group)|)
  {
    var k, keys, more := order[m], Done(order, m), Done(order, m + 1);
    assert more == keys + {k};
    GroupNonempty(rs, k);
    WithinGrows(rs, keys, more, k, Owners(rs));
    PairsGrow(rs, keys, k);
    WithinMembers(rs, {k});
    OwnedInGroup(Group(rs, k), k, Owners(rs));
  }

  lemma CountedAll(rs: seq<Read>, order: seq<string>, cross: int, self: int)
    requires forall k :: k in order <==> k in Keys(rs)
    requires Counted(rs, order, |order|, cross, self)
    ensures cross == CrossDuplicates(rs) && self == SelfDuplicates(rs)
  {
    assert Keys(rs) <= Done(order, |order|);
    WithinAll(rs, Done(order, |order|));
  }

  method AddGroup(group: seq<Read>, ghost rs: seq<Read>, ghost order: seq<string>, ghost m: nat, cross0: int,
          self0: int)
    returns (cross: int, self: int)
    requires m < |order| && Distinct(order) && order[m] in Keys(rs) && group == Group(rs, order[m])
    requires Counted(rs, order, m, cross0, self0)
    ensures Counted(rs, order, m + 1, cross, self)
  {
    CountedNext(rs, order, m, cross0, self0);
    var c, s := CountGroup(group);
    cross, self := cross0 + c, self0 + s;
  }

  method ComputeDuplication(groups: Groups, order: seq<string>, ghost rs: seq<Read>) returns (cross: int, self: int)
    requires Grouped(groups, order, rs)
    ensures cross == CrossDuplicates(rs) && self == SelfDuplicates(rs)
  {
    cross, self := 0, 0;
    CountedNone(rs, order);
    for m := 0 to |order|
      invariant Counted(rs, order, m, cross, self)
    {
      assert order[m] in groups;
      cross, self := AddGroup(groups[order[m]].callDetails, rs, order, m, cross, self);
    }
    CountedAll(rs, order, cross, self);
  }

  datatype Report = Report(totalCalls: nat, uniqueFingerprints: nat, crossAgentDuplicates: int, selfDuplicates: int,
                           crossAgentDedupRatio: real, crossAgentFileOverlapRatio: Option<real>, distinctAgents: nat)

  lemma ZeroFraction(a: int, n: nat)
    requires n > 0
    ensures a as real / n as real == 0.0 <==> a == 0
  {
    assert a as real == (a as real / n as real) * n as real;
  }

  /** Over exactly the calls that carry a resource fingerprint, if any does. */
  method FileOverlapRatio(calls: seq<Call>) returns (ratio: Option<real>)
    ensures var rs := ByResource(calls);
      ratio == if rs == [] then None else Some(CrossDuplicates(rs) as real / |rs| as real)
    ensures ratio.Some? <==> exists c :: c in calls && c.resourceFingerprint.Some?
    ensures ratio.Some? && !MixesUp(ResourceCalls(calls)) ==> (ratio == Some(0.0) <==> !AgentsShareResource(calls))
  {
    var rs := ByResource(calls);
    ResourceMeans(calls);
    if rs == [] {
      return None;
    }
    var groups, order := GroupReads(rs);
    var cross, _ := ComputeDuplication(groups, order, rs);
    ZeroFraction(cross, |rs|);
    ratio := Some(cross as real / |rs| as real);
  }

  /** The counts of the report, and what they come to on the calls: see ReadDedupCalls. */
  method Analyze(calls: seq<Call>) returns (report: Report)
    ensures var rs := ByArgs(calls);
      && report.totalCalls == |calls|
      && report.uniqueFingerprints == |Keys(rs)|
      && report.crossAgentDuplicates == CrossDuplicates(rs)
      && report.selfDuplicates == SelfDuplicates(rs)
      && report.distinctAgents == |Agents(rs)|
      && report.crossAgentDedupRatio == (if calls == [] then 0.0 else CrossDuplicates(rs) as real / |calls| as real)
    ensures report.crossAgentFileOverlapRatio.Some? <==> ByResource(calls) != []
    ensures report.crossAgentFileOverlapRatio.Some? ==>
              report.crossAgentFileOverlapRatio.value ==
              CrossDuplicates(ByResource(calls)) as real / |ByResource(calls)| as real
    ensures report.uniqueFingerprints <= |CallPairs(calls)|
    ensures report.uniqueFingerprints == |CallPairs(calls)| <==> !MixesUp(calls)
    ensures !MixesUp(calls) ==> report.selfDuplicates == |calls| - |Callers(calls)|
    ensures !MixesUp(calls) ==> (report.crossAgentDuplicates == 0 <==> !AgentsShare(calls))
    ensures !MixesUp(calls) && DistinctSeqs(calls) ==> report.crossAgentDuplicates == Repeated(calls, |calls|)
    ensures report.distinctAgents == |set c | c in calls :: c.subagentId|
    ensures report.crossAgentFileOverlapRatio.Some? <==> exists c :: c in calls && c.resourceFingerprint.Some?
  {
    CountsMean(calls);
    var rs := ByArgs(calls);
    var groups, order := GroupReads(rs);
    var cross, self := ComputeDuplication(groups, order, rs);
    var overlap := FileOverlapRatio(calls);
    var total := |calls|;
    report := Report(total, |groups|, cross, self, if total > 0 then cross as real / total as real else 0.0,
                     overlap, |Agents(rs)|);
    assert |groups| == |groups.Keys|;
  }

  lemma Fraction(a: int, n: int)
    requires 0 <= a < n
    ensures 0.0 <= a as real / n as real < 1.0
  {
  }

  /** The two ratios lie between 0 and 1, and stay below 1 because one call of each group is never counted. */
  lemma RatioBelowOne(rs: seq<Read>)
    requires rs != []
    ensures 0.0 <= CrossDuplicates(rs) as real / |rs| as real < 1.0
  {
    DuplicateBounds(rs);
    assert Final(rs).key in Keys(rs);
    assert |Keys(rs)| > 0;
    Fraction(CrossDuplicates(rs), |rs|);
  }
}
