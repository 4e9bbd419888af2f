/** Collection of facts: which listed objects belong to a cluster, and what a failed list call leaves. */
module Collector {
  import opened Text
  import opened Api
  import opened Health
  import opened Lists

  datatype Owner = Owner(kind: string, uid: string)

  datatype RawSet = RawSet(uid: string, owners: seq<Owner>, currentRevision: string, updateRevision: string)
  datatype RawJob = RawJob(owners: seq<Owner>, succeeded: int, active: int, failed: int)
  datatype PodCondition = PodCondition(isReadyType: bool, isTrue: bool)
  datatype RawPod = RawPod(uid: string, name: string, owners: seq<Owner>, phase: PodPhase,
                           conditions: seq<PodCondition>, restarts: seq<int>, claims: seq<Option<string>>)
  datatype RawPvc = RawPvc(name: string, owners: seq<Owner>, bound: bool)
  datatype RawService = RawService(owners: seq<Owner>, loadBalancer: bool, addresses: nat)
  datatype RawIngress = RawIngress(owners: seq<Owner>, addresses: nat)

  /** The answers to the list calls; None is an error. */
  datatype Listing = Listing(sets: Option<seq<RawSet>>, jobs: Option<seq<RawJob>>, pods: Option<seq<RawPod>>,
                             pvcs: Option<seq<RawPvc>>, services: Option<seq<RawService>>,
                             ingresses: Option<seq<RawIngress>>, secrets: Option<seq<string>>)

  const NO_FACTS := Facts([], [], [], [], [], [], [])

  const CLUSTER_KIND := "RavenDBCluster"

  // ----- whose objects they are -----

  /** An owner reference names the cluster by its kind and identifier. */
  ghost predicate Ours(owners: seq<Owner>, uid: string) { Owner("RavenDBCluster", uid) in owners }

  ghost predicate OwnedAmong(owners: seq<Owner>, uids: set<string>) { exists o :: o in owners && o.uid in uids }

  method IsOwnedByCluster(owners: seq<Owner>, uid: string) returns (r: bool)
    ensures r <==> Ours(owners, uid)
  {
    for n := 0 to |owners|
      invariant Owner(CLUSTER_KIND, uid) !in owners[..n]
    {
      if owners[n].kind == CLUSTER_KIND && owners[n].uid == uid {
        assert owners[n] == Owner(CLUSTER_KIND, uid);
        return true;
      }
    }
    assert owners[..|owners|] == owners;
    return false;
  }

  method IsOwnedByAny(owners: seq<Owner>, uids: set<string>) returns (r: bool)
    ensures r <==> OwnedAmong(owners, uids)
  {
    for n := 0 to |owners|
      invariant forall k | 0 <= k < n :: owners[k].uid !in uids
    {
      if owners[n].uid in uids {
        assert owners[n] in owners;
        return true;
      }
    }
    return false;
  }

  // ----- what one object shows -----

  method IsPodReady(p: RawPod) returns (r: bool)
    ensures r <==> PodCondition(true, true) in p.conditions
  {
    for n := 0 to |p.conditions|
      invariant PodCondition(true, true) !in p.conditions[..n]
    {
      if p.conditions[n].isReadyType && p.conditions[n].isTrue {
        assert p.conditions[n] == PodCondition(true, true);
        return true;
      }
    }
    assert p.conditions[..|p.conditions|] == p.conditions;
    return false;
  }

  const TWO_31: int := 0x8000_0000
  const TWO_32: int := 0x1_0000_0000

  function Wrap32(x: int): int { (x + TWO_31) % TWO_32 - TWO_31 }

  ghost function Sum(counts: seq<int>): int { if counts == [] then 0 else Sum(counts[..|counts| - 1]) + counts[|counts| - 1] }

  /** A sum in 32 bits: the sum if that fits, and always the sum up to a multiple of 2^32. */
  ghost predicate Sum32(r: int, counts: seq<int>) {
    -TWO_31 <= r < TWO_31 && (Sum(counts) - r) % TWO_32 == 0
  }

  method TotalRestarts(counts: seq<int>) returns (r: int)
    ensures Sum32(r, counts)
    ensures -TWO_31 <= Sum(counts) < TWO_31 ==> r == Sum(counts)
  {
    r := 0;
    for n := 0 to |counts|
      invariant Sum32(r, counts[..n])
    {
      assert counts[..n + 1][..n] == counts[..n];
      WrapAdds(Sum(counts[..n]), r, counts[n]);
      r := Wrap32(r + counts[n]);
    }
    assert counts[..|counts|] == counts;
  }

  lemma WrapAdds(sum: int, r: int, x: int)
    requires (sum - r) % TWO_32 == 0
    ensures -TWO_31 <= Wrap32(r + x) < TWO_31 && (sum + x - Wrap32(r + x)) % TWO_32 == 0
  {
    var q := (r + x + TWO_31) / TWO_32;
    assert r + x - Wrap32(r + x) == q * TWO_32;
    var p := (sum - r) / TWO_32;
    assert sum + x - Wrap32(r + x) == (p + q) * TWO_32;
  }

  ghost predicate Updating(s: RawSet) {
    s.currentRevision != "" && s.updateRevision != "" && s.currentRevision != s.updateRevision
  }

  ghost predicate ShowsSet(f: StatefulSetFact, s: RawSet) { f.updating <==> Updating(s) }

  ghost predicate ShowsJob(f: JobFact, j: RawJob) {
    (f.completed <==> j.succeeded >= 1) && f.active == j.active && f.failed == j.failed
  }

  ghost predicate ShowsService(f: ServiceFact, s: RawService) {
    f.loadBalancer == s.loadBalancer && (f.lbReady <==> s.addresses > 0)
  }

  ghost predicate ShowsPvc(f: PvcFact, p: RawPvc) { f == PvcFact(p.name, p.bound) }

  ghost predicate ShowsIngress(f: IngressFact, i: RawIngress) { f.lbReady <==> i.addresses > 0 }

  ghost predicate ShowsPod(f: PodFact, p: RawPod) {
    && f.name == p.name && f.phase == p.phase
    && (f.ready <==> PodCondition(true, true) in p.conditions)
    && Sum32(f.restarts, p.restarts)
  }

  // ----- what a list shows -----

  ghost function OurSets(list: seq<RawSet>, uid: string): set<nat> {
    set i: nat | 0 <= i < |list| && Ours(list[i].owners, uid)
  }

  ghost function SetUids(list: seq<RawSet>, uid: string): set<string> {
    set i | i in OurSets(list, uid) :: list[i].uid
  }

  ghost function OurJobs(list: seq<RawJob>, uid: string): set<nat> {
    set i: nat | 0 <= i < |list| && Ours(list[i].owners, uid)
  }

  ghost function OurServices(list: seq<RawService>, uid: string): set<nat> {
    set i: nat | 0 <= i < |list| && Ours(list[i].owners, uid)
  }

  ghost function OurIngresses(list: seq<RawIngress>, uid: string): set<nat> {
    set i: nat | 0 <= i < |list| && Ours(list[i].owners, uid)
  }

  /** The pods of the cluster's sets. */
  ghost function OurPods(list: seq<RawPod>, sets: set<string>): set<nat> {
    set i: nat | 0 <= i < |list| && OwnedAmong(list[i].owners, sets)
  }

  ghost function PodUids(list: seq<RawPod>, sets: set<string>): set<string> {
    set i | i in OurPods(list, sets) :: list[i].uid
  }

  /** Some volume of a pod of the cluster's sets names the claim. */
  ghost predicate Claimed(list: seq<RawPod>, sets: set<string>, name: string) {
    name != "" && exists p :: p in list && OwnedAmong(p.owners, sets) && Some(name) in p.claims
  }

  /** The volume claims owned by a set of the cluster or a pod of these sets, or named by such a pod. */
  ghost predicate OurPvc(p: RawPvc, pods: seq<RawPod>, sets: set<string>) {
    OwnedAmong(p.owners, sets) || OwnedAmong(p.owners, PodUids(pods, sets)) || Claimed(pods, sets, p.name)
  }

  ghost function OurPvcs(list: seq<RawPvc>, pods: seq<RawPod>, sets: set<string>): set<nat> {
    set i: nat | 0 <= i < |list| && OurPvc(list[i], pods, sets)
  }

  ghost predicate SetsAt(facts: seq<StatefulSetFact>, list: seq<RawSet>, idx: seq<nat>) {
    |facts| == |idx| && forall k | 0 <= k < |idx| :: idx[k] < |list| && ShowsSet(facts[k], list[idx[k]])
  }

  ghost predicate SetsShown(facts: seq<StatefulSetFact>, list: seq<RawSet>, chosen: set<nat>) {
    exists idx :: Enumerates(idx, chosen) && SetsAt(facts, list, idx)
  }

  ghost predicate JobsAt(facts: seq<JobFact>, list: seq<RawJob>, idx: seq<nat>) {
    |facts| == |idx| && forall k | 0 <= k < |idx| :: idx[k] < |list| && ShowsJob(facts[k], list[idx[k]])
  }

  ghost predicate JobsShown(facts: seq<JobFact>, list: seq<RawJob>, chosen: set<nat>) {
    exists idx :: Enumerates(idx, chosen) && JobsAt(facts, list, idx)
  }

  ghost predicate PodsAt(facts: seq<PodFact>, list: seq<RawPod>, idx: seq<nat>) {
    |facts| == |idx| && forall k | 0 <= k < |idx| :: idx[k] < |list| && ShowsPod(facts[k], list[idx[k]])
  }

  ghost predicate PodsShown(facts: seq<PodFact>, list: seq<RawPod>, chosen: set<nat>) {
    exists idx :: Enumerates(idx, chosen) && PodsAt(facts, list, idx)
  }

  ghost predicate PvcsAt(facts: seq<PvcFact>, list: seq<RawPvc>, idx: seq<nat>) {
    |facts| == |idx| && forall k | 0 <= k < |idx| :: idx[k] < |list| && ShowsPvc(facts[k], list[idx[k]])
  }

  ghost predicate PvcsShown(facts: seq<PvcFact>, list: seq<RawPvc>, chosen: set<nat>) {
    exists idx :: Enumerates(idx, chosen) && PvcsAt(facts, list, idx)
  }

  ghost predicate ServicesAt(facts: seq<ServiceFact>, list: seq<RawService>, idx: seq<nat>) {
    |facts| == |idx| && forall k | 0 <= k < |idx| :: idx[k] < |list| && ShowsService(facts[k], list[idx[k]])
  }

  ghost predicate ServicesShown(facts: seq<ServiceFact>, list: seq<RawService>, chosen: set<nat>) {
    exists idx :: Enumerates(idx, chosen) && ServicesAt(facts, list, idx)
  }

  ghost predicate IngressesAt(facts: seq<IngressFact>, list: seq<RawIngress>, idx: seq<nat>) {
    |facts| == |idx| && forall k | 0 <= k < |idx| :: idx[k] < |list| && ShowsIngress(facts[k], list[idx[k]])
  }

  ghost predicate IngressesShown(facts: seq<IngressFact>, list: seq<RawIngress>, chosen: set<nat>) {
    exists idx :: Enumerates(idx, chosen) && IngressesAt(facts, list, idx)
  }

  // ----- the loops -----

  method CollectStatefulSets(list: seq<RawSet>, uid: string) returns (facts: seq<StatefulSetFact>, owned: set<string>)
    ensures SetsShown(facts, list, OurSets(list, uid)) && owned == SetUids(list, uid)
  {
    hide Ours, Enumerates, Below, At;
    facts := [];
    owned := {};
    ghost var chosen, idx: seq<nat> := OurSets(list, uid), [];
    ghost var uids := seq(|list|, i requires 0 <= i < |list| => list[i].uid);
    NothingBelow(chosen);
    AtNothing(uids);
    for n := 0 to |list|
      invariant Enumerates(idx, Below(chosen, n)) && |facts| == |idx|
      invariant forall k | 0 <= k < |idx| :: idx[k] < n && ShowsSet(facts[k], list[idx[k]])
      invariant owned == At(uids, idx)
    {
      OneFurther(idx, chosen, n);
      var x := list[n];
      var ours := IsOwnedByCluster(x.owners, uid);
      if !ours {
        continue;
      }
      AtNext(uids, idx, n);
      idx := idx + [n];
      facts := facts + [StatefulSetFact(x.currentRevision != "" && x.updateRevision != "" && x.currentRevision != x.updateRevision)];
      owned := owned + {x.uid};
    }
    AllBelow(chosen, |list|);
    AtChosen(uids, idx, chosen);
    assert owned == SetUids(list, uid);
  }

  /** What stands at the noted positions. */
  ghost function At(all: seq<string>, idx: seq<nat>): set<string> {
    set k | 0 <= k < |idx| && idx[k] < |all| :: all[idx[k]]
  }

  lemma AtNothing(all: seq<string>)
    ensures At(all, []) == {}
  {
  }

  lemma AtNext(all: seq<string>, idx: seq<nat>, n: nat)
    requires n < |all|
    ensures At(all, idx + [n]) == At(all, idx) + {all[n]}
  {
    var more := idx + [n];
    assert more[|idx|] == n;
    forall x | x in At(all, idx) ensures x in At(all, more) {
      var k :| 0 <= k < |idx| && idx[k] < |all| && all[idx[k]] == x;
      assert more[k] == idx[k];
    }
    forall x | x in At(all, more) ensures x in At(all, idx) + {all[n]} {
      var k :| 0 <= k < |more| && more[k] < |all| && all[more[k]] == x;
      assert k < |idx| ==> idx[k] == more[k];
    }
  }

  lemma AtChosen(all: seq<string>, idx: seq<nat>, chosen: set<nat>)
    requires Enumerates(idx, chosen) && forall i | i in chosen :: i < |all|
    ensures At(all, idx) == set i | i in chosen :: all[i]
  {
    forall i | i in chosen ensures all[i] in At(all, idx) {
      var k :| 0 <= k < |idx| && idx[k] == i;
    }
    forall x | x in At(all, idx) ensures exists i :: i in chosen && all[i] == x {
      var k :| 0 <= k < |idx| && idx[k] < |all| && all[idx[k]] == x;
      assert idx[k] in idx;
    }
  }

  lemma NothingClaimed(sets: set<string>)
    ensures forall name :: !Claimed([], sets, name)
  {
  }

  lemma OneMorePod(list: seq<RawPod>, sets: set<string>, n: nat)
    requires n < |list|
    ensures forall name :: Claimed(list[..n + 1], sets, name) <==>
              Claimed(list[..n], sets, name) || (name != "" && OwnedAmong(list[n].owners, sets) && Some(name) in list[n].claims)
  {
    hide OwnedAmong;
    assert list[..n + 1] == list[..n] + [list[n]];
    assert forall p :: p in list[..n + 1] <==> p in list[..n] || p == list[n];
  }

  method CollectJobs(list: seq<RawJob>, uid: string) returns (facts: seq<JobFact>)
    ensures JobsShown(facts, list, OurJobs(list, uid))
  {
    hide Ours, Enumerates, Below;
    facts := [];
    ghost var chosen, idx: seq<nat> := OurJobs(list, uid), [];
    NothingBelow(chosen);
    for n := 0 to |list|
      invariant Enumerates(idx, Below(chosen, n)) && |facts| == |idx|
      invariant forall k | 0 <= k < |idx| :: idx[k] < n && ShowsJob(facts[k], list[idx[k]])
    {
      OneFurther(idx, chosen, n);
      var x := list[n];
      var ours := IsOwnedByCluster(x.owners, uid);
      if !ours {
        continue;
      }
      idx := idx + [n];
      facts := facts + [JobFact(x.succeeded >= 1, x.active, x.failed)];
    }
    AllBelow(chosen, |list|);
  }

  method CollectServices(list: seq<RawService>, uid: string) returns (facts: seq<ServiceFact>)
    ensures ServicesShown(facts, list, OurServices(list, uid))
  {
    hide Ours, Enumerates, Below;
    facts := [];
    ghost var chosen, idx: seq<nat> := OurServices(list, uid), [];
    NothingBelow(chosen);
    for n := 0 to |list|
      invariant Enumerates(idx, Below(chosen, n)) && |facts| == |idx|
      invariant forall k | 0 <= k < |idx| :: idx[k] < n && ShowsService(facts[k], list[idx[k]])
    {
      OneFurther(idx, chosen, n);
      var x := list[n];
      var ours := IsOwnedByCluster(x.owners, uid);
      if !ours {
        continue;
      }
      idx := idx + [n];
      facts := facts + [ServiceFact(x.loadBalancer, x.addresses > 0)];
    }
    AllBelow(chosen, |list|);
  }

  method CollectIngresses(list: seq<RawIngress>, uid: string) returns (facts: seq<IngressFact>)
    ensures IngressesShown(facts, list, OurIngresses(list, uid))
  {
    hide Ours, Enumerates, Below;
    facts := [];
    ghost var chosen, idx: seq<nat> := OurIngresses(list, uid), [];
    NothingBelow(chosen);
    for n := 0 to |list|
      invariant Enumerates(idx, Below(chosen, n)) && |facts| == |idx|
      invariant forall k | 0 <= k < |idx| :: idx[k] < n && ShowsIngress(facts[k], list[idx[k]])
    {
      OneFurther(idx, chosen, n);
      var x := list[n];
      var ours := IsOwnedByCluster(x.owners, uid);
      if !ours {
        continue;
      }
      idx := idx + [n];
      facts := facts + [IngressFact(x.addresses > 0)];
    }
    AllBelow(chosen, |list|);
  }

  method CollectPodsAndPVCRefs(list: seq<RawPod>, sets: set<string>) returns (facts: seq<PodFact>, uids: set<string>, claims: set<string>)
    ensures PodsShown(facts, list, OurPods(list, sets))
    ensures uids == PodUids(list, sets) && forall name :: name in claims <==> Claimed(list, sets, name)
  {
    hide OwnedAmong, Enumerates, Below, ShowsPod, Claimed, At;
    facts := [];
    uids, claims := {}, {};
    ghost var chosen, idx: seq<nat> := OurPods(list, sets), [];
    ghost var podUids := seq(|list|, i requires 0 <= i < |list| => list[i].uid);
    NothingBelow(chosen);
    AtNothing(podUids);
    NothingClaimed(sets);
    assert list[..0] == [];
    for n := 0 to |list|
      invariant Enumerates(idx, Below(chosen, n)) && |facts| == |idx|
      invariant forall k | 0 <= k < |idx| :: idx[k] < n && ShowsPod(facts[k], list[idx[k]])
      invariant uids == At(podUids, idx)
      invariant forall name :: name in claims <==> Claimed(list[..n], sets, name)
    {
      OneFurther(idx, chosen, n);
      var x := list[n];
      OneMorePod(list, sets, n);
      var ours := IsOwnedByAny(x.owners, sets);
      if !ours {
        continue;
      }
      AtNext(podUids, idx, n);
      idx := idx + [n];
      var ready := IsPodReady(x);
      var restarts := TotalRestarts(x.restarts);
      facts := facts + [PodFact(x.name, x.phase, ready, restarts)];
      assert ShowsPod(PodFact(x.name, x.phase, ready, restarts), x) by { PodShown(x, ready, restarts); }
      uids := uids + {x.uid};
      var more := ClaimsOf(x);
      claims := claims + more;
    }
    AllBelow(chosen, |list|);
    AtChosen(podUids, idx, chosen);
    assert uids == PodUids(list, sets);
    assert list[..|list|] == list;
  }

  lemma PodShown(p: RawPod, ready: bool, restarts: int)
    requires (ready <==> PodCondition(true, true) in p.conditions) && Sum32(restarts, p.restarts)
    ensures ShowsPod(PodFact(p.name, p.phase, ready, restarts), p)
  {
  }

  method ClaimsOf(p: RawPod) returns (claims: set<string>)
    ensures forall name :: name in claims <==> name != "" && Some(name) in p.claims
  {
    claims := {};
    for n := 0 to |p.claims|
      invariant forall name :: name in claims <==> name != "" && Some(name) in p.claims[..n]
    {
      assert p.claims[..n + 1] == p.claims[..n] + [p.claims[n]];
      if p.claims[n].None? || p.claims[n].value == "" {
        continue;
      }
      claims := claims + {p.claims[n].value};
    }
    assert p.claims[..|p.claims|] == p.claims;
  }

  method CollectPVCs(list: seq<RawPvc>, ghost pods: seq<RawPod>, sets: set<string>, podUids: set<string>, claims: set<string>) returns (facts: seq<PvcFact>)
    requires podUids == PodUids(pods, sets) && forall name :: name in claims <==> Claimed(pods, sets, name)
    ensures PvcsShown(facts, list, OurPvcs(list, pods, sets))
  {
    hide OwnedAmong, Claimed, PodUids, Enumerates, Below;
    facts := [];
    ghost var chosen, idx: seq<nat> := OurPvcs(list, pods, sets), [];
    NothingBelow(chosen);
    for n := 0 to |list|
      invariant Enumerates(idx, Below(chosen, n)) && |facts| == |idx|
      invariant forall k | 0 <= k < |idx| :: idx[k] < n && ShowsPvc(facts[k], list[idx[k]])
    {
      OneFurther(idx, chosen, n);
      var x := list[n];
      var bySet := IsOwnedByAny(x.owners, sets);
      var byPod := IsOwnedByAny(x.owners, podUids);
      var ours := bySet || byPod || x.name in claims;
      if !ours {
        continue;
      }
      idx := idx + [n];
      facts := facts + [PvcFact(x.name, x.bound)];
    }
    AllBelow(chosen, |list|);
  }

  method CollectSecrets(names: seq<string>) returns (facts: seq<SecretFact>)
    ensures |facts| == |names| && forall i | 0 <= i < |facts| :: facts[i].name == names[i]
  {
    facts := [];
    for n := 0 to |names|
      invariant |facts| == n && forall i | 0 <= i < n :: facts[i].name == names[i]
    {
      facts := facts + [SecretFact(names[n])];
    }
  }

  // ----- the collection -----

  /** How many of the seven list calls, in their fixed order, answer before one fails. */
  ghost function Answered(api: Listing): nat {
    if api.sets.None? then 0 else if api.jobs.None? then 1 else if api.pods.None? then 2 else if api.pvcs.None? then 3
    else if api.services.None? then 4 else if api.ingresses.None? then 5 else if api.secrets.None? then 6 else 7
  }

  /** The facts show exactly the cluster's own objects, in the order listed, of every kind that was listed
      before a call failed, and none of the other kinds. */
  ghost predicate Collected(facts: Facts, uid: string, api: Listing) {
    var n := Answered(api);
    && (if n > 0 then SetsShown(facts.statefulSets, api.sets.value, OurSets(api.sets.value, uid)) else facts.statefulSets == [])
    && (if n > 1 then JobsShown(facts.jobs, api.jobs.value, OurJobs(api.jobs.value, uid)) else facts.jobs == [])
    && (if n > 2 then PodsShown(facts.pods, api.pods.value, OurPods(api.pods.value, SetUids(api.sets.value, uid)))
        else facts.pods == [])
    && (if n > 3 then PvcsShown(facts.pvcs, api.pvcs.value, OurPvcs(api.pvcs.value, api.pods.value, SetUids(api.sets.value, uid)))
        else facts.pvcs == [])
    && (if n > 4 then ServicesShown(facts.services, api.services.value, OurServices(api.services.value, uid)) else facts.services == [])
    && (if n > 5 then IngressesShown(facts.ingresses, api.ingresses.value, OurIngresses(api.ingresses.value, uid))
        else facts.ingresses == [])
    && (if n > 6 then |facts.secrets| == |api.secrets.value|
                      && forall i | 0 <= i < |facts.secrets| :: facts.secrets[i].name == api.secrets.value[i]
        else facts.secrets == [])
  }

  /** Everything is listed in a fixed order, and the first failing call ends the collection with the
      facts so far. */
  method Collect(uid: string, api: Listing) returns (facts: Facts, ok: bool)
    ensures ok <==> Answered(api) == 7
    ensures Collected(facts, uid, api)
  {
    hide SetsShown, JobsShown, PodsShown, PvcsShown, ServicesShown, IngressesShown, SetUids, PodUids, Claimed;
    facts, ok := NO_FACTS, false;
    if api.sets.None? {
      return;
    }
    var setFacts, sets := CollectStatefulSets(api.sets.value, uid);
    facts := facts.(statefulSets := setFacts);
    if api.jobs.None? {
      return;
    }
    var jobs := CollectJobs(api.jobs.value, uid);
    facts := facts.(jobs := jobs);
    if api.pods.None? {
      return;
    }
    var podFacts, pods, claims := CollectPodsAndPVCRefs(api.pods.value, sets);
    facts := facts.(pods := podFacts);
    if api.pvcs.None? {
      return;
    }
    var pvcs := CollectPVCs(api.pvcs.value, api.pods.value, sets, pods, claims);
    facts := facts.(pvcs := pvcs);
    if api.services.None? {
      return;
    }
    var services := CollectServices(api.services.value, uid);
    facts := facts.(services := services);
    if api.ingresses.None? {
      return;
    }
    var ingresses := CollectIngresses(api.ingresses.value, uid);
    facts := facts.(ingresses := ingresses);
    if api.secrets.None? {
      return;
    }
    var secrets := CollectSecrets(api.secrets.value);
    facts := facts.(secrets := secrets);
    ok := true;
  }
}
