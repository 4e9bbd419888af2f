/** What a reconcile reports, from the objects that the API server lists: collection and evaluation
    taken together. */
module Observation {
  import opened Text
  import opened Lists
  import opened Api
  import opened Conditions
  import opened Health
  import opened HealthLaws
  import opened Collector

  /** Without observed secrets a cluster with a licence reference is not ready, whatever else was
      collected and whatever its status said before. */
  lemma NoSecretsNotRunning(spec: ClusterSpec, generation: int, facts: Facts, st: Status, now: int)
    requires facts.secrets == [] && spec.licenseSecretRef != ""
    ensures var r := Evaluate(spec, generation, Some(facts), st, now);
            && r.phase != PhaseRunning
            && Get(r.conditions, Ready).Some? && Get(r.conditions, Ready).value.verdict.status == IsFalse
  {
    hide Evaluate, AllFine, Get, Blocking, Broken, ExpectedReady, ExpectedPhase;
    NotFine(spec, facts);
    PhaseCharacterisation(spec, generation, Some(facts), st, now);
    EvaluateResult(spec, generation, Some(facts), st, now, Ready);
    NotReady(spec, Some(facts));
  }

  lemma NotFine(spec: ClusterSpec, facts: Facts)
    requires facts.secrets == [] && spec.licenseSecretRef != ""
    ensures !AllFine(spec, Some(facts))
  {
    hide StorageFine, PodsFine, Bootstrapped, AccessFine, ExpectedSecrets;
    assert !Observed(facts.secrets, spec.licenseSecretRef);
  }

  lemma NotReady(spec: ClusterSpec, res: Option<Facts>)
    requires !AllFine(spec, res)
    ensures ExpectedReady(spec, res).0.status == IsFalse
  {
    hide AllFine, Expected, Blocking, Required;
    RunningMeansFine(spec, res);
  }

  /** Everything that Ready asks for, read off the listed objects. */
  ghost predicate ListingFine(spec: ClusterSpec, uid: string, api: Listing)
    requires Answered(api) == 7
  {
    var sets := SetUids(api.sets.value, uid);
    && PvcsFine(api.pvcs.value, OurPvcs(api.pvcs.value, api.pods.value, sets))
    && (forall name | Expects(spec, name) :: name in api.secrets.value)
    && (spec.licenseSecretRef != "" ==> spec.licenseSecretRef in api.secrets.value)
    && RawPodsFine(api.pods.value, OurPods(api.pods.value, sets))
    && JobDone(api.jobs.value, OurJobs(api.jobs.value, uid))
    && (spec.externalAccess ==>
          || IngressReady(api.ingresses.value, OurIngresses(api.ingresses.value, uid))
          || (OurIngresses(api.ingresses.value, uid) == {} && ServiceReady(api.services.value, OurServices(api.services.value, uid))))
  }

  /** A bootstrap that failed and never succeeded, or a pod with five restarts. */
  ghost predicate ListingBroken(uid: string, api: Listing)
    requires Answered(api) == 7
  {
    var jobs, pods := OurJobs(api.jobs.value, uid), OurPods(api.pods.value, SetUids(api.sets.value, uid));
    || (!JobDone(api.jobs.value, jobs) && JobFailed(api.jobs.value, jobs))
    || Restarted(api.pods.value, pods)
  }

  ghost predicate PvcsFine(list: seq<RawPvc>, ours: set<nat>) {
    ours != {} && forall i | i in ours && i < |list| :: list[i].bound
  }

  ghost predicate RawPodsFine(list: seq<RawPod>, ours: set<nat>) {
    ours != {} && forall i | i in ours && i < |list| :: RawPodOk(list[i])
  }

  ghost predicate Restarted(list: seq<RawPod>, ours: set<nat>) {
    exists i :: i in ours && i < |list| && RestartedPod(list[i])
  }

  ghost predicate JobDone(list: seq<RawJob>, ours: set<nat>) { exists i :: i in ours && i < |list| && list[i].succeeded >= 1 }

  ghost predicate IngressReady(list: seq<RawIngress>, ours: set<nat>) { exists i :: i in ours && i < |list| && list[i].addresses > 0 }

  ghost predicate ServiceReady(list: seq<RawService>, ours: set<nat>) {
    exists i :: i in ours && i < |list| && list[i].loadBalancer && list[i].addresses > 0
  }

  // What the facts say and what the objects say is the same, kind by kind.

  lemma PvcsAgree(facts: Facts, list: seq<RawPvc>, ours: set<nat>)
    requires PvcsShown(facts.pvcs, list, ours)
    ensures StorageFine(facts) <==> PvcsFine(list, ours)
  {
    hide Enumerates;
    var idx :| Enumerates(idx, ours) && PvcsAt(facts.pvcs, list, idx);
    var shown := seq(|facts.pvcs|, k requires 0 <= k < |facts.pvcs| => !facts.pvcs[k].bound);
    var actual := seq(|list|, i requires 0 <= i < |list| => !list[i].bound);
    SomeAgree(idx, ours, shown, actual);
    assert (forall k | 0 <= k < |facts.pvcs| :: facts.pvcs[k].bound) <==> !exists k | 0 <= k < |shown| :: shown[k];
    assert (forall i | i in ours && i < |list| :: list[i].bound) <==> !exists i :: i in ours && i < |actual| && actual[i];
  }

  predicate PodOk(p: PodFact) { p.phase.Succeeded? || (p.phase.Running? && p.ready) }

  ghost predicate RawPodOk(p: RawPod) {
    p.phase.Succeeded? || (p.phase.Running? && PodCondition(true, true) in p.conditions)
  }

  lemma PodsAgree(facts: Facts, list: seq<RawPod>, ours: set<nat>)
    requires PodsShown(facts.pods, list, ours)
    ensures PodsFine(facts) <==> RawPodsFine(list, ours)
  {
    hide Enumerates;
    var idx :| Enumerates(idx, ours) && PodsAt(facts.pods, list, idx);
    var shown := seq(|facts.pods|, k requires 0 <= k < |facts.pods| => !PodOk(facts.pods[k]));
    var actual := seq(|list|, i requires 0 <= i < |list| => !RawPodOk(list[i]));
    forall k | 0 <= k < |idx| ensures idx[k] < |actual| && shown[k] == actual[idx[k]] {
      assert ShowsPod(facts.pods[k], list[idx[k]]);
    }
    SomeAgree(idx, ours, shown, actual);
    hide PodsAt, ShowsPod;
    assert (forall k | 0 <= k < |facts.pods| :: PodOk(facts.pods[k])) <==> !exists k | 0 <= k < |shown| :: shown[k];
    assert (forall i | i in ours && i < |list| :: RawPodOk(list[i])) <==> !exists i :: i in ours && i < |actual| && actual[i];
  }

  ghost predicate RestartedPod(p: RawPod) { exists r :: Sum32(r, p.restarts) && r >= 5 }

  lemma RestartsAgree(facts: Facts, list: seq<RawPod>, ours: set<nat>)
    requires PodsShown(facts.pods, list, ours)
    ensures (exists i | 0 <= i < |facts.pods| :: facts.pods[i].restarts >= 5) <==> Restarted(list, ours)
  {
    hide Enumerates, Sum32;
    var idx :| Enumerates(idx, ours) && PodsAt(facts.pods, list, idx);
    var shown := seq(|facts.pods|, k requires 0 <= k < |facts.pods| => facts.pods[k].restarts >= 5);
    var actual := seq(|list|, i requires 0 <= i < |list| => RestartedPod(list[i]));
    forall k | 0 <= k < |idx| ensures idx[k] < |actual| && shown[k] == actual[idx[k]] {
      var f, p := facts.pods[k], list[idx[k]];
      assert ShowsPod(f, p);
      if r :| Sum32(r, p.restarts) && r >= 5 {
        Sum32Unique(r, f.restarts, p.restarts);
      }
    }
    SomeAgree(idx, ours, shown, actual);
    hide PodsAt, ShowsPod, RestartedPod;
    assert (exists k | 0 <= k < |facts.pods| :: facts.pods[k].restarts >= 5) <==> exists k | 0 <= k < |shown| :: shown[k];
    assert Restarted(list, ours) <==> exists i :: i in ours && i < |actual| && actual[i];
  }

  lemma Sum32Unique(a: int, b: int, counts: seq<int>)
    requires Sum32(a, counts) && Sum32(b, counts)
    ensures a == b
  {
    var s := Sum(counts);
    var p, q := (s - a) / TWO_32, (s - b) / TWO_32;
    assert s - a == p * TWO_32 && s - b == q * TWO_32;
    assert b - a == (p - q) * TWO_32;
  }

  ghost predicate JobFailed(list: seq<RawJob>, ours: set<nat>) { exists i :: i in ours && i < |list| && list[i].failed > 0 }

  ghost predicate JobActive(list: seq<RawJob>, ours: set<nat>) { exists i :: i in ours && i < |list| && list[i].active > 0 }

  lemma DoneAgrees(facts: Facts, list: seq<RawJob>, ours: set<nat>)
    requires JobsShown(facts.jobs, list, ours)
    ensures Bootstrapped(facts) <==> JobDone(list, ours)
  {
    hide Enumerates;
    var idx :| Enumerates(idx, ours) && JobsAt(facts.jobs, list, idx);
    var n, m := |facts.jobs|, |list|;
    var shown, actual := seq(n, k requires 0 <= k < n => facts.jobs[k].completed), seq(m, i requires 0 <= i < m => list[i].succeeded >= 1);
    SomeAgree(idx, ours, shown, actual);
    assert (exists k | 0 <= k < n :: facts.jobs[k].completed) <==> exists k | 0 <= k < |shown| :: shown[k];
  }

  lemma FailedAgrees(facts: Facts, list: seq<RawJob>, ours: set<nat>)
    requires JobsShown(facts.jobs, list, ours)
    ensures (exists k | 0 <= k < |facts.jobs| :: facts.jobs[k].failed > 0) <==> JobFailed(list, ours)
  {
    hide Enumerates;
    var idx :| Enumerates(idx, ours) && JobsAt(facts.jobs, list, idx);
    var n, m := |facts.jobs|, |list|;
    var shown, actual := seq(n, k requires 0 <= k < n => facts.jobs[k].failed > 0), seq(m, i requires 0 <= i < m => list[i].failed > 0);
    SomeAgree(idx, ours, shown, actual);
    assert (exists k | 0 <= k < n :: facts.jobs[k].failed > 0) <==> exists k | 0 <= k < |shown| :: shown[k];
  }

  lemma ActiveAgrees(facts: Facts, list: seq<RawJob>, ours: set<nat>)
    requires JobsShown(facts.jobs, list, ours)
    ensures (exists k | 0 <= k < |facts.jobs| :: facts.jobs[k].active > 0) <==> JobActive(list, ours)
  {
    hide Enumerates;
    var idx :| Enumerates(idx, ours) && JobsAt(facts.jobs, list, idx);
    var n, m := |facts.jobs|, |list|;
    var shown, actual := seq(n, k requires 0 <= k < n => facts.jobs[k].active > 0), seq(m, i requires 0 <= i < m => list[i].active > 0);
    SomeAgree(idx, ours, shown, actual);
    assert (exists k | 0 <= k < n :: facts.jobs[k].active > 0) <==> exists k | 0 <= k < |shown| :: shown[k];
  }

  ghost predicate SetMoves(list: seq<RawSet>, ours: set<nat>) { exists i :: i in ours && i < |list| && Updating(list[i]) }

  lemma SetsAgree(facts: Facts, list: seq<RawSet>, ours: set<nat>)
    requires SetsShown(facts.statefulSets, list, ours)
    ensures (exists k | 0 <= k < |facts.statefulSets| :: facts.statefulSets[k].updating) <==> SetMoves(list, ours)
  {
    hide Enumerates, Updating;
    var idx :| Enumerates(idx, ours) && SetsAt(facts.statefulSets, list, idx);
    var n, m := |facts.statefulSets|, |list|;
    var shown, actual := seq(n, k requires 0 <= k < n => facts.statefulSets[k].updating), seq(m, i requires 0 <= i < m => Updating(list[i]));
    SomeAgree(idx, ours, shown, actual);
    assert (exists k | 0 <= k < n :: facts.statefulSets[k].updating) <==> exists k | 0 <= k < |shown| :: shown[k];
  }

  lemma IngressesAgree(facts: Facts, list: seq<RawIngress>, ours: set<nat>)
    requires IngressesShown(facts.ingresses, list, ours)
    ensures (exists k | 0 <= k < |facts.ingresses| :: facts.ingresses[k].lbReady) <==> IngressReady(list, ours)
    ensures facts.ingresses == [] <==> ours == {}
  {
    hide Enumerates;
    var idx :| Enumerates(idx, ours) && IngressesAt(facts.ingresses, list, idx);
    var n, m := |facts.ingresses|, |list|;
    var shown, actual := seq(n, k requires 0 <= k < n => facts.ingresses[k].lbReady), seq(m, i requires 0 <= i < m => list[i].addresses > 0);
    SomeAgree(idx, ours, shown, actual);
    assert (exists k | 0 <= k < n :: facts.ingresses[k].lbReady) <==> exists k | 0 <= k < |shown| :: shown[k];
  }

  lemma ServicesAgree(facts: Facts, list: seq<RawService>, ours: set<nat>)
    requires ServicesShown(facts.services, list, ours)
    ensures (exists k | 0 <= k < |facts.services| :: facts.services[k].loadBalancer && facts.services[k].lbReady) <==> ServiceReady(list, ours)
  {
    hide Enumerates;
    var idx :| Enumerates(idx, ours) && ServicesAt(facts.services, list, idx);
    var n, m := |facts.services|, |list|;
    var shown := seq(n, k requires 0 <= k < n => facts.services[k].loadBalancer && facts.services[k].lbReady);
    var actual := seq(m, i requires 0 <= i < m => list[i].loadBalancer && list[i].addresses > 0);
    SomeAgree(idx, ours, shown, actual);
    assert (exists k | 0 <= k < n :: facts.services[k].loadBalancer && facts.services[k].lbReady) <==> exists k | 0 <= k < |shown| :: shown[k];
  }

  lemma SecretsAgree(facts: Facts, names: seq<string>, name: string)
    requires |facts.secrets| == |names| && forall i | 0 <= i < |names| :: facts.secrets[i].name == names[i]
    ensures Observed(facts.secrets, name) <==> name in names
  {
    if name in names {
      var i :| 0 <= i < |names| && names[i] == name;
      assert facts.secrets[i].name == name;
    }
  }

  /** So a complete collection is fine, or broken, exactly when the listed objects are. */
  lemma FactsAreFine(spec: ClusterSpec, uid: string, api: Listing, facts: Facts)
    requires Answered(api) == 7 && Collected(facts, uid, api)
    ensures AllFine(spec, Some(facts)) <==> ListingFine(spec, uid, api)
  {
    hide SetUids, OurPvcs, OurPods, OurJobs, OurIngresses, OurServices, OurSets, StorageFine, PodsFine, Bootstrapped,
         PvcsFine, RawPodsFine, JobDone, IngressReady, ServiceReady, Expects, Observed, SetsShown, JobsShown, PodsShown,
         PvcsShown, ServicesShown, IngressesShown;
    var sets := SetUids(api.sets.value, uid);
    DoneAgrees(facts, api.jobs.value, OurJobs(api.jobs.value, uid));
    PvcsAgree(facts, api.pvcs.value, OurPvcs(api.pvcs.value, api.pods.value, sets));
    PodsAgree(facts, api.pods.value, OurPods(api.pods.value, sets));
    IngressesAgree(facts, api.ingresses.value, OurIngresses(api.ingresses.value, uid));
    ServicesAgree(facts, api.services.value, OurServices(api.services.value, uid));
    forall name ensures Observed(facts.secrets, name) <==> name in api.secrets.value {
      SecretsAgree(facts, api.secrets.value, name);
    }
  }

  lemma FactsAreBroken(uid: string, api: Listing, facts: Facts)
    requires Answered(api) == 7 && Collected(facts, uid, api)
    ensures Broken(Some(facts)) <==> ListingBroken(uid, api)
  {
    hide SetUids, OurPvcs, OurPods, OurJobs, OurIngresses, OurServices, OurSets, Bootstrapped, JobDone, JobFailed, Restarted,
         SetsShown, JobsShown, PodsShown, PvcsShown, ServicesShown, IngressesShown;
    DoneAgrees(facts, api.jobs.value, OurJobs(api.jobs.value, uid));
    FailedAgrees(facts, api.jobs.value, OurJobs(api.jobs.value, uid));
    RestartsAgree(facts, api.pods.value, OurPods(api.pods.value, SetUids(api.sets.value, uid)));
  }

  /** A rollout is under way: one of the cluster's sets is updating, or one of its jobs is active. */
  ghost predicate ListingMoves(uid: string, api: Listing)
    requires Answered(api) == 7
  {
    SetMoves(api.sets.value, OurSets(api.sets.value, uid)) || JobActive(api.jobs.value, OurJobs(api.jobs.value, uid))
  }

  ghost predicate ConditionIs(st: Status, t: CondType, s: CondStatus) {
    Get(st.conditions, t).Some? && Get(st.conditions, t).value.verdict.status == s
  }

  lemma ProgressFromListing(spec: ClusterSpec, generation: int, uid: string, api: Listing, facts: Facts, st: Status, now: int)
    requires Answered(api) == 7 && Collected(facts, uid, api)
    ensures ConditionIs(Evaluate(spec, generation, Some(facts), st, now), Progressing, if ListingMoves(uid, api) then IsTrue else IsFalse)
  {
    ActiveAgrees(facts, api.jobs.value, OurJobs(api.jobs.value, uid));
    SetsAgree(facts, api.sets.value, OurSets(api.sets.value, uid));
    hide OurJobs, OurSets, Updating, Collected, Get, ExpectedPhase, ExpectedReady, Evaluate, EvalProgressing;
    ProgressingMet(spec, Some(facts));
    VerdictsAreDefinite(spec, Some(facts), Progressing);
    EvaluateResult(spec, generation, Some(facts), st, now, Progressing);
  }

  /** What one reconcile reports, from the listed objects alone. If every list call answers, the phase is
      Running exactly when everything is fine, Error exactly when it is not and something is broken, and
      Deploying otherwise; Progressing says whether a rollout is under way. If some call fails, Ready is
      false and the phase is not Running. The status before plays no part. */
  method CollectAndEvaluate(spec: ClusterSpec, generation: int, uid: string, api: Listing, st: Status, now: int)
    returns (r: Status, ok: bool)
    requires spec.licenseSecretRef != ""
    ensures ok <==> Answered(api) == 7
    ensures ok ==>
              && (r.phase == PhaseRunning <==> ListingFine(spec, uid, api))
              && (r.phase == PhaseError <==> !ListingFine(spec, uid, api) && ListingBroken(uid, api))
              && (r.phase == Deploying <==> !ListingFine(spec, uid, api) && !ListingBroken(uid, api))
              && ConditionIs(r, Progressing, if ListingMoves(uid, api) then IsTrue else IsFalse)
    ensures !ok ==> r.phase != PhaseRunning && ConditionIs(r, Ready, IsFalse)
  {
    hide Evaluate, Get, Collected, Answered, ListingFine, ListingBroken, ListingMoves, AllFine, Broken;
    var facts;
    facts, ok := Collect(uid, api);
    r := Evaluate(spec, generation, Some(facts), st, now);
    if ok {
      FactsAreFine(spec, uid, api, facts);
      FactsAreBroken(uid, api, facts);
      PhaseCharacterisation(spec, generation, Some(facts), st, now);
      ProgressFromListing(spec, generation, uid, api, facts, st, now);
    } else {
      FailedHasNoSecrets(facts, uid, api);
      NoSecretsNotRunning(spec, generation, facts, st, now);
    }
  }

  lemma FailedHasNoSecrets(facts: Facts, uid: string, api: Listing)
    requires Collected(facts, uid, api) && Answered(api) != 7
    ensures facts.secrets == []
  {
    hide SetsShown, JobsShown, PodsShown, PvcsShown, ServicesShown, IngressesShown;
  }

  /** A bootstrap job that is running is not taken for a failed one: while the cluster's jobs are active
      and none has failed, a rollout is under way, and the phase is Error only if a pod restarted five
      times. */
  lemma ActiveJobsAreProgress(spec: ClusterSpec, uid: string, api: Listing)
    requires Answered(api) == 7 && OurJobs(api.jobs.value, uid) != {}
    requires forall i | i in OurJobs(api.jobs.value, uid) :: api.jobs.value[i].active > 0 && api.jobs.value[i].failed <= 0
    ensures ListingMoves(uid, api)
    ensures ListingBroken(uid, api) ==> Restarted(api.pods.value, OurPods(api.pods.value, SetUids(api.sets.value, uid)))
  {
    var i :| i in OurJobs(api.jobs.value, uid);
  }
}
