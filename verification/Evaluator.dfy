/** The evaluator as it runs: loops over facts, and a cluster object whose status it updates in place.
    Each method is proved against the functions of modules Conditions and Health. */
module Evaluator {
  import opened Text
  import opened Api
  import opened Conditions
  import opened Health

  // ----- loops over facts -----

  method CollectNotBound(pvcs: seq<PvcFact>) returns (names: seq<string>)
    ensures names == NotBound(pvcs)
  {
    names := [];
    for n := 0 to |pvcs|
      invariant names == NotBound(pvcs[..n])
    {
      assert pvcs[..n + 1][..n] == pvcs[..n];
      if !pvcs[n].bound {
        names := names + [pvcs[n].name];
      }
    }
    assert pvcs[..|pvcs|] == pvcs;
  }

  method BucketizePodsByState(pods: seq<PodFact>)
    returns (pending: seq<string>, failed: seq<string>, unknown: seq<string>, notReady: seq<string>)
    ensures pending == Bucket(pods, Pending) && failed == Bucket(pods, PodFailed)
    ensures unknown == Bucket(pods, PodUnknown) && notReady == Bucket(pods, Running)
  {
    pending, failed, unknown, notReady := [], [], [], [];
    for n := 0 to |pods|
      invariant pending == Bucket(pods[..n], Pending) && failed == Bucket(pods[..n], PodFailed)
      invariant unknown == Bucket(pods[..n], PodUnknown) && notReady == Bucket(pods[..n], Running)
    {
      assert pods[..n + 1][..n] == pods[..n];
      var pod := pods[n];
      match pod.phase
      case Pending => pending := pending + [pod.name];
      case PodFailed => failed := failed + [pod.name];
      case PodUnknown => unknown := unknown + [pod.name];
      case Running => if !pod.ready { notReady := notReady + [pod.name]; }
      case Succeeded =>
    }
    assert pods[..|pods|] == pods;
  }

  method GetMissingSecrets(expected: seq<string>, secrets: seq<SecretFact>) returns (missing: seq<string>)
    ensures missing == SortStrings(Health.Missing(expected, secrets))
    ensures SortedStrings(missing) && multiset(missing) == multiset(Health.Missing(expected, secrets))
    ensures missing == [] <==> Health.Missing(expected, secrets) == []
  {
    hide SortedStrings, SortStrings;
    var observed: set<string> := {};
    for n := 0 to |secrets|
      invariant forall name :: name in observed <==> exists i | 0 <= i < n :: secrets[i].name == name
    {
      observed := observed + {secrets[n].name};
    }
    missing := [];
    for n := 0 to |expected|
      invariant missing == Health.Missing(expected[..n], secrets)
    {
      assert expected[..n + 1][..n] == expected[..n];
      if expected[n] !in observed {
        missing := missing + [expected[n]];
      }
    }
    assert expected[..|expected|] == expected;
    SortStringsSorts(missing);
    SortOfNothing(missing);
    missing := SortStrings(missing);
  }

  method CollectOffenders(pods: seq<PodFact>) returns (names: seq<string>)
    ensures names == Offenders(pods)
  {
    names := [];
    for n := 0 to |pods|
      invariant names == Offenders(pods[..n])
    {
      assert pods[..n + 1][..n] == pods[..n];
      if pods[n].restarts >= RESTART_THRESHOLD {
        names := names + [pods[n].name];
      }
    }
    assert pods[..|pods|] == pods;
  }

  method GetLbServicesStatus(svcs: seq<ServiceFact>) returns (observed: bool, ready: bool)
    ensures ready <==> exists i | 0 <= i < |svcs| :: svcs[i].loadBalancer && svcs[i].lbReady
    ensures observed <==> exists i | 0 <= i < |svcs| :: svcs[i].loadBalancer
  {
    observed, ready := false, false;
    for n := 0 to |svcs|
      invariant !ready && forall i | 0 <= i < n :: !(svcs[i].loadBalancer && svcs[i].lbReady)
      invariant observed <==> exists i | 0 <= i < n :: svcs[i].loadBalancer
    {
      if !svcs[n].loadBalancer {
        continue;
      }
      observed := true;
      if svcs[n].lbReady {
        return true, true;
      }
    }
  }

  method GetIngressesStatus(ing: seq<IngressFact>) returns (observed: bool, ready: bool)
    ensures ready <==> exists i | 0 <= i < |ing| :: ing[i].lbReady
    ensures observed <==> ing != []
  {
    observed, ready := false, false;
    for n := 0 to |ing|
      invariant !ready && forall i | 0 <= i < n :: !ing[i].lbReady
      invariant observed <==> n > 0
    {
      observed := true;
      if ing[n].lbReady {
        return true, true;
      }
    }
  }

  // ----- the evaluations, with their loops -----

  method StorageVerdict(res: Option<Facts>) returns (v: Verdict)
    ensures v == EvalStorage(res)
  {
    hide NotBound, Join;
    if res.None? || res.value.pvcs == [] {
      return False_(PVCNotBound, "waiting for PVCs to be created/bound");
    }
    var notBound := CollectNotBound(res.value.pvcs);
    if |notBound| > 0 {
      return False_(PVCNotBound, "PVCs not bound: " + Join(notBound, ", "));
    }
    return True_("all PVCs bound");
  }

  method BootstrapVerdict(res: Option<Facts>) returns (v: Verdict)
    ensures v == EvalBootstrap(res)
  {
    if res.None? || res.value.jobs == [] {
      return False_(BootstrapJobRunning, "bootstrap job not observed yet");
    }
    var jobs := res.value.jobs;
    for n := 0 to |jobs|
      invariant forall i | 0 <= i < n :: !jobs[i].completed
    {
      if jobs[n].completed {
        return True_("bootstrap job succeeded");
      }
    }
    for n := 0 to |jobs|
      invariant forall i | 0 <= i < n :: jobs[i].failed <= 0
    {
      if jobs[n].failed > 0 {
        return False_(BootstrapFailed, "bootstrap job failed");
      }
    }
    return False_(BootstrapJobRunning, "bootstrap job still running");
  }

  method CertificatesVerdict(spec: ClusterSpec, res: Option<Facts>) returns (v: Verdict)
    ensures v == EvalCertificates(spec, res)
  {
    hide Health.Missing, Join, ExpectedSecrets, SortStrings, SortedStrings;
    if res.None? {
      return False_(CertSecretMissing, "waiting for certificate secrets to be observed");
    }
    var expected := ExpectedSecrets(spec);
    if |expected| == 0 {
      return True_("no certificate secrets required");
    }
    var missing := GetMissingSecrets(expected, res.value.secrets);
    if |missing| > 0 {
      return False_(CertSecretMissing, "missing certificate secrets: " + Join(missing, ", "));
    }
    return True_("all certificate secrets present");
  }

  method LicenseVerdict(spec: ClusterSpec, res: Option<Facts>) returns (v: Verdict)
    ensures v == EvalLicense(spec, res)
  {
    if spec.licenseSecretRef == "" {
      return True_("no license ref in spec");
    }
    if res.None? {
      return False_(LicenseSecretMissing, "waiting for secrets to be observed");
    }
    for n := 0 to |res.value.secrets|
      invariant forall i | 0 <= i < n :: res.value.secrets[i].name != spec.licenseSecretRef
    {
      if res.value.secrets[n].name == spec.licenseSecretRef {
        return True_("license secret present");
      }
    }
    return False_(LicenseSecretMissing, "missing license secret: " + spec.licenseSecretRef);
  }

  method NodesVerdict(res: Option<Facts>) returns (v: Verdict)
    ensures v == EvalNodesHealthy(res)
  {
    hide Bucket, Join, FailedOrUnknown;
    if res.None? || res.value.pods == [] {
      return False_(WaitingForPods, "waiting for pods to be created/scheduled");
    }
    var pending, failed, unknown, notReady := BucketizePodsByState(res.value.pods);
    if |pending| > 0 {
      return False_(WaitingForPods, "pods pending: " + Join(pending, ", "));
    }
    if |failed| > 0 || |unknown| > 0 {
      return False_(PodsNotReady, FailedOrUnknown(failed, unknown));
    }
    if |notReady| > 0 {
      return False_(PodsNotReady, "pods not ready: " + Join(notReady, ", "));
    }
    return True_("all node pods ready");
  }

  method ExternalAccessVerdict(spec: ClusterSpec, res: Option<Facts>) returns (v: Option<Verdict>)
    ensures v == EvalExternalAccess(spec, res)
  {
    if !spec.externalAccess {
      return None;
    }
    if res.None? {
      return Some(False_(LoadBalancerPending, "waiting for ingress/load balancer to be observed"));
    }
    var ingressObserved, ingressReady := GetIngressesStatus(res.value.ingresses);
    if ingressReady {
      return Some(True_("ingress load balancer address allocated"));
    }
    if ingressObserved {
      return Some(False_(IngressPendingAddress, "waiting for ingress load balancer address"));
    }
    var svcObserved, svcReady := GetLbServicesStatus(res.value.services);
    if svcReady {
      return Some(True_("service load balancer address allocated"));
    }
    if svcObserved {
      return Some(False_(LoadBalancerPending, "waiting for service load balancer address"));
    }
    return Some(False_(LoadBalancerPending, "no ingress/load balancer service observed"));
  }

  method ProgressingVerdict(res: Option<Facts>) returns (v: Verdict)
    ensures v == EvalProgressing(res)
  {
    if res.None? {
      return False_(Completed, "no active rollouts");
    }
    var sets, jobs := res.value.statefulSets, res.value.jobs;
    for n := 0 to |sets|
      invariant forall i | 0 <= i < n :: !sets[i].updating
    {
      if sets[n].updating {
        return Verdict(IsTrue, StatefulSetUpdating, "rollout in progress");
      }
    }
    for n := 0 to |jobs|
      invariant forall i | 0 <= i < n :: jobs[i].active <= 0
    {
      if jobs[n].active > 0 {
        return Verdict(IsTrue, StatefulSetUpdating, "rollout in progress");
      }
    }
    return False_(Completed, "no active rollouts");
  }

  method DegradedVerdictOf(cs: seq<Condition>, res: Option<Facts>) returns (v: Verdict)
    ensures v == EvalDegraded(cs, res)
  {
    hide Offenders, Join, Find;
    var b := Get(cs, BootstrapCompleted);
    if b.Some? && b.value.verdict.status == IsFalse && b.value.verdict.reason == BootstrapFailed {
      return Verdict(IsTrue, BootstrapFailed, "bootstrap job failed");
    }
    if res.None? {
      return False_(Completed, "no degradation detected");
    }
    var offenders := CollectOffenders(res.value.pods);
    if |offenders| > 0 {
      return Verdict(IsTrue, PodsNotReady, "high restart count: " + Join(offenders, ", "));
    }
    return False_(Completed, "no degradation detected");
  }

  // ----- the status, updated in place -----

  class Cluster {
    const spec: ClusterSpec
    const generation: int
    var conditions: seq<Condition>
    var phase: ClusterPhase
    var message: Summary
    var observedGeneration: int

    constructor (spec: ClusterSpec, generation: int, st: Status)
      ensures this.spec == spec && this.generation == generation && Current() == st
    {
      this.spec, this.generation := spec, generation;
      conditions, phase, message, observedGeneration := st.conditions, st.phase, st.message, st.observedGeneration;
    }

    function Current(): Status
      reads this
    {
      Status(conditions, phase, message, observedGeneration)
    }

    method GetCondition(t: CondType) returns (i: nat)
      ensures i == Find(conditions, t)
    {
      i := 0;
      while i < |conditions| && conditions[i].kind != t
        invariant i <= |conditions| && forall k | 0 <= k < i :: conditions[k].kind != t
      {
        i := i + 1;
      }
      FindIs(conditions, t, i);
    }

    method SetCondition(t: CondType, v: Verdict, now: int)
      modifies this
      ensures Current() == old(Current()).(conditions := Set(old(conditions), t, v, now))
    {
      var i := GetCondition(t);
      if i < |conditions| {
        var c := conditions[i];
        if c.verdict.status != v.status {
          c := c.(transition := now);
        }
        c := c.(verdict := Sanitize(v));
        conditions := conditions[i := c];
        return;
      }
      conditions := conditions + [Condition(t, Sanitize(v), now)];
    }

    method ApplyResult(t: CondType, v: Option<Verdict>, now: int)
      modifies this
      ensures Current() == old(Current()).(conditions := Apply(old(conditions), t, v, now))
    {
      if v.None? {
        return;
      }
      if v.value.status == IsTrue {
        SetCondition(t, v.value, now);
      } else {
        SetCondition(t, v.value.(status := IsFalse), now);
      }
    }

    /** Ready is false for the first required condition that is absent or not true, and true if there
        is none. */
    method ComputeReady(now: int)
      modifies this
      ensures var r := ReadyVerdict(old(conditions), Required(spec));
              Current() == old(Current()).(conditions := Set(old(conditions), Ready, r.0, now), message := r.1)
    {
      var required := Required(spec);
      hide Required, Set;
      for n := 0 to |required|
        invariant conditions == old(conditions) && Current() == old(Current())
        invariant forall k | 0 <= k < n :: HasTrue(conditions, required[k])
      {
        var i := GetCondition(required[n]);
        if i == |conditions| {
          FirstUnmetIs(conditions, required, n);
          SetCondition(Ready, False_(Named(required[n]), ""), now);
          message := NotSatisfied(required[n]);
          return;
        }
        var c := conditions[i];
        if c.verdict.status != IsTrue {
          FirstUnmetIs(conditions, required, n);
          SetCondition(Ready, False_(Named(required[n]), c.verdict.message), now);
          message := if c.verdict.reason != NoReason then Because(c.verdict.reason, c.verdict.message) else NotSatisfied(required[n]);
          return;
        }
      }
      FirstUnmetIs(conditions, required, |required|);
      SetCondition(Ready, True_("Cluster is ready"), now);
      message := ClusterIsReady;
    }

    method UpdatePhaseFromConditions()
      modifies this
      ensures Current() == old(Current()).(phase := PhaseOf(old(conditions)))
    {
      var r := GetCondition(Ready);
      if r < |conditions| && conditions[r].verdict.status == IsTrue {
        phase := PhaseRunning;
        return;
      }
      var d := GetCondition(Degraded);
      if d < |conditions| && conditions[d].verdict.status == IsTrue {
        phase := PhaseError;
        return;
      }
      phase := Deploying;
    }

    method EvaluateHealth(res: Option<Facts>, now: int)
      modifies this
      ensures Current() == Evaluate(spec, generation, res, old(Current()), now)
    {
      hide Apply, Set, Required, ReadyVerdict, PhaseOf, EvalStorage, EvalCertificates, EvalLicense,
           EvalNodesHealthy,
           EvalExternalAccess, EvalBootstrap, EvalProgressing, EvalDegraded;
      var storage := StorageVerdict(res);
      ApplyResult(StorageReady, Some(storage), now);
      var certificates := CertificatesVerdict(spec, res);
      ApplyResult(CertificatesReady, Some(certificates), now);
      var license := LicenseVerdict(spec, res);
      ApplyResult(LicensesValid, Some(license), now);
      var nodes := NodesVerdict(res);
      ApplyResult(NodesHealthy, Some(nodes), now);
      var access := ExternalAccessVerdict(spec, res);
      ApplyResult(ExternalAccessReady, access, now);
      var bootstrap := BootstrapVerdict(res);
      ApplyResult(BootstrapCompleted, Some(bootstrap), now);
      var progressing := ProgressingVerdict(res);
      ApplyResult(Progressing, Some(progressing), now);
      var degraded := DegradedVerdictOf(conditions, res);
      ApplyResult(Degraded, Some(degraded), now);
      observedGeneration := generation;
      ComputeReady(now);
      UpdatePhaseFromConditions();
    }
  }

  lemma {:induction false} FirstUnmetIs(cs: seq<Condition>, required: seq<CondType>, n: nat)
    requires n <= |required| && (forall k | 0 <= k < n :: HasTrue(cs, required[k]))
    requires n < |required| ==> !HasTrue(cs, required[n])
    ensures FirstUnmet(cs, required) == n
  {
    hide HasTrue;
  }
}
