/** Evaluation of a cluster's health: facts become conditions, conditions become Ready and the phase. */
module Health {
  import opened Text
  import opened Api
  import opened Conditions

  // ----- facts -----

  datatype PodPhase = Pending | Running | Succeeded | PodFailed | PodUnknown

  datatype StatefulSetFact = StatefulSetFact(updating: bool)
  datatype PodFact = PodFact(name: string, phase: PodPhase, ready: bool, restarts: int)
  datatype PvcFact = PvcFact(name: string, bound: bool)
  datatype ServiceFact = ServiceFact(loadBalancer: bool, lbReady: bool)
  datatype IngressFact = IngressFact(lbReady: bool)
  datatype JobFact = JobFact(completed: bool, active: int, failed: int)
  datatype SecretFact = SecretFact(name: string)

  datatype Facts = Facts(statefulSets: seq<StatefulSetFact>, pods: seq<PodFact>, pvcs: seq<PvcFact>,
                         services: seq<ServiceFact>, ingresses: seq<IngressFact>, jobs: seq<JobFact>,
                         secrets: seq<SecretFact>)

  const RESTART_THRESHOLD := 5

  /** True or false, with a reason. */
  predicate Definite(v: Verdict) { (v.status == IsTrue || v.status == IsFalse) && v.reason != NoReason }

  function True_(message: string): (v: Verdict)
    ensures v.status == IsTrue && v.reason == Completed
  {
    Verdict(IsTrue, Completed, message)
  }

  function False_(reason: Reason, message: string): (v: Verdict)
    ensures v.status == IsFalse && v.reason == reason
  {
    Verdict(IsFalse, reason, message)
  }

  // ----- storage -----

  function NotBound(pvcs: seq<PvcFact>): seq<string> {
    if pvcs == [] then []
    else
      var p := pvcs[|pvcs| - 1];
      NotBound(pvcs[..|pvcs| - 1]) + (if p.bound then [] else [p.name])
  }

  function EvalStorage(res: Option<Facts>): (v: Verdict)
    ensures Definite(v)
  {
    if res.None? || res.value.pvcs == [] then False_(PVCNotBound, "waiting for PVCs to be created/bound")
    else if NotBound(res.value.pvcs) != [] then False_(PVCNotBound, "PVCs not bound: " + Join(NotBound(res.value.pvcs), ", "))
    else True_("all PVCs bound")
  }

  // ----- bootstrap -----

  function EvalBootstrap(res: Option<Facts>): (v: Verdict)
    ensures Definite(v)
  {
    if res.None? || res.value.jobs == [] then False_(BootstrapJobRunning, "bootstrap job not observed yet")
    else if exists i | 0 <= i < |res.value.jobs| :: res.value.jobs[i].completed then True_("bootstrap job succeeded")
    else if exists i | 0 <= i < |res.value.jobs| :: res.value.jobs[i].failed > 0 then False_(BootstrapFailed, "bootstrap job failed")
    else False_(BootstrapJobRunning, "bootstrap job still running")
  }

  // ----- secrets -----

  function NodeSecrets(nodes: seq<Node>): seq<string> {
    if nodes == [] then []
    else (if nodes[0].certSecretRef.Some? then [nodes[0].certSecretRef.value] else []) + NodeSecrets(nodes[1..])
  }

  function OptionSecret(ref: Option<string>): seq<string> { if ref.Some? then [ref.value] else [] }

  function ExpectedSecrets(spec: ClusterSpec): seq<string> {
    (if spec.clientCertSecretRef != "" then [spec.clientCertSecretRef] else []) +
    (match spec.mode
     case LetsEncrypt => NodeSecrets(spec.nodes)
     case ModeNone => OptionSecret(spec.clusterCertSecretRef) + OptionSecret(spec.caCertSecretRef))
  }

  predicate Observed(secrets: seq<SecretFact>, name: string) {
    exists i | 0 <= i < |secrets| :: secrets[i].name == name
  }

  function Missing(expected: seq<string>, secrets: seq<SecretFact>): seq<string> {
    if expected == [] then []
    else
      var name := expected[|expected| - 1];
      Missing(expected[..|expected| - 1], secrets) + (if Observed(secrets, name) then [] else [name])
  }

  function EvalCertificates(spec: ClusterSpec, res: Option<Facts>): (v: Verdict)
    ensures Definite(v)
  {
    if res.None? then False_(CertSecretMissing, "waiting for certificate secrets to be observed")
    else if ExpectedSecrets(spec) == [] then True_("no certificate secrets required")
    else
      var missing := Missing(ExpectedSecrets(spec), res.value.secrets);
      if missing != [] then False_(CertSecretMissing, "missing certificate secrets: " + Join(SortStrings(missing), ", "))
      else True_("all certificate secrets present")
  }

  function EvalLicense(spec: ClusterSpec, res: Option<Facts>): (v: Verdict)
    ensures Definite(v)
  {
    if spec.licenseSecretRef == "" then True_("no license ref in spec")
    else if res.None? then False_(LicenseSecretMissing, "waiting for secrets to be observed")
    else if Observed(res.value.secrets, spec.licenseSecretRef) then True_("license secret present")
    else False_(LicenseSecretMissing, "missing license secret: " + spec.licenseSecretRef)
  }

  // ----- pods -----

  predicate InBucket(p: PodFact, phase: PodPhase) { p.phase == phase && (phase.Running? ==> !p.ready) }

  /** The pods of one bucket: pending, failed, unknown, or running but not ready. */
  function Bucket(pods: seq<PodFact>, phase: PodPhase): seq<string> {
    if pods == [] then []
    else
      var p := pods[|pods| - 1];
      Bucket(pods[..|pods| - 1], phase) + (if InBucket(p, phase) then [p.name] else [])
  }

  function FailedOrUnknown(failed: seq<string>, unknown: seq<string>): string {
    (if failed != [] then "pods failed: " + Join(failed, ", ") else "") +
    (if failed != [] && unknown != [] then "; " else "") +
    (if unknown != [] then "pods unknown: " + Join(unknown, ", ") else "")
  }

  function EvalNodesHealthy(res: Option<Facts>): (v: Verdict)
    ensures Definite(v)
  {
    if res.None? || res.value.pods == [] then False_(WaitingForPods, "waiting for pods to be created/scheduled")
    else
      var pods := res.value.pods;
      var failed, unknown := Bucket(pods, PodFailed), Bucket(pods, PodUnknown);
      if Bucket(pods, Pending) != [] then False_(WaitingForPods, "pods pending: " + Join(Bucket(pods, Pending), ", "))
      else if failed != [] || unknown != [] then False_(PodsNotReady, FailedOrUnknown(failed, unknown))
      else if Bucket(pods, Running) != [] then False_(PodsNotReady, "pods not ready: " + Join(Bucket(pods, Running), ", "))
      else True_("all node pods ready")
  }

  // ----- external access -----

  function EvalExternalAccess(spec: ClusterSpec, res: Option<Facts>): (v: Option<Verdict>)
    ensures v.Some? ==> Definite(v.value)
    ensures v.Some? <==> spec.externalAccess
  {
    if !spec.externalAccess then None
    else if res.None? then Some(False_(LoadBalancerPending, "waiting for ingress/load balancer to be observed"))
    else
      var ing, svcs := res.value.ingresses, res.value.services;
      if exists i | 0 <= i < |ing| :: ing[i].lbReady then Some(True_("ingress load balancer address allocated"))
      else if ing != [] then Some(False_(IngressPendingAddress, "waiting for ingress load balancer address"))
      else if exists i | 0 <= i < |svcs| :: svcs[i].loadBalancer && svcs[i].lbReady then
        Some(True_("service load balancer address allocated"))
      else if exists i | 0 <= i < |svcs| :: svcs[i].loadBalancer then
        Some(False_(LoadBalancerPending, "waiting for service load balancer address"))
      else Some(False_(LoadBalancerPending, "no ingress/load balancer service observed"))
  }

  // ----- progressing and degraded -----

  function EvalProgressing(res: Option<Facts>): (v: Verdict)
    ensures Definite(v)
  {
    if res.Some? && ((exists i | 0 <= i < |res.value.statefulSets| :: res.value.statefulSets[i].updating)
                     || (exists i | 0 <= i < |res.value.jobs| :: res.value.jobs[i].active > 0))
    then Verdict(IsTrue, StatefulSetUpdating, "rollout in progress")
    else False_(Completed, "no active rollouts")
  }

  function Offenders(pods: seq<PodFact>): seq<string> {
    if pods == [] then []
    else
      var p := pods[|pods| - 1];
      Offenders(pods[..|pods| - 1]) + (if p.restarts >= RESTART_THRESHOLD then [p.name] else [])
  }

  /** Reads the bootstrap condition that was just stored. */
  function EvalDegraded(cs: seq<Condition>, res: Option<Facts>): (v: Verdict)
    ensures Definite(v)
  {
    var b := Get(cs, BootstrapCompleted);
    if b.Some? && b.value.verdict.status == IsFalse && b.value.verdict.reason == BootstrapFailed then
      Verdict(IsTrue, BootstrapFailed, "bootstrap job failed")
    else if res.Some? && Offenders(res.value.pods) != [] then
      Verdict(IsTrue, PodsNotReady, "high restart count: " + Join(Offenders(res.value.pods), ", "))
    else False_(Completed, "no degradation detected")
  }

  // ----- Ready and the phase -----

  function Required(spec: ClusterSpec): seq<CondType> {
    [CertificatesReady, LicensesValid, StorageReady, NodesHealthy, BootstrapCompleted]
    + (if spec.externalAccess then [ExternalAccessReady] else [])
  }

  /** The position of the first required condition that is not true, or the number of them. */
  function FirstUnmet(cs: seq<Condition>, required: seq<CondType>): (i: nat)
    ensures i <= |required|
    ensures forall k | 0 <= k < i :: HasTrue(cs, required[k])
    ensures i < |required| ==> !HasTrue(cs, required[i])
  {
    if required == [] || !HasTrue(cs, required[0]) then 0 else 1 + FirstUnmet(cs, required[1..])
  }

  /** The short message of the status. */
  datatype Summary = NoSummary | NotSatisfied(t: CondType) | Because(reason: Reason, message: string) | ClusterIsReady

  function ReadyVerdict(cs: seq<Condition>, required: seq<CondType>): (Verdict, Summary) {
    var i := FirstUnmet(cs, required);
    if i == |required| then (True_("Cluster is ready"), ClusterIsReady)
    else
      var t := required[i];
      match Get(cs, t)
      case None => (False_(Named(t), ""), NotSatisfied(t))
      case Some(c) => (False_(Named(t), c.verdict.message),
                       if c.verdict.reason != NoReason then Because(c.verdict.reason, c.verdict.message) else NotSatisfied(t))
  }

  datatype ClusterPhase = NoPhase | Deploying | PhaseRunning | PhaseError

  function PhaseOf(cs: seq<Condition>): ClusterPhase {
    if HasTrue(cs, Ready) then PhaseRunning
    else if HasTrue(cs, Degraded) then PhaseError
    else Deploying
  }

  datatype Status = Status(conditions: seq<Condition>, phase: ClusterPhase, message: Summary, observedGeneration: int)

  // ----- the evaluation -----

  /** apply: anything that is not true is stored as false; a skipped result stores nothing. */
  function Apply(cs: seq<Condition>, t: CondType, v: Option<Verdict>, now: int): seq<Condition> {
    match v
    case None => cs
    case Some(r) => Set(cs, t, if r.status == IsTrue then r else r.(status := IsFalse), now)
  }

  function ApplyFirst(cs: seq<Condition>, spec: ClusterSpec, res: Option<Facts>, now: int): seq<Condition> {
    var c1 := Apply(cs, StorageReady, Some(EvalStorage(res)), now);
    var c2 := Apply(c1, CertificatesReady, Some(EvalCertificates(spec, res)), now);
    var c3 := Apply(c2, LicensesValid, Some(EvalLicense(spec, res)), now);
    var c4 := Apply(c3, NodesHealthy, Some(EvalNodesHealthy(res)), now);
    var c5 := Apply(c4, ExternalAccessReady, EvalExternalAccess(spec, res), now);
    Apply(c5, BootstrapCompleted, Some(EvalBootstrap(res)), now)
  }

  function ApplyAll(cs: seq<Condition>, spec: ClusterSpec, res: Option<Facts>, now: int): seq<Condition> {
    var c6 := ApplyFirst(cs, spec, res, now);
    var c7 := Apply(c6, Progressing, Some(EvalProgressing(res)), now);
    Apply(c7, Degraded, Some(EvalDegraded(c7, res)), now)
  }

  function Evaluate(spec: ClusterSpec, generation: int, res: Option<Facts>, st: Status, now: int): Status {
    var cs := ApplyAll(st.conditions, spec, res, now);
    var (v, message) := ReadyVerdict(cs, Required(spec));
    var all := Set(cs, Ready, v, now);
    Status(all, PhaseOf(all), message, generation)
  }
}
