/** What an evaluation leaves behind depends on the spec and the facts alone, and on history only
    through the transition times. */
module HealthLaws {
  import opened Text
  import opened Api
  import opened Conditions
  import opened Health
  import opened Lists

  // ----- the verdicts, without any history -----

  /** Degraded, read off the facts instead of the stored bootstrap condition. */
  function DegradedVerdict(res: Option<Facts>): (v: Verdict)
    ensures Definite(v)
  {
    if EvalBootstrap(res).reason == BootstrapFailed then Verdict(IsTrue, BootstrapFailed, "bootstrap job failed")
    else if res.Some? && Offenders(res.value.pods) != [] then
      Verdict(IsTrue, PodsNotReady, "high restart count: " + Join(Offenders(res.value.pods), ", "))
    else False_(Completed, "no degradation detected")
  }

  /** The verdict on a type other than Ready, or None when this evaluation says nothing about it. */
  function Expected(spec: ClusterSpec, res: Option<Facts>, t: CondType): Option<Verdict> {
    match t
    case StorageReady => Some(EvalStorage(res))
    case CertificatesReady => Some(EvalCertificates(spec, res))
    case LicensesValid => Some(EvalLicense(spec, res))
    case NodesHealthy => Some(EvalNodesHealthy(res))
    case ExternalAccessReady => EvalExternalAccess(spec, res)
    case BootstrapCompleted => Some(EvalBootstrap(res))
    case Progressing => Some(EvalProgressing(res))
    case Degraded => Some(DegradedVerdict(res))
    case _ => None
  }

  predicate Met(spec: ClusterSpec, res: Option<Facts>, t: CondType) {
    Expected(spec, res, t).Some? && Expected(spec, res, t).value.status == IsTrue
  }

  /** The first required type that is not met, if any. */
  function Blocking(spec: ClusterSpec, res: Option<Facts>, required: seq<CondType>): Option<CondType> {
    if required == [] then None
    else if !Met(spec, res, required[0]) then Some(required[0])
    else Blocking(spec, res, required[1..])
  }

  function ExpectedReady(spec: ClusterSpec, res: Option<Facts>): (Verdict, Summary) {
    match Blocking(spec, res, Required(spec))
    case None => (True_("Cluster is ready"), ClusterIsReady)
    case Some(t) =>
      match Expected(spec, res, t)
      case None => (False_(Named(t), ""), NotSatisfied(t))
      case Some(v) => (False_(Named(t), v.message), Because(v.reason, v.message))
  }

  function ExpectedAll(spec: ClusterSpec, res: Option<Facts>, t: CondType): Option<Verdict> {
    if t.Ready? then Some(ExpectedReady(spec, res).0) else Expected(spec, res, t)
  }

  function ExpectedPhase(spec: ClusterSpec, res: Option<Facts>): ClusterPhase {
    if Blocking(spec, res, Required(spec)).None? then PhaseRunning
    else if DegradedVerdict(res).status == IsTrue then PhaseError
    else Deploying
  }

  /** Verdicts are true or false and carry a reason, so storing one neither coarsens nor sanitizes it. */
  lemma VerdictsAreDefinite(spec: ClusterSpec, res: Option<Facts>, t: CondType)
    ensures Expected(spec, res, t).Some? ==> Definite(Expected(spec, res, t).value)
  {
    hide EvalStorage, EvalCertificates, EvalLicense, EvalNodesHealthy, EvalExternalAccess, EvalBootstrap,
         EvalProgressing, DegradedVerdict;
  }

  // ----- each condition after an evaluation -----

  /** A type's condition after it was given this verdict, or none. */
  function After(was: Option<Condition>, t: CondType, v: Option<Verdict>, now: int): Option<Condition> {
    if v.None? then was else Some(Updated(was, t, v.value, now))
  }

  lemma GetApply(cs: seq<Condition>, t: CondType, v: Option<Verdict>, now: int, u: CondType)
    requires v.Some? ==> Definite(v.value)
    ensures Get(Apply(cs, t, v, now), u) == if u == t then After(Get(cs, t), t, v, now) else Get(cs, u)
  {
    hide Get, Set;
    if v.Some? {
      assert (if v.value.status == IsTrue then v.value else v.value.(status := IsFalse)) == v.value;
      GetSet(cs, t, v.value, now, u);
    }
  }

  predicate InFirst(t: CondType) {
    t.StorageReady? || t.CertificatesReady? || t.LicensesValid? || t.NodesHealthy? || t.ExternalAccessReady? || t.BootstrapCompleted?
  }

  lemma GetApplyFirst(cs: seq<Condition>, spec: ClusterSpec, res: Option<Facts>, now: int, t: CondType)
    ensures Get(ApplyFirst(cs, spec, res, now), t)
            == if InFirst(t) then After(Get(cs, t), t, Expected(spec, res, t), now) else Get(cs, t)
  {
    VerdictsAreDefinite(spec, res, StorageReady);
    VerdictsAreDefinite(spec, res, CertificatesReady);
    VerdictsAreDefinite(spec, res, LicensesValid);
    VerdictsAreDefinite(spec, res, NodesHealthy);
    VerdictsAreDefinite(spec, res, ExternalAccessReady);
    VerdictsAreDefinite(spec, res, BootstrapCompleted);
    hide Get, Apply, After, EvalStorage, EvalCertificates, EvalLicense, EvalNodesHealthy, EvalExternalAccess,
         EvalBootstrap, EvalProgressing, DegradedVerdict;
    var c1 := Apply(cs, StorageReady, Some(EvalStorage(res)), now);
    var c2 := Apply(c1, CertificatesReady, Some(EvalCertificates(spec, res)), now);
    var c3 := Apply(c2, LicensesValid, Some(EvalLicense(spec, res)), now);
    var c4 := Apply(c3, NodesHealthy, Some(EvalNodesHealthy(res)), now);
    var c5 := Apply(c4, ExternalAccessReady, EvalExternalAccess(spec, res), now);
    GetApply(cs, StorageReady, Some(EvalStorage(res)), now, t);
    GetApply(c1, CertificatesReady, Some(EvalCertificates(spec, res)), now, t);
    GetApply(c2, LicensesValid, Some(EvalLicense(spec, res)), now, t);
    GetApply(c3, NodesHealthy, Some(EvalNodesHealthy(res)), now, t);
    GetApply(c4, ExternalAccessReady, EvalExternalAccess(spec, res), now, t);
    GetApply(c5, BootstrapCompleted, Some(EvalBootstrap(res)), now, t);
  }

  /** The stored bootstrap condition tells the degraded verdict what the facts say. */
  lemma DegradedFromFacts(cs: seq<Condition>, res: Option<Facts>)
    requires Get(cs, BootstrapCompleted).Some? && Get(cs, BootstrapCompleted).value.verdict == EvalBootstrap(res)
    ensures EvalDegraded(cs, res) == DegradedVerdict(res)
  {
    hide Get, Offenders, Join;
  }

  lemma GetApplyAll(cs: seq<Condition>, spec: ClusterSpec, res: Option<Facts>, now: int, t: CondType)
    ensures Get(ApplyAll(cs, spec, res, now), t) == After(Get(cs, t), t, Expected(spec, res, t), now)
  {
    VerdictsAreDefinite(spec, res, BootstrapCompleted);
    VerdictsAreDefinite(spec, res, Progressing);
    VerdictsAreDefinite(spec, res, Degraded);
    hide Get, Apply, ApplyFirst, EvalStorage, EvalCertificates, EvalLicense, EvalNodesHealthy,
         EvalExternalAccess, EvalBootstrap, EvalProgressing, EvalDegraded, DegradedVerdict;
    var c6 := ApplyFirst(cs, spec, res, now);
    var c7 := Apply(c6, Progressing, Some(EvalProgressing(res)), now);
    GetApplyFirst(cs, spec, res, now, t);
    GetApplyFirst(cs, spec, res, now, BootstrapCompleted);
    GetApply(c6, Progressing, Some(EvalProgressing(res)), now, t);
    GetApply(c6, Progressing, Some(EvalProgressing(res)), now, BootstrapCompleted);
    DegradedFromFacts(c7, res);
    GetApply(c7, Degraded, Some(DegradedVerdict(res)), now, t);
  }

  // ----- Ready -----

  lemma {:induction false} BlockingIsFirstUnmet(cs: seq<Condition>, spec: ClusterSpec, res: Option<Facts>, required: seq<CondType>)
    requires forall t | t in required :: HasTrue(cs, t) <==> Met(spec, res, t)
    ensures Blocking(spec, res, required)
            == if FirstUnmet(cs, required) < |required| then Some(required[FirstUnmet(cs, required)]) else None
  {
    hide HasTrue, Met;
    if required != [] && Met(spec, res, required[0]) {
      BlockingIsFirstUnmet(cs, spec, res, required[1..]);
    }
  }

  lemma ReadyFromFacts(cs: seq<Condition>, spec: ClusterSpec, res: Option<Facts>)
    requires forall t | t in Required(spec) ::
               Expected(spec, res, t).Some? && Get(cs, t).Some? && Get(cs, t).value.verdict == Expected(spec, res, t).value
    ensures ReadyVerdict(cs, Required(spec)) == ExpectedReady(spec, res)
    ensures forall t | t in Required(spec) :: HasTrue(cs, t) <==> Met(spec, res, t)
  {
    forall t | t in Required(spec) ensures HasTrue(cs, t) <==> Met(spec, res, t) {
      assert Expected(spec, res, t).Some? && Get(cs, t).Some?;
    }
    BlockingIsFirstUnmet(cs, spec, res, Required(spec));
    var i := FirstUnmet(cs, Required(spec));
    if i < |Required(spec)| {
      VerdictsAreDefinite(spec, res, Required(spec)[i]);
    }
    hide Get, Expected, HasTrue, Met, Required;
  }

  lemma RequiredIsExpected(spec: ClusterSpec, res: Option<Facts>, t: CondType)
    requires t in Required(spec)
    ensures Expected(spec, res, t).Some? && !t.Ready?
  {
    hide EvalStorage, EvalCertificates, EvalLicense, EvalNodesHealthy, EvalBootstrap, EvalProgressing,
         DegradedVerdict;
  }

  /** After an evaluation every type's condition is the one its history-free verdict calls for: the
      verdict itself, and a transition time that moves only when the status flips. The phase, the
      message and the generation depend on the spec and the facts alone. */
  lemma EvaluateResult(spec: ClusterSpec, generation: int, res: Option<Facts>, st: Status, now: int, t: CondType)
    ensures var r := Evaluate(spec, generation, res, st, now);
            && Get(r.conditions, t) == After(Get(st.conditions, t), t, ExpectedAll(spec, res, t), now)
            && r.phase == ExpectedPhase(spec, res)
            && r.message == ExpectedReady(spec, res).1
            && r.observedGeneration == generation
  {
    hide Get, Expected, ApplyAll, ReadyVerdict, Required, Blocking;
    var cs := ApplyAll(st.conditions, spec, res, now);
    forall u | u in Required(spec)
      ensures Expected(spec, res, u).Some? && Get(cs, u).Some? && Get(cs, u).value.verdict == Expected(spec, res, u).value
    {
      RequiredIsExpected(spec, res, u);
      VerdictsAreDefinite(spec, res, u);
      GetApplyAll(st.conditions, spec, res, now, u);
    }
    ReadyFromFacts(cs, spec, res);
    GetApplyAll(st.conditions, spec, res, now, t);
    GetApplyAll(st.conditions, spec, res, now, Degraded);
    GetApplyAll(st.conditions, spec, res, now, Ready);
    var v := ExpectedReady(spec, res).0;
    GetSet(cs, Ready, v, now, t);
    GetSet(cs, Ready, v, now, Ready);
    GetSet(cs, Ready, v, now, Degraded);
    DegradedIsExpected(spec, res);
    VerdictsAreDefinite(spec, res, Degraded);
    assert Expected(spec, res, Ready).None? by { NoExpectedReady(spec, res); }
  }

  lemma DegradedIsExpected(spec: ClusterSpec, res: Option<Facts>)
    ensures Expected(spec, res, Degraded) == Some(DegradedVerdict(res))
  {
    hide DegradedVerdict;
  }

  lemma NoExpectedReady(spec: ClusterSpec, res: Option<Facts>)
    ensures Expected(spec, res, Ready).None?
  {
  }

  // ----- idempotence and independence from history -----

  lemma ApplySame(cs: seq<Condition>, t: CondType, v: Option<Verdict>, now: int)
    requires v.Some? ==> Definite(v.value)
    requires (v.Some? ==> Get(cs, t).Some? && Get(cs, t).value.verdict == v.value)
    ensures Apply(cs, t, v, now) == cs
  {
    hide Get, Set;
    if v.Some? {
      assert (if v.value.status == IsTrue then v.value else v.value.(status := IsFalse)) == v.value;
      SetSame(cs, t, v.value, now);
    }
  }

  /** The conditions already say what this evaluation would say. */
  ghost predicate UpToDate(cs: seq<Condition>, spec: ClusterSpec, res: Option<Facts>) {
    forall t | Expected(spec, res, t).Some? :: Get(cs, t).Some? && Get(cs, t).value.verdict == Expected(spec, res, t).value
  }

  lemma ApplyExpectedSame(cs: seq<Condition>, spec: ClusterSpec, res: Option<Facts>, now: int, t: CondType)
    requires UpToDate(cs, spec, res)
    ensures Apply(cs, t, Expected(spec, res, t), now) == cs
  {
    VerdictsAreDefinite(spec, res, t);
    hide Get, Expected, Apply;
    ApplySame(cs, t, Expected(spec, res, t), now);
  }

  lemma ApplyFirstSame(cs: seq<Condition>, spec: ClusterSpec, res: Option<Facts>, now: int)
    requires UpToDate(cs, spec, res)
    ensures ApplyFirst(cs, spec, res, now) == cs
  {
    hide Get, Apply, UpToDate, EvalStorage, EvalCertificates, EvalLicense, EvalNodesHealthy,
         EvalExternalAccess, EvalBootstrap, EvalProgressing, EvalDegraded, DegradedVerdict;
    ApplyExpectedSame(cs, spec, res, now, StorageReady);
    ApplyExpectedSame(cs, spec, res, now, CertificatesReady);
    ApplyExpectedSame(cs, spec, res, now, LicensesValid);
    ApplyExpectedSame(cs, spec, res, now, NodesHealthy);
    ApplyExpectedSame(cs, spec, res, now, ExternalAccessReady);
    ApplyExpectedSame(cs, spec, res, now, BootstrapCompleted);
  }

  lemma UpToDateDegraded(cs: seq<Condition>, spec: ClusterSpec, res: Option<Facts>)
    requires UpToDate(cs, spec, res)
    ensures EvalDegraded(cs, res) == DegradedVerdict(res)
  {
    hide Get, EvalStorage, EvalCertificates, EvalLicense, EvalNodesHealthy, EvalExternalAccess,
         EvalBootstrap, EvalProgressing, EvalDegraded, DegradedVerdict;
    assert Expected(spec, res, BootstrapCompleted) == Some(EvalBootstrap(res));
    DegradedFromFacts(cs, res);
  }

  lemma ApplyAllSame(cs: seq<Condition>, spec: ClusterSpec, res: Option<Facts>, now: int)
    requires UpToDate(cs, spec, res)
    ensures ApplyAll(cs, spec, res, now) == cs
  {
    hide Get, Apply, UpToDate, ApplyFirst, EvalStorage, EvalCertificates, EvalLicense, EvalNodesHealthy,
         EvalExternalAccess, EvalBootstrap, EvalProgressing, EvalDegraded, DegradedVerdict;
    ApplyFirstSame(cs, spec, res, now);
    ApplyExpectedSame(cs, spec, res, now, Progressing);
    UpToDateDegraded(cs, spec, res);
    ApplyExpectedSame(cs, spec, res, now, Degraded);
  }

  /** A second evaluation of the same spec and facts, at any later time, leaves the whole status equal,
      transition times included. */
  lemma EvaluateIsIdempotent(spec: ClusterSpec, generation: int, res: Option<Facts>, st: Status, now: int, later: int)
    ensures var r := Evaluate(spec, generation, res, st, now); Evaluate(spec, generation, res, r, later) == r
  {
    hide Get, Expected, ApplyAll, ReadyVerdict, Required, PhaseOf;
    var r := Evaluate(spec, generation, res, st, now);
    forall t | Expected(spec, res, t).Some?
      ensures Get(r.conditions, t).Some? && Get(r.conditions, t).value.verdict == Expected(spec, res, t).value
    {
      EvaluateResult(spec, generation, res, st, now, t);
      VerdictsAreDefinite(spec, res, t);
      NoExpectedReady(spec, res);
    }
    ApplyAllSame(r.conditions, spec, res, later);
    forall u | u in Required(spec) ensures Expected(spec, res, u).Some? {
      RequiredIsExpected(spec, res, u);
    }
    ReadyFromFacts(r.conditions, spec, res);
    EvaluateResult(spec, generation, res, st, now, Ready);
    SetSame(r.conditions, Ready, ExpectedReady(spec, res).0, later);
    EvaluateResult(spec, generation, res, r, later, Ready);
  }

  /** Two evaluations of the same spec and facts agree on phase, message and every verdict they give,
      whatever status each started from and whenever it ran. */
  lemma EvaluateForgetsHistory(spec: ClusterSpec, generation: int, res: Option<Facts>, st: Status, now: int,
                               st': Status, now': int, t: CondType)
    ensures var r, r' := Evaluate(spec, generation, res, st, now), Evaluate(spec, generation, res, st', now');
            && r.phase == r'.phase && r.message == r'.message
            && (ExpectedAll(spec, res, t).Some? ==>
                  Get(r.conditions, t).Some? && Get(r'.conditions, t).Some?
                  && Get(r.conditions, t).value.verdict == Get(r'.conditions, t).value.verdict)
  {
    hide Get, ExpectedAll, Evaluate, ExpectedPhase, ExpectedReady;
    EvaluateResult(spec, generation, res, st, now, t);
    EvaluateResult(spec, generation, res, st', now', t);
  }

  // ----- what the phase means -----

  lemma {:induction false} NotBoundEmpty(pvcs: seq<PvcFact>)
    ensures NotBound(pvcs) == [] <==> forall i | 0 <= i < |pvcs| :: pvcs[i].bound
  {
    if pvcs != [] {
      var n := |pvcs| - 1;
      NotBoundEmpty(pvcs[..n]);
      assert forall i | 0 <= i < n :: pvcs[..n][i] == pvcs[i];
    }
  }

  lemma {:induction false} MissingEmpty(expected: seq<string>, secrets: seq<SecretFact>)
    ensures Missing(expected, secrets) == [] <==> forall i | 0 <= i < |expected| :: Observed(secrets, expected[i])
  {
    hide Observed;
    if expected != [] {
      var n := |expected| - 1;
      MissingEmpty(expected[..n], secrets);
      assert forall i | 0 <= i < n :: expected[..n][i] == expected[i];
    }
  }

  /** A name is listed as often as it is expected, unless it is observed. */
  lemma {:induction false} MissingCount(expected: seq<string>, secrets: seq<SecretFact>, name: string)
    ensures multiset(Missing(expected, secrets))[name] == if Observed(secrets, name) then 0 else multiset(expected)[name]
  {
    hide Observed;
    if expected != [] {
      var n := |expected| - 1;
      MissingCount(expected[..n], secrets, name);
      assert expected == expected[..n] + [expected[n]];
    }
  }

  /** The certificate verdict, message included, does not depend on the order in which a spec names its
      secrets. */
  lemma CertificatesIgnoreOrder(a: ClusterSpec, b: ClusterSpec, res: Option<Facts>)
    requires multiset(ExpectedSecrets(a)) == multiset(ExpectedSecrets(b))
    ensures EvalCertificates(a, res) == EvalCertificates(b, res)
  {
    hide Missing, ExpectedSecrets, SortStrings, SortedStrings, Join, Observed;
    var x, y := ExpectedSecrets(a), ExpectedSecrets(b);
    assert |x| == |multiset(x)| == |multiset(y)| == |y|;
    if res.Some? {
      var m, n := Missing(x, res.value.secrets), Missing(y, res.value.secrets);
      forall name ensures multiset(m)[name] == multiset(n)[name] {
        MissingCount(x, res.value.secrets, name);
        MissingCount(y, res.value.secrets, name);
      }
      assert multiset(m) == multiset(n);
      assert |m| == |multiset(m)| == |multiset(n)| == |n|;
      SortStringsSorts(m);
      SortStringsSorts(n);
      SortedFormIsUnique(SortStrings(m), SortStrings(n));
    }
  }

  lemma {:induction false} BucketEmpty(pods: seq<PodFact>, phase: PodPhase)
    ensures Bucket(pods, phase) == [] <==> forall i | 0 <= i < |pods| :: !InBucket(pods[i], phase)
  {
    hide InBucket;
    if pods != [] {
      var n := |pods| - 1;
      BucketEmpty(pods[..n], phase);
      assert forall i | 0 <= i < n :: pods[..n][i] == pods[i];
    }
  }

  lemma {:induction false} OffendersEmpty(pods: seq<PodFact>)
    ensures Offenders(pods) == [] <==> forall i | 0 <= i < |pods| :: pods[i].restarts < RESTART_THRESHOLD
  {
    if pods != [] {
      var n := |pods| - 1;
      OffendersEmpty(pods[..n]);
      assert forall i | 0 <= i < n :: pods[..n][i] == pods[i];
    }
  }

  // ----- the names in the messages: exactly those concerned, in order -----

  ghost function Unbound(pvcs: seq<PvcFact>): set<nat> {
    set i: nat | i < |pvcs| && !pvcs[i].bound
  }

  lemma {:induction false} NotBoundLists(pvcs: seq<PvcFact>) returns (idx: seq<nat>)
    ensures Enumerates(idx, Unbound(pvcs))
    ensures |NotBound(pvcs)| == |idx| && forall k | 0 <= k < |idx| :: idx[k] < |pvcs| && NotBound(pvcs)[k] == pvcs[idx[k]].name
  {
    hide Enumerates;
    idx := [];
    if pvcs == [] {
      NothingBelow({});
      assert Unbound(pvcs) == Below({}, 0);
    } else {
      var n := |pvcs| - 1;
      var before, chosen := Unbound(pvcs[..n]), Unbound(pvcs);
      idx := NotBoundLists(pvcs[..n]);
      UnboundNext(pvcs);
      hide Unbound, Below;
      OneFurther(idx, chosen, n);
      if !pvcs[n].bound { idx := idx + [n]; }
    }
  }

  lemma UnboundNext(pvcs: seq<PvcFact>)
    requires pvcs != []
    ensures var n, chosen := |pvcs| - 1, Unbound(pvcs);
            && Unbound(pvcs[..n]) == Below(chosen, n) && chosen == Below(chosen, n + 1)
            && (n in chosen <==> !pvcs[n].bound)
  {
  }

  ghost function InState(pods: seq<PodFact>, phase: PodPhase): set<nat> {
    set i: nat | i < |pods| && pods[i].phase == phase && (phase == Running ==> !pods[i].ready)
  }

  lemma {:induction false} BucketLists(pods: seq<PodFact>, phase: PodPhase) returns (idx: seq<nat>)
    ensures Enumerates(idx, InState(pods, phase))
    ensures |Bucket(pods, phase)| == |idx| && forall k | 0 <= k < |idx| :: idx[k] < |pods| && Bucket(pods, phase)[k] == pods[idx[k]].name
  {
    hide Enumerates;
    idx := [];
    if pods == [] {
      NothingBelow({});
      assert InState(pods, phase) == Below({}, 0);
    } else {
      var n := |pods| - 1;
      var before, chosen := InState(pods[..n], phase), InState(pods, phase);
      idx := BucketLists(pods[..n], phase);
      InStateNext(pods, phase);
      hide InState, Below, InBucket;
      OneFurther(idx, chosen, n);
      if InBucket(pods[n], phase) { idx := idx + [n]; }
    }
  }

  lemma InStateNext(pods: seq<PodFact>, phase: PodPhase)
    requires pods != []
    ensures var n, chosen := |pods| - 1, InState(pods, phase);
            && InState(pods[..n], phase) == Below(chosen, n) && chosen == Below(chosen, n + 1)
            && (n in chosen <==> InBucket(pods[n], phase))
  {
  }

  ghost function Restarting(pods: seq<PodFact>): set<nat> {
    set i: nat | i < |pods| && pods[i].restarts >= 5
  }

  lemma {:induction false} OffendersList(pods: seq<PodFact>) returns (idx: seq<nat>)
    ensures Enumerates(idx, Restarting(pods))
    ensures |Offenders(pods)| == |idx| && forall k | 0 <= k < |idx| :: idx[k] < |pods| && Offenders(pods)[k] == pods[idx[k]].name
  {
    hide Enumerates;
    idx := [];
    if pods == [] {
      NothingBelow({});
      assert Restarting(pods) == Below({}, 0);
    } else {
      var n := |pods| - 1;
      var before, chosen := Restarting(pods[..n]), Restarting(pods);
      idx := OffendersList(pods[..n]);
      RestartingNext(pods);
      hide Restarting, Below;
      OneFurther(idx, chosen, n);
      if pods[n].restarts >= 5 { idx := idx + [n]; }
    }
  }

  lemma RestartingNext(pods: seq<PodFact>)
    requires pods != []
    ensures var n, chosen := |pods| - 1, Restarting(pods);
            && Restarting(pods[..n]) == Below(chosen, n) && chosen == Below(chosen, n + 1)
            && (n in chosen <==> pods[n].restarts >= 5)
  {
  }

  lemma {:induction false} NothingBlocks(spec: ClusterSpec, res: Option<Facts>, required: seq<CondType>)
    ensures Blocking(spec, res, required).None? <==> forall i | 0 <= i < |required| :: Met(spec, res, required[i])
  {
    hide Met;
    if required != [] {
      NothingBlocks(spec, res, required[1..]);
      assert forall i | 0 < i < |required| :: required[i] == required[1..][i - 1];
    }
  }

  /** Storage, secrets, pods, bootstrap and external access as a reader of the facts would put them. */
  ghost predicate StorageFine(f: Facts) { f.pvcs != [] && forall i | 0 <= i < |f.pvcs| :: f.pvcs[i].bound }

  /** The certificate secrets that a spec refers to: the client certificate, and those of the nodes or of
      the cluster and its authority, depending on the mode. */
  ghost predicate Expects(spec: ClusterSpec, name: string) {
    || (name != "" && name == spec.clientCertSecretRef)
    || (spec.mode == LetsEncrypt && exists node :: node in spec.nodes && node.certSecretRef == Some(name))
    || (spec.mode == ModeNone && (spec.clusterCertSecretRef == Some(name) || spec.caCertSecretRef == Some(name)))
  }

  lemma {:induction false} NodeSecretsAre(nodes: seq<Node>, name: string)
    ensures name in NodeSecrets(nodes) <==> exists node :: node in nodes && node.certSecretRef == Some(name)
  {
    if nodes != [] {
      NodeSecretsAre(nodes[1..], name);
      assert forall node :: node in nodes <==> node == nodes[0] || node in nodes[1..];
    }
  }

  /** The expected names are those that the spec refers to in its mode. */
  lemma ExpectedSecretsAre(spec: ClusterSpec, name: string)
    ensures name in ExpectedSecrets(spec) <==> Expects(spec, name)
  {
    NodeSecretsAre(spec.nodes, name);
    hide NodeSecrets;
  }

  ghost predicate SecretsFine(spec: ClusterSpec, f: Facts) {
    && (forall name | Expects(spec, name) :: Observed(f.secrets, name))
    && (spec.licenseSecretRef != "" ==> Observed(f.secrets, spec.licenseSecretRef))
  }

  ghost predicate PodsFine(f: Facts) {
    f.pods != [] && forall i | 0 <= i < |f.pods| ::
      var p := f.pods[i]; p.phase.Succeeded? || (p.phase.Running? && p.ready)
  }

  ghost predicate Bootstrapped(f: Facts) { exists i | 0 <= i < |f.jobs| :: f.jobs[i].completed }

  ghost predicate AccessFine(f: Facts) {
    || (exists i | 0 <= i < |f.ingresses| :: f.ingresses[i].lbReady)
    || (f.ingresses == [] && exists i | 0 <= i < |f.services| :: f.services[i].loadBalancer && f.services[i].lbReady)
  }

  ghost predicate AllFine(spec: ClusterSpec, res: Option<Facts>) {
    && res.Some?
    && var f := res.value;
    && StorageFine(f) && SecretsFine(spec, f) && PodsFine(f) && Bootstrapped(f) && (spec.externalAccess ==> AccessFine(f))
  }

  ghost predicate Broken(res: Option<Facts>) {
    && res.Some?
    && var f := res.value;
    || (!Bootstrapped(f) && exists i | 0 <= i < |f.jobs| :: f.jobs[i].failed > 0)
    || (exists i | 0 <= i < |f.pods| :: f.pods[i].restarts >= 5)
  }

  lemma StorageMet(spec: ClusterSpec, res: Option<Facts>)
    ensures Met(spec, res, StorageReady) <==> res.Some? && StorageFine(res.value)
  {
    hide NotBound, Join;
    if res.Some? { NotBoundEmpty(res.value.pvcs); }
  }

  lemma SecretsMet(spec: ClusterSpec, res: Option<Facts>)
    ensures res.Some? ==> (Met(spec, res, CertificatesReady) && Met(spec, res, LicensesValid) <==> SecretsFine(spec, res.value))
    ensures res.None? ==> !Met(spec, res, CertificatesReady)
  {
    hide Missing, Join, ExpectedSecrets, Observed, SortStrings, Expects;
    if res.Some? {
      var names := ExpectedSecrets(spec);
      MissingEmpty(names, res.value.secrets);
      forall name ensures name in names <==> Expects(spec, name) {
        ExpectedSecretsAre(spec, name);
      }
      assert forall i | 0 <= i < |names| :: names[i] in names;
    }
  }

  lemma PodsMet(spec: ClusterSpec, res: Option<Facts>)
    ensures Met(spec, res, NodesHealthy) <==> res.Some? && PodsFine(res.value)
  {
    hide Bucket, Join, FailedOrUnknown;
    if res.Some? {
      BucketEmpty(res.value.pods, Pending);
      BucketEmpty(res.value.pods, PodFailed);
      BucketEmpty(res.value.pods, PodUnknown);
      BucketEmpty(res.value.pods, Running);
    }
  }

  lemma BootstrapMet(spec: ClusterSpec, res: Option<Facts>)
    ensures Met(spec, res, BootstrapCompleted) <==> res.Some? && Bootstrapped(res.value)
    ensures EvalBootstrap(res).reason == BootstrapFailed
            <==> res.Some? && !Bootstrapped(res.value) && exists i | 0 <= i < |res.value.jobs| :: res.value.jobs[i].failed > 0
  {
  }

  lemma AccessMet(spec: ClusterSpec, res: Option<Facts>)
    requires spec.externalAccess
    ensures Met(spec, res, ExternalAccessReady) <==> res.Some? && AccessFine(res.value)
  {
    hide EvalStorage, EvalCertificates, EvalLicense, EvalNodesHealthy, EvalBootstrap, EvalProgressing, DegradedVerdict;
    hide EvalExternalAccess, AccessFine;
    AccessStatus(spec, res);
  }

  lemma AccessStatus(spec: ClusterSpec, res: Option<Facts>)
    requires spec.externalAccess
    ensures EvalExternalAccess(spec, res).value.status == IsTrue <==> res.Some? && AccessFine(res.value)
  {
    hide True_, False_;
    if res.Some? {
      var ing, svcs := res.value.ingresses, res.value.services;
      if i :| 0 <= i < |ing| && ing[i].lbReady {
      } else if ing != [] {
      } else if i :| 0 <= i < |svcs| && svcs[i].loadBalancer && svcs[i].lbReady {
      }
    }
  }

  /** A rollout is in progress exactly when a set is updating or a job is active. */
  lemma ProgressingMet(spec: ClusterSpec, res: Option<Facts>)
    ensures Met(spec, res, Progressing) <==>
              res.Some? && ((exists i | 0 <= i < |res.value.statefulSets| :: res.value.statefulSets[i].updating)
                            || (exists i | 0 <= i < |res.value.jobs| :: res.value.jobs[i].active > 0))
  {
  }

  /** The reason that each condition gives when it is not fine. */
  lemma ReasonsGiven(spec: ClusterSpec, res: Option<Facts>)
    ensures EvalStorage(res).status == IsFalse ==> EvalStorage(res).reason == PVCNotBound
    ensures EvalCertificates(spec, res).status == IsFalse ==> EvalCertificates(spec, res).reason == CertSecretMissing
    ensures EvalLicense(spec, res).status == IsFalse ==> EvalLicense(spec, res).reason == LicenseSecretMissing
    ensures EvalBootstrap(res).status == IsFalse ==> EvalBootstrap(res).reason == BootstrapFailed || EvalBootstrap(res).reason == BootstrapJobRunning
    ensures EvalProgressing(res).reason == if EvalProgressing(res).status == IsTrue then StatefulSetUpdating else Completed
  {
    hide NotBound, Missing, ExpectedSecrets, Observed, SortStrings, Join, True_, False_;
  }

  /** For pods: pending ones outweigh failed, unknown and unready ones. */
  lemma PodReasons(spec: ClusterSpec, res: Option<Facts>)
    ensures EvalNodesHealthy(res).reason == WaitingForPods <==>
              res.None? || res.value.pods == [] || exists p :: p in res.value.pods && p.phase == Pending
    ensures EvalNodesHealthy(res).reason == PodsNotReady <==>
              res.Some? && res.value.pods != [] && !PodsFine(res.value) && forall p | p in res.value.pods :: p.phase != Pending
  {
    PodsMet(spec, res);
    hide Join, Bucket, FailedOrUnknown, PodsFine;
    if res.Some? {
      BucketEmpty(res.value.pods, Pending);
      assert (exists p :: p in res.value.pods && p.phase == Pending) <==>
             exists i | 0 <= i < |res.value.pods| :: InBucket(res.value.pods[i], Pending);
    }
  }

  /** For external access: a service counts only when there is no ingress. */
  lemma AccessReasons(spec: ClusterSpec, f: Facts)
    requires spec.externalAccess && !AccessFine(f)
    ensures EvalExternalAccess(spec, Some(f)).value.reason == if f.ingresses != [] then IngressPendingAddress else LoadBalancerPending
  {
    hide True_, False_;
  }

  /** And when the cluster is degraded: a failed bootstrap outweighs restarting pods. */
  lemma DegradedReasons(spec: ClusterSpec, res: Option<Facts>)
    ensures DegradedVerdict(res).reason == BootstrapFailed <==>
              res.Some? && !Bootstrapped(res.value) && exists j :: j in res.value.jobs && j.failed > 0
    ensures DegradedVerdict(res).reason == PodsNotReady <==>
              Broken(res) && DegradedVerdict(res).reason != BootstrapFailed
  {
    hide Offenders, Join;
    BootstrapMet(spec, res);
    DegradedMeansBroken(res, spec);
  }

  lemma RunningMeansFine(spec: ClusterSpec, res: Option<Facts>)
    ensures Blocking(spec, res, Required(spec)).None? <==> AllFine(spec, res)
  {
    var required := Required(spec);
    NothingBlocks(spec, res, required);
    assert forall i | 0 <= i < |required| :: required[i] in required;
    assert |required| >= 5 && required[0].CertificatesReady? && required[1].LicensesValid? && required[2].StorageReady?
           && required[3].NodesHealthy? && required[4].BootstrapCompleted?;
    assert spec.externalAccess ==> |required| == 6 && required[5].ExternalAccessReady?;
    assert !spec.externalAccess ==> |required| == 5;
    hide Met, StorageFine, SecretsFine, PodsFine, Bootstrapped, AccessFine, Required, Blocking;
    StorageMet(spec, res);
    SecretsMet(spec, res);
    PodsMet(spec, res);
    BootstrapMet(spec, res);
    if spec.externalAccess { AccessMet(spec, res); }
  }

  ghost predicate MetBefore(spec: ClusterSpec, res: Option<Facts>, order: seq<CondType>, k: nat) {
    forall i | 0 <= i < k && i < |order| :: Met(spec, res, order[i])
  }

  lemma {:induction false} BlockingIs(spec: ClusterSpec, res: Option<Facts>, order: seq<CondType>, k: nat)
    requires k < |order| && MetBefore(spec, res, order, k) && !Met(spec, res, order[k])
    ensures Blocking(spec, res, order) == Some(order[k])
  {
    hide Met;
    if k > 0 {
      assert Met(spec, res, order[0]);
      assert forall i | 0 <= i < k - 1 :: order[1..][i] == order[i + 1];
      BlockingIs(spec, res, order[1..], k - 1);
    }
  }

  /** A cluster that is not ready says why: for the first condition that is not met, in the order
      certificates, licence, storage, nodes, bootstrap and external access, with that condition's own
      reason and message. */
  lemma ReadyExplains(spec: ClusterSpec, res: Option<Facts>, k: nat)
    requires k < 5 || (k == 5 && spec.externalAccess)
    requires var order := [CertificatesReady, LicensesValid, StorageReady, NodesHealthy, BootstrapCompleted, ExternalAccessReady];
             MetBefore(spec, res, order, k) && !Met(spec, res, order[k])
    ensures var order := [CertificatesReady, LicensesValid, StorageReady, NodesHealthy, BootstrapCompleted, ExternalAccessReady];
            var v := Expected(spec, res, order[k]);
            && v.Some?
            && ExpectedReady(spec, res) == (Verdict(IsFalse, Named(order[k]), v.value.message), Because(v.value.reason, v.value.message))
  {
    var order := [CertificatesReady, LicensesValid, StorageReady, NodesHealthy, BootstrapCompleted, ExternalAccessReady];
    assert forall i | 0 <= i <= k :: i < |Required(spec)| && Required(spec)[i] == order[i];
    RequiredIsExpected(spec, res, order[k]);
    hide Met, Required, Expected;
    BlockingIs(spec, res, Required(spec), k);
  }

  lemma DegradedMeansBroken(res: Option<Facts>, spec: ClusterSpec)
    ensures DegradedVerdict(res).status == IsTrue <==> Broken(res)
  {
    hide Offenders, EvalBootstrap, Join, Bootstrapped;
    BootstrapMet(spec, res);
    if res.Some? { OffendersEmpty(res.value.pods); }
  }

  /** The phase says exactly this: Running when everything required is fine, otherwise Error when the
      bootstrap failed or some pod restarted five times or more, and Deploying in all other cases. */
  lemma PhaseCharacterisation(spec: ClusterSpec, generation: int, res: Option<Facts>, st: Status, now: int)
    ensures var phase := Evaluate(spec, generation, res, st, now).phase;
            && (phase == PhaseRunning <==> AllFine(spec, res))
            && (phase == PhaseError <==> !AllFine(spec, res) && Broken(res))
            && (phase == Deploying <==> !AllFine(spec, res) && !Broken(res))
  {
    hide Evaluate, Blocking, AllFine, Broken, DegradedVerdict;
    EvaluateResult(spec, generation, res, st, now, Ready);
    RunningMeansFine(spec, res);
    DegradedMeansBroken(res, spec);
  }
}
