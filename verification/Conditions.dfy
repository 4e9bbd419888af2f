/** The conditions of a cluster's status: a list updated in place, one entry per type. */
module Conditions {
  import opened Text
  import opened Api

  datatype CondType = Ready | Progressing | Degraded | CertificatesReady | LicensesValid | StorageReady
    | ExternalAccessReady | NodesHealthy | BootstrapCompleted | OtherType(name: string)

  datatype CondStatus = IsTrue | IsFalse | IsUnknown

  /** Reasons; a failed Ready condition carries the type of the condition that failed. */
  datatype Reason = NoReason | Completed | WaitingForPods | PodsNotReady | StatefulSetUpdating | IngressPendingAddress
    | LoadBalancerPending | CertSecretMissing | LicenseSecretMissing | BootstrapJobRunning | BootstrapFailed
    | PVCNotBound | Named(t: CondType) | OtherReason(text: string)

  datatype Verdict = Verdict(status: CondStatus, reason: Reason, message: string)

  datatype Condition = Condition(kind: CondType, verdict: Verdict, transition: int)

  function Sanitize(v: Verdict): Verdict { if v.reason == NoReason then v.(reason := Completed) else v }

  /** The position of the first condition of a type, or the length. */
  function Find(cs: seq<Condition>, t: CondType): (i: nat)
    ensures i <= |cs|
    ensures i < |cs| ==> cs[i].kind == t
    ensures forall k | 0 <= k < i :: cs[k].kind != t
  {
    if cs == [] || cs[0].kind == t then 0 else 1 + Find(cs[1..], t)
  }

  function Get(cs: seq<Condition>, t: CondType): Option<Condition> {
    if Find(cs, t) < |cs| then Some(cs[Find(cs, t)]) else None
  }

  /** A condition after it is set: a changed status moves the transition time, an unchanged one keeps it. */
  function Updated(was: Option<Condition>, t: CondType, v: Verdict, now: int): Condition {
    Condition(t, Sanitize(v), if was.Some? && was.value.verdict.status == v.status then was.value.transition else now)
  }

  function Set(cs: seq<Condition>, t: CondType, v: Verdict, now: int): seq<Condition> {
    var i := Find(cs, t);
    if i < |cs| then cs[i := Updated(Some(cs[i]), t, v, now)] else cs + [Updated(None, t, v, now)]
  }

  predicate HasTrue(cs: seq<Condition>, t: CondType) {
    Get(cs, t).Some? && Get(cs, t).value.verdict.status == IsTrue
  }

  // ----- laws -----

  lemma FindIs(cs: seq<Condition>, t: CondType, i: nat)
    requires i <= |cs| && (i < |cs| ==> cs[i].kind == t) && forall k | 0 <= k < i :: cs[k].kind != t
    ensures Find(cs, t) == i
  {
  }

  /** Setting one type updates that type and leaves every other type's condition as it was. */
  lemma GetSet(cs: seq<Condition>, t: CondType, v: Verdict, now: int, u: CondType)
    ensures Get(Set(cs, t, v, now), u) == if u == t then Some(Updated(Get(cs, t), t, v, now)) else Get(cs, u)
  {
    hide Find, Sanitize;
    var i, j, ds := Find(cs, t), Find(cs, u), Set(cs, t, v, now);
    if u == t {
      FindIs(ds, t, i);
    } else if j < |cs| {
      FindIs(ds, u, j);
    } else {
      FindIs(ds, u, |ds|);
    }
  }

  /** A set condition says what it was told, with a reason in any case, and its transition time moves
      exactly when it is new or its status flips. */
  lemma SetSays(cs: seq<Condition>, t: CondType, v: Verdict, now: int)
    ensures var was, c := Get(cs, t), Get(Set(cs, t, v, now), t);
            && c.Some? && c.value.kind == t && c.value.verdict.status == v.status && c.value.verdict.message == v.message
            && c.value.verdict.reason == (if v.reason == NoReason then Completed else v.reason)
            && c.value.transition == if was.Some? && was.value.verdict.status == v.status then was.value.transition else now
  {
    hide Get, Set;
    GetSet(cs, t, v, now, t);
  }

  /** Setting a condition to what it already says changes nothing, at any time. */
  lemma SetSame(cs: seq<Condition>, t: CondType, v: Verdict, now: int)
    requires Get(cs, t).Some? && Get(cs, t).value.verdict == Sanitize(v)
    ensures Set(cs, t, v, now) == cs
  {
    var i := Find(cs, t);
    assert Updated(Some(cs[i]), t, v, now) == cs[i];
  }

  ghost predicate UniqueTypes(cs: seq<Condition>) {
    forall i, j | 0 <= i < j < |cs| :: cs[i].kind != cs[j].kind
  }

  /** Types stay unique, and no condition is moved or removed. */
  lemma SetKeepsTypes(cs: seq<Condition>, t: CondType, v: Verdict, now: int)
    ensures UniqueTypes(cs) ==> UniqueTypes(Set(cs, t, v, now))
    ensures |cs| <= |Set(cs, t, v, now)|
    ensures forall i | 0 <= i < |cs| :: Set(cs, t, v, now)[i].kind == cs[i].kind
  {
  }
}
