/** Events for condition transitions, and their agreement with the persisted status over whole runs. */
module Events {
  import opened Text
  import opened Lists
  import opened Api
  import opened Conditions
  import opened Health
  import opened HealthLaws

  datatype Event = Event(kind: CondType, verdict: Verdict)

  /** The verdict that a list of conditions gives on a type. */
  function Says(cs: seq<Condition>, t: CondType): Option<Verdict> {
    if Get(cs, t).Some? then Some(Get(cs, t).value.verdict) else None
  }

  /** The last verdict announced for a type. */
  function Announced(log: seq<Event>, t: CondType): Option<Verdict> {
    if log == [] then None
    else if log[|log| - 1].kind == t then Some(log[|log| - 1].verdict)
    else Announced(log[..|log| - 1], t)
  }

  /** The last condition of each type, as the map built from the previous conditions holds it. */
  function LastOf(prev: seq<Condition>, t: CondType): Option<Condition> {
    if prev == [] then None
    else if prev[|prev| - 1].kind == t then Some(prev[|prev| - 1])
    else LastOf(prev[..|prev| - 1], t)
  }

  predicate Changed(prev: seq<Condition>, c: Condition) {
    LastOf(prev, c.kind).None? || LastOf(prev, c.kind).value.verdict != c.verdict
  }

  /** One event per condition that is new or whose status, reason or message changed, in list order. */
  function Transitions(prev: seq<Condition>, cur: seq<Condition>): seq<Event> {
    if cur == [] then []
    else
      var c := cur[|cur| - 1];
      Transitions(prev, cur[..|cur| - 1]) + (if Changed(prev, c) then [Event(c.kind, c.verdict)] else [])
  }

  /** The conditions that the previous list does not have, or says otherwise. */
  ghost function News(prev: seq<Condition>, cur: seq<Condition>): set<nat> {
    set i: nat | i < |cur| && Says(prev, cur[i].kind) != Some(cur[i].verdict)
  }

  /** There is exactly one event for each of these, in list order, with the condition's type and verdict. */
  lemma {:induction false} TransitionsAre(prev: seq<Condition>, cur: seq<Condition>) returns (idx: seq<nat>)
    requires UniqueTypes(prev)
    ensures Enumerates(idx, News(prev, cur)) && |Transitions(prev, cur)| == |idx|
    ensures forall k | 0 <= k < |idx| :: idx[k] < |cur| && Transitions(prev, cur)[k] == Event(cur[idx[k]].kind, cur[idx[k]].verdict)
  {
    hide Enumerates;
    idx := [];
    if cur == [] {
      NothingBelow({});
      assert News(prev, cur) == Below({}, 0);
    } else {
      hide UniqueTypes;
      var n, chosen := |cur| - 1, News(prev, cur);
      idx := TransitionsAre(prev, cur[..n]);
      NewsNext(prev, cur);
      hide News, Below, Says, Changed, LastOf, UniqueTypes;
      OneFurther(idx, chosen, n);
      if Changed(prev, cur[n]) { idx := idx + [n]; }
    }
  }

  lemma NewsNext(prev: seq<Condition>, cur: seq<Condition>)
    requires UniqueTypes(prev) && cur != []
    ensures var n, chosen := |cur| - 1, News(prev, cur);
            && News(prev, cur[..n]) == Below(chosen, n) && chosen == Below(chosen, n + 1)
            && (n in chosen <==> Changed(prev, cur[n]))
  {
    LastIsGet(prev, cur[|cur| - 1].kind);
    hide Find, LastOf, Get;
  }

  method EmitConditionTransitions(prev: seq<Condition>, cur: seq<Condition>) returns (events: seq<Event>)
    ensures events == Transitions(prev, cur)
  {
    var byType: map<CondType, Condition> := map[];
    for n := 0 to |prev|
      invariant forall t :: t in byType <==> LastOf(prev[..n], t).Some?
      invariant forall t | t in byType :: LastOf(prev[..n], t) == Some(byType[t])
    {
      assert prev[..n + 1][..n] == prev[..n];
      byType := byType[prev[n].kind := prev[n]];
    }
    assert prev[..|prev|] == prev;
    events := [];
    for n := 0 to |cur|
      invariant events == Transitions(prev, cur[..n])
    {
      assert cur[..n + 1][..n] == cur[..n];
      var c := cur[n];
      if c.kind !in byType || byType[c.kind].verdict.status != c.verdict.status
         || byType[c.kind].verdict.reason != c.verdict.reason || byType[c.kind].verdict.message != c.verdict.message {
        events := events + [Event(c.kind, c.verdict)];
      }
    }
    assert cur[..|cur|] == cur;
  }

  // ----- laws of the events -----

  lemma {:induction false} LastIsGet(cs: seq<Condition>, t: CondType)
    requires UniqueTypes(cs)
    ensures LastOf(cs, t) == Get(cs, t)
  {
    if cs != [] {
      var n := |cs| - 1;
      LastIsGet(cs[..n], t);
      if cs[n].kind == t {
        FindIs(cs, t, n);
      } else if Find(cs[..n], t) < n {
        FindIs(cs, t, Find(cs[..n], t));
      } else {
        FindIs(cs, t, |cs|);
      }
    }
  }

  lemma {:induction false} AnnouncedAppend(log: seq<Event>, more: seq<Event>, t: CondType)
    ensures Announced(log + more, t) == if Announced(more, t).Some? then Announced(more, t) else Announced(log, t)
  {
    if more == [] {
      assert log + more == log;
    } else {
      var n := |more| - 1;
      assert (log + more)[..|log| + n] == log + more[..n];
      AnnouncedAppend(log, more[..n], t);
    }
  }

  /** Emission announces exactly the types whose verdict differs from before, with the new verdict. */
  lemma {:induction false} TransitionsAnnounce(prev: seq<Condition>, cur: seq<Condition>, t: CondType)
    requires UniqueTypes(prev) && UniqueTypes(cur)
    ensures Announced(Transitions(prev, cur), t) == if Says(cur, t).Some? && Says(cur, t) != Says(prev, t) then Says(cur, t) else None
  {
    hide Find;
    LastIsGet(prev, t);
    LastIsGet(cur, t);
    if cur != [] {
      var n := |cur| - 1;
      LastIsGet(cur[..n], t);
      TransitionsAnnounce(prev, cur[..n], t);
      var c := cur[n];
      var more := if Changed(prev, c) then [Event(c.kind, c.verdict)] else [];
      AnnouncedAppend(Transitions(prev, cur[..n]), more, t);
      assert Announced([], t) == None;
      if c.kind == t {
        NotBefore(cur, t);
      }
    }
  }

  /** With unique types, the type of the last condition does not occur before it. */
  lemma NotBefore(cs: seq<Condition>, t: CondType)
    requires UniqueTypes(cs) && cs != [] && cs[|cs| - 1].kind == t
    ensures Get(cs[..|cs| - 1], t) == None
  {
    FindIs(cs[..|cs| - 1], t, |cs| - 1);
  }

  // ----- reconciles -----

  /** One reconcile's inputs, and how persisting its status ends: the patch fails, or it succeeds and
      the events follow. */
  datatype Reconcile = Reconcile(spec: ClusterSpec, generation: int, facts: Option<Facts>, now: int, patched: bool)

  datatype History = History(status: Status, log: seq<Event>)

  function After1(h: History, r: Reconcile): History {
    var st := Evaluate(r.spec, r.generation, r.facts, h.status, r.now);
    if !r.patched || st == h.status then h
    else History(st, h.log + Transitions(h.status.conditions, st.conditions))
  }

  function AfterAll(h: History, rs: seq<Reconcile>): History {
    if rs == [] then h else After1(AfterAll(h, rs[..|rs| - 1]), rs[|rs| - 1])
  }

  ghost predicate Agrees(h: History) {
    UniqueTypes(h.status.conditions) && forall t :: Announced(h.log, t) == Says(h.status.conditions, t)
  }

  const FRESH := History(Status([], NoPhase, NoSummary, 0), [])

  lemma EvaluateKeepsTypes(spec: ClusterSpec, generation: int, res: Option<Facts>, st: Status, now: int)
    ensures var r := Evaluate(spec, generation, res, st, now);
            && (UniqueTypes(st.conditions) ==> UniqueTypes(r.conditions))
            && |st.conditions| <= |r.conditions|
            && (forall i | 0 <= i < |st.conditions| :: r.conditions[i].kind == st.conditions[i].kind)
  {
    hide UniqueTypes, Apply, ReadyVerdict, Required, PhaseOf, EvalStorage, EvalCertificates, EvalLicense,
         EvalNodesHealthy,
         EvalExternalAccess, EvalBootstrap, EvalProgressing, EvalDegraded;
    var c0 := st.conditions;
    var c1 := Apply(c0, StorageReady, Some(EvalStorage(res)), now);
    var c2 := Apply(c1, CertificatesReady, Some(EvalCertificates(spec, res)), now);
    var c3 := Apply(c2, LicensesValid, Some(EvalLicense(spec, res)), now);
    var c4 := Apply(c3, NodesHealthy, Some(EvalNodesHealthy(res)), now);
    var c5 := Apply(c4, ExternalAccessReady, EvalExternalAccess(spec, res), now);
    var c6 := Apply(c5, BootstrapCompleted, Some(EvalBootstrap(res)), now);
    var c7 := Apply(c6, Progressing, Some(EvalProgressing(res)), now);
    var c8 := Apply(c7, Degraded, Some(EvalDegraded(c7, res)), now);
    ApplyKeepsTypes(c0, StorageReady, Some(EvalStorage(res)), now);
    ApplyKeepsTypes(c1, CertificatesReady, Some(EvalCertificates(spec, res)), now);
    ApplyKeepsTypes(c2, LicensesValid, Some(EvalLicense(spec, res)), now);
    ApplyKeepsTypes(c3, NodesHealthy, Some(EvalNodesHealthy(res)), now);
    ApplyKeepsTypes(c4, ExternalAccessReady, EvalExternalAccess(spec, res), now);
    ApplyKeepsTypes(c5, BootstrapCompleted, Some(EvalBootstrap(res)), now);
    ApplyKeepsTypes(c6, Progressing, Some(EvalProgressing(res)), now);
    ApplyKeepsTypes(c7, Degraded, Some(EvalDegraded(c7, res)), now);
    assert c8 == ApplyAll(c0, spec, res, now);
    hide Set;
    SetKeepsTypes(c8, Ready, ReadyVerdict(c8, Required(spec)).0, now);
  }

  lemma ApplyKeepsTypes(cs: seq<Condition>, t: CondType, v: Option<Verdict>, now: int)
    ensures UniqueTypes(cs) ==> UniqueTypes(Apply(cs, t, v, now))
    ensures |cs| <= |Apply(cs, t, v, now)|
    ensures forall i | 0 <= i < |cs| :: Apply(cs, t, v, now)[i].kind == cs[i].kind
  {
    hide UniqueTypes, Set;
    if v.Some? {
      SetKeepsTypes(cs, t, if v.value.status == IsTrue then v.value else v.value.(status := IsFalse), now);
    }
  }

  lemma AgreesStep(h: History, r: Reconcile)
    requires Agrees(h)
    ensures Agrees(After1(h, r))
  {
    hide Evaluate, UniqueTypes, Transitions;
    var st := Evaluate(r.spec, r.generation, r.facts, h.status, r.now);
    if r.patched && st != h.status {
      EvaluateKeepsTypes(r.spec, r.generation, r.facts, h.status, r.now);
      forall t ensures Announced(After1(h, r).log, t) == Says(st.conditions, t) {
        TransitionsAnnounce(h.status.conditions, st.conditions, t);
        AnnouncedAppend(h.log, Transitions(h.status.conditions, st.conditions), t);
        NeverDropped(r.spec, r.generation, r.facts, h.status, r.now, t);
      }
    }
  }

  /** No condition is ever removed by an evaluation. */
  lemma NeverDropped(spec: ClusterSpec, generation: int, res: Option<Facts>, st: Status, now: int, t: CondType)
    ensures Get(st.conditions, t).Some? ==> Get(Evaluate(spec, generation, res, st, now).conditions, t).Some?
  {
    hide Evaluate, Get, ExpectedAll, ExpectedPhase, ExpectedReady;
    EvaluateResult(spec, generation, res, st, now, t);
  }

  /** The event log agrees with the state: over every run of reconciles, whatever their facts and
      whichever patches fail, the last event of each type tells the persisted verdict of that type,
      and a type without events has no condition. */
  lemma {:induction false} EventLogAgrees(rs: seq<Reconcile>)
    ensures Agrees(AfterAll(FRESH, rs))
  {
    hide After1;
    if rs != [] {
      EventLogAgrees(rs[..|rs| - 1]);
      AgreesStep(AfterAll(FRESH, rs[..|rs| - 1]), rs[|rs| - 1]);
    }
  }

  /** An evaluation that changes no verdict emits nothing. */
  lemma QuietWhenUnchanged(prev: seq<Condition>, cur: seq<Condition>)
    requires UniqueTypes(prev)
    requires forall i | 0 <= i < |cur| :: Says(prev, cur[i].kind) == Some(cur[i].verdict)
    ensures Transitions(prev, cur) == []
  {
    hide Find;
    if cur != [] {
      var n := |cur| - 1;
      QuietWhenUnchanged(prev, cur[..n]);
      LastIsGet(prev, cur[n].kind);
    }
  }

  /** The agreement needs every patch to be followed by its events: if the operator stops in between,
      no later reconcile of the same spec and facts makes up for them. */
  lemma MissedEventsStayMissed(h: History, r: Reconcile, later: int)
    ensures var st := Evaluate(r.spec, r.generation, r.facts, h.status, r.now);
            After1(History(st, h.log), r.(now := later)) == History(st, h.log)
  {
    hide Evaluate;
    EvaluateIsIdempotent(r.spec, r.generation, r.facts, h.status, r.now, later);
  }

  // ----- transition times -----

  ghost predicate StatusIs(h: History, t: CondType, s: CondStatus) {
    Get(h.status.conditions, t).Some? && Get(h.status.conditions, t).value.verdict.status == s
  }

  /** In one reconcile a type's status is kept together with its transition time, or it is new or
      flipped and its time is now. */
  lemma TransitionStep(h: History, r: Reconcile, t: CondType)
    requires Get(After1(h, r).status.conditions, t).Some?
    ensures var c := Get(After1(h, r).status.conditions, t).value;
            || (Get(h.status.conditions, t).Some? && Get(h.status.conditions, t).value.verdict.status == c.verdict.status
                && Get(h.status.conditions, t).value.transition == c.transition)
            || (!StatusIs(h, t, c.verdict.status) && c.transition == r.now && r.patched)
  {
    hide Evaluate, Get, ExpectedAll, ExpectedPhase, ExpectedReady, Transitions;
    EvaluateResult(r.spec, r.generation, r.facts, h.status, r.now, t);
  }

  /** Each transition time is the time of that condition's last flip or creation: some reconcile k at
      that very time gave it its present status, which it did not have before, and every state since
      has kept it. */
  lemma {:induction false} TransitionTimes(rs: seq<Reconcile>, t: CondType) returns (k: nat)
    requires Get(AfterAll(FRESH, rs).status.conditions, t).Some?
    ensures var c := Get(AfterAll(FRESH, rs).status.conditions, t).value;
            && k < |rs| && rs[k].now == c.transition && rs[k].patched
            && !StatusIs(AfterAll(FRESH, rs[..k]), t, c.verdict.status)
            && forall j | k < j <= |rs| :: StatusIs(AfterAll(FRESH, rs[..j]), t, c.verdict.status)
  {
    hide After1, Get;
    var c := Get(AfterAll(FRESH, rs).status.conditions, t).value;
    if rs == [] {
      assert AfterAll(FRESH, rs) == FRESH;
      NoConditions(t);
      assert false;
    } else {
      var n := |rs| - 1;
      var h := AfterAll(FRESH, rs[..n]);
      TransitionStep(h, rs[n], t);
      assert rs[..|rs|] == rs;
      if StatusIs(h, t, c.verdict.status) && Get(h.status.conditions, t).value.transition == c.transition {
        k := TransitionTimes(rs[..n], t);
        assert forall j | 0 <= j <= n :: rs[..n][..j] == rs[..j];
      } else {
        k := n;
      }
    }
  }

  lemma NoConditions(t: CondType)
    ensures Get([], t).None?
  {
  }
}
