/** What a reported success stands for: gate passes in the log of the tick that reports it. */
module Reports {
  import opened Text
  import opened Api
  import opened Protocol
  import opened GateEvidence
  import opened PostGates
  import opened Rollout

  /** The outcome is a success for t exactly when the log says so. */
  ghost predicate Agree(r: Result, t: Tag) { UpgradeReported(t) in r.log <==> r.outcome == Upgraded(t) }

  lemma PassesReportNothing(phase: Phase, t: Tag, n: nat, u: Tag)
    ensures UpgradeReported(u) !in Passes(phase, t, n)
  {
  }

  lemma CheckReports(store: Store, s: Script, t: Tag, u: Tag)
    ensures Agree(CheckNode(store, s, t), u)
  {
    PassesReportNothing(Post, t, s.post, u);
    hide Passes;
  }

  lemma ApplyReports(plan: Plan, store: Store, s: Script, t: Tag, upgrading: bool, u: Tag)
    ensures Agree(ApplyNode(plan, store, s, t, upgrading), u)
  {
    CheckReports(Written(store, s.sts, Desired(plan, store, t, s.actor)), s, t, u);
    hide CheckNode, Written;
  }

  lemma MarkReports(plan: Plan, store: Store, s: Script, t: Tag, u: Tag)
    ensures Agree(MarkNode(plan, store, s, t), u)
  {
    PassesReportNothing(Pre, t, s.pre, u);
    PassesReportNothing(Pre, t, 3, u);
    ApplyReports(plan, Written(store, s.mark, MarkWritten(t)), s, t, true, u);
    hide Passes, ApplyNode, Written;
  }

  /** A tick reports the success of a node exactly when it logs it. */
  lemma TickReports(plan: Plan, store: Store, s: Script, u: Tag)
    ensures Agree(TickResult(plan, store, s), u)
  {
    hide Choose, ApplyNode, MarkNode, IsUpgrading;
    if s.build && Choose(plan, store, s.unread).Some? {
      var t := Choose(plan, store, s.unread).value;
      MarkReports(plan, store, s, t, u);
      ApplyReports(plan, store, s, t, true, u);
      ApplyReports(plan, store, s, t, false, u);
    }
  }

  /** Some spec that a tick would read as this plan. */
  function SpecFor(plan: Plan): (spec: ClusterSpec)
    ensures PlanOf(spec) == plan
  {
    var spec := ClusterSpec(plan.image, ModeNone, "",
                            seq(|plan.tags|, i requires 0 <= i < |plan.tags| => Node(plan.tags[i], "", "", None)),
                            "", "", None, None, false);
    assert Tags(spec) == plan.tags;
    spec
  }

  /** The log of a tick is the log of a run of the machine that begins with it. */
  lemma TickLogReports(plan: Plan, store: Store, s: Script)
    ensures ReportsEarned(TickResult(plan, store, s).log)
  {
    hide Exec, TickResult, Settling, PlanOf, SpecFor;
    var f, w := Faults(true, true, true), World(SpecFor(plan), store, Idle, []);
    var u := TickIsARun(f, w, s);
    var ms :| Exec(f, w, ms) == u;
    ReportingAlways(f, w, ms);
    assert u.log == TickResult(plan, store, s).log;
  }

  /** A tick that reports success logged, in this order and with nothing else in between, the apply of
      the node's set and the passes of its three post-gates, and then the report. */
  lemma SuccessIsVerified(plan: Plan, store: Store, s: Script) returns (a: nat, b: nat, c: nat, d: nat, i: nat)
    requires TickResult(plan, store, s).outcome.Upgraded?
    ensures var r := TickResult(plan, store, s);
            && i < |r.log| && r.log[i] == UpgradeReported(r.outcome.tag)
            && PostGatesAt(r.log[..i], r.outcome.tag, a, b, c, d)
  {
    hide TickResult, Settling, PostGatesAt;
    var r := TickResult(plan, store, s);
    TickReports(plan, store, s, r.outcome.tag);
    TickLogReports(plan, store, s);
    i :| 0 <= i < |r.log| && r.log[i] == UpgradeReported(r.outcome.tag);
    a, b, c, d := FindPostGates(r.log[..i], r.outcome.tag);
  }

  /** What was applied then is the plan's image, and the set has it when the tick ends. */
  lemma SuccessIsRolled(plan: Plan, store: Store, s: Script)
    requires TickResult(plan, store, s).outcome.Upgraded?
    ensures var r := TickResult(plan, store, s); var t := r.outcome.tag;
            && (forall e | e in r.log && e.SetApplied? :: e.tag == t && e.image == plan.image)
            && t in r.store && r.store[t].image == plan.image && (!s.cleanup.Lost? ==> !r.store[t].marked)
  {
    hide Choose;
    forall phase, n, v, e | e in Passes(phase, v, n) ensures !e.SetApplied? {
    }
    hide Passes;
  }
}
