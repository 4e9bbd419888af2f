/** An upgrade is reported only after the set was applied and the three post-gates passed, in order and
    in the same tick. */
module PostGates {
  import opened Text
  import opened Api
  import opened Protocol
  import opened GateEvidence
  import Admission

  /** How far the node has come since its set was applied: a monitor that reads the log alone. */
  function Settling(log: seq<Entry>, t: Tag): nat {
    if log == [] then 0 else
    var before := Settling(log[..|log| - 1], t);
    match log[|log| - 1]
    case SetApplied(u, _, _) => if u == t then 1 else 0
    case Passed(Post, NodeAlive, u, x) => if u == t && x == "" && before == 1 then 2 else 0
    case Passed(Post, Connectivity, u, x) => if u == t && x == "" && before == 2 then 3 else 0
    case Passed(Post, Databases, u, x) => if u == t && x == "" && before == 3 then 4 else 0
    case e => if FromEnvironment(e) then before else 0
  }

  ghost predicate ReportsEarned(log: seq<Entry>) {
    forall i | 0 <= i < |log| && log[i].UpgradeReported? :: Settling(log[..i], log[i].tag) == 4
  }

  ghost predicate SettlingAt(log: seq<Entry>, pc: Pc) {
    && (pc.Tick? && pc.at.SvcWrite? ==> Settling(log, pc.at.tag) == 1)
    && (pc.Tick? && pc.at.PostGate? ==> Settling(log, pc.at.tag) == 1 + GateIndex(pc.at.gate))
  }

  ghost predicate Reporting(w: World) { ReportsEarned(w.log) && SettlingAt(w.log, w.pc) }

  lemma SettlingStep(log: seq<Entry>, e: Entry, t: Tag)
    ensures FromEnvironment(e) ==> Settling(log + [e], t) == Settling(log, t)
    ensures e.SetApplied? && e.tag == t ==> Settling(log + [e], t) == 1
    ensures e == Passed(Post, NodeAlive, t, "") && Settling(log, t) == 1 ==> Settling(log + [e], t) == 2
    ensures e == Passed(Post, Connectivity, t, "") && Settling(log, t) == 2 ==> Settling(log + [e], t) == 3
    ensures e == Passed(Post, Databases, t, "") && Settling(log, t) == 3 ==> Settling(log + [e], t) == 4
  {
    assert (log + [e])[..|log|] == log;
  }

  lemma ReportStep(log: seq<Entry>, e: Entry)
    requires ReportsEarned(log) && (e.UpgradeReported? ==> Settling(log, e.tag) == 4)
    ensures ReportsEarned(log + [e])
  {
    hide Settling;
    var more := log + [e];
    forall i | 0 <= i < |more| && more[i].UpgradeReported? ensures Settling(more[..i], more[i].tag) == 4 {
      if i < |log| {
        assert more[..i] == log[..i] && more[i] == log[i];
      } else {
        assert more[..i] == log;
      }
    }
  }

  lemma ReportingEnv(w: World, m: Move)
    requires Reporting(w) && !m.Start? && !m.Read? && !m.Check? && !m.Write?
    ensures Reporting(EnvStep(w, m))
  {
    hide Settling, ReportsEarned, Admission.Admitted, WellFormed;
    var v := EnvStep(w, m);
    if v.log != w.log {
      var e := match m case UpdateSpec(_) => SpecUpdated case Delete(t) => SetDeleted(t)
                       case Strip(t) => MarkStripped(t) case _ => Crashed;
      assert v.log == w.log + [e];
      ReportStep(w.log, e);
      if Selected(w).Some? {
        SettlingStep(w.log, e, Selected(w).value);
      }
    }
  }

  lemma ReportingCheck(w: World, pass: bool)
    requires Reporting(w) && w.pc.Tick?
    ensures Reporting(CheckStep(w, pass))
  {
    hide Settling, ReportsEarned;
    if pass && (w.pc.at.PreGate? || w.pc.at.PostGate?) {
      var t, g := w.pc.at.tag, w.pc.at.gate;
      var e := if w.pc.at.PreGate? then Passed(Pre, g, t, if g == Databases then t else "") else Passed(Post, g, t, "");
      ReportStep(w.log, e);
      SettlingStep(w.log, e, t);
      if w.pc.at.PostGate? && g == Databases {
        ReportStep(w.log + [e], UpgradeReported(t));
      }
    }
  }

  lemma ReportingWrite(w: World, effect: bool, ok: bool)
    requires Reporting(w) && w.pc.Tick?
    ensures Reporting(WriteStep(w, effect, ok))
  {
    hide Settling, ReportsEarned;
    if (effect || ok) && (w.pc.at.Mark? || w.pc.at.ActWrite? || w.pc.at.Cleanup?) {
      var t := w.pc.at.tag;
      var e := if w.pc.at.Mark? then MarkWritten(t)
               else if w.pc.at.ActWrite? then SetApplied(t, w.pc.at.image, w.pc.at.mark)
               else UnmarkWritten(t);
      ReportStep(w.log, e);
      SettlingStep(w.log, e, t);
    }
  }

  lemma ReportingRead(w: World, ok: bool)
    requires Reporting(w) && w.pc.Tick?
    ensures Reporting(ReadStep(w, ok))
  {
    hide Settling, ReportsEarned;
  }

  lemma ReportingStep(f: Faults, w: World, m: Move)
    requires Reporting(w)
    ensures Reporting(Next(f, w, m))
  {
    hide Settling, ReportsEarned, ReadStep, CheckStep, WriteStep, EnvStep, PlanOf;
    match m
    case Start(_) => if w.pc.Idle? { ReportStep(w.log, TickStarted); }
    case Read(ok) => if w.pc.Tick? && (ok || MayFail(f, w.pc.at)) { ReportingRead(w, ok); }
    case Check(pass) => if w.pc.Tick? { ReportingCheck(w, pass); }
    case Write(effect, ok) => if w.pc.Tick? { ReportingWrite(w, effect, ok); }
    case _ => ReportingEnv(w, m);
  }

  lemma {:induction false} ReportingAlways(f: Faults, w: World, ms: seq<Move>)
    requires Reporting(w)
    ensures Reporting(Exec(f, w, ms))
  {
    hide Next, Reporting;
    if ms != [] {
      ReportingAlways(f, w, ms[..|ms| - 1]);
      ReportingStep(f, Exec(f, w, ms[..|ms| - 1]), ms[|ms| - 1]);
    }
  }

  /** Only the environment acts after position a, except at the listed positions. */
  ghost predicate OnlyEnvAfter(log: seq<Entry>, a: nat, but: set<nat>) {
    forall k | a < k < |log| && k !in but :: FromEnvironment(log[k])
  }

  ghost predicate AppliedAt(log: seq<Entry>, t: Tag, a: nat) {
    a < |log| && log[a].SetApplied? && log[a].tag == t
  }

  /** Positions of the apply and of the three passes, with only the environment between them and the end
      of the log. */
  ghost predicate PostGatesAt(log: seq<Entry>, t: Tag, a: nat, b: nat, c: nat, d: nat) {
    && a < b < c < d < |log| && AppliedAt(log, t, a)
    && log[b] == Passed(Post, NodeAlive, t, "") && log[c] == Passed(Post, Connectivity, t, "")
    && log[d] == Passed(Post, Databases, t, "")
    && OnlyEnvAfter(log, a, {b, c, d})
  }

  lemma {:induction false} FindApplied(log: seq<Entry>, t: Tag) returns (a: nat)
    requires Settling(log, t) == 1
    ensures AppliedAt(log, t, a) && OnlyEnvAfter(log, a, {})
  {
    a := |log| - 1;
    if FromEnvironment(log[a]) {
      a := FindApplied(log[..a], t);
    }
  }

  lemma {:induction false} FindPostAlive(log: seq<Entry>, t: Tag) returns (a: nat, b: nat)
    requires Settling(log, t) == 2
    ensures a < b < |log| && AppliedAt(log, t, a) && log[b] == Passed(Post, NodeAlive, t, "") && OnlyEnvAfter(log, a, {b})
  {
    b := |log| - 1;
    if FromEnvironment(log[b]) {
      a, b := FindPostAlive(log[..b], t);
    } else {
      a := FindApplied(log[..b], t);
    }
  }

  lemma {:induction false} FindPostConnected(log: seq<Entry>, t: Tag) returns (a: nat, b: nat, c: nat)
    requires Settling(log, t) == 3
    ensures a < b < c < |log| && AppliedAt(log, t, a) && log[b] == Passed(Post, NodeAlive, t, "")
            && log[c] == Passed(Post, Connectivity, t, "") && OnlyEnvAfter(log, a, {b, c})
  {
    c := |log| - 1;
    if FromEnvironment(log[c]) {
      a, b, c := FindPostConnected(log[..c], t);
    } else {
      a, b := FindPostAlive(log[..c], t);
    }
  }

  lemma {:induction false} FindPostGates(log: seq<Entry>, t: Tag) returns (a: nat, b: nat, c: nat, d: nat)
    requires Settling(log, t) == 4
    ensures PostGatesAt(log, t, a, b, c, d)
  {
    d := |log| - 1;
    if FromEnvironment(log[d]) {
      a, b, c, d := FindPostGates(log[..d], t);
    } else {
      a, b, c := FindPostConnected(log[..d], t);
    }
  }

  /** In every run, each reported upgrade was preceded by the apply of that node's set and by the three
      post-gates for that node, in this order, with nothing but the environment in between. */
  lemma UpgradeReportedOnlyAfterGates(f: Faults, w: World, ms: seq<Move>, i: nat) returns (a: nat, b: nat, c: nat, d: nat)
    requires Initial(w)
    requires i < |Exec(f, w, ms).log| && Exec(f, w, ms).log[i].UpgradeReported?
    ensures var log := Exec(f, w, ms).log; PostGatesAt(log[..i], log[i].tag, a, b, c, d)
  {
    hide Exec, WellFormed, Distinct, Settling;
    ReportingAlways(f, w, ms);
    var log := Exec(f, w, ms).log;
    a, b, c, d := FindPostGates(log[..i], log[i].tag);
  }
}
