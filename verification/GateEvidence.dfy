/** An existing node's image changes only while it is marked, and a mark is only written after the
    three pre-gates passed for that node in the same tick. */
module GateEvidence {
  import opened Text
  import opened Api
  import opened Protocol
  import opened InFlight
  import Admission

  predicate FromEnvironment(e: Entry) {
    e.SpecUpdated? || e.SetDeleted? || e.MarkStripped?
  }

  /** How many pre-gates have just passed for the node, in order: a monitor that reads the log alone.
      Only entries of the environment may come between. */
  function Progress(log: seq<Entry>, t: Tag): nat {
    if log == [] then 0 else
    var before := Progress(log[..|log| - 1], t);
    match log[|log| - 1]
    case Passed(Pre, NodeAlive, u, x) => if u == t && x == "" then 1 else 0
    case Passed(Pre, Connectivity, u, x) => if u == t && x == "" && before == 1 then 2 else 0
    case Passed(Pre, Databases, u, x) => if u == t && x == t && before == 2 then 3 else 0
    case e => if FromEnvironment(e) then before else 0
  }

  predicate Clears(e: Entry, t: Tag) { e == UnmarkWritten(t) || e == MarkStripped(t) }

  /** The node has been marked and nobody has removed the mark since: a monitor over the log. */
  predicate MarkStands(log: seq<Entry>, t: Tag) {
    log != [] &&
    var e := log[|log| - 1];
    (e == MarkWritten(t) || (!Clears(e, t) && MarkStands(log[..|log| - 1], t)))
  }

  ghost predicate MarksEarned(log: seq<Entry>) {
    forall i | 0 <= i < |log| && log[i].MarkWritten? :: Progress(log[..i], log[i].tag) == 3
  }

  ghost predicate MarkBacked(store: Store, log: seq<Entry>, t: Tag) {
    t in store && store[t].marked ==> MarkStands(log, t)
  }

  function GateIndex(g: Gate): nat {
    match g case NodeAlive => 0 case Connectivity => 1 case Databases => 2
  }

  ghost predicate PointEvidence(log: seq<Entry>, at: Point, t: Tag) {
    match at
    case PreGate(u, g) => GateIndex(g) > 0 ==> Progress(log, u) == GateIndex(g)
    case Mark(u) => Progress(log, u) == 3
    case ActWrite(u, _, _, mark) => u == t && mark ==> MarkStands(log, t)
    case _ => true
  }

  /** What the log tells about the gates passed, and about t's mark. */
  ghost predicate Evidence(w: World, t: Tag) {
    && MarksEarned(w.log)
    && MarkBacked(w.store, w.log, t)
    && (w.pc.Tick? ==> PointEvidence(w.log, w.pc.at, t))
  }

  // ----- the monitors after one more entry -----

  lemma MonitorsStep(log: seq<Entry>, e: Entry, t: Tag)
    ensures FromEnvironment(e) ==> Progress(log + [e], t) == Progress(log, t)
    ensures e == Passed(Pre, NodeAlive, t, "") ==> Progress(log + [e], t) == 1
    ensures e == Passed(Pre, Connectivity, t, "") && Progress(log, t) == 1 ==> Progress(log + [e], t) == 2
    ensures e == Passed(Pre, Databases, t, t) && Progress(log, t) == 2 ==> Progress(log + [e], t) == 3
    ensures e == MarkWritten(t) ==> MarkStands(log + [e], t)
    ensures !Clears(e, t) && MarkStands(log, t) ==> MarkStands(log + [e], t)
  {
    assert (log + [e])[..|log|] == log;
  }

  lemma EarnedStep(log: seq<Entry>, e: Entry)
    requires MarksEarned(log)
    requires e.MarkWritten? ==> Progress(log, e.tag) == 3
    ensures MarksEarned(log + [e])
  {
    hide Progress;
    var more := log + [e];
    forall i | 0 <= i < |more| && more[i].MarkWritten? ensures Progress(more[..i], more[i].tag) == 3 {
      if i < |log| {
        assert more[..i] == log[..i] && more[i] == log[i];
      } else {
        assert more[..i] == log;
      }
    }
  }

  /** Evidence about t's mark survives an entry that marks nothing unearned. */
  lemma StoreEvidenceStep(store: Store, log: seq<Entry>, e: Entry, t: Tag)
    requires MarkBacked(store, log, t)
    requires e.SetApplied? && e.tag == t && e.mark ==> MarkStands(log, t)
    ensures MarkBacked(Effect(store, e), log + [e], t)
  {
    hide MarkStands, Progress;
    MonitorsStep(log, e, t);
  }

  // ----- one step -----

  lemma EvidenceEnv(w: World, m: Move, t: Tag)
    requires Evidence(w, t) && !m.Start? && !m.Read? && !m.Check? && !m.Write?
    requires m == Strip(t) ==> !BeforeActWrite(w, t)
    ensures Evidence(EnvStep(w, m), t)
  {
    hide Progress, MarkStands, MarksEarned, MarkBacked, Admission.Admitted, WellFormed;
    var v := EnvStep(w, m);
    if v.log != w.log {
      var e := match m case UpdateSpec(_) => SpecUpdated case Delete(u) => SetDeleted(u)
                       case Strip(u) => MarkStripped(u) case _ => Crashed;
      assert v.log == w.log + [e] && v.store == Effect(w.store, e);
      EarnedStep(w.log, e);
      StoreEvidenceStep(w.store, w.log, e, t);
      if Selected(w).Some? {
        MonitorsStep(w.log, e, Selected(w).value);
      }
    }
  }

  lemma EvidenceCheck(w: World, pass: bool, t: Tag)
    requires Evidence(w, t) && w.pc.Tick?
    ensures Evidence(CheckStep(w, pass), t)
  {
    hide Progress, MarkStands, MarksEarned, MarkBacked;
    if pass && (w.pc.at.PreGate? || w.pc.at.PostGate?) {
      var u, g := w.pc.at.tag, w.pc.at.gate;
      var e := if w.pc.at.PreGate? then Passed(Pre, g, u, if g == Databases then u else "") else Passed(Post, g, u, "");
      EarnedStep(w.log, e);
      StoreEvidenceStep(w.store, w.log, e, t);
      MonitorsStep(w.log, e, u);
      var v := Happen(w, e);
      EarnedStep(v.log, UpgradeReported(u));
      StoreEvidenceStep(v.store, v.log, UpgradeReported(u), t);
    }
  }

  lemma EvidenceWrite(w: World, effect: bool, ok: bool, t: Tag)
    requires Evidence(w, t) && w.pc.Tick?
    ensures Evidence(WriteStep(w, effect, ok), t)
  {
    hide Progress, MarkStands, MarksEarned, MarkBacked;
    if (effect || ok) && (w.pc.at.Mark? || w.pc.at.ActWrite? || w.pc.at.Cleanup?) {
      var u := w.pc.at.tag;
      var e := if w.pc.at.Mark? then MarkWritten(u)
               else if w.pc.at.ActWrite? then SetApplied(u, w.pc.at.image, w.pc.at.mark)
               else UnmarkWritten(u);
      EarnedStep(w.log, e);
      StoreEvidenceStep(w.store, w.log, e, t);
    }
  }

  lemma EvidenceRead(w: World, ok: bool, t: Tag)
    requires Evidence(w, t) && w.pc.Tick?
    ensures Evidence(ReadStep(w, ok), t)
  {
    hide Progress, MarkStands, MarksEarned;
  }

  lemma EvidenceStep(f: Faults, w: World, m: Move, t: Tag)
    requires Evidence(w, t) && (m == Strip(t) ==> !BeforeActWrite(w, t))
    ensures Evidence(Next(f, w, m), t)
  {
    hide Progress, MarkStands, MarksEarned, MarkBacked, ReadStep, CheckStep, WriteStep, EnvStep, PlanOf;
    match m
    case Start(_) =>
      if w.pc.Idle? {
        EarnedStep(w.log, TickStarted);
        StoreEvidenceStep(w.store, w.log, TickStarted, t);
      }
    case Read(ok) => if w.pc.Tick? && (ok || MayFail(f, w.pc.at)) { EvidenceRead(w, ok, t); }
    case Check(pass) => if w.pc.Tick? { EvidenceCheck(w, pass, t); }
    case Write(effect, ok) => if w.pc.Tick? { EvidenceWrite(w, effect, ok, t); }
    case _ => EvidenceEnv(w, m, t);
  }

  lemma {:induction false} EvidenceAlways(f: Faults, w: World, ms: seq<Move>, t: Tag)
    requires Initial(w) && ApplyUndisturbed(f, w, ms, t)
    ensures Evidence(Exec(f, w, ms), t)
  {
    hide Next, WellFormed, Distinct, Progress, MarkStands, ApplyUndisturbed;
    if ms != [] {
      UndisturbedPrefix(f, w, ms, t);
      EvidenceAlways(f, w, ms[..|ms| - 1], t);
      EvidenceStep(f, Exec(f, w, ms[..|ms| - 1]), ms[|ms| - 1], t);
    }
  }

  // ----- what the monitors say about positions in the log -----

  ghost predicate AliveAt(log: seq<Entry>, t: Tag, a: nat) {
    && a < |log| && log[a] == Passed(Pre, NodeAlive, t, "")
    && forall k | a < k < |log| :: FromEnvironment(log[k])
  }

  ghost predicate ConnectedAt(log: seq<Entry>, t: Tag, a: nat, b: nat) {
    && a < b < |log| && log[a] == Passed(Pre, NodeAlive, t, "") && log[b] == Passed(Pre, Connectivity, t, "")
    && forall k | a < k < |log| && k != b :: FromEnvironment(log[k])
  }

  /** Positions a, b, c of the three gate passes in order, with only the environment between them and
      the end of the log. */
  ghost predicate GatesAt(log: seq<Entry>, t: Tag, a: nat, b: nat, c: nat) {
    && a < b < c < |log|
    && log[a] == Passed(Pre, NodeAlive, t, "") && log[b] == Passed(Pre, Connectivity, t, "")
    && log[c] == Passed(Pre, Databases, t, t)
    && forall k | a < k < |log| && k != b && k != c :: FromEnvironment(log[k])
  }

  lemma {:induction false} FindAlive(log: seq<Entry>, t: Tag) returns (a: nat)
    requires Progress(log, t) == 1
    ensures AliveAt(log, t, a)
  {
    a := |log| - 1;
    if FromEnvironment(log[|log| - 1]) {
      a := FindAlive(log[..|log| - 1], t);
    }
  }

  lemma {:induction false} FindConnected(log: seq<Entry>, t: Tag) returns (a: nat, b: nat)
    requires Progress(log, t) == 2
    ensures ConnectedAt(log, t, a, b)
  {
    b := |log| - 1;
    if FromEnvironment(log[b]) {
      a, b := FindConnected(log[..b], t);
    } else {
      a := FindAlive(log[..b], t);
    }
  }

  lemma {:induction false} FindGates(log: seq<Entry>, t: Tag) returns (a: nat, b: nat, c: nat)
    requires Progress(log, t) == 3
    ensures GatesAt(log, t, a, b, c)
  {
    c := |log| - 1;
    if FromEnvironment(log[c]) {
      a, b, c := FindGates(log[..c], t);
    } else {
      a, b := FindConnected(log[..c], t);
    }
  }

  lemma {:induction false} FindMark(log: seq<Entry>, t: Tag) returns (k: nat)
    requires MarkStands(log, t)
    ensures k < |log| && log[k] == MarkWritten(t) && forall j | k < j < |log| :: !Clears(log[j], t)
  {
    k := |log| - 1;
    if log[k] != MarkWritten(t) {
      k := FindMark(log[..k], t);
    }
  }

  // ----- gate before change -----

  /** The mark written at k was earned: the three pre-gates passed for this node just before it, in
      the same tick, and nobody has removed the mark since. */
  ghost predicate MarkEarnedAt(log: seq<Entry>, t: Tag, a: nat, b: nat, c: nat, k: nat) {
    && k < |log| && log[k] == MarkWritten(t)
    && GatesAt(log[..k], t, a, b, c)
    && forall j | k < j < |log| :: !Clears(log[j], t)
  }

  /** Every mark in every run was earned by the three gates, whatever reads fail. */
  lemma EveryMarkEarned(f: Faults, w: World, ms: seq<Move>, t: Tag) returns (a: nat, b: nat, c: nat, k: nat)
    requires Initial(w) && ApplyUndisturbed(f, w, ms, t)
    requires var v := Exec(f, w, ms); t in v.store && v.store[t].marked
    ensures MarkEarnedAt(Exec(f, w, ms).log, t, a, b, c, k)
  {
    hide Exec, WellFormed, Distinct, Progress, MarkStands, ApplyUndisturbed;
    EvidenceAlways(f, w, ms, t);
    var log := Exec(f, w, ms).log;
    k := FindMark(log, t);
    a, b, c := FindGates(log[..k], t);
  }

  // ----- the freeze -----

  ghost predicate FrozenAt(f: Faults, store: Store, plan: Plan, at: Point, t: Tag) {
    match at
    case Probe(u, exists_, current) => u == t && t in store ==> exists_ && current == store[t].image
    case ActRead(u, _) => f.actor && u == t && t in store ==> store[t].marked || store[t].image == plan.image
    case ActWrite(u, _, image, _) =>
      && image != ""
      && (u == t && t in store ==> store[t].marked || store[t].image == image)
    case _ => true
  }

  /** What the running tick is about to write over t's set is its own image, unless the set is marked.
      A tick that does not look at the live set when it applies is no exception: it comes to the apply
      only with a mark, or with an image that is up to date. */
  ghost predicate Frozen(f: Faults, w: World, t: Tag) {
    && Planned(w) && HaveImages(w.store)
    && (w.pc.Tick? ==> FrozenAt(f, w.store, w.pc.plan, w.pc.at, t))
  }

  /** The moves that the freeze allows: a removal of t's mark must not hit the window before an apply. */
  predicate KeepsOff(f: Faults, w: World, m: Move, t: Tag) {
    m == Strip(t) ==> !BeforeActWrite(w, t) && (f.actor ==> !BeforeActRead(w, t))
  }

  lemma FrozenRead(f: Faults, w: World, ok: bool, t: Tag)
    requires Frozen(f, w, t) && w.pc.Tick? && (ok || MayFail(f, w.pc.at)) && Planned(ReadStep(w, ok))
    ensures Frozen(f, ReadStep(w, ok), t)
  {
    hide Distinct, WellFormed;
  }

  lemma FrozenWrite(f: Faults, w: World, effect: bool, ok: bool, t: Tag)
    requires Frozen(f, w, t) && w.pc.Tick? && Planned(WriteStep(w, effect, ok))
    ensures Frozen(f, WriteStep(w, effect, ok), t)
  {
    hide Distinct, WellFormed, Planned;
  }

  lemma FrozenEnv(f: Faults, w: World, m: Move, t: Tag)
    requires Frozen(f, w, t) && KeepsOff(f, w, m, t) && Planned(EnvStep(w, m))
    requires m.UpdateSpec? || m.Delete? || m.Strip? || m.Crash?
    ensures Frozen(f, EnvStep(w, m), t)
  {
    hide Planned, WellFormed, Admission.Admitted;
  }

  lemma FrozenStep(f: Faults, w: World, m: Move, t: Tag)
    requires Frozen(f, w, t) && KeepsOff(f, w, m, t)
    ensures Frozen(f, Next(f, w, m), t)
  {
    PlannedStep(f, w, m);
    hide Planned, ReadStep, WriteStep, EnvStep, HaveImages;
    match m
    case Start(_) =>
    case Read(ok) => if w.pc.Tick? && (ok || MayFail(f, w.pc.at)) { FrozenRead(f, w, ok, t); }
    case Check(pass) =>
    case Write(effect, ok) => if w.pc.Tick? { FrozenWrite(f, w, effect, ok, t); }
    case _ => FrozenEnv(f, w, m, t);
  }

  lemma {:induction false} FrozenAlways(f: Faults, w: World, ms: seq<Move>, t: Tag)
    requires Quiet(w) && ApplyUndisturbed(f, w, ms, t) && (f.actor ==> ReadUndisturbed(f, w, ms, t))
    ensures Frozen(f, Exec(f, w, ms), t)
  {
    hide Next, WellFormed, Distinct, ApplyUndisturbed, ReadUndisturbed;
    if ms != [] {
      UndisturbedPrefix(f, w, ms, t);
      FrozenAlways(f, w, ms[..|ms| - 1], t);
      FrozenStep(f, Exec(f, w, ms[..|ms| - 1]), ms[|ms| - 1], t);
    }
  }

  /** A step changes the image of an existing set only at the actor's write, and then the set is marked. */
  lemma ImageChange(f: Faults, w: World, m: Move, t: Tag)
    requires Frozen(f, w, t)
    requires t in w.store && t in Next(f, w, m).store && w.store[t].image != Next(f, w, m).store[t].image
    ensures w.store[t].marked
  {
    hide Admission.Admitted, WellFormed, Planned, HaveImages;
  }

  /** Gate before change. Whenever a run changes the image of an existing set, that set is marked at
      that moment, and its mark was earned by the three pre-gates of its own tick. Every read may fail,
      the actor's included. The one thing that must not happen is that a third party removes the mark
      in the window before an apply: after the actor's read of the set or, if that read may fail,
      after the mark was written or seen. */
  lemma GateBeforeChange(f: Faults, w: World, ms: seq<Move>, m: Move, t: Tag) returns (a: nat, b: nat, c: nat, k: nat)
    requires Initial(w) && ApplyUndisturbed(f, w, ms, t) && (f.actor ==> ReadUndisturbed(f, w, ms, t))
    requires var v := Exec(f, w, ms); var u := Next(f, v, m);
             t in v.store && t in u.store && v.store[t].image != u.store[t].image
    ensures Exec(f, w, ms).store[t].marked
    ensures MarkEarnedAt(Exec(f, w, ms).log, t, a, b, c, k)
  {
    hide Exec, Next, WellFormed, Distinct, ApplyUndisturbed, ReadUndisturbed;
    FrozenAlways(f, w, ms, t);
    ImageChange(f, Exec(f, w, ms), m, t);
    a, b, c, k := EveryMarkEarned(f, w, ms, t);
  }
}
