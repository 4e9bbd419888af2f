/** At most one StatefulSet is in flight, whatever happens between two API calls. */
module InFlight {
  import opened Text
  import opened Api
  import opened Protocol
  import Admission

  // ----- what every run keeps of the spec -----

  /** The plan of a running tick lists the spec's nodes, and its node is one of them. */
  ghost predicate Planned(w: World) {
    && WellFormed(w.spec) && Distinct(Tags(w.spec))
    && (w.pc.Tick? ==> w.pc.plan.tags == Tags(w.spec) && w.pc.plan.image != "")
    && (Selected(w).Some? ==> Selected(w).value in Tags(w.spec))
  }

  lemma PlannedStep(f: Faults, w: World, m: Move)
    requires Planned(w)
    ensures Planned(Next(f, w, m))
    ensures Tags(Next(f, w, m).spec) == Tags(w.spec)
  {
    hide Admission.Admitted, Distinct, Effect;
    if m.UpdateSpec? && WellFormed(m.spec) && Admission.Admitted(w.spec, m.spec) {
      Admission.AdmittedUpdate(w.spec, m.spec);
    }
  }

  // ----- single in-flight -----

  ghost predicate OnlyMark(store: Store, t: Tag) {
    forall u | u in store && store[u].marked :: u == t
  }

  ghost predicate MarksAmong(store: Store, tags: seq<Tag>) {
    forall u | u in store && store[u].marked :: u in tags
  }

  ghost predicate Unmarked(store: Store, t: Tag) { t in store ==> !store[t].marked }

  ghost predicate AtMostOneMark(store: Store) {
    forall t, u | t in store && u in store && store[t].marked && store[u].marked :: t == u
  }

  ghost predicate SingleAt(store: Store, pc: Pc) {
    match pc
    case Idle => true
    case Tick(plan, at) =>
      match at
      case ScanMarks(i) => forall k | 0 <= k < i && k < |plan.tags| :: Unmarked(store, plan.tags[k])
      case ScanMissing(_) => NoMarks(store)
      case ScanImages(_) => NoMarks(store)
      case _ => OnlyMark(store, at.tag)
  }

  ghost predicate Single(w: World) {
    Planned(w) && AtMostOneMark(w.store) && MarksAmong(w.store, Tags(w.spec)) && SingleAt(w.store, w.pc)
  }

  /** Marks only disappear in the environment, and the marked sets stay inside any bound on them. */
  lemma SingleEnv(w: World, m: Move)
    requires Single(w) && (m.UpdateSpec? || m.Delete? || m.Strip? || m.Crash?)
    requires Planned(EnvStep(w, m)) && Tags(EnvStep(w, m).spec) == Tags(w.spec)
    ensures Single(EnvStep(w, m))
  {
    hide Admission.Admitted, Planned, WellFormed;
    var v := EnvStep(w, m);
    assert forall u | u in v.store :: u in w.store && (v.store[u].marked ==> w.store[u].marked);
  }

  lemma SingleRead(w: World, ok: bool)
    requires Single(w) && w.pc.Tick? && (ok || !w.pc.at.ScanMarks?)
    requires Planned(ReadStep(w, ok))
    ensures Single(ReadStep(w, ok))
  {
    hide Distinct, WellFormed;
  }

  lemma SingleWrite(w: World, effect: bool, ok: bool)
    requires Single(w) && w.pc.Tick?
    requires Planned(WriteStep(w, effect, ok))
    ensures Single(WriteStep(w, effect, ok))
  {
    hide WellFormed, Distinct;
  }

  lemma SingleStep(f: Faults, w: World, m: Move)
    requires Single(w) && !f.marks
    ensures Single(Next(f, w, m))
  {
    hide Admission.Admitted, WellFormed, Distinct, ReadStep, WriteStep, EnvStep;
    PlannedStep(f, w, m);
    match m
    case Start(_) =>
    case Read(ok) => if w.pc.Tick? && (ok || MayFail(f, w.pc.at)) { SingleRead(w, ok); }
    case Check(pass) =>
    case Write(effect, ok) => if w.pc.Tick? { SingleWrite(w, effect, ok); }
    case _ => SingleEnv(w, m);
  }

  /** Single in-flight: in every state of every run, at most one set carries the mark. */
  lemma {:induction false} SingleInFlight(f: Faults, w: World, ms: seq<Move>)
    requires Quiet(w) && !f.marks
    ensures AtMostOneMark(Exec(f, w, ms).store)
    ensures Single(Exec(f, w, ms))
  {
    hide Next, WellFormed, Distinct;
    if ms != [] {
      SingleInFlight(f, w, ms[..|ms| - 1]);
      SingleStep(f, Exec(f, w, ms[..|ms| - 1]), ms[|ms| - 1]);
    }
  }

  // ----- one set per tick -----

  ghost predicate Changed(a: Store, b: Store, t: Tag) {
    (t in a) != (t in b) || (t in a && a[t] != b[t])
  }

  predicate ByController(m: Move) { m.Start? || m.Read? || m.Check? || m.Write? }

  /** The controller changes no set but the selected one, and holds on to its selection. */
  lemma ControllerTouchesSelected(f: Faults, w: World, m: Move, t: Tag)
    ensures ByController(m) && Changed(w.store, Next(f, w, m).store, t) ==> Selected(w) == Some(t)
    ensures Selected(w) == Some(t) && Next(f, w, m).pc.Tick? ==> Selected(Next(f, w, m)) == Some(t)
  {
    hide Admission.Admitted, WellFormed;
  }

  lemma {:induction false} SelectionHolds(f: Faults, w: World, ms: seq<Move>, i: nat, j: nat)
    requires i <= j <= |ms|
    requires forall k | i <= k <= j :: Exec(f, w, ms[..k]).pc.Tick?
    requires Selected(Exec(f, w, ms[..i])).Some?
    ensures Selected(Exec(f, w, ms[..j])) == Selected(Exec(f, w, ms[..i]))
    decreases j
  {
    hide Next, Selected;
    if i < j {
      SelectionHolds(f, w, ms, i, j - 1);
      assert ms[..j][..j - 1] == ms[..j - 1];
      var v := Exec(f, w, ms[..j - 1]);
      ControllerTouchesSelected(f, v, ms[j - 1], Selected(v).value);
    }
  }

  /** Within one tick all the controller's changes are to one set: any two of its moves that change
      the store, with the tick running from the first to the second, change the same set. */
  lemma OneSetPerTick(f: Faults, w: World, ms: seq<Move>, i: nat, j: nat, t: Tag, u: Tag)
    requires i <= j < |ms| && ByController(ms[i]) && ByController(ms[j])
    requires forall k | i <= k <= j :: Exec(f, w, ms[..k]).pc.Tick?
    requires Changed(Exec(f, w, ms[..i]).store, Exec(f, w, ms[..i + 1]).store, t)
    requires Changed(Exec(f, w, ms[..j]).store, Exec(f, w, ms[..j + 1]).store, u)
    ensures t == u
  {
    hide Next, Selected, Changed;
    assert ms[..i + 1][..i] == ms[..i] && ms[..j + 1][..j] == ms[..j];
    ControllerTouchesSelected(f, Exec(f, w, ms[..i]), ms[i], t);
    ControllerTouchesSelected(f, Exec(f, w, ms[..j]), ms[j], u);
    SelectionHolds(f, w, ms, i, j);
  }
}
