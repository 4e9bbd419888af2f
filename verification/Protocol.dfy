/** The rolling-upgrade protocol as a state machine: one upgrade tick is a sequence of single API
    calls, and the environment may act between any two of them. */
module Protocol {
  import opened Text
  import opened Api
  import Admission

  type Tag = string
  type Image = string

  /** A live StatefulSet: the image of its first container, and whether it carries the
      upgrade-image annotation. */
  datatype Sts = Sts(image: Image, marked: bool)

  type Store = map<Tag, Sts>

  datatype Phase = Pre | Post
  datatype Gate = NodeAlive | Connectivity | Databases

  /** What happened, in order. Entries that change a StatefulSet are logged exactly when they do. */
  datatype Entry =
    | TickStarted
    | Passed(phase: Phase, gate: Gate, tag: Tag, excluded: Tag)
    | MarkWritten(tag: Tag)
    | UnmarkWritten(tag: Tag)
    | SetApplied(tag: Tag, image: Image, mark: bool)
    | UpgradeReported(tag: Tag)
    | Crashed
    | SpecUpdated
    | SetDeleted(tag: Tag)
    | MarkStripped(tag: Tag)

  /** The spec as a tick read it when it started. */
  datatype Plan = Plan(tags: seq<Tag>, image: Image)

  function PlanOf(spec: ClusterSpec): Plan { Plan(Tags(spec), spec.image) }

  /** The API call that a tick makes next. */
  datatype Point =
    | ScanMarks(i: nat)
    | ScanMissing(i: nat)
    | ScanImages(i: nat)
    | Load(tag: Tag)
    | Probe(tag: Tag, exists_: bool, current: Image)
    | PreGate(tag: Tag, gate: Gate)
    | Mark(tag: Tag)
    | ActRead(tag: Tag, upgrading: bool)
    | ActWrite(tag: Tag, upgrading: bool, image: Image, mark: bool)
    | SvcWrite(tag: Tag, upgrading: bool)
    | PostGate(tag: Tag, gate: Gate)
    | Cleanup(tag: Tag)

  datatype Pc = Idle | Tick(plan: Plan, at: Point)

  datatype World = World(spec: ClusterSpec, store: Store, pc: Pc, log: seq<Entry>)

  datatype Move =
    // environment
    | UpdateSpec(spec: ClusterSpec)
    | Delete(tag: Tag)
    | Strip(tag: Tag)
    | Crash
    // controller
    | Start(gatesBuilt: bool)
    | Read(ok: bool)
    | Check(pass: bool)
    | Write(effect: bool, ok: bool)

  /** Which reads may answer with an error other than "not found", beyond the ones that always may:
      those of the scan for a marked set, of the scan for an off-image set, and the actor's read of the
      live set. */
  datatype Faults = Faults(marks: bool, images: bool, actor: bool)

  function NextGate(g: Gate): Option<Gate> {
    match g
    case NodeAlive => Some(Connectivity)
    case Connectivity => Some(Databases)
    case Databases => None
  }

  predicate IsUpgrading(exists_: bool, desired: Image, current: Image, marked: bool) {
    exists_ && desired != "" && current != "" && (marked || desired != current)
  }

  function Effect(store: Store, e: Entry): Store {
    match e
    case MarkWritten(t) => if t in store then store[t := store[t].(marked := true)] else store
    case UnmarkWritten(t) => if t in store then store[t := store[t].(marked := false)] else store
    case MarkStripped(t) => if t in store then store[t := store[t].(marked := false)] else store
    case SetApplied(t, image, mark) => store[t := Sts(image, mark || (t in store && store[t].marked))]
    case SetDeleted(t) => store - {t}
    case _ => store
  }

  /** Something happens: it is logged and takes its effect on the store. */
  function Happen(w: World, e: Entry): World {
    w.(store := Effect(w.store, e), log := w.log + [e])
  }

  function Goto(w: World, at: Point): World
    requires w.pc.Tick?
  {
    w.(pc := Tick(w.pc.plan, at))
  }

  function Finish(w: World): World { w.(pc := Idle) }

  /** The read at the current point; ok says whether it answers truthfully or with an error. */
  function ReadStep(w: World, ok: bool): World
    requires w.pc.Tick?
  {
    var plan, store := w.pc.plan, w.store;
    match w.pc.at
    case ScanMarks(i) =>
      if i >= |plan.tags| then Goto(w, ScanMissing(0))
      else if ok && plan.tags[i] in store && store[plan.tags[i]].marked then Goto(w, Load(plan.tags[i]))
      else Goto(w, ScanMarks(i + 1))
    case ScanMissing(i) =>
      if i >= |plan.tags| then Goto(w, ScanImages(0))
      else if ok && plan.tags[i] !in store then Goto(w, Load(plan.tags[i]))
      else Goto(w, ScanMissing(i + 1))
    case ScanImages(i) =>
      if i >= |plan.tags| then Finish(w)
      else if ok && plan.tags[i] in store && OffImage(plan, store[plan.tags[i]]) then Goto(w, Load(plan.tags[i]))
      else Goto(w, ScanImages(i + 1))
    case Load(t) =>
      if !ok then Finish(w)
      else Goto(w, Probe(t, t in store, if t in store then store[t].image else ""))
    case Probe(t, exists_, current) =>
      var marked := ok && t in store && store[t].marked;
      var upgrading := IsUpgrading(exists_, plan.image, current, marked);
      if upgrading && !marked then Goto(w, PreGate(t, NodeAlive)) else Goto(w, ActRead(t, upgrading))
    case ActRead(t, upgrading) =>
      var have := ok && t in store;
      var image := if have && !store[t].marked then store[t].image else plan.image;
      Goto(w, ActWrite(t, upgrading, image, have && store[t].marked))
    case _ => w
  }

  predicate OffImage(plan: Plan, s: Sts) {
    s.image != "" && plan.image != "" && s.image != plan.image
  }

  function CheckStep(w: World, pass: bool): World
    requires w.pc.Tick?
  {
    match w.pc.at
    case PreGate(t, g) =>
      if !pass then Finish(w) else
      var v := Happen(w, Passed(Pre, g, t, if g == Databases then t else ""));
      if NextGate(g).Some? then Goto(v, PreGate(t, NextGate(g).value)) else Goto(v, Mark(t))
    case PostGate(t, g) =>
      if !pass then Goto(w, Cleanup(t)) else
      var v := Happen(w, Passed(Post, g, t, ""));
      if NextGate(g).Some? then Goto(v, PostGate(t, NextGate(g).value))
      else Goto(Happen(v, UpgradeReported(t)), Cleanup(t))
    case _ => w
  }

  /** The write at the current point. An error may be reported although the write took effect. */
  function WriteStep(w: World, effect: bool, ok: bool): World
    requires w.pc.Tick?
  {
    match w.pc.at
    case Mark(t) =>
      var v := if (effect || ok) && t in w.store then Happen(w, MarkWritten(t)) else w;
      if ok then Goto(v, ActRead(t, true)) else Goto(v, Cleanup(t))
    case ActWrite(t, upgrading, image, mark) =>
      var v := if effect || ok then Happen(w, SetApplied(t, image, mark)) else w;
      if ok then Goto(v, SvcWrite(t, upgrading)) else if upgrading then Goto(v, Cleanup(t)) else Finish(v)
    case SvcWrite(t, upgrading) =>
      if !upgrading then Finish(w)
      else if ok then Goto(w, PostGate(t, NodeAlive))
      else Goto(w, Cleanup(t))
    case Cleanup(t) =>
      Finish(if (effect || ok) && t in w.store then Happen(w, UnmarkWritten(t)) else w)
    case _ => w
  }

  predicate MayFail(f: Faults, at: Point) {
    match at
    case ScanMarks(_) => f.marks
    case ScanImages(_) => f.images
    case ActRead(_, _) => f.actor
    case _ => true
  }

  function EnvStep(w: World, m: Move): World {
    match m
    case UpdateSpec(n) =>
      if WellFormed(n) && Admission.Admitted(w.spec, n) then Happen(w.(spec := n), SpecUpdated) else w
    case Delete(t) => if t in w.store then Happen(w, SetDeleted(t)) else w
    case Strip(t) => if t in w.store && w.store[t].marked then Happen(w, MarkStripped(t)) else w
    case Crash => Finish(Happen(w, Crashed))
    case _ => w
  }

  /** One step. A move that does not fit the current state changes nothing, so every sequence of
      moves is a run. */
  function Next(f: Faults, w: World, m: Move): World {
    match m
    case Start(gatesBuilt) =>
      if w.pc.Tick? || !gatesBuilt then w
      else Happen(w.(pc := Tick(PlanOf(w.spec), ScanMarks(0))), TickStarted)
    case Read(ok) => if w.pc.Tick? && (ok || MayFail(f, w.pc.at)) then ReadStep(w, ok) else w
    case Check(pass) => if w.pc.Tick? then CheckStep(w, pass) else w
    case Write(effect, ok) => if w.pc.Tick? then WriteStep(w, effect, ok) else w
    case _ => EnvStep(w, m)
  }

  /** The state that a run leads to. */
  function Exec(f: Faults, w: World, ms: seq<Move>): World {
    if ms == [] then w else Next(f, Exec(f, w, ms[..|ms| - 1]), ms[|ms| - 1])
  }

  /** The tick is about to read t's set for an apply, or to apply what that read decided. */
  predicate BeforeActRead(w: World, t: Tag) { w.pc.Tick? && w.pc.at.ActRead? && w.pc.at.tag == t }

  predicate BeforeActWrite(w: World, t: Tag) { w.pc.Tick? && w.pc.at.ActWrite? && w.pc.at.tag == t }

  /** Throughout a run nobody removes t's annotation between the actor's read of the set and the apply
      that this read decides. */
  ghost predicate ApplyUndisturbed(f: Faults, w: World, ms: seq<Move>, t: Tag) {
    forall i | 0 <= i < |ms| && ms[i] == Strip(t) :: !BeforeActWrite(Exec(f, w, ms[..i]), t)
  }

  /** Nor between the mark, or the probe that saw it, and the actor's read. */
  ghost predicate ReadUndisturbed(f: Faults, w: World, ms: seq<Move>, t: Tag) {
    forall i | 0 <= i < |ms| && ms[i] == Strip(t) :: !BeforeActRead(Exec(f, w, ms[..i]), t)
  }

  /** The premises hold of a run's beginning, and of its last step. */
  lemma UndisturbedPrefix(f: Faults, w: World, ms: seq<Move>, t: Tag)
    requires ms != []
    ensures var n := |ms| - 1;
            && (ApplyUndisturbed(f, w, ms, t) ==>
                  && ApplyUndisturbed(f, w, ms[..n], t)
                  && (ms[n] == Strip(t) ==> !BeforeActWrite(Exec(f, w, ms[..n]), t)))
            && (ReadUndisturbed(f, w, ms, t) ==>
                  && ReadUndisturbed(f, w, ms[..n], t)
                  && (ms[n] == Strip(t) ==> !BeforeActRead(Exec(f, w, ms[..n]), t)))
  {
    hide Exec, BeforeActRead, BeforeActWrite;
    var n := |ms| - 1;
    assert forall i | 0 <= i < n :: ms[..n][i] == ms[i] && ms[..n][..i] == ms[..i];
  }

  lemma {:induction false} ExecAppend(f: Faults, w: World, a: seq<Move>, b: seq<Move>)
    ensures Exec(f, w, a + b) == Exec(f, Exec(f, w, a), b)
  {
    hide Next;
    if b == [] {
      assert a + b == a;
    } else {
      var n := |b| - 1;
      assert (a + b)[..|a| + n] == a + b[..n];
      assert (a + b)[|a| + n] == b[n];
      ExecAppend(f, w, a, b[..n]);
    }
  }

  /** Some run leads from one state to the other. */
  ghost predicate Reaches(f: Faults, w: World, v: World) {
    exists ms :: Exec(f, w, ms) == v
  }

  lemma ReachesSelf(f: Faults, w: World)
    ensures Reaches(f, w, w)
  {
    assert Exec(f, w, []) == w;
  }

  lemma ReachesOn(f: Faults, w: World, v: World, u: World)
    requires Reaches(f, w, v) && Reaches(f, v, u)
    ensures Reaches(f, w, u)
  {
    hide Exec;
    var a :| Exec(f, w, a) == v;
    var b :| Exec(f, v, b) == u;
    ExecAppend(f, w, a, b);
  }

  /** One more move. */
  lemma Take(f: Faults, w: World, v: World, m: Move) returns (u: World)
    requires Reaches(f, w, v)
    ensures u == Next(f, v, m) && Reaches(f, w, u)
  {
    hide Next;
    var a :| Exec(f, w, a) == v;
    u := Next(f, v, m);
    assert (a + [m])[..|a|] == a;
    assert Exec(f, w, a + [m]) == u;
  }

  /** Between ticks, with distinct node tags, no upgrade under way and an image in every set. */
  ghost predicate Quiet(w: World) {
    && w.pc == Idle
    && WellFormed(w.spec) && Distinct(Tags(w.spec))
    && NoMarks(w.store)
    && HaveImages(w.store)
  }

  /** A fresh operator: the log begins here. */
  ghost predicate Initial(w: World) { Quiet(w) && w.log == [] }

  ghost predicate HaveImages(store: Store) {
    forall t | t in store :: store[t].image != ""
  }

  /** The node a tick has settled on, from its selection to its end. */
  function Selected(w: World): Option<Tag> {
    if w.pc.Idle? || w.pc.at.ScanMarks? || w.pc.at.ScanMissing? || w.pc.at.ScanImages? then None
    else Some(w.pc.at.tag)
  }

  ghost predicate NoMarks(store: Store) {
    forall t | t in store :: !store[t].marked
  }
}
