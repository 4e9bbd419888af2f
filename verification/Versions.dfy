/** No node's version ever goes down, over every interleaving of ticks, crashes, failed reads and
    writes, deletions and admitted spec updates. */
module Versions {
  import opened Text
  import opened Api
  import opened Protocol
  import opened InFlight
  import Images
  import Admission

  /** Stored images, the image of the tick's plan and the spec's image are ordered by version. */
  ghost predicate Ordered(w: World) {
    && Planned(w)
    && (forall t | t in w.store :: Images.NotNewer(w.store[t].image, w.spec.image))
    && (w.pc.Tick? ==> PlanOrdered(w))
  }

  ghost predicate PlanOrdered(w: World)
    requires w.pc.Tick?
  {
    && Images.NotNewer(w.pc.plan.image, w.spec.image)
    && (forall t | t in w.store :: Images.NotNewer(w.store[t].image, w.pc.plan.image))
    && (w.pc.at.ActWrite? ==>
          && Images.NotNewer(w.pc.at.image, w.pc.plan.image)
          && (w.pc.at.tag in w.store ==> w.pc.at.image == w.store[w.pc.at.tag].image || w.pc.at.image == w.pc.plan.image))
  }

  lemma OrderedSpecUpdate(w: World, n: ClusterSpec)
    requires Ordered(w) && WellFormed(n) && Admission.Admitted(w.spec, n)
    requires Planned(Happen(w.(spec := n), SpecUpdated))
    ensures Ordered(Happen(w.(spec := n), SpecUpdated))
  {
    hide Admission.Admitted, WellFormed, Images.NotNewer;
    Admission.AdmittedUpdate(w.spec, n);
    forall t | t in w.store ensures Images.NotNewer(w.store[t].image, n.image) {
      Images.NotNewerTransitive(w.store[t].image, w.spec.image, n.image);
    }
    if w.pc.Tick? {
      Images.NotNewerTransitive(w.pc.plan.image, w.spec.image, n.image);
    }
  }

  lemma OrderedWrite(w: World, effect: bool, ok: bool)
    requires Ordered(w) && w.pc.Tick? && Planned(WriteStep(w, effect, ok))
    ensures Ordered(WriteStep(w, effect, ok))
  {
    hide Images.NotNewer, Planned;
    if w.pc.at.ActWrite? {
      Images.NotNewerTransitive(w.pc.at.image, w.pc.plan.image, w.spec.image);
    }
  }

  lemma OrderedRead(w: World, ok: bool)
    requires Ordered(w) && w.pc.Tick? && Planned(ReadStep(w, ok))
    ensures Ordered(ReadStep(w, ok))
  {
    hide Images.NotNewer, Planned;
    Images.NotNewerReflexive(w.pc.plan.image);
  }

  lemma OrderedStep(f: Faults, w: World, m: Move)
    requires Ordered(w)
    ensures Ordered(Next(f, w, m))
  {
    hide Images.NotNewer, Admission.Admitted, WellFormed, Distinct, ReadStep, WriteStep, Planned;
    PlannedStep(f, w, m);
    match m
    case Start(_) => Images.NotNewerReflexive(w.spec.image);
    case Read(ok) => if w.pc.Tick? && (ok || MayFail(f, w.pc.at)) { OrderedRead(w, ok); }
    case Check(pass) =>
    case Write(effect, ok) => if w.pc.Tick? { OrderedWrite(w, effect, ok); }
    case UpdateSpec(n) =>
      if WellFormed(n) && Admission.Admitted(w.spec, n) { OrderedSpecUpdate(w, n); }
    case _ =>
  }

  /** The image v is a lower bound for node t, now and whatever the running tick does next. */
  ghost predicate Floor(w: World, t: Tag, v: Image) {
    && Images.NotNewer(v, w.spec.image)
    && (t in w.store ==> Images.NotNewer(v, w.store[t].image))
    && (w.pc.Tick? ==>
          && Images.NotNewer(v, w.pc.plan.image)
          && (w.pc.at.ActWrite? && w.pc.at.tag == t ==> Images.NotNewer(v, w.pc.at.image)))
  }

  lemma FloorSpecUpdate(w: World, n: ClusterSpec, t: Tag, v: Image)
    requires Planned(w) && Floor(w, t, v) && WellFormed(n) && Admission.Admitted(w.spec, n)
    ensures Floor(Happen(w.(spec := n), SpecUpdated), t, v)
  {
    hide Images.NotNewer, Admission.Admitted, WellFormed, Distinct;
    Admission.AdmittedUpdate(w.spec, n);
    Images.NotNewerTransitive(v, w.spec.image, n.image);
  }

  lemma FloorRead(w: World, ok: bool, t: Tag, v: Image)
    requires Floor(w, t, v) && w.pc.Tick?
    ensures Floor(ReadStep(w, ok), t, v)
  {
    hide Images.NotNewer;
  }

  lemma FloorWrite(w: World, effect: bool, ok: bool, t: Tag, v: Image)
    requires Floor(w, t, v) && w.pc.Tick?
    ensures Floor(WriteStep(w, effect, ok), t, v)
  {
    hide Images.NotNewer;
  }

  lemma FloorStep(f: Faults, w: World, m: Move, t: Tag, v: Image)
    requires Planned(w) && Floor(w, t, v)
    ensures Floor(Next(f, w, m), t, v)
  {
    hide Images.NotNewer, Admission.Admitted, WellFormed, Planned, ReadStep, WriteStep;
    match m
    case Start(_) =>
    case Read(ok) => if w.pc.Tick? { FloorRead(w, ok, t, v); }
    case Check(pass) =>
    case Write(effect, ok) => if w.pc.Tick? { FloorWrite(w, effect, ok, t, v); }
    case UpdateSpec(n) =>
      if WellFormed(n) && Admission.Admitted(w.spec, n) { FloorSpecUpdate(w, n, t, v); }
    case _ =>
  }

  lemma {:induction false} OrderedAlways(f: Faults, w: World, ms: seq<Move>)
    requires Ordered(w)
    ensures Ordered(Exec(f, w, ms))
  {
    hide Next, Ordered;
    if ms != [] {
      OrderedAlways(f, w, ms[..|ms| - 1]);
      OrderedStep(f, Exec(f, w, ms[..|ms| - 1]), ms[|ms| - 1]);
    }
  }

  lemma {:induction false} FloorAlways(f: Faults, w: World, ms: seq<Move>, t: Tag, v: Image)
    requires Planned(w) && Floor(w, t, v)
    ensures Planned(Exec(f, w, ms)) && Floor(Exec(f, w, ms), t, v)
  {
    hide Next, Planned, Floor;
    if ms != [] {
      FloorAlways(f, w, ms[..|ms| - 1], t, v);
      PlannedStep(f, Exec(f, w, ms[..|ms| - 1]), ms[|ms| - 1]);
      FloorStep(f, Exec(f, w, ms[..|ms| - 1]), ms[|ms| - 1], t, v);
    }
  }

  /** In every state of every run the stored versions are at most the version of the running tick's
      plan, and that is at most the version of the spec. Any read may fail. */
  lemma StoredPlanSpecOrdered(f: Faults, w: World, ms: seq<Move>)
    requires Initial(w)
    requires forall t | t in w.store :: Images.NotNewer(w.store[t].image, w.spec.image)
    ensures Ordered(Exec(f, w, ms))
  {
    hide Next, Exec, WellFormed, Distinct, Images.NotNewer;
    OrderedAlways(f, w, ms);
  }

  /** Versions never go down: between any two moments of a run at which a node's set exists, its
      version does not decrease, even if the set was deleted and created again in between. */
  lemma VersionsNeverDecrease(f: Faults, w: World, ms: seq<Move>, more: seq<Move>, t: Tag)
    requires Initial(w)
    requires forall u | u in w.store :: Images.NotNewer(w.store[u].image, w.spec.image)
    requires t in Exec(f, w, ms).store && t in Exec(f, w, ms + more).store
    ensures Images.NotNewer(Exec(f, w, ms).store[t].image, Exec(f, w, ms + more).store[t].image)
  {
    hide Next, Exec, WellFormed, Distinct, Images.NotNewer;
    OrderedAlways(f, w, ms);
    var v := Exec(f, w, ms);
    Images.NotNewerReflexive(v.store[t].image);
    assert Floor(v, t, v.store[t].image);
    FloorAlways(f, v, more, t, v.store[t].image);
    ExecAppend(f, w, ms, more);
  }
}
