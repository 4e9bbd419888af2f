/** With the spec fixed, images change in spec order, and a finished node stays finished. */
module SpecOrder {
  import opened Text
  import opened Api
  import opened Protocol
  import opened InFlight

  ghost predicate Settled(store: Store, t: Tag, image: Image) {
    t in store ==> store[t].image == image
  }

  /** Every node before t in the list is absent or already has the image. */
  ghost predicate EarlierSettled(tags: seq<Tag>, store: Store, image: Image, t: Tag) {
    forall k, p | 0 <= k < p < |tags| && tags[p] == t :: Settled(store, tags[k], image)
  }

  /** Whatever is marked, the nodes before it are done. */
  ghost predicate MarkedInOrder(tags: seq<Tag>, store: Store, image: Image) {
    forall t | t in store && store[t].marked :: EarlierSettled(tags, store, image, t)
  }

  ghost predicate NoMarkAfter(tags: seq<Tag>, store: Store, t: Tag) {
    forall k, p | 0 <= k < p < |tags| && tags[k] == t && tags[p] in store :: !store[tags[p]].marked
  }

  /** While a node is off the image, no node after it is marked. */
  lemma OffImageMeansNoMarkAfter(tags: seq<Tag>, store: Store, image: Image, t: Tag)
    requires t in store && store[t].image != image
    requires MarkedInOrder(tags, store, image)
    ensures NoMarkAfter(tags, store, t)
  {
    forall k, p | 0 <= k < p < |tags| && tags[k] == t && tags[p] in store ensures !store[tags[p]].marked {
      assert !Settled(store, tags[k], image);
      assert store[tags[p]].marked ==> EarlierSettled(tags, store, image, tags[p]);
    }
  }

  ghost predicate OrderAt(store: Store, plan: Plan, at: Point) {
    match at
    case ScanImages(i) => forall k | 0 <= k < i && k < |plan.tags| :: Settled(store, plan.tags[k], plan.image)
    case Load(t) => t in store ==> EarlierSettled(plan.tags, store, plan.image, t)
    case Probe(t, _, _) => t in store ==> EarlierSettled(plan.tags, store, plan.image, t)
    case PreGate(t, _) => t in store ==> EarlierSettled(plan.tags, store, plan.image, t)
    case Mark(t) => t in store ==> EarlierSettled(plan.tags, store, plan.image, t)
    case ActRead(t, _) => t in store ==> EarlierSettled(plan.tags, store, plan.image, t)
    case ActWrite(t, _, image, mark) =>
      && (t in store || mark ==> EarlierSettled(plan.tags, store, plan.image, t))
      && (image == plan.image || (t in store ==> store[t].image == image))
      && (image == plan.image || NoMarkAfter(plan.tags, store, t))
      && image != ""
    case _ => true
  }

  ghost predicate InOrder(w: World) {
    && Planned(w) && HaveImages(w.store)
    && MarkedInOrder(Tags(w.spec), w.store, w.spec.image)
    && (w.pc.Tick? ==> w.pc.plan == PlanOf(w.spec) && OrderAt(w.store, w.pc.plan, w.pc.at))
  }

  lemma OrderEnv(w: World, m: Move)
    requires InOrder(w) && (m.Delete? || m.Strip? || m.Crash?) && Planned(EnvStep(w, m))
    ensures InOrder(EnvStep(w, m))
  {
    hide Planned;
    var v := EnvStep(w, m);
    assert forall u | u in v.store :: u in w.store && v.store[u].image == w.store[u].image
                                      && (v.store[u].marked ==> w.store[u].marked);
    assert forall u, d :: Settled(w.store, u, d) ==> Settled(v.store, u, d);
    assert forall ts, d, u :: EarlierSettled(ts, w.store, d, u) ==> EarlierSettled(ts, v.store, d, u);
  }

  lemma PrefixSettles(tags: seq<Tag>, store: Store, image: Image, i: nat)
    requires Distinct(tags) && i < |tags|
    requires forall k | 0 <= k < i :: Settled(store, tags[k], image)
    ensures EarlierSettled(tags, store, image, tags[i])
  {
  }

  lemma OrderRead(w: World, ok: bool)
    requires InOrder(w) && w.pc.Tick? && (ok || !w.pc.at.ScanImages?) && Planned(ReadStep(w, ok))
    ensures InOrder(ReadStep(w, ok))
  {
    hide WellFormed, EarlierSettled, NoMarkAfter, Distinct;
    if w.pc.at.ScanImages? && w.pc.at.i < |w.pc.plan.tags| {
      PrefixSettles(w.pc.plan.tags, w.store, w.pc.plan.image, w.pc.at.i);
    }
    if w.pc.at.ActRead? && w.pc.at.tag in w.store && w.store[w.pc.at.tag].image != w.pc.plan.image {
      OffImageMeansNoMarkAfter(w.pc.plan.tags, w.store, w.pc.plan.image, w.pc.at.tag);
    }
  }

  /** Writing one set leaves the nodes before it alone. */
  lemma WriteKeepsEarlier(tags: seq<Tag>, store: Store, t: Tag, s: Sts, image: Image)
    requires Distinct(tags) && EarlierSettled(tags, store, image, t)
    ensures EarlierSettled(tags, store[t := s], image, t)
  {
    forall k, p | 0 <= k < p < |tags| && tags[p] == t ensures Settled(store[t := s], tags[k], image) {
      assert Settled(store, tags[k], image);
    }
  }

  /** Nor does it unsettle the nodes before another marked one, if it leaves the set's image alone, or
      makes it the right one, or there is no such node. */
  lemma WriteKeepsOrder(tags: seq<Tag>, store: Store, t: Tag, s: Sts, image: Image, u: Tag)
    requires EarlierSettled(tags, store, image, u) && u != t && u in store && store[u].marked
    requires s.image == image || (t in store && s.image == store[t].image) || NoMarkAfter(tags, store, t)
    ensures EarlierSettled(tags, store[t := s], image, u)
  {
    forall k, p | 0 <= k < p < |tags| && tags[p] == u ensures Settled(store[t := s], tags[k], image) {
      assert Settled(store, tags[k], image);
    }
  }

  /** One set written: what is known of every marked set stays so. */
  lemma MarkedStayOrdered(tags: seq<Tag>, store: Store, t: Tag, s: Sts, image: Image)
    requires Distinct(tags)
    requires MarkedInOrder(tags, store, image)
    requires s.image == image || (t in store && s.image == store[t].image) || NoMarkAfter(tags, store, t)
    requires s.marked ==> EarlierSettled(tags, store, image, t)
    ensures MarkedInOrder(tags, store[t := s], image)
  {
    hide EarlierSettled, NoMarkAfter, Distinct;
    var after := store[t := s];
    forall u | u in after && after[u].marked ensures EarlierSettled(tags, after, image, u) {
      if u == t {
        WriteKeepsEarlier(tags, store, t, s, image);
      } else {
        WriteKeepsOrder(tags, store, t, s, image, u);
      }
    }
  }

  lemma OrderMark(w: World, effect: bool, ok: bool)
    requires InOrder(w) && w.pc.Tick? && w.pc.at.Mark? && Planned(WriteStep(w, effect, ok))
    ensures InOrder(WriteStep(w, effect, ok))
  {
    hide WellFormed, Settled, EarlierSettled, NoMarkAfter, Distinct;
    var t, v := w.pc.at.tag, WriteStep(w, effect, ok);
    if v.store != w.store {
      assert v.store == w.store[t := w.store[t].(marked := true)];
      MarkedStayOrdered(w.pc.plan.tags, w.store, t, w.store[t].(marked := true), w.pc.plan.image);
    }
  }

  lemma OrderCleanup(w: World, effect: bool, ok: bool)
    requires InOrder(w) && w.pc.Tick? && w.pc.at.Cleanup? && Planned(WriteStep(w, effect, ok))
    ensures InOrder(WriteStep(w, effect, ok))
  {
    hide WellFormed, Settled, EarlierSettled, NoMarkAfter, Distinct;
    var t, v := w.pc.at.tag, WriteStep(w, effect, ok);
    if v.store != w.store {
      assert v.store == w.store[t := w.store[t].(marked := false)];
      MarkedStayOrdered(w.pc.plan.tags, w.store, t, w.store[t].(marked := false), w.pc.plan.image);
    }
  }

  lemma OrderApply(w: World, effect: bool, ok: bool)
    requires InOrder(w) && w.pc.Tick? && w.pc.at.ActWrite? && Planned(WriteStep(w, effect, ok))
    ensures InOrder(WriteStep(w, effect, ok))
  {
    hide WellFormed, Settled, EarlierSettled, NoMarkAfter, Distinct;
    var at, v := w.pc.at, WriteStep(w, effect, ok);
    if v.store != w.store {
      assert v.store == w.store[at.tag := v.store[at.tag]];
      MarkedStayOrdered(w.pc.plan.tags, w.store, at.tag, v.store[at.tag], w.pc.plan.image);
    }
  }

  lemma OrderWrite(w: World, effect: bool, ok: bool)
    requires InOrder(w) && w.pc.Tick? && Planned(WriteStep(w, effect, ok))
    ensures InOrder(WriteStep(w, effect, ok))
  {
    hide Planned, EarlierSettled, HaveImages, Effect;
    if w.pc.at.Mark? {
      OrderMark(w, effect, ok);
    } else if w.pc.at.Cleanup? {
      OrderCleanup(w, effect, ok);
    } else if w.pc.at.ActWrite? {
      OrderApply(w, effect, ok);
    }
  }

  lemma OrderStep(f: Faults, w: World, m: Move)
    requires InOrder(w) && !f.images && !m.UpdateSpec?
    ensures InOrder(Next(f, w, m))
  {
    PlannedStep(f, w, m);
    hide Planned, ReadStep, WriteStep, EnvStep, EarlierSettled, Settled;
    match m
    case Start(_) =>
    case Read(ok) => if w.pc.Tick? && (ok || MayFail(f, w.pc.at)) { OrderRead(w, ok); }
    case Check(pass) =>
    case Write(effect, ok) => if w.pc.Tick? { OrderWrite(w, effect, ok); }
    case _ => OrderEnv(w, m);
  }

  ghost predicate SpecFixed(ms: seq<Move>) {
    forall k | 0 <= k < |ms| :: !ms[k].UpdateSpec?
  }

  lemma {:induction false} OrderAlways(f: Faults, w: World, ms: seq<Move>)
    requires Quiet(w) && !f.images && SpecFixed(ms)
    ensures InOrder(Exec(f, w, ms))
    ensures Exec(f, w, ms).spec == w.spec
  {
    hide Next, WellFormed, Distinct, EarlierSettled;
    if ms != [] {
      var v := Exec(f, w, ms[..|ms| - 1]);
      OrderAlways(f, w, ms[..|ms| - 1]);
      OrderStep(f, v, ms[|ms| - 1]);
      SpecKept(f, v, ms[|ms| - 1]);
    }
  }

  lemma SpecKept(f: Faults, w: World, m: Move)
    requires !m.UpdateSpec?
    ensures Next(f, w, m).spec == w.spec
  {
  }

  lemma ImageChangeInOrder(f: Faults, w: World, m: Move, t: Tag)
    requires InOrder(w) && !m.UpdateSpec?
    requires t in w.store && t in Next(f, w, m).store && w.store[t].image != Next(f, w, m).store[t].image
    ensures Next(f, w, m).store[t].image == w.spec.image
    ensures EarlierSettled(Tags(w.spec), w.store, w.spec.image, t)
  {
    hide Planned, EarlierSettled;
  }

  /** Spec-order rollout. While the spec stays as it is, an existing set's image only ever changes to
      the spec's image, and then every node before it in the spec is absent or already has that
      image: through crashes, failed writes and deletions, and even if the scan for marks or the actor fails to
      read a set. */
  lemma SpecOrderRollout(f: Faults, w: World, ms: seq<Move>, m: Move, t: Tag)
    requires Quiet(w) && !f.images && SpecFixed(ms) && !m.UpdateSpec?
    requires var v := Exec(f, w, ms); var u := Next(f, v, m);
             t in v.store && t in u.store && v.store[t].image != u.store[t].image
    ensures Next(f, Exec(f, w, ms), m).store[t].image == w.spec.image
    ensures EarlierSettled(Tags(w.spec), Exec(f, w, ms).store, w.spec.image, t)
  {
    hide Next, Exec, WellFormed, Distinct, EarlierSettled;
    OrderAlways(f, w, ms);
    ImageChangeInOrder(f, Exec(f, w, ms), m, t);
  }

  // ----- a finished node stays finished -----

  predicate Finished(store: Store, t: Tag, image: Image) {
    t in store && store[t] == Sts(image, false)
  }

  ghost predicate SteadyAt(store: Store, plan: Plan, at: Point, t: Tag) {
    match at
    case Probe(u, exists_, current) => u in store ==> current == store[u].image
    case PreGate(u, _) => u in store ==> store[u].image != plan.image
    case Mark(u) => u in store ==> store[u].image != plan.image
    case ActWrite(u, _, image, mark) =>
      && (u == t && mark ==> t in store && store[t].marked)
      && (image == plan.image || (u in store && store[u].image == image))
    case _ => true
  }

  /** What a tick has read is still so, when nobody else deletes sets or changes the spec. */
  ghost predicate Steady(w: World, t: Tag) {
    w.pc.Tick? ==> w.pc.plan == PlanOf(w.spec) && SteadyAt(w.store, w.pc.plan, w.pc.at, t)
  }

  predicate Undisturbed(m: Move) { !m.UpdateSpec? && !m.Delete? }

  lemma SteadyStep(f: Faults, w: World, m: Move, t: Tag)
    requires Steady(w, t) && Undisturbed(m) && (m == Strip(t) ==> !BeforeActWrite(w, t))
    ensures Steady(Next(f, w, m), t) && Next(f, w, m).spec == w.spec
    ensures Finished(w.store, t, w.spec.image) ==> Finished(Next(f, w, m).store, t, w.spec.image)
  {
    hide ReadStep, WriteStep;
    match m
    case Read(ok) => if w.pc.Tick? && (ok || MayFail(f, w.pc.at)) { SteadyRead(w, ok, t); }
    case Write(effect, ok) => if w.pc.Tick? { SteadyWrite(w, effect, ok, t); }
    case _ =>
  }

  lemma SteadyRead(w: World, ok: bool, t: Tag)
    requires Steady(w, t) && w.pc.Tick?
    ensures Steady(ReadStep(w, ok), t) && ReadStep(w, ok).spec == w.spec && ReadStep(w, ok).store == w.store
  {
    hide PlanOf;
  }

  lemma SteadyWrite(w: World, effect: bool, ok: bool, t: Tag)
    requires Steady(w, t) && w.pc.Tick?
    ensures var v := WriteStep(w, effect, ok);
            && Steady(v, t) && v.spec == w.spec
            && (Finished(w.store, t, w.pc.plan.image) ==> Finished(v.store, t, w.pc.plan.image))
  {
    hide PlanOf;
  }

  /** Progress is never lost: with the spec fixed and no deletions, no step of any run, failing or not,
      and no crash makes a finished node unfinished. */
  lemma {:induction false} FinishedStaysFinished(f: Faults, w: World, ms: seq<Move>, t: Tag)
    requires Steady(w, t) && (forall k | 0 <= k < |ms| :: Undisturbed(ms[k])) && ApplyUndisturbed(f, w, ms, t)
    requires Finished(w.store, t, w.spec.image)
    ensures Steady(Exec(f, w, ms), t) && Exec(f, w, ms).spec == w.spec
    ensures Finished(Exec(f, w, ms).store, t, w.spec.image)
  {
    hide Next, Steady, Finished, ApplyUndisturbed;
    if ms != [] {
      UndisturbedPrefix(f, w, ms, t);
      FinishedStaysFinished(f, w, ms[..|ms| - 1], t);
      SteadyStep(f, Exec(f, w, ms[..|ms| - 1]), ms[|ms| - 1], t);
    }
  }
}
