/** What the premises of the safety theorems are needed for: runs that break the conclusion when a
    premise is dropped, from every state that gives them the chance. */
module Limits {
  import opened Text
  import opened Api
  import opened Protocol
  import opened InFlight
  import opened Rollout
  import opened Convergence

  /** Every set is there to be upgraded as far as the scan for missing ones can tell. */
  ghost function Absent(plan: Plan, store: Store): set<Tag> { set t | t in plan.tags && t !in store }

  /** A tick in which nothing fails but the given reads, and the removal of the mark at the end. */
  function LeaveMark(u: Unread): Script { CLEAN.(unread := u, cleanup := Lost) }

  lemma LeaveMarkWork(plan: Plan, store: Store, u: Unread, t: Tag)
    requires t in store && !store[t].marked && OffImage(plan, store[t])
    ensures WorkOn(plan, store, LeaveMark(u), t).store == store[t := Sts(plan.image, true)]
  {
    hide Passes, Logged;
  }

  /** A tick that passes over the marked and the missing nodes, and over some others, chooses the first
      outdated one that is left. */
  lemma ChooseOutdated(plan: Plan, store: Store, u: Unread, k: nat)
    requires k < |plan.tags| && plan.tags[k] in store && OffImage(plan, store[plan.tags[k]]) && plan.tags[k] !in u.images
    requires forall j | 0 <= j < |plan.tags| && plan.tags[j] in store && store[plan.tags[j]].marked :: plan.tags[j] in u.marks
    requires u.missing == Absent(plan, store)
    requires forall j | 0 <= j < k && plan.tags[j] in store && OffImage(plan, store[plan.tags[j]]) :: plan.tags[j] in u.images
    ensures Choose(plan, store, u) == Some(plan.tags[k])
  {
    hide OffImage;
    assert FirstOf(Marked, plan, store, u) == |plan.tags|;
    assert FirstOf(Missing, plan, store, u) == |plan.tags|;
    assert FirstOf(Outdated, plan, store, u) == k;
  }

  lemma LeaveMarkTick(plan: Plan, store: Store, u: Unread, k: nat)
    requires Distinct(plan.tags) && k < |plan.tags| && plan.tags[k] in store && !store[plan.tags[k]].marked
    requires Choose(plan, store, u) == Some(plan.tags[k]) && OffImage(plan, store[plan.tags[k]])
    ensures TickResult(plan, store, LeaveMark(u)).store == store[plan.tags[k] := Sts(plan.image, true)]
  {
    hide Choose, WorkOn;
    LeaveMarkWork(plan, store, u, plan.tags[k]);
  }

  /** Two nodes of a list to be upgraded. */
  ghost predicate BothOutdated(w: World, j: nat, k: nat) {
    && j < k < |Tags(w.spec)|
    && forall i | i == j || i == k :: Tags(w.spec)[i] in w.store && OffImage(PlanOf(w.spec), w.store[Tags(w.spec)[i]])
  }

  /** The two ticks, on two outdated nodes with no other outdated node before the second. */
  lemma TwoMarks(plan: Plan, store: Store, a: nat, b: nat) returns (x: Unread, y: Unread)
    requires Distinct(plan.tags) && NoMarks(store) && a < b < |plan.tags|
    requires forall i | 0 <= i <= b :: Wanted(Outdated, plan, store, plan.tags[i]) <==> i == a || i == b
    ensures x.marks == x.images == y.images == {}
    ensures var once := TickResult(plan, store, LeaveMark(x)).store;
            TickResult(plan, once, LeaveMark(y)).store ==
            store[plan.tags[a] := Sts(plan.image, true)][plan.tags[b] := Sts(plan.image, true)]
  {
    var t, u := plan.tags[a], plan.tags[b];
    assert Wanted(Outdated, plan, store, t) && Wanted(Outdated, plan, store, u);
    hide TickResult, Choose;
    x := Unread({}, Absent(plan, store), {});
    ChooseOutdated(plan, store, x, a);
    LeaveMarkTick(plan, store, x, a);
    var once := store[t := Sts(plan.image, true)];
    y := Unread({t}, Absent(plan, once), {});
    ChooseOutdated(plan, once, y, b);
    LeaveMarkTick(plan, once, y, b);
  }

  /** If the scan for marks may fail to read a set, then from every state between ticks with no marks and
      two outdated nodes, two ticks that do not get to remove their mark leave two sets marked. */
  lemma FaultyMarkScanMarksTwo(f: Faults, w: World, j: nat, k: nat) returns (v: World)
    requires f.marks && Quiet(w) && BothOutdated(w, j, k)
    ensures Reaches(f, w, v) && !AtMostOneMark(v.store)
  {
    var plan := PlanOf(w.spec);
    assert Wanted(Outdated, plan, w.store, plan.tags[j]) && Wanted(Outdated, plan, w.store, plan.tags[k]);
    hide Reaches, WellFormed, OffImage, Wanted, TickResult, HaveImages, NoMarks;
    var a := First(Outdated, plan, w.store, {}, 0);
    var b := First(Outdated, plan, w.store, {}, a + 1);
    var x, y := TwoMarks(plan, w.store, a, b);
    v := TickIsARun(f, w, LeaveMark(x));
    var z := TickIsARun(f, v, LeaveMark(y));
    ReachesOn(f, w, v, z);
    v := z;
    var t, u := plan.tags[a], plan.tags[b];
    assert t != u && v.store[t].marked && v.store[u].marked;
  }

  /** So single in-flight holds of all runs if and only if the scan for marks reads truthfully. */
  lemma SingleInFlightIff(f: Faults, w: World, j: nat, k: nat)
    requires Quiet(w) && BothOutdated(w, j, k)
    ensures (forall ms :: AtMostOneMark(Exec(f, w, ms).store)) <==> !f.marks
  {
    hide Quiet, BothOutdated, AtMostOneMark, Exec;
    if f.marks {
      var v := FaultyMarkScanMarksTwo(f, w, j, k);
      var ms :| Exec(f, w, ms) == v;
      assert !AtMostOneMark(Exec(f, w, ms).store);
    } else {
      forall ms ensures AtMostOneMark(Exec(f, w, ms).store) {
        SingleInFlight(f, w, ms);
      }
    }
  }

  /** A tick chooses an outdated node, passes the gates and comes to the actor's read. */
  lemma ReachAct(f: Faults, w: World, x: Unread, k: nat) returns (u: World)
    requires w.pc == Idle && (x.marks != {} ==> f.marks) && (x.images != {} ==> f.images) && k < |Tags(w.spec)|
    requires var plan := PlanOf(w.spec); var t := plan.tags[k];
             Choose(plan, w.store, x) == Some(t) && t in w.store && !w.store[t].marked && OffImage(plan, w.store[t])
    ensures Reaches(f, w, u)
    ensures var t := Tags(w.spec)[k];
            && u.spec == w.spec && u.store == w.store[t := w.store[t].(marked := true)]
            && u.pc == Tick(PlanOf(w.spec), ActRead(t, true))
  {
    hide Reaches, Choose;
    u := ChooseRun(f, w, x);
    u := Take(f, w, u, Read(true));
    u := Take(f, w, u, Read(true));
    u := PreGatesRun(f, w, u, 3);
    u := Take(f, w, u, Write(true, true));
  }

  /** The next write changes the image of node t. */
  ghost predicate RollsNext(f: Faults, u: World, v: World, t: Tag) {
    v == Next(f, u, Write(true, true)) && t in u.store && t in v.store && u.store[t].image != v.store[t].image
  }

  /** If the scan for outdated sets may fail to read one, then from every state between ticks with no
      marks and two outdated nodes, a tick in which nothing else fails rolls the later node while the
      earlier one is outdated, for a spec that stays as it is. */
  lemma FaultyImageScanBreaksOrder(f: Faults, w: World, j: nat, k: nat) returns (u: World, v: World)
    requires f.images && Quiet(w) && BothOutdated(w, j, k)
    ensures Reaches(f, w, u) && u.spec == w.spec && RollsNext(f, u, v, Tags(w.spec)[k])
    ensures var t := Tags(w.spec)[j]; t in u.store && u.store[t].image != w.spec.image
  {
    var plan := PlanOf(w.spec);
    hide Reaches, WellFormed, Choose;
    var x := Unread({}, Absent(plan, w.store), set i | 0 <= i < k :: plan.tags[i]);
    ChooseOutdated(plan, w.store, x, k);
    u := ReachAct(f, w, x, k);
    u := Take(f, w, u, Read(true));
    v := Next(f, u, Write(true, true));
    assert plan.tags[j] != plan.tags[k];
  }

  /** If the actor's read may fail, and a third party removes the mark before that read, the image of an
      unmarked set changes: the one premise of the freeze, for an actor that may fail to read. */
  lemma StripBeforeFailedReadThaws(f: Faults, w: World, k: nat) returns (u: World, v: World)
    requires f.actor && Quiet(w) && k < |Tags(w.spec)|
    requires var plan := PlanOf(w.spec); var t := plan.tags[k];
             Pick(plan, w.store) == Some(t) && t in w.store && OffImage(plan, w.store[t])
    ensures Reaches(f, w, u) && RollsNext(f, u, v, Tags(w.spec)[k]) && !u.store[Tags(w.spec)[k]].marked
  {
    hide Reaches, WellFormed, Choose;
    u := ReachAct(f, w, ALL_READ, k);
    u := Take(f, w, u, Strip(Tags(w.spec)[k]));
    u := Take(f, w, u, Read(false));
    v := Next(f, u, Write(true, true));
  }

  /** If a third party removes the mark between the actor's read and its apply, the image of an unmarked
      set changes although every read is truthful. */
  lemma StripBeforeApplyThaws(f: Faults, w: World, k: nat) returns (u: World, v: World)
    requires Quiet(w) && k < |Tags(w.spec)|
    requires var plan := PlanOf(w.spec); var t := plan.tags[k];
             Pick(plan, w.store) == Some(t) && t in w.store && OffImage(plan, w.store[t])
    ensures Reaches(f, w, u) && RollsNext(f, u, v, Tags(w.spec)[k]) && !u.store[Tags(w.spec)[k]].marked
  {
    hide Reaches, WellFormed, Choose;
    u := ReachAct(f, w, ALL_READ, k);
    u := Take(f, w, u, Read(true));
    u := Take(f, w, u, Strip(Tags(w.spec)[k]));
    v := Next(f, u, Write(true, true));
  }
}
