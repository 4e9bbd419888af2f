/** The rollout converges in exactly as many error-free ticks as there are unfinished nodes, whatever
    fails in between, and which node the tick after a failed one works on. */
module Convergence {
  import opened Text
  import opened Api
  import opened Protocol
  import opened SpecOrder
  import opened Rollout
  import opened InFlight

  ghost function Unfinished(plan: Plan, store: Store): set<Tag> {
    set t | t in plan.tags && !Finished(store, t, plan.image)
  }

  /** Distinct tags, and images everywhere. */
  ghost predicate Sound(plan: Plan, store: Store) {
    Distinct(plan.tags) && plan.image != "" && HaveImages(store)
  }

  const CLEAN := Script(true, ALL_READ, true, true, 3, Done, true, Done, true, 3, Done)

  /** Nothing fails in this tick. */
  predicate ErrorFree(s: Script) { s.(pre := 3, post := 3) == CLEAN && s.pre >= 3 && s.post >= 3 }

  // ----- selection -----

  /** The first reason to work on a node, if there is one. */
  function ReasonFor(plan: Plan, store: Store, t: Tag): Option<Kind> {
    if Wanted(Marked, plan, store, t) then Some(Marked)
    else if Wanted(Missing, plan, store, t) then Some(Missing)
    else if Wanted(Outdated, plan, store, t) then Some(Outdated)
    else None
  }

  function Rank(kind: Kind): nat { match kind case Marked => 0 case Missing => 1 case Outdated => 2 }

  /** Node k is worked on before node j: for a better reason, or for the same one earlier in the spec. */
  predicate Precedes(a: Kind, k: nat, b: Kind, j: nat) { Rank(a) < Rank(b) || (a == b && k < j) }

  /** No node but the k-th itself comes before a k-th node that is wanted for the given reason. */
  ghost predicate Foremost(plan: Plan, store: Store, k: nat, kind: Kind) {
    forall j | 0 <= j < |plan.tags| && j != k && ReasonFor(plan, store, plan.tags[j]).Some? ::
      Precedes(kind, k, ReasonFor(plan, store, plan.tags[j]).value, j)
  }

  /** The selection is the minimum: a node is picked if and only if there is a reason to work on it and
      no other node comes before it. */
  lemma PickIsForemost(plan: Plan, store: Store, k: nat)
    requires Distinct(plan.tags) && k < |plan.tags|
    ensures Pick(plan, store) == Some(plan.tags[k]) <==>
              var r := ReasonFor(plan, store, plan.tags[k]); r.Some? && Foremost(plan, store, k, r.value)
  {
    hide Wanted;
    assert forall j | 0 <= j < |plan.tags| && plan.tags[j] == plan.tags[k] :: j == k;
    var r := ReasonFor(plan, store, plan.tags[k]);
    if r.Some? && Foremost(plan, store, k, r.value) {
      FirstIsForemost(plan, store, k, r.value);
    } else if Pick(plan, store) == Some(plan.tags[k]) {
      PickedIsForemost(plan, store, k);
    }
  }

  lemma FirstIsForemost(plan: Plan, store: Store, k: nat, kind: Kind)
    requires Distinct(plan.tags) && k < |plan.tags|
    requires ReasonFor(plan, store, plan.tags[k]) == Some(kind) && Foremost(plan, store, k, kind)
    ensures Pick(plan, store) == Some(plan.tags[k])
  {
    hide Wanted;
    forall other, j | 0 <= j < |plan.tags| && j != k && Wanted(other, plan, store, plan.tags[j]) && Rank(other) <= Rank(kind)
      ensures other == kind && k < j
    {
      assert ReasonFor(plan, store, plan.tags[j]).Some?;
    }
    assert forall other | Rank(other) < Rank(kind) :: FirstOf(other, plan, store, ALL_READ) == |plan.tags|;
    assert FirstOf(kind, plan, store, ALL_READ) == k;
  }

  lemma PickedIsForemost(plan: Plan, store: Store, k: nat)
    requires Distinct(plan.tags) && k < |plan.tags| && Pick(plan, store) == Some(plan.tags[k])
    ensures var r := ReasonFor(plan, store, plan.tags[k]); r.Some? && Foremost(plan, store, k, r.value)
  {
    hide Wanted;
  }

  /** A tick chooses an unfinished node, whatever it fails to read. When it reads everything, it chooses
      none exactly when all are finished. */
  lemma ChosenIsUnfinished(plan: Plan, store: Store, u: Unread)
    requires Sound(plan, store)
    ensures Choose(plan, store, u).Some? ==> Choose(plan, store, u).value in Unfinished(plan, store)
    ensures Pick(plan, store).None? <==> Unfinished(plan, store) == {}
  {
    if Pick(plan, store).None? {
      forall t | t in plan.tags ensures Finished(store, t, plan.image) {
        var k :| 0 <= k < |plan.tags| && plan.tags[k] == t;
        assert !Wanted(Marked, plan, store, plan.tags[k]) && !Wanted(Missing, plan, store, plan.tags[k])
               && !Wanted(Outdated, plan, store, plan.tags[k]);
      }
      assert Unfinished(plan, store) == {};
    }
  }

  // ----- one tick -----

  /** Nothing but t's set differs, t's set is not lost, and every set has an image. */
  ghost predicate OnlyAt(store: Store, after: Store, t: Tag) {
    && HaveImages(after)
    && (t in store ==> t in after)
    && (forall u | u != t :: (u in after <==> u in store) && (u in store ==> after[u] == store[u]))
  }

  lemma WrittenAt(store: Store, now: Store, how: Writing, e: Entry, t: Tag)
    requires OnlyAt(store, now, t) && IsWrite(e) && e.tag == t && (e.SetApplied? ==> e.image != "")
    ensures OnlyAt(store, Written(now, how, e), t)
  {
  }

  lemma ApplyAt(plan: Plan, store: Store, now: Store, s: Script, t: Tag, upgrading: bool)
    requires plan.image != "" && OnlyAt(store, now, t)
    ensures OnlyAt(store, ApplyNode(plan, now, s, t, upgrading).store, t)
  {
    var e := Desired(plan, now, t, s.actor);
    assert e.SetApplied? && e.tag == t && e.image != "";
    hide OnlyAt, Written, Desired;
    WrittenAt(store, now, s.sts, e, t);
    WrittenAt(store, Written(now, s.sts, e), s.cleanup, UnmarkWritten(t), t);
  }

  /** Work on one node changes that node's set at most. */
  lemma WorkOnOne(plan: Plan, store: Store, s: Script, t: Tag)
    requires plan.image != "" && HaveImages(store)
    ensures OnlyAt(store, WorkOn(plan, store, s, t).store, t)
  {
    assert OnlyAt(store, store, t);
    hide OnlyAt, Written, ApplyNode;
    var after := Written(store, s.mark, MarkWritten(t));
    WrittenAt(store, store, s.mark, MarkWritten(t), t);
    WrittenAt(store, after, s.cleanup, UnmarkWritten(t), t);
    ApplyAt(plan, store, after, s, t, true);
    ApplyAt(plan, store, store, s, t, true);
    ApplyAt(plan, store, store, s, t, false);
  }

  /** No tick, whatever fails in it, undoes a finished node. */
  lemma TickKeepsFinished(plan: Plan, store: Store, s: Script)
    requires Sound(plan, store)
    ensures Unfinished(plan, TickResult(plan, store, s).store) <= Unfinished(plan, store)
    ensures Sound(plan, TickResult(plan, store, s).store)
  {
    hide Choose, WorkOn;
    if s.build && Choose(plan, store, s.unread).Some? {
      var t := Choose(plan, store, s.unread).value;
      WorkOnOne(plan, store, s, t);
      ChosenIsUnfinished(plan, store, s.unread);
      var after := TickResult(plan, store, s).store;
      forall u | u in Unfinished(plan, after) ensures u in Unfinished(plan, store) {
        if u != t {
          assert Finished(after, u, plan.image) == Finished(store, u, plan.image);
        }
      }
    }
  }

  /** An error-free tick finishes the node that it selects. */
  lemma CleanWork(plan: Plan, store: Store, s: Script, t: Tag)
    requires ErrorFree(s) && plan.image != "" && HaveImages(store) && !Finished(store, t, plan.image)
    ensures WorkOn(plan, store, s, t).store == store[t := Sts(plan.image, false)]
  {
    hide Passes;
  }

  /** An error-free tick finishes exactly one node, or changes nothing when all are finished. */
  lemma CleanTick(plan: Plan, store: Store, s: Script)
    requires Sound(plan, store) && ErrorFree(s)
    ensures var after := TickResult(plan, store, s).store;
            && Sound(plan, after)
            && |Unfinished(plan, after)| == (if Unfinished(plan, store) == {} then 0 else |Unfinished(plan, store)| - 1)
            && (Unfinished(plan, store) == {} ==> after == store)
  {
    hide Choose, WorkOn;
    ChosenIsUnfinished(plan, store, ALL_READ);
    if Pick(plan, store).Some? {
      var t := Pick(plan, store).value;
      CleanWork(plan, store, s, t);
      var after := TickResult(plan, store, s).store;
      assert Unfinished(plan, after) == Unfinished(plan, store) - {t};
    }
  }

  // ----- many ticks -----

  /** The store after a sequence of ticks, and how each ended. */
  function TicksStore(plan: Plan, store: Store, ss: seq<Script>): Store {
    if ss == [] then store else TickResult(plan, TicksStore(plan, store, ss[..|ss| - 1]), ss[|ss| - 1]).store
  }

  function OutcomeAt(plan: Plan, store: Store, ss: seq<Script>, i: nat): Outcome
    requires i < |ss|
  {
    TickResult(plan, TicksStore(plan, store, ss[..i]), ss[i]).outcome
  }

  function CleanTicksIn(ss: seq<Script>): nat {
    if ss == [] then 0 else CleanTicksIn(ss[..|ss| - 1]) + if ErrorFree(ss[|ss| - 1]) then 1 else 0
  }

  function Minus(a: nat, b: nat): nat { if b <= a then a - b else 0 }

  /** Convergence. Of k unfinished nodes, at most k - n are left after any sequence of ticks of which n
      are free of errors, wherever these come and whatever fails in the others. If all are free of
      errors, exactly k - n are left: one node is finished per tick. */
  lemma {:induction false} Converges(plan: Plan, store: Store, ss: seq<Script>)
    requires Sound(plan, store)
    ensures Sound(plan, TicksStore(plan, store, ss))
    ensures |Unfinished(plan, TicksStore(plan, store, ss))| <= Minus(|Unfinished(plan, store)|, CleanTicksIn(ss))
    ensures CleanTicksIn(ss) <= |ss|
    ensures CleanTicksIn(ss) == |ss| ==>
              |Unfinished(plan, TicksStore(plan, store, ss))| == Minus(|Unfinished(plan, store)|, |ss|)
  {
    hide TickResult, Sound, ErrorFree;
    if ss != [] {
      var n := |ss| - 1;
      Converges(plan, store, ss[..n]);
      var before := TicksStore(plan, store, ss[..n]);
      if ErrorFree(ss[n]) {
        CleanTick(plan, before, ss[n]);
        assert Unfinished(plan, before) == {} <==> |Unfinished(plan, before)| == 0;
      } else {
        TickKeepsFinished(plan, before, ss[n]);
        Fewer(Unfinished(plan, TicksStore(plan, store, ss)), Unfinished(plan, before));
      }
    }
  }

  lemma Fewer(a: set<Tag>, b: set<Tag>)
    requires a <= b
    ensures |a| <= |b|
  {
    assert b == a + (b - a);
  }

  /** When all nodes are finished, further error-free ticks leave every set as it is. */
  lemma {:induction false} FinishedIsStable(plan: Plan, store: Store, ss: seq<Script>)
    requires Sound(plan, store) && Unfinished(plan, store) == {} && CleanTicksIn(ss) == |ss|
    ensures TicksStore(plan, store, ss) == store
  {
    hide TickResult, Sound, ErrorFree;
    if ss != [] {
      var n := |ss| - 1;
      Converges(plan, store, ss[..n]);
      FinishedIsStable(plan, store, ss[..n]);
      CleanTick(plan, store, ss[n]);
    }
  }

  /** Any sequence of ticks is a run of the machine, if the machine allows their failures. */
  lemma {:induction false} TicksAreARun(f: Faults, w: World, ss: seq<Script>) returns (u: World)
    requires w.pc == Idle && forall i | 0 <= i < |ss| :: Allows(f, ss[i])
    ensures Reaches(f, w, u) && u.pc == Idle && u.spec == w.spec
    ensures u.store == TicksStore(PlanOf(w.spec), w.store, ss)
  {
    hide Reaches, TickResult, Allows;
    if ss == [] {
      ReachesSelf(f, w);
      u := w;
    } else {
      var v := TicksAreARun(f, w, ss[..|ss| - 1]);
      u := TickIsARun(f, v, ss[|ss| - 1]);
      ReachesOn(f, w, v, u);
    }
  }

  /** So whatever fails in however many ticks, at most one set is left marked, as long as the scans for
      marks can read every set. */
  lemma TicksLeaveOneMark(w: World, ss: seq<Script>)
    requires Quiet(w) && forall i | 0 <= i < |ss| :: ss[i].unread.marks == {}
    ensures AtMostOneMark(TicksStore(PlanOf(w.spec), w.store, ss))
  {
    hide WellFormed, Distinct, Exec;
    var f := Faults(false, true, true);
    var u := TicksAreARun(f, w, ss);
    var ms :| Exec(f, w, ms) == u;
    SingleInFlight(f, w, ms);
  }

  // ----- after a failed tick -----

  lemma PreFailureChangesNothing(plan: Plan, store: Store, s: Script)
    requires TickResult(plan, store, s).outcome.PreFailed?
    ensures TickResult(plan, store, s).store == store
    ensures Choose(plan, store, s.unread) == Some(TickResult(plan, store, s).outcome.tag)
  {
    hide Choose, Passes;
  }

  /** Over any number of ticks whose pre-gates fail, every tick works on the same node and no set
      changes. */
  lemma {:induction false} PreGateResume(plan: Plan, store: Store, ss: seq<Script>, i: nat)
    requires i < |ss| && forall j | 0 <= j <= i :: ss[j].unread == ALL_READ
    requires forall j | 0 <= j <= i :: OutcomeAt(plan, store, ss, j).PreFailed?
    ensures TicksStore(plan, store, ss[..i + 1]) == store
    ensures Some(OutcomeAt(plan, store, ss, i).tag) == Pick(plan, store)
  {
    hide TickResult, Choose;
    if i > 0 {
      PreGateResume(plan, store, ss, i - 1);
    } else {
      assert ss[..0] == [];
    }
    assert ss[..i + 1][..i] == ss[..i];
    assert OutcomeAt(plan, store, ss, i).PreFailed?;
    PreFailureChangesNothing(plan, TicksStore(plan, store, ss[..i]), ss[i]);
  }

  /** The tick knows that its node is in flight. */
  predicate SeesMark(store: Store, s: Script, t: Tag) { s.probe && t in store && store[t].marked }

  /** The tick gets past the pre-gates: it passes them, or resumes a node that it sees marked. */
  predicate GoesAhead(plan: Plan, store: Store, s: Script, t: Tag) {
    s.load && t in store && (SeesMark(store, s, t) || (OffImage(plan, store[t]) && s.pre >= 3))
  }

  /** The tick writes the new image. */
  predicate RollsImage(plan: Plan, store: Store, s: Script, t: Tag) {
    GoesAhead(plan, store, s, t) && (SeesMark(store, s, t) || s.mark.Done?) && !s.sts.Lost?
  }

  /** The failed tick takes the mark away. */
  predicate ClearsMark(plan: Plan, store: Store, s: Script, t: Tag) {
    GoesAhead(plan, store, s, t) && !s.cleanup.Lost?
  }

  /** The failed tick leaves a mark, its own or the one it found. */
  predicate LeavesMark(plan: Plan, store: Store, s: Script, t: Tag) {
    !ClearsMark(plan, store, s, t) && t in store
    && (store[t].marked || (GoesAhead(plan, store, s, t) && !s.mark.Lost?))
  }

  /** What is left to do for a node that a tick failed on, from the state in which the tick found it and
      the failures in the tick; None means that the node counts as finished. */
  function LeftToDo(plan: Plan, store: Store, s: Script, t: Tag): Option<Kind> {
    if t !in store then if s.load && !s.sts.Lost? then None else Some(Missing)
    else if LeavesMark(plan, store, s, t) then Some(Marked)
    else if OffImage(plan, store[t]) && !RollsImage(plan, store, s, t) then Some(Outdated)
    else None
  }

  /** The node's set after a failed apply, for a set that is marked, up to date or absent. */
  lemma FailedApply(plan: Plan, store: Store, s: Script, t: Tag, upgrading: bool)
    requires Failed(ApplyNode(plan, store, s, t, upgrading).outcome)
    ensures var after := ApplyNode(plan, store, s, t, upgrading).store;
            && (upgrading && t in store && store[t].marked ==>
                  t in after && after[t] == Sts(if s.sts.Lost? then store[t].image else plan.image, s.cleanup.Lost?))
            && (!upgrading && t in store && store[t].image == plan.image ==> t in after && after[t] == store[t])
            && (!upgrading && t !in store ==> if s.sts.Lost? then t !in after else t in after && after[t] == Sts(plan.image, false))
  {
    hide Passes;
  }

  lemma FailedMark(plan: Plan, store: Store, s: Script, t: Tag)
    requires t in store && Failed(MarkNode(plan, store, s, t).outcome)
    ensures var after := MarkNode(plan, store, s, t).store;
            t in after
            && after[t] == if s.pre < 3 then store[t]
                           else Sts(if s.mark.Done? && !s.sts.Lost? then plan.image else store[t].image,
                                    s.cleanup.Lost? && (store[t].marked || !s.mark.Lost?))
  {
    var marked := Written(store, s.mark, MarkWritten(t));
    hide Passes, ApplyNode, Logged;
    if s.pre >= 3 && s.mark.Done? {
      FailedApply(plan, marked, s, t, true);
    }
  }

  lemma FailedWork(plan: Plan, store: Store, s: Script, t: Tag)
    requires plan.image != "" && HaveImages(store) && !Finished(store, t, plan.image)
    requires Failed(WorkOn(plan, store, s, t).outcome)
    ensures ReasonFor(plan, WorkOn(plan, store, s, t).store, t) == LeftToDo(plan, store, s, t)
  {
    hide ApplyNode, MarkNode;
    if s.load {
      var upgrading := t in store && (SeesMark(store, s, t) || OffImage(plan, store[t]));
      if upgrading && !SeesMark(store, s, t) {
        FailedMark(plan, store, s, t);
      } else {
        FailedApply(plan, store, s, t, upgrading);
      }
    }
  }

  lemma OthersKeepTheirReason(plan: Plan, store: Store, after: Store, t: Tag, k: nat, kind: Kind)
    requires Distinct(plan.tags) && OnlyAt(store, after, t) && k < |plan.tags| && plan.tags[k] == t
    ensures Foremost(plan, after, k, kind) <==> Foremost(plan, store, k, kind)
  {
    hide Precedes;
    assert forall j | 0 <= j < |plan.tags| && j != k :: plan.tags[j] != t;
    assert forall j | 0 <= j < |plan.tags| && j != k ::
        ReasonFor(plan, after, plan.tags[j]) == ReasonFor(plan, store, plan.tags[j]);
  }

  /** Which node comes next, for every failed tick from every store, even if the failed tick could not
      read every set when it chose: the failed node, if and only if the failed tick left something to
      do for it and no other node comes before it for that reason. */
  lemma NextAfterFailure(plan: Plan, store: Store, s: Script, k: nat)
    requires Sound(plan, store) && k < |plan.tags|
    requires Failed(TickResult(plan, store, s).outcome) && TickResult(plan, store, s).outcome.tag == plan.tags[k]
    ensures Pick(plan, TickResult(plan, store, s).store) == Some(plan.tags[k]) <==>
              var left := LeftToDo(plan, store, s, plan.tags[k]);
              left.Some? && Foremost(plan, store, k, left.value)
  {
    var t := plan.tags[k];
    ChosenIsWorkedOn(plan, store, s);
    hide Choose, WorkOn, Foremost, ReasonFor, LeftToDo;
    ChosenIsUnfinished(plan, store, s.unread);
    WorkOnOne(plan, store, s, t);
    FailedWork(plan, store, s, t);
    var after := TickResult(plan, store, s).store;
    PickIsForemost(plan, after, k);
    if LeftToDo(plan, store, s, t).Some? {
      OthersKeepTheirReason(plan, store, after, t, k, LeftToDo(plan, store, s, t).value);
    }
  }

  lemma ChosenIsWorkedOn(plan: Plan, store: Store, s: Script)
    requires Failed(TickResult(plan, store, s).outcome)
    ensures s.build && Choose(plan, store, s.unread) == Some(TickResult(plan, store, s).outcome.tag)
  {
    hide Choose, Passes;
  }

  /** No other node is marked or missing, and no earlier one is outdated. */
  ghost predicate NextInLine(plan: Plan, store: Store, k: nat) { Foremost(plan, store, k, Outdated) }

  /** Resuming on the same node, for ticks that can read every set when they choose. After a failed tick
      the next one works on the same node if and only if
      - for a missing node: its set was not created after all;
      - for a node that was not marked: the tick did not both roll the image and clear the mark;
      - for a node that was in flight: the tick did not clear the mark, or it cleared it on an outdated
        set whose image it did not roll, and that node is next in line. */
  lemma ResumesUnlessRolledAndCleared(plan: Plan, store: Store, s: Script, k: nat)
    requires Sound(plan, store) && s.unread == ALL_READ && k < |plan.tags|
    requires Failed(TickResult(plan, store, s).outcome) && TickResult(plan, store, s).outcome.tag == plan.tags[k]
    ensures var t, next := plan.tags[k], Pick(plan, TickResult(plan, store, s).store);
            next == Some(t) <==>
              if t !in store then !s.load || s.sts.Lost?
              else if !store[t].marked then !(RollsImage(plan, store, s, t) && ClearsMark(plan, store, s, t))
              else !ClearsMark(plan, store, s, t)
                   || (OffImage(plan, store[t]) && !RollsImage(plan, store, s, t) && NextInLine(plan, store, k))
  {
    var t := plan.tags[k];
    ChosenIsWorkedOn(plan, store, s);
    hide Choose, TickResult, RollsImage, ClearsMark;
    NextAfterFailure(plan, store, s, k);
    PickIsForemost(plan, store, k);
  }

  /** In every state between two ticks of a run with a fixed spec, a node in flight that is still outdated
      is next in line unless some node's set has gone missing. */
  lemma InFlightIsNextInLine(w: World, k: nat)
    requires InOrder(w) && Single(w) && w.pc == Idle && k < |Tags(w.spec)|
    requires var t := Tags(w.spec)[k]; t in w.store && w.store[t].marked && w.store[t].image != w.spec.image
    ensures NextInLine(PlanOf(w.spec), w.store, k) <==> forall t | t in Tags(w.spec) :: t in w.store
  {
  }

  /** A failed post-gate does not stop the rollout: with the mark cleared, the next tick moves on to
      another unfinished node although the failed node's gates never passed, no matter whether the
      failed tick started the upgrade of that node or resumed it. */
  lemma PostGateFailureMovesOn(plan: Plan, store: Store, s: Script, u: Tag)
    requires Sound(plan, store)
    requires TickResult(plan, store, s).outcome.PostFailed? && !s.cleanup.Lost?
    requires u in Unfinished(plan, store) && u != TickResult(plan, store, s).outcome.tag
    ensures var r := TickResult(plan, store, s);
            && Finished(r.store, r.outcome.tag, plan.image)
            && Pick(plan, r.store).Some? && Pick(plan, r.store) != Some(r.outcome.tag)
  {
    var t := TickResult(plan, store, s).outcome.tag;
    ChosenIsWorkedOn(plan, store, s);
    ChosenIsUnfinished(plan, store, s.unread);
    hide Choose, Passes;
    WorkOnOne(plan, store, s, t);
    var after := TickResult(plan, store, s).store;
    assert Finished(after, t, plan.image);
    hide WorkOn, TickResult;
    ChosenIsUnfinished(plan, after, ALL_READ);
    assert u in Unfinished(plan, after);
  }
}
