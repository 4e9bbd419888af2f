/** A whole upgrade tick at once: what it selects, what it leaves behind and what it logs. */
module Rollout {
  import opened Text
  import opened Api
  import opened Protocol

  // ----- selection -----

  datatype Kind = Marked | Missing | Outdated

  /** The three reasons to work on a node. */
  predicate Wanted(kind: Kind, plan: Plan, store: Store, t: Tag) {
    match kind
    case Marked => t in store && store[t].marked
    case Missing => t !in store
    case Outdated => t in store && OffImage(plan, store[t])
  }

  /** The nodes whose set could not be read, scan by scan. */
  datatype Unread = Unread(marks: set<Tag>, missing: set<Tag>, images: set<Tag>)

  const ALL_READ := Unread({}, {}, {})

  function SkippedBy(u: Unread, kind: Kind): set<Tag> {
    match kind case Marked => u.marks case Missing => u.missing case Outdated => u.images
  }

  /** The position of the first node from i on that is read and wanted, or the number of nodes. */
  function First(kind: Kind, plan: Plan, store: Store, unread: set<Tag>, i: nat): (r: nat)
    requires i <= |plan.tags|
    ensures i <= r <= |plan.tags|
    ensures forall k | i <= k < r :: plan.tags[k] in unread || !Wanted(kind, plan, store, plan.tags[k])
    ensures r < |plan.tags| ==> plan.tags[r] !in unread && Wanted(kind, plan, store, plan.tags[r])
    decreases |plan.tags| - i
  {
    if i < |plan.tags| && (plan.tags[i] in unread || !Wanted(kind, plan, store, plan.tags[i]))
    then First(kind, plan, store, unread, i + 1) else i
  }

  function FirstOf(kind: Kind, plan: Plan, store: Store, u: Unread): nat {
    First(kind, plan, store, SkippedBy(u, kind), 0)
  }

  /** In-flight first, then missing, then the first image mismatch. */
  function Choose(plan: Plan, store: Store, u: Unread): Option<Tag> {
    var n := |plan.tags|;
    if FirstOf(Marked, plan, store, u) < n then Some(plan.tags[FirstOf(Marked, plan, store, u)])
    else if FirstOf(Missing, plan, store, u) < n then Some(plan.tags[FirstOf(Missing, plan, store, u)])
    else if FirstOf(Outdated, plan, store, u) < n then Some(plan.tags[FirstOf(Outdated, plan, store, u)])
    else None
  }

  /** The choice when every set can be read. */
  function Pick(plan: Plan, store: Store): Option<Tag> { Choose(plan, store, ALL_READ) }

  // ----- one tick -----

  /** A write is done, or reports an error without effect, or reports an error with effect. */
  datatype Writing = Done | Lost | Unsure

  /** What the outside world answers during one tick. pre and post count the gates that pass before
      one fails; three or more means that all pass. */
  datatype Script = Script(build: bool, unread: Unread, load: bool, probe: bool, pre: nat, mark: Writing,
                           actor: bool, sts: Writing, svc: bool, post: nat, cleanup: Writing)

  datatype Outcome =
    | BuildFailed
    | NothingToDo
    | LoadFailed(tag: Tag)
    | PreFailed(tag: Tag)
    | MarkFailed(tag: Tag)
    | ApplyFailed(tag: Tag)
    | PostFailed(tag: Tag)
    | Upgraded(tag: Tag)
    | Applied(tag: Tag)

  /** The tick gave up on its node. */
  predicate Failed(o: Outcome) {
    o.LoadFailed? || o.PreFailed? || o.MarkFailed? || o.ApplyFailed? || o.PostFailed?
  }

  /** The sets as the tick leaves them, what it logged, and how it ended. */
  datatype Result = Result(store: Store, log: seq<Entry>, outcome: Outcome)

  function After(log: seq<Entry>, r: Result): Result { r.(log := log + r.log) }

  predicate IsWrite(e: Entry) { e.MarkWritten? || e.UnmarkWritten? || e.SetApplied? }

  function Written(store: Store, how: Writing, e: Entry): Store {
    if how.Lost? then store else Effect(store, e)
  }

  /** A write is logged when it takes effect; annotating a set that is gone has none. */
  function Logged(store: Store, how: Writing, e: Entry): seq<Entry>
    requires IsWrite(e)
  {
    if how.Lost? || (!e.SetApplied? && e.tag !in store) then [] else [e]
  }

  /** The passes of the first n gates of a phase. */
  function Passes(phase: Phase, t: Tag, n: nat): seq<Entry> {
    (if n > 0 then [Passed(phase, NodeAlive, t, "")] else []) +
    (if n > 1 then [Passed(phase, Connectivity, t, "")] else []) +
    (if n > 2 then [Passed(phase, Databases, t, if phase.Pre? then t else "")] else [])
  }

  /** The set the actor applies: the live image unless the set is unread, absent or marked. */
  function Desired(plan: Plan, store: Store, t: Tag, read: bool): Entry {
    var have := read && t in store;
    SetApplied(t, if have && !store[t].marked then store[t].image else plan.image, have && store[t].marked)
  }

  /** The end of a tick that takes its mark away. */
  function CleanedUp(store: Store, s: Script, t: Tag, o: Outcome): Result {
    Result(Written(store, s.cleanup, UnmarkWritten(t)), Logged(store, s.cleanup, UnmarkWritten(t)), o)
  }

  function CheckNode(store: Store, s: Script, t: Tag): Result {
    var gates := Passes(Post, t, s.post);
    if s.post < 3 then After(gates, CleanedUp(store, s, t, PostFailed(t)))
    else After(gates + [UpgradeReported(t)], CleanedUp(store, s, t, Upgraded(t)))
  }

  function ApplyNode(plan: Plan, store: Store, s: Script, t: Tag, upgrading: bool): Result {
    var e := Desired(plan, store, t, s.actor);
    var applied := Written(store, s.sts, e);
    After(Logged(store, s.sts, e),
          if !upgrading then Result(applied, [], if s.sts.Done? && s.svc then Applied(t) else ApplyFailed(t))
          else if s.sts.Done? && s.svc then CheckNode(applied, s, t)
          else CleanedUp(applied, s, t, ApplyFailed(t)))
  }

  function MarkNode(plan: Plan, store: Store, s: Script, t: Tag): Result {
    if s.pre < 3 then Result(store, Passes(Pre, t, s.pre), PreFailed(t)) else
    var after := Written(store, s.mark, MarkWritten(t));
    After(Passes(Pre, t, 3) + Logged(store, s.mark, MarkWritten(t)),
          if s.mark.Done? then ApplyNode(plan, after, s, t, true) else CleanedUp(after, s, t, MarkFailed(t)))
  }

  function WorkOn(plan: Plan, store: Store, s: Script, t: Tag): Result {
    if !s.load then Result(store, [], LoadFailed(t)) else
    var current := if t in store then store[t].image else "";
    var marked := s.probe && t in store && store[t].marked;
    var upgrading := IsUpgrading(t in store, plan.image, current, marked);
    if upgrading && !marked then MarkNode(plan, store, s, t) else ApplyNode(plan, store, s, t, upgrading)
  }

  function TickResult(plan: Plan, store: Store, s: Script): Result {
    if !s.build then Result(store, [], BuildFailed)
    else
      var p := Choose(plan, store, s.unread);
      After([TickStarted], if p.None? then Result(store, [], NothingToDo) else WorkOn(plan, store, s, p.value))
  }

  // ----- a tick is a run of the machine -----

  function ScanAt(kind: Kind, i: nat): Point {
    match kind case Marked => ScanMarks(i) case Missing => ScanMissing(i) case Outdated => ScanImages(i)
  }

  /** The machine allows the failures of this tick. */
  predicate Allows(f: Faults, s: Script) {
    (s.unread.marks != {} ==> f.marks) && (s.unread.images != {} ==> f.images) && (!s.actor ==> f.actor)
  }

  /** Reads bring a scan to the first node that is read and wanted, or to its end. */
  lemma {:induction false} ScanRun(f: Faults, w: World, v: World, kind: Kind, unread: set<Tag>, i: nat) returns (u: World)
    requires Reaches(f, w, v) && v.pc.Tick? && v.pc.at == ScanAt(kind, i) && i <= |v.pc.plan.tags|
    requires unread != {} ==> MayFail(f, v.pc.at)
    ensures Reaches(f, w, u)
    ensures u == v.(pc := Tick(v.pc.plan, ScanAt(kind, First(kind, v.pc.plan, v.store, unread, i))))
    decreases |v.pc.plan.tags| - i
  {
    hide Reaches;
    u := v;
    if i < |v.pc.plan.tags| && (v.pc.plan.tags[i] in unread || !Wanted(kind, v.pc.plan, v.store, v.pc.plan.tags[i])) {
      u := Take(f, w, v, Read(v.pc.plan.tags[i] !in unread));
      u := ScanRun(f, w, u, kind, unread, i + 1);
    }
  }

  /** A tick comes to the node that it chooses, or ends when there is none. */
  lemma ChooseRun(f: Faults, w: World, x: Unread) returns (u: World)
    requires w.pc == Idle && (x.marks != {} ==> f.marks) && (x.images != {} ==> f.images)
    ensures var plan := PlanOf(w.spec); var p := Choose(plan, w.store, x);
            && Reaches(f, w, u)
            && u == World(w.spec, w.store, if p.Some? then Tick(plan, Load(p.value)) else Idle, w.log + [TickStarted])
  {
    hide Reaches;
    ReachesSelf(f, w);
    u := Take(f, w, w, Start(true));
    u := ScanRun(f, w, u, Marked, x.marks, 0);
    u := Take(f, w, u, Read(true));
    if u.pc.at.ScanMissing? {
      u := ScanRun(f, w, u, Missing, x.missing, 0);
      u := Take(f, w, u, Read(true));
      if u.pc.at.ScanImages? {
        u := ScanRun(f, w, u, Outdated, x.images, 0);
        u := Take(f, w, u, Read(true));
      }
    }
  }

  /** The state after some more entries, at another point. */
  function Later(v: World, store: Store, pc: Pc, more: seq<Entry>): World { World(v.spec, store, pc, v.log + more) }

  function Ended(v: World, r: Result): World { Later(v, r.store, Idle, r.log) }

  /** Entries logged in two goes. */
  lemma LaterOn(v: World, store: Store, pc: Pc, a: seq<Entry>, store': Store, pc': Pc, b: seq<Entry>, r: Result)
    ensures Later(Later(v, store, pc, a), store', pc', b) == Later(v, store', pc', a + b)
    ensures Ended(Later(v, store, pc, a), r) == Ended(v, After(a, r))
  {
    assert v.log + a + b == v.log + (a + b) && v.log + a + r.log == v.log + (a + r.log);
  }

  lemma PreGatesRun(f: Faults, w: World, v: World, passing: nat) returns (u: World)
    requires Reaches(f, w, v) && v.pc.Tick? && v.pc.at.PreGate? && v.pc.at.gate == NodeAlive
    ensures var t := v.pc.at.tag;
            && Reaches(f, w, u)
            && u == Later(v, v.store, if passing < 3 then Idle else Tick(v.pc.plan, Mark(t)), Passes(Pre, t, passing))
  {
    hide Reaches;
    u := Take(f, w, v, Check(passing > 0));
    if passing > 0 {
      u := Take(f, w, u, Check(passing > 1));
      if passing > 1 {
        u := Take(f, w, u, Check(passing > 2));
      }
    }
  }

  lemma PostGatesRun(f: Faults, w: World, v: World, passing: nat) returns (u: World)
    requires Reaches(f, w, v) && v.pc.Tick? && v.pc.at.PostGate? && v.pc.at.gate == NodeAlive
    ensures var t := v.pc.at.tag;
            && Reaches(f, w, u)
            && u == Later(v, v.store, Tick(v.pc.plan, Cleanup(t)),
                          Passes(Post, t, passing) + if passing < 3 then [] else [UpgradeReported(t)])
  {
    hide Reaches;
    u := Take(f, w, v, Check(passing > 0));
    if passing > 0 {
      u := Take(f, w, u, Check(passing > 1));
      if passing > 1 {
        u := Take(f, w, u, Check(passing > 2));
      }
    }
  }

  function Wrote(how: Writing): Move { Write(!how.Lost?, how.Done?) }

  lemma CleanupRun(f: Faults, w: World, v: World, s: Script, o: Outcome) returns (u: World)
    requires Reaches(f, w, v) && v.pc.Tick? && v.pc.at.Cleanup?
    ensures Reaches(f, w, u) && u == Ended(v, CleanedUp(v.store, s, v.pc.at.tag, o))
  {
    hide Reaches;
    u := Take(f, w, v, Wrote(s.cleanup));
  }

  lemma CheckRun(f: Faults, w: World, v: World, s: Script) returns (u: World)
    requires Reaches(f, w, v) && v.pc.Tick? && v.pc.at.PostGate? && v.pc.at.gate == NodeAlive
    ensures Reaches(f, w, u) && u == Ended(v, CheckNode(v.store, s, v.pc.at.tag))
  {
    hide Reaches, Passes, Logged, Written;
    u := PostGatesRun(f, w, v, s.post);
    u := CleanupRun(f, w, u, s, if s.post < 3 then PostFailed(v.pc.at.tag) else Upgraded(v.pc.at.tag));
  }

  /** The actor reads the live set and applies the desired one. */
  lemma ActRun(f: Faults, w: World, v: World, s: Script) returns (u: World)
    requires Reaches(f, w, v) && v.pc.Tick? && v.pc.at.ActRead? && (!s.actor ==> f.actor)
    ensures var at, e := v.pc.at, Desired(v.pc.plan, v.store, v.pc.at.tag, s.actor);
            && Reaches(f, w, u)
            && u == Later(v, Written(v.store, s.sts, e),
                          if s.sts.Done? then Tick(v.pc.plan, SvcWrite(at.tag, at.upgrading))
                          else if at.upgrading then Tick(v.pc.plan, Cleanup(at.tag)) else Idle,
                          Logged(v.store, s.sts, e))
  {
    hide Reaches;
    u := Take(f, w, v, Read(s.actor));
    u := Take(f, w, u, Wrote(s.sts));
  }

  lemma ApplyRun(f: Faults, w: World, v: World, s: Script) returns (u: World)
    requires Reaches(f, w, v) && v.pc.Tick? && v.pc.at.ActRead? && (!s.actor ==> f.actor)
    ensures Reaches(f, w, u) && u == Ended(v, ApplyNode(v.pc.plan, v.store, s, v.pc.at.tag, v.pc.at.upgrading))
  {
    hide Reaches, CheckNode, CleanedUp, Desired, Written, Logged;
    var t := v.pc.at.tag;
    u := ActRun(f, w, v, s);
    if s.sts.Done? {
      u := Take(f, w, u, Write(s.svc, s.svc));
    }
    hide Next;
    if u.pc.Tick? && u.pc.at.PostGate? {
      u := CheckRun(f, w, u, s);
    } else if u.pc.Tick? {
      u := CleanupRun(f, w, u, s, ApplyFailed(t));
    }
  }

  lemma MarkWriteRun(f: Faults, w: World, v: World, s: Script) returns (u: World)
    requires Reaches(f, w, v) && v.pc.Tick? && v.pc.at.Mark?
    ensures var t := v.pc.at.tag;
            && Reaches(f, w, u)
            && u == Later(v, Written(v.store, s.mark, MarkWritten(t)),
                          Tick(v.pc.plan, if s.mark.Done? then ActRead(t, true) else Cleanup(t)),
                          Logged(v.store, s.mark, MarkWritten(t)))
  {
    hide Reaches;
    u := Take(f, w, v, Wrote(s.mark));
  }

  lemma MarkRun(f: Faults, w: World, v: World, s: Script) returns (u: World)
    requires Reaches(f, w, v) && v.pc.Tick? && v.pc.at.PreGate? && v.pc.at.gate == NodeAlive && (!s.actor ==> f.actor)
    ensures Reaches(f, w, u) && u == Ended(v, MarkNode(v.pc.plan, v.store, s, v.pc.at.tag))
  {
    var t := v.pc.at.tag;
    assert s.pre >= 3 ==> Passes(Pre, t, s.pre) == Passes(Pre, t, 3);
    hide Reaches, ApplyNode, CleanedUp, Passes, Written, Logged, Next;
    u := PreGatesRun(f, w, v, s.pre);
    if s.pre >= 3 {
      var gated := u;
      u := MarkWriteRun(f, w, u, s);
      var marked := u;
      if s.mark.Done? {
        u := ApplyRun(f, w, u, s);
      } else {
        u := CleanupRun(f, w, u, s, MarkFailed(t));
      }
      var r := if s.mark.Done? then ApplyNode(v.pc.plan, marked.store, s, t, true) else CleanedUp(marked.store, s, t, MarkFailed(t));
      var a, b := Passes(Pre, t, 3), Logged(v.store, s.mark, MarkWritten(t));
      LaterOn(v, gated.store, gated.pc, a, marked.store, marked.pc, b, r);
      LaterOn(v, marked.store, marked.pc, a + b, marked.store, marked.pc, [], r);
    }
  }

  lemma WorkRun(f: Faults, w: World, v: World, s: Script) returns (u: World)
    requires Reaches(f, w, v) && v.pc.Tick? && v.pc.at.Load? && (!s.actor ==> f.actor)
    ensures Reaches(f, w, u) && u == Ended(v, WorkOn(v.pc.plan, v.store, s, v.pc.at.tag))
  {
    hide Reaches, ApplyNode, MarkNode;
    u := Take(f, w, v, Read(s.load));
    if u.pc.Tick? {
      u := Take(f, w, u, Read(s.probe));
      if u.pc.at.PreGate? {
        u := MarkRun(f, w, u, s);
      } else {
        u := ApplyRun(f, w, u, s);
      }
    }
  }

  /** Every tick, whatever fails in it, is a run of the machine that ends idle, with the tick's store and
      with its log: what is proved of all runs holds of it. */
  lemma TickIsARun(f: Faults, w: World, s: Script) returns (u: World)
    requires w.pc == Idle && Allows(f, s)
    ensures Reaches(f, w, u) && u == Ended(w, TickResult(PlanOf(w.spec), w.store, s))
  {
    hide Reaches, WorkOn, Choose;
    if s.build {
      u := ChooseRun(f, w, s.unread);
      if u.pc.Tick? {
        u := WorkRun(f, w, u, s);
      }
    } else {
      ReachesSelf(f, w);
      u := w;
    }
  }
}
