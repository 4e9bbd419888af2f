/** How a tick ends, from what failed in it. */
module Outcomes {
  import opened Text
  import opened Api
  import opened Protocol
  import opened Rollout
  import opened Convergence

  /** The tick is to upgrade the node: it sees the node in flight, or finds it outdated. */
  predicate Upgrades(plan: Plan, store: Store, s: Script, t: Tag) {
    t in store && (SeesMark(store, s, t) || OffImage(plan, store[t]))
  }

  /** The node has to pass the pre-gates and be marked first. */
  predicate StartsUpgrade(plan: Plan, store: Store, s: Script, t: Tag) {
    t in store && !SeesMark(store, s, t) && OffImage(plan, store[t])
  }

  /** The tick comes to apply the node's set. */
  predicate ComesToApply(plan: Plan, store: Store, s: Script, t: Tag) {
    s.load && (StartsUpgrade(plan, store, s, t) ==> s.pre >= 3 && s.mark.Done?)
  }

  /** The work on a node ends in one of seven ways, and these are the conditions of each. */
  lemma WorkEnds(plan: Plan, store: Store, s: Script, t: Tag)
    requires Sound(plan, store)
    ensures var o, applied := WorkOn(plan, store, s, t).outcome, s.sts.Done? && s.svc;
            var comes, upgrades := ComesToApply(plan, store, s, t), Upgrades(plan, store, s, t);
            && (o == LoadFailed(t) <==> !s.load)
            && (o == PreFailed(t) <==> s.load && StartsUpgrade(plan, store, s, t) && s.pre < 3)
            && (o == MarkFailed(t) <==> s.load && StartsUpgrade(plan, store, s, t) && s.pre >= 3 && !s.mark.Done?)
            && (o == ApplyFailed(t) <==> comes && !applied)
            && (o == PostFailed(t) <==> comes && applied && upgrades && s.post < 3)
            && (o == Upgraded(t) <==> comes && applied && upgrades && s.post >= 3)
            && (o == Applied(t) <==> comes && applied && !upgrades)
  {
    hide Passes, Logged, Written, Desired;
  }

  /** Something that a tick needs for its node fails: reading the set; the pre-gates or the mark, when the
      upgrade starts here; the apply of the set or of the service, for a node that is created as well;
      or the post-gates of an upgrade. */
  predicate SomethingFails(plan: Plan, store: Store, s: Script, t: Tag) {
    || !s.load
    || (StartsUpgrade(plan, store, s, t) && (s.pre < 3 || !s.mark.Done?))
    || !s.sts.Done? || !s.svc
    || (Upgrades(plan, store, s, t) && s.post < 3)
  }

  /** A tick gives up on its node if and only if something that it needs for it fails. */
  lemma TickFailsIff(plan: Plan, store: Store, s: Script)
    requires Sound(plan, store)
    ensures var o, p := TickResult(plan, store, s).outcome, Choose(plan, store, s.unread);
            && (Failed(o) <==> s.build && p.Some? && SomethingFails(plan, store, s, p.value))
            && (o == BuildFailed <==> !s.build)
            && (o == NothingToDo <==> s.build && p.None?)
            && (s.build && p.Some? ==> !o.BuildFailed? && !o.NothingToDo? && o.tag == p.value)
  {
    hide Choose, WorkOn;
    if s.build && Choose(plan, store, s.unread).Some? {
      var t := Choose(plan, store, s.unread).value;
      WorkEnds(plan, store, s, t);
      hide SeesMark, OffImage;
    }
  }

  /** A tick that did not come to write anything leaves every set as it was. */
  lemma NothingWritten(plan: Plan, store: Store, s: Script)
    requires var o := TickResult(plan, store, s).outcome; o.BuildFailed? || o.NothingToDo? || o.LoadFailed? || o.PreFailed?
    ensures TickResult(plan, store, s).store == store
  {
    hide Choose, Passes, Logged, Written, Desired;
  }
}
