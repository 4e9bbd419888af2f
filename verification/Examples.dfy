/** One concrete cluster on which the limits stated elsewhere can be seen. */
module Examples {
  import opened Text
  import opened Api
  import opened Protocol
  import opened Rollout
  import opened Convergence

  const NODES := [Node("a", "https://a.x", "tcp://a.x", None), Node("b", "https://b.x", "tcp://b.x", None)]

  const SPEC := ClusterSpec("ravendb/ravendb:7.1.3-ubuntu.22.04-x64", LetsEncrypt, "x", NODES, "license", "client", None, None, false)

  const OLD := Sts("ravendb/ravendb:7.1.2-ubuntu.22.04-x64", false)

  /** Two nodes, both on the previous patch version, and an idle operator. */
  const CLUSTER := World(SPEC, map["a" := OLD, "b" := OLD], Idle, [])

  lemma ClusterIsInitial()
    ensures Initial(CLUSTER) && Tags(SPEC) == ["a", "b"]
    ensures OffImage(PlanOf(SPEC), OLD)
  {
    NewerImage();
    hide OffImage;
    assert Tags(SPEC) == ["a", "b"];
    assert NODES[0] == Node("a", "https://a.x", "tcp://a.x", None) && NODES[1] == Node("b", "https://b.x", "tcp://b.x", None);
  }

  lemma NewerImage()
    ensures OffImage(PlanOf(SPEC), OLD)
  {
    assert OLD.image[20] == '2' && SPEC.image[20] == '3';
  }

  /** The node that comes first of the two. */
  lemma PickAmongTwo(store: Store, k: nat)
    requires k < 2
    requires var plan := PlanOf(SPEC); var r := ReasonFor(plan, store, Tags(SPEC)[k]);
             var other := ReasonFor(plan, store, Tags(SPEC)[1 - k]);
             r.Some? && (other.Some? ==> Precedes(r.value, k, other.value, 1 - k))
    ensures Pick(PlanOf(SPEC), store) == Some(Tags(SPEC)[k])
  {
    ClusterIsInitial();
    hide ReasonFor, Pick, OffImage;
    PickIsForemost(PlanOf(SPEC), store, k);
  }

  /** A tick whose post-gates fail leaves the first node with the new image and no mark, and the next
      tick works on the second node. */
  lemma PostGateFailureMovesOnToB()
    ensures var plan := PlanOf(SPEC); var r := TickResult(plan, CLUSTER.store, CLEAN.(post := 0));
            r.outcome == PostFailed("a") && Pick(plan, r.store) == Some("b")
  {
    ClusterIsInitial();
    PickAmongTwo(CLUSTER.store, 0);
    hide Choose, WellFormed, Logged, Passes;
    var after := TickResult(PlanOf(SPEC), CLUSTER.store, CLEAN.(post := 0)).store;
    assert after == map["a" := Sts(SPEC.image, false), "b" := OLD];
    PickAmongTwo(after, 1);
  }

  /** So does a tick that resumes the first node, already rolled and in flight: its pre-gates are not even
      asked. */
  lemma ResumedPostGateFailureMovesOnToB()
    ensures var plan := PlanOf(SPEC); var store: Store := map["a" := Sts(SPEC.image, true), "b" := OLD];
            var r := TickResult(plan, store, CLEAN.(pre := 0, post := 0));
            Pick(plan, store) == Some("a") && r.outcome == PostFailed("a") && Pick(plan, r.store) == Some("b")
  {
    ClusterIsInitial();
    var store: Store := map["a" := Sts(SPEC.image, true), "b" := OLD];
    PickAmongTwo(store, 0);
    hide Choose, WellFormed, Logged, Passes;
    var after := TickResult(PlanOf(SPEC), store, CLEAN.(pre := 0, post := 0)).store;
    assert after == map["a" := Sts(SPEC.image, false), "b" := OLD];
    PickAmongTwo(after, 1);
  }
}
