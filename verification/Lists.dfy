/** Positions in a list: how the elements picked from it are described without a filter function. */
module Lists {

  /** The positions of a set, in order. */
  ghost predicate Enumerates(idx: seq<nat>, chosen: set<nat>) {
    && (forall a, b | 0 <= a < b < |idx| :: idx[a] < idx[b])
    && (forall i :: i in idx <==> i in chosen)
  }

  ghost function Below(chosen: set<nat>, n: nat): set<nat> { set i | i in chosen && i < n }

  /** A loop over the positions of a list that notes the chosen ones enumerates them. */
  lemma NothingBelow(chosen: set<nat>)
    ensures Enumerates([], Below(chosen, 0))
  {
  }

  lemma OneFurther(idx: seq<nat>, chosen: set<nat>, n: nat)
    requires Enumerates(idx, Below(chosen, n))
    ensures Enumerates(if n in chosen then idx + [n] else idx, Below(chosen, n + 1))
  {
    forall a | 0 <= a < |idx| ensures idx[a] < n {
      assert idx[a] in idx;
    }
    assert forall i :: i in idx + [n] <==> i in idx || i == n;
  }

  lemma AllBelow(chosen: set<nat>, n: nat)
    requires forall i | i in chosen :: i < n
    ensures Below(chosen, n) == chosen
  {
  }

  /** As many positions as there are elements. */
  lemma EnumeratedSize(idx: seq<nat>, chosen: set<nat>)
    requires Enumerates(idx, chosen)
    ensures |idx| == |chosen|
  {
    if idx == [] {
      assert forall i :: i !in chosen;
      assert chosen == {};
    } else {
      var n := |idx| - 1;
      var rest := chosen - {idx[n]};
      forall i ensures i in idx[..n] <==> i in rest {
        if i in idx[..n] {
          var k :| 0 <= k < n && idx[k] == i;
          assert i in idx;
        }
        if i in rest {
          var k :| 0 <= k < |idx| && idx[k] == i;
          assert idx[..n][k] == i;
        }
      }
      EnumeratedSize(idx[..n], rest);
      assert idx[n] in idx;
    }
  }

  /** A property that each fact has exactly when the object it stands for has it: some fact has it exactly
      when some chosen object does. */
  lemma SomeAgree(idx: seq<nat>, chosen: set<nat>, shown: seq<bool>, actual: seq<bool>)
    requires Enumerates(idx, chosen) && |shown| == |idx|
    requires forall k | 0 <= k < |idx| :: idx[k] < |actual| && shown[k] == actual[idx[k]]
    ensures (exists k | 0 <= k < |shown| :: shown[k]) <==> exists i :: i in chosen && i < |actual| && actual[i]
    ensures |shown| == |chosen|
  {
    EnumeratedSize(idx, chosen);
    if k :| 0 <= k < |shown| && shown[k] {
      assert idx[k] in idx;
      assert idx[k] in chosen && actual[idx[k]];
    }
    if i :| i in chosen && i < |actual| && actual[i] {
      var k :| 0 <= k < |idx| && idx[k] == i;
      assert shown[k];
    }
  }
}
