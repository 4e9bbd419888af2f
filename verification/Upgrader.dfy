/** The upgrade tick as the operator runs it: loops over the spec's nodes, API objects looked up by
    name, annotations edited in place. Each method is proved against the tick of module Rollout. */
module Upgrader {
  import opened Text
  import opened Api
  import opened Protocol
  import opened Rollout
  import opened PostGates
  import opened Reports
  import opened Outcomes

  const PREFIX := "ravendb-"
  const UPGRADE_IMAGE_ANNOTATION := "ravendb.ravendb.io/upgrade-image"
  const SSL_PASSTHROUGH_ANNOTATION := "ingress.kubernetes.io/ssl-passthrough"

  /** A StatefulSet object: its annotations and its containers' images. */
  datatype LiveSet = LiveSet(annotations: map<string, string>, images: seq<Image>)

  /** The name under which the upgrader looks a node's set up, and the one the builder gives it. */
  function StatefulSetName(tag: Tag): string { PREFIX + ToLower(tag) }

  function BuilderName(tag: Tag): string { PREFIX + tag }

  function NormalizeTag(t: string): string { ToUpper(TrimSpace(t)) }

  function CurrentImage(s: LiveSet): Image { if s.images == [] then "" else s.images[0] }

  function OtherImages(s: LiveSet): seq<Image> { if s.images == [] then [] else s.images[1..] }

  function StateOf(s: LiveSet): Sts { Sts(CurrentImage(s), UPGRADE_IMAGE_ANNOTATION in s.annotations) }

  /** The sets of the listed nodes, as the protocol sees them. */
  ghost function View(sets: map<string, LiveSet>, tags: seq<Tag>): Store {
    map t | t in tags && StatefulSetName(t) in sets :: StateOf(sets[StatefulSetName(t)])
  }

  /** Tags as the code needs them: lower-case ASCII, non-empty, without surrounding space, distinct. */
  ghost predicate NormalTags(tags: seq<Tag>) {
    Distinct(tags) && forall t | t in tags :: LowerAscii(t) && Trimmed(t) && t != ""
  }

  // ----- names -----

  lemma NamesOfNormalTags(t: Tag, u: Tag)
    requires LowerAscii(t) && Trimmed(t) && t != "" && LowerAscii(u) && Trimmed(u) && u != ""
    ensures StatefulSetName(t) == BuilderName(t) == "ravendb-" + t
    ensures StatefulSetName(t) == StatefulSetName(u) <==> t == u
    ensures NormalizeTag(t) == NormalizeTag(u) <==> t == u
    ensures EqualFold(t, NormalizeTag(u)) <==> t == u
    ensures NormalizeTag(t) != ""
  {
    hide TrimSpace, LowerAscii, ToUpper, EqualFold, ToLower;
    TrimmedIsFixed(t);
    TrimmedIsFixed(u);
    LowerAsciiFixed(t, u);
    LowerAsciiFixed(u, t);
    assert StatefulSetName(t)[|PREFIX|..] == t && StatefulSetName(u)[|PREFIX|..] == u;
    assert |ToUpper(t)| == |t| by { UpperLength(t); }
  }

  lemma SameName(tags: seq<Tag>, t: Tag)
    requires NormalTags(tags) && t in tags
    ensures BuilderName(t) == StatefulSetName(t)
  {
    hide LowerAscii, Trimmed, StatefulSetName, BuilderName;
    NamesOfNormalTags(t, t);
  }

  lemma UpperLength(t: string)
    ensures |ToUpper(t)| == |t|
  {
  }

  lemma ViewUpdate(sets: map<string, LiveSet>, tags: seq<Tag>, t: Tag, s: LiveSet)
    requires NormalTags(tags) && t in tags
    ensures View(sets[StatefulSetName(t) := s], tags) == View(sets, tags)[t := StateOf(s)]
  {
    hide StatefulSetName, StateOf, LowerAscii, Trimmed;
    var more := sets[StatefulSetName(t) := s];
    forall u | u in tags && u != t ensures StatefulSetName(u) != StatefulSetName(t) {
      NamesOfNormalTags(u, t);
    }
    assert View(more, tags).Keys == View(sets, tags).Keys + {t};
  }

  // ----- statuses -----

  datatype NodePhase = NodeCreated | NodeFailed

  datatype NodeStatus = NodeStatus(tag: string, phase: NodePhase, lastImage: Image, lastError: string, time: int)

  function FailedStatus(tag: Tag, msg: string, desired: Image, now: int): NodeStatus {
    NodeStatus(tag, NodeFailed, desired, msg, now)
  }

  function SuccessStatus(tag: Tag, desired: Image, now: int): NodeStatus {
    NodeStatus(tag, NodeCreated, desired, "", now)
  }

  function StatusOrCreated(prev: map<string, NodeStatus>, tag: Tag): NodeStatus {
    if NormalizeTag(tag) in prev then prev[NormalizeTag(tag)] else NodeStatus(tag, NodeCreated, "", "", 0)
  }

  /** Each entry is filed under its own tag. */
  ghost predicate Filed(prev: map<string, NodeStatus>) {
    forall k | k in prev :: NormalizeTag(prev[k].tag) == k
  }

  function PrevMap(list: seq<NodeStatus>): map<string, NodeStatus> {
    if list == [] then map[]
    else
      var last := list[|list| - 1];
      PrevMap(list[..|list| - 1])[NormalizeTag(last.tag) := last]
  }

  lemma {:induction false} PrevMapFiled(list: seq<NodeStatus>)
    ensures Filed(PrevMap(list))
    ensures forall k | k in PrevMap(list) :: PrevMap(list)[k] in list
  {
    hide NormalizeTag;
    if list != [] {
      PrevMapFiled(list[..|list| - 1]);
    }
  }

  lemma {:induction false} PrevMapHas(list: seq<NodeStatus>, i: nat)
    requires i < |list|
    ensures NormalizeTag(list[i].tag) in PrevMap(list)
    ensures LastFor(list, list[i].tag, i) ==> PrevMap(list)[NormalizeTag(list[i].tag)] == list[i]
  {
    hide NormalizeTag;
    var n := |list| - 1;
    if i < n {
      PrevMapHas(list[..n], i);
      assert list[..n][i] == list[i];
      if LastFor(list, list[i].tag, i) {
        assert LastFor(list[..n], list[i].tag, i);
        assert NormalizeTag(list[n].tag) != NormalizeTag(list[i].tag);
      }
    }
  }

  /** The last status listed for a tag is the one kept, under the tag's normal form. */
  lemma PrevMapKeepsLast(list: seq<NodeStatus>)
    ensures Filed(PrevMap(list))
    ensures forall i | 0 <= i < |list| :: NormalizeTag(list[i].tag) in PrevMap(list)
    ensures forall k | k in PrevMap(list) :: PrevMap(list)[k] in list
    ensures forall i | 0 <= i < |list| && LastFor(list, list[i].tag, i) :: PrevMap(list)[NormalizeTag(list[i].tag)] == list[i]
  {
    hide NormalizeTag, PrevMap, LastFor;
    PrevMapFiled(list);
    forall i | 0 <= i < |list|
      ensures NormalizeTag(list[i].tag) in PrevMap(list)
      ensures LastFor(list, list[i].tag, i) ==> PrevMap(list)[NormalizeTag(list[i].tag)] == list[i]
    {
      PrevMapHas(list, i);
    }
  }

  method BuildPrevStatusMap(list: seq<NodeStatus>) returns (prev: map<string, NodeStatus>)
    ensures prev == PrevMap(list)
  {
    hide NormalizeTag;
    prev := map[];
    for n := 0 to |list|
      invariant prev == PrevMap(list[..n])
    {
      assert list[..n + 1][..n] == list[..n];
      prev := prev[NormalizeTag(list[n].tag) := list[n]];
    }
    assert list[..|list|] == list;
  }

  // ----- the statuses that a tick returns -----

  /** The entry for the node that a tick worked on. */
  function FreshEntry(o: Outcome, t: Tag, plan: Plan, prev: map<string, NodeStatus>, err: string, now: int): NodeStatus {
    if o.Applied? then StatusOrCreated(prev, t)
    else if o.Upgraded? then SuccessStatus(t, plan.image, now)
    else if o.LoadFailed? then NodeStatus(t, NodeFailed, "", "", 0)
    else FailedStatus(t, err, plan.image, now)
  }

  /** The first entries, in spec order: a fresh one for t and the previous one for every other node. */
  ghost predicate Entries(statuses: seq<NodeStatus>, tags: seq<Tag>, prev: map<string, NodeStatus>, t: Tag, entry: NodeStatus) {
    |statuses| <= |tags|
    && forall i | 0 <= i < |statuses| :: statuses[i] == if tags[i] == t then entry else StatusOrCreated(prev, tags[i])
  }

  /** What the list of statuses says for each outcome: one entry per node in spec order with only the
      selected node's entry fresh, or, on a failure, the prefix that ends in the failed node's entry. */
  ghost predicate Reported(statuses: seq<NodeStatus>, plan: Plan, prev: map<string, NodeStatus>, o: Outcome, err: string, now: int) {
    if o.BuildFailed? then statuses == []
    else if o.NothingToDo? then
      |statuses| == |plan.tags| && forall i | 0 <= i < |statuses| :: statuses[i] == StatusOrCreated(prev, plan.tags[i])
    else
      && Entries(statuses, plan.tags, prev, o.tag, FreshEntry(o, o.tag, plan, prev, err, now))
      && (if Failed(o) then |statuses| > 0 && plan.tags[|statuses| - 1] == o.tag else |statuses| == |plan.tags|)
  }

  /** The j-th status is the last one listed for the tag. */
  ghost predicate LastFor(previous: seq<NodeStatus>, tag: Tag, j: nat) {
    && j < |previous| && NormalizeTag(previous[j].tag) == NormalizeTag(tag)
    && forall k | j < k < |previous| :: NormalizeTag(previous[k].tag) != NormalizeTag(tag)
  }

  /** The entry is the last previous status of the node, or says that it was created when there is none. */
  ghost predicate CarriedOver(previous: seq<NodeStatus>, tag: Tag, entry: NodeStatus) {
    || (exists j: nat :: LastFor(previous, tag, j) && entry == previous[j])
    || ((forall j | 0 <= j < |previous| :: NormalizeTag(previous[j].tag) != NormalizeTag(tag))
        && entry == NodeStatus(tag, NodeCreated, "", "", 0))
  }

  lemma {:induction false} CarriedEntry(previous: seq<NodeStatus>, tag: Tag)
    ensures CarriedOver(previous, tag, StatusOrCreated(PrevMap(previous), tag))
  {
    hide NormalizeTag;
    if previous != [] {
      var n := |previous| - 1;
      if NormalizeTag(previous[n].tag) == NormalizeTag(tag) {
        assert LastFor(previous, tag, n);
      } else {
        var before := previous[..n];
        CarriedEntry(before, tag);
        assert StatusOrCreated(PrevMap(previous), tag) == StatusOrCreated(PrevMap(before), tag);
        if j: nat :| LastFor(before, tag, j) && StatusOrCreated(PrevMap(before), tag) == before[j] {
          assert LastFor(previous, tag, j) && previous[j] == before[j];
        } else {
          assert forall j | 0 <= j < n :: previous[j] == before[j];
        }
      }
    }
  }

  /** What a tick returns, entry by entry: a tick that gives up on a node lists the nodes up to it, and last
      the node as failed; any other lists all nodes. Every other entry is carried over. */
  ghost predicate Returned(statuses: seq<NodeStatus>, plan: Plan, previous: seq<NodeStatus>, o: Outcome, err: string, now: int) {
    && (o.BuildFailed? ==> statuses == [])
    && (!o.BuildFailed? && !Failed(o) ==> |statuses| == |plan.tags|)
    && (Failed(o) ==>
          && 0 < |statuses| <= |plan.tags| && plan.tags[|statuses| - 1] == o.tag
          && statuses[|statuses| - 1] == if o.LoadFailed? then NodeStatus(o.tag, NodeFailed, "", "", 0)
                                         else NodeStatus(o.tag, NodeFailed, plan.image, err, now))
    && (forall i | 0 <= i < |statuses| && i < |plan.tags| ::
          if o.Upgraded? && plan.tags[i] == o.tag then statuses[i] == NodeStatus(o.tag, NodeCreated, plan.image, "", now)
          else (Failed(o) && plan.tags[i] == o.tag) || CarriedOver(previous, plan.tags[i], statuses[i]))
  }

  lemma ReportedIsReturned(statuses: seq<NodeStatus>, plan: Plan, previous: seq<NodeStatus>, o: Outcome, err: string, now: int)
    requires Distinct(plan.tags) && Reported(statuses, plan, PrevMap(previous), o, err, now)
    ensures Returned(statuses, plan, previous, o, err, now)
  {
    hide CarriedOver, StatusOrCreated, PrevMap;
    forall i | 0 <= i < |plan.tags| ensures CarriedOver(previous, plan.tags[i], StatusOrCreated(PrevMap(previous), plan.tags[i])) {
      CarriedEntry(previous, plan.tags[i]);
    }
  }

  lemma CarriedTag(prev: map<string, NodeStatus>, t: Tag)
    requires Filed(prev)
    ensures NormalizeTag(StatusOrCreated(prev, t).tag) == NormalizeTag(t)
  {
    hide NormalizeTag;
  }

  /** The operator at work on the StatefulSets of one namespace, by name. The log records what happens, as
      in the protocol. */
  class Operator {
    var sets: map<string, LiveSet>
    ghost var log: seq<Entry>

    constructor ()
      ensures sets == map[] && log == []
    {
      sets, log := map[], [];
    }

    /** The first node in spec order whose set can be read and carries the upgrade annotation, or "". */
    method FindInFlightTag(plan: Plan, unread: set<Tag>) returns (r: string)
      requires NormalTags(plan.tags)
      ensures var n := First(Marked, plan, View(sets, plan.tags), unread, 0);
              r == if n < |plan.tags| then plan.tags[n] else ""
    {
      hide StatefulSetName, NormalTags;
      ghost var store := View(sets, plan.tags);
      for i := 0 to |plan.tags|
        invariant First(Marked, plan, store, unread, 0) == First(Marked, plan, store, unread, i)
      {
        var name := StatefulSetName(plan.tags[i]);
        assert name in sets <==> plan.tags[i] in store;
        if plan.tags[i] !in unread && name in sets {
          if UPGRADE_IMAGE_ANNOTATION in sets[name].annotations {
            return plan.tags[i];
          }
        }
      }
      return "";
    }

    /** The node to work on in this tick, in upper case, or "". A set that cannot be read is passed over,
        scan by scan. */
    method PickSelectedTag(plan: Plan, u: Unread) returns (r: string)
      requires NormalTags(plan.tags)
      ensures var p := Choose(plan, View(sets, plan.tags), u);
              r == if p.Some? then NormalizeTag(p.value) else ""
    {
      hide StatefulSetName, NormalizeTag, LowerAscii, Trimmed, Distinct, TrimSpace;
      ghost var store := View(sets, plan.tags);
      var t := FindInFlightTag(plan, u.marks);
      assert t != "" ==> t in plan.tags;
      if t != "" { TrimmedIsFixed(t); } else { TrimNothing(); }
      if TrimSpace(t) != "" {
        return NormalizeTag(t);
      }
      for i := 0 to |plan.tags|
        invariant First(Missing, plan, store, u.missing, 0) == First(Missing, plan, store, u.missing, i)
      {
        var name := StatefulSetName(plan.tags[i]);
        assert name in sets <==> plan.tags[i] in store;
        if plan.tags[i] !in u.missing && name !in sets {
          return NormalizeTag(plan.tags[i]);
        }
      }
      for i := 0 to |plan.tags|
        invariant First(Outdated, plan, store, u.images, 0) == First(Outdated, plan, store, u.images, i)
      {
        var name := StatefulSetName(plan.tags[i]);
        assert name in sets <==> plan.tags[i] in store;
        if plan.tags[i] !in u.images && name in sets {
          var cur := CurrentImage(sets[name]);
          if cur != "" && plan.image != "" && cur != plan.image {
            return NormalizeTag(plan.tags[i]);
          }
        }
      }
      return "";
    }

    /** Sets or, with an empty value, removes the upgrade annotation, and nothing else. A missing set
        is no error. */
    method SetUpgradeAnnotation(tag: Tag, value: string, how: Writing, ghost tags: seq<Tag>) returns (ok: bool)
      requires NormalTags(tags) && tag in tags
      modifies this
      ensures var e := if value == "" then UnmarkWritten(tag) else MarkWritten(tag);
              && View(sets, tags) == Written(old(View(sets, tags)), how, e)
              && log == old(log) + Logged(old(View(sets, tags)), how, e)
      ensures ok <==> how.Done? || StatefulSetName(tag) !in old(sets)
      ensures how.Lost? || StatefulSetName(tag) !in old(sets) ==> sets == old(sets)
      ensures !how.Lost? && StatefulSetName(tag) in old(sets) && StatefulSetName(tag) in sets ==>
                var annotations := sets[StatefulSetName(tag)].annotations;
                if value == "" then UPGRADE_IMAGE_ANNOTATION !in annotations
                else UPGRADE_IMAGE_ANNOTATION in annotations && annotations[UPGRADE_IMAGE_ANNOTATION] == value
      ensures forall name | name != StatefulSetName(tag) ::
                (name in sets <==> name in old(sets)) && (name in sets ==> sets[name] == old(sets)[name])
      ensures StatefulSetName(tag) in old(sets) ==>
                && StatefulSetName(tag) in sets
                && sets[StatefulSetName(tag)].images == old(sets)[StatefulSetName(tag)].images
                && forall k | k != UPGRADE_IMAGE_ANNOTATION ::
                     var a, b := old(sets)[StatefulSetName(tag)].annotations, sets[StatefulSetName(tag)].annotations;
                     (k in b <==> k in a) && (k in b ==> b[k] == a[k])
    {
      hide StatefulSetName, NormalTags;
      var name := StatefulSetName(tag);
      assert name in sets <==> tag in View(sets, tags);
      if name !in sets {
        return true;
      }
      var live := sets[name];
      var annotations := if value == "" then live.annotations - {UPGRADE_IMAGE_ANNOTATION}
                         else live.annotations[UPGRADE_IMAGE_ANNOTATION := value];
      ViewUpdate(sets, tags, tag, live.(annotations := annotations));
      if !how.Lost? {
        sets := sets[name := live.(annotations := annotations)];
        log := log + [if value == "" then UnmarkWritten(tag) else MarkWritten(tag)];
      }
      return how.Done?;
    }

    /** Builds and applies one node's set. Its image is kept unless the set is marked, or could not be
        read; every annotation survives but the one that the builder sets itself. */
    method Act(plan: Plan, tag: Tag, read: bool, how: Writing) returns (ok: bool)
      requires NormalTags(plan.tags) && tag in plan.tags && HaveImages(View(sets, plan.tags))
      modifies this
      ensures var e := Desired(plan, old(View(sets, plan.tags)), tag, read);
              && View(sets, plan.tags) == Written(old(View(sets, plan.tags)), how, e)
              && log == old(log) + Logged(old(View(sets, plan.tags)), how, e)
      ensures ok <==> how.Done?
      ensures forall name | name != StatefulSetName(tag) ::
                (name in sets <==> name in old(sets)) && (name in sets ==> sets[name] == old(sets)[name])
      ensures var name := StatefulSetName(tag);
              name in old(sets) ==>
                && name in sets
                && OtherImages(sets[name]) == OtherImages(old(sets)[name])
                && sets[name].annotations == if how.Lost? then old(sets)[name].annotations
                                             else old(sets)[name].annotations[SSL_PASSTHROUGH_ANNOTATION := "true"]
    {
      hide StatefulSetName, BuilderName, NormalTags, HaveImages, View, Desired, StateOf, OtherImages, Effect;
      SameName(plan.tags, tag);
      var name := BuilderName(tag);
      var stored := AppliedSet(if name in sets then Some(sets[name]) else None, plan.image, read);
      AppliedView(sets, plan, tag, read, stored);
      if !how.Lost? {
        sets := sets[name := stored];
        log := log + [Desired(plan, old(View(sets, plan.tags)), tag, read)];
      }
      ok := how.Done?;
    }

    /** The three gates of a phase, in order, until one fails. */
    method RunGates(phase: Phase, tag: Tag, passing: nat) returns (ok: bool)
      modifies this`log
      ensures ok <==> passing >= 3
      ensures log == old(log) + Passes(phase, tag, passing)
    {
      if passing == 0 {
        return false;
      }
      log := log + [Passed(phase, NodeAlive, tag, "")];
      if passing == 1 {
        return false;
      }
      log := log + [Passed(phase, Connectivity, tag, "")];
      if passing == 2 {
        return false;
      }
      log := log + [Passed(phase, Databases, tag, if phase.Pre? then tag else "")];
      return true;
    }

    /** Ends a tick by taking the mark away; whether this succeeds is not looked at. */
    method CleanUp(plan: Plan, tag: Tag, s: Script, o: Outcome)
      requires NormalTags(plan.tags) && tag in plan.tags
      modifies this
      ensures Ends(plan, CleanedUp(old(View(sets, plan.tags)), s, tag, o), o, old(log))
    {
      hide StatefulSetName, NormalTags, Written, Logged, View;
      var _ := SetUpgradeAnnotation(tag, "", s.cleanup, plan.tags);
    }

    /** One node's share of a tick: pre-gates and mark, apply, post-gates and cleanup. */
    method WorkOnNode(plan: Plan, tag: Tag, s: Script) returns (o: Outcome)
      requires NormalTags(plan.tags) && tag in plan.tags && plan.image != ""
      requires HaveImages(View(sets, plan.tags))
      modifies this
      ensures Ends(plan, WorkOn(plan, old(View(sets, plan.tags)), s, tag), o, old(log))
    {
      hide StatefulSetName, NormalTags, ApplyNode, MarkNode;
      ghost var store := View(sets, plan.tags);
      if !s.load {
        return LoadFailed(tag);
      }
      var name := StatefulSetName(tag);
      assert name in sets <==> tag in store;
      var current := if name in sets then CurrentImage(sets[name]) else "";
      var marked := s.probe && name in sets && UPGRADE_IMAGE_ANNOTATION in sets[name].annotations;
      var upgrading := IsUpgrading(name in sets, plan.image, current, marked);
      if upgrading && !marked {
        o := MarkAndApply(plan, tag, s);
      } else {
        o := ApplyAndCheck(plan, tag, s, upgrading);
      }
    }

    /** The work on a node that is not in flight yet. */
    method MarkAndApply(plan: Plan, tag: Tag, s: Script) returns (o: Outcome)
      requires NormalTags(plan.tags) && tag in plan.tags && plan.image != ""
      requires HaveImages(View(sets, plan.tags)) && tag in View(sets, plan.tags)
      modifies this
      ensures Ends(plan, MarkNode(plan, old(View(sets, plan.tags)), s, tag), o, old(log))
    {
      assert StatefulSetName(tag) in sets;
      assert s.pre >= 3 ==> Passes(Pre, tag, s.pre) == Passes(Pre, tag, 3);
      hide StatefulSetName, NormalTags, Written, Logged, View, HaveImages, ApplyNode, CleanedUp, Passes;
      ghost var store := View(sets, plan.tags);
      var passed := RunGates(Pre, tag, s.pre);
      if !passed {
        return PreFailed(tag);
      }
      var ok := SetUpgradeAnnotation(tag, plan.image, s.mark, plan.tags);
      ghost var more := Passes(Pre, tag, 3) + Logged(store, s.mark, MarkWritten(tag));
      assert log == old(log) + more;
      MarkKeepsImages(store, s.mark, tag);
      if !ok {
        o := MarkFailed(tag);
        CleanUp(plan, tag, s, o);
        LogOn(old(log), more, CleanedUp(Written(store, s.mark, MarkWritten(tag)), s, tag, o));
      } else {
        o := ApplyAndCheck(plan, tag, s, true);
        LogOn(old(log), more, ApplyNode(plan, Written(store, s.mark, MarkWritten(tag)), s, tag, true));
      }
    }

    /** The part of a node's work that follows the mark. */
    method ApplyAndCheck(plan: Plan, tag: Tag, s: Script, upgrading: bool) returns (o: Outcome)
      requires NormalTags(plan.tags) && tag in plan.tags && HaveImages(View(sets, plan.tags))
      modifies this
      ensures Ends(plan, ApplyNode(plan, old(View(sets, plan.tags)), s, tag, upgrading), o, old(log))
    {
      hide StatefulSetName, NormalTags, Written, Logged, Desired, View, HaveImages, CleanedUp, CheckNode;
      var ok := Act(plan, tag, s.actor, s.sts);
      if !ok || !s.svc {
        o := ApplyFailed(tag);
        if upgrading {
          CleanUp(plan, tag, s, o);
        }
      } else if upgrading {
        o := Check(plan, tag, s);
      } else {
        o := Applied(tag);
      }
    }

    /** The post-gates and the end of an upgrade. */
    method Check(plan: Plan, tag: Tag, s: Script) returns (o: Outcome)
      requires NormalTags(plan.tags) && tag in plan.tags
      modifies this
      ensures Ends(plan, CheckNode(old(View(sets, plan.tags)), s, tag), o, old(log))
    {
      hide StatefulSetName, NormalTags, View, CleanedUp, Passes;
      var passed := RunGates(Post, tag, s.post);
      if !passed {
        o := PostFailed(tag);
        CleanUp(plan, tag, s, o);
        return;
      }
      log := log + [UpgradeReported(tag)];
      o := Upgraded(tag);
      CleanUp(plan, tag, s, o);
    }

    /** The sets, the log and the outcome are those of a tick of the protocol. */
    ghost predicate Ends(plan: Plan, r: Result, o: Outcome, before: seq<Entry>)
      reads this
    {
      View(sets, plan.tags) == r.store && o == r.outcome && log == before + r.log
    }

    /** One upgrade tick over the whole cluster. The sets end as the protocol's tick leaves them, what
        happened is what that tick logs, and the statuses report its outcome. err and now stand for the
        error text and the clock. */
    method Run(plan: Plan, previous: seq<NodeStatus>, s: Script, err: string, now: int)
      returns (statuses: seq<NodeStatus>, o: Outcome)
      requires NormalTags(plan.tags) && plan.image != "" && HaveImages(View(sets, plan.tags))
      modifies this
      ensures Ends(plan, TickResult(plan, old(View(sets, plan.tags)), s), o, old(log))
      ensures var store, p := old(View(sets, plan.tags)), Choose(plan, old(View(sets, plan.tags)), s.unread);
              && (Failed(o) <==> s.build && p.Some? && SomethingFails(plan, store, s, p.value))
              && (o.BuildFailed? <==> !s.build) && (o.NothingToDo? <==> s.build && p.None?)
      ensures Reported(statuses, plan, PrevMap(previous), o, err, now)
      ensures Returned(statuses, plan, previous, o, err, now)
    {
      TickFailsIff(plan, View(sets, plan.tags), s);
      statuses, o := RunOnce(plan, previous, s, err, now);
      hide TickResult, Reported, Returned, SomethingFails, LowerAscii, Trimmed;
      ReportedIsReturned(statuses, plan, previous, o, err, now);
    }

    method RunOnce(plan: Plan, previous: seq<NodeStatus>, s: Script, err: string, now: int)
      returns (statuses: seq<NodeStatus>, o: Outcome)
      requires NormalTags(plan.tags) && plan.image != "" && HaveImages(View(sets, plan.tags))
      modifies this
      ensures Ends(plan, TickResult(plan, old(View(sets, plan.tags)), s), o, old(log))
      ensures Reported(statuses, plan, PrevMap(previous), o, err, now)
    {
      hide NormalizeTag, LowerAscii, Trimmed, WorkOn, StatusOrCreated, HaveImages, View, PrevMap, Entries, Choose;
      if !s.build {
        return [], BuildFailed;
      }
      log := log + [TickStarted];
      var prev := BuildPrevStatusMap(previous);
      var selected := PickSelectedTag(plan, s.unread);
      ghost var p := Choose(plan, View(sets, plan.tags), s.unread);
      if p.Some? {
        ChosenIsListed(plan, View(sets, plan.tags), s.unread);
        NamesOfNormalTags(p.value, p.value);
      }
      if selected == "" {
        statuses := [];
        for i := 0 to |plan.tags|
          invariant |statuses| == i && forall k | 0 <= k < i :: statuses[k] == StatusOrCreated(prev, plan.tags[k])
        {
          statuses := statuses + [StatusOrCreated(prev, plan.tags[i])];
        }
        return statuses, NothingToDo;
      }
      PrevMapKeepsLast(previous);
      statuses, o := VisitNodes(plan, prev, selected, p.value, s, err, now);
    }

    /** The pass over the nodes: all but the selected one are left alone. */
    method VisitNodes(plan: Plan, prev: map<string, NodeStatus>, selected: string, ghost t: Tag, s: Script, err: string, now: int)
      returns (statuses: seq<NodeStatus>, o: Outcome)
      requires NormalTags(plan.tags) && plan.image != "" && HaveImages(View(sets, plan.tags))
      requires t in plan.tags && selected == NormalizeTag(t) && Filed(prev)
      modifies this
      ensures Ends(plan, WorkOn(plan, old(View(sets, plan.tags)), s, t), o, old(log))
      ensures Reported(statuses, plan, prev, o, err, now)
    {
      hide NormalizeTag, LowerAscii, Trimmed, WorkOn, StatusOrCreated, EqualFold, HaveImages, View, FreshEntry;
      ghost var store := View(sets, plan.tags);
      OutcomeNamesNode(plan, store, s, t);
      ghost var entry := FreshEntry(WorkOn(plan, store, s, t).outcome, t, plan, prev, err, now);
      statuses, o := [], NothingToDo;
      for i := 0 to |plan.tags|
        invariant |statuses| == i && Entries(statuses, plan.tags, prev, t, entry)
        invariant if t in plan.tags[..i] then Ends(plan, WorkOn(plan, store, s, t), o, old(log)) && !Failed(o)
                  else View(sets, plan.tags) == store && log == old(log)
      {
        NamesOfNormalTags(plan.tags[i], t);
        if !EqualFold(plan.tags[i], selected) {
          statuses := statuses + [StatusOrCreated(prev, plan.tags[i])];
          continue;
        }
        o := WorkOnNode(plan, plan.tags[i], s);
        statuses := statuses + [FreshEntry(o, plan.tags[i], plan, prev, err, now)];
        if Failed(o) {
          return;
        }
      }
      assert plan.tags[..|plan.tags|] == plan.tags;
      forall i | 0 <= i < |statuses| ensures NormalizeTag(statuses[i].tag) == NormalizeTag(plan.tags[i]) {
        CarriedTag(prev, plan.tags[i]);
        FreshTag(o, t, plan, prev, err, now);
      }
      statuses := Reorder(plan, statuses);
    }
  }

  lemma LogOn(before: seq<Entry>, more: seq<Entry>, r: Result)
    ensures before + more + r.log == before + After(more, r).log
  {
    assert before + more + r.log == before + (more + r.log);
  }

  lemma ChosenIsListed(plan: Plan, store: Store, u: Unread)
    ensures Choose(plan, store, u).Some? ==> Choose(plan, store, u).value in plan.tags
  {
  }

  /** A fresh success entry in the returned statuses, one that is not carried over, stands for a verified
      upgrade: in this tick's log the node's set was applied, and then its three post-gates passed. */
  lemma FreshSuccessIsVerified(plan: Plan, store: Store, s: Script, prev: map<string, NodeStatus>, err: string, now: int,
                               statuses: seq<NodeStatus>, n: nat) returns (a: nat, b: nat, c: nat, d: nat, i: nat)
    requires Reported(statuses, plan, prev, TickResult(plan, store, s).outcome, err, now)
    requires n < |statuses| && n < |plan.tags|
    requires statuses[n].phase == NodeCreated && statuses[n] != StatusOrCreated(prev, plan.tags[n])
    ensures var r := TickResult(plan, store, s);
            && statuses[n] == NodeStatus(plan.tags[n], NodeCreated, plan.image, "", now) && r.outcome == Upgraded(plan.tags[n])
            && i < |r.log| && r.log[i] == UpgradeReported(plan.tags[n])
            && PostGatesAt(r.log[..i], plan.tags[n], a, b, c, d)
  {
    hide StatusOrCreated, TickResult, PostGatesAt;
    a, b, c, d, i := SuccessIsVerified(plan, store, s);
  }

  lemma FreshTag(o: Outcome, t: Tag, plan: Plan, prev: map<string, NodeStatus>, err: string, now: int)
    requires Filed(prev)
    ensures NormalizeTag(FreshEntry(o, t, plan, prev, err, now).tag) == NormalizeTag(t)
  {
    hide NormalizeTag, StatusOrCreated;
    CarriedTag(prev, t);
  }

  lemma OutcomeNamesNode(plan: Plan, store: Store, s: Script, t: Tag)
    ensures var o := WorkOn(plan, store, s, t).outcome; !o.BuildFailed? && !o.NothingToDo? && o.tag == t
  {
  }

  lemma MarkKeepsImages(store: Store, how: Writing, t: Tag)
    requires HaveImages(store)
    ensures HaveImages(Written(store, how, MarkWritten(t)))
  {
  }

  /** The final reordering: each node's entry looked up by its normalised tag. When entry i is the
      entry of node i already, this changes nothing. */
  method Reorder(plan: Plan, statuses: seq<NodeStatus>) returns (ordered: seq<NodeStatus>)
    requires NormalTags(plan.tags) && |statuses| == |plan.tags|
    requires forall i | 0 <= i < |statuses| :: NormalizeTag(statuses[i].tag) == NormalizeTag(plan.tags[i])
    ensures ordered == statuses
  {
    hide NormalizeTag, LowerAscii, Trimmed;
    forall i, j | 0 <= i < j < |plan.tags| ensures NormalizeTag(plan.tags[i]) != NormalizeTag(plan.tags[j]) {
      NamesOfNormalTags(plan.tags[i], plan.tags[j]);
    }
    var byUpper: map<string, NodeStatus> := map[];
    for n := 0 to |statuses|
      invariant forall i | 0 <= i < n :: NormalizeTag(plan.tags[i]) in byUpper && byUpper[NormalizeTag(plan.tags[i])] == statuses[i]
    {
      byUpper := byUpper[NormalizeTag(statuses[n].tag) := statuses[n]];
    }
    ordered := [];
    for n := 0 to |plan.tags|
      invariant ordered == statuses[..n]
    {
      ordered := ordered + [byUpper[NormalizeTag(plan.tags[n])]];
    }
  }

  /** The annotations of the live set are added to the built ones, which win. */
  method MergeAnnotations(existing: map<string, string>, built: map<string, string>) returns (merged: map<string, string>)
    ensures merged == existing + built
  {
    merged := built;
    var keys := existing.Keys;
    while keys != {}
      invariant keys <= existing.Keys
      invariant merged.Keys == built.Keys + (existing.Keys - keys)
      invariant forall k | k in merged :: merged[k] == if k in built then built[k] else existing[k]
      decreases |keys|
    {
      var k :| k in keys;
      if k !in merged {
        merged := merged[k := existing[k]];
      }
      keys := keys - {k};
    }
  }

  /** The built set adjusted to the live one: annotations preserved, the image kept unless marked. */
  method Freeze(existing: LiveSet, built: LiveSet) returns (desired: LiveSet)
    ensures desired.annotations == existing.annotations + built.annotations
    ensures |desired.images| == |built.images| && OtherImages(desired) == OtherImages(built)
    ensures |built.images| > 0 ==>
              desired.images[0] ==
                if |existing.images| > 0 && UPGRADE_IMAGE_ANNOTATION !in existing.annotations then existing.images[0]
                else built.images[0]
  {
    var annotations := MergeAnnotations(existing.annotations, built.annotations);
    var images := built.images;
    if |existing.images| > 0 && |built.images| > 0 {
      if UPGRADE_IMAGE_ANNOTATION !in existing.annotations {
        images := images[0 := existing.images[0]];
      }
    }
    desired := LiveSet(annotations, images);
  }

  /** The live set after an apply: annotations and containers that the applied object does not mention
      belong to others and stay. */
  function Merged(live: LiveSet, applied: LiveSet): LiveSet
    requires |applied.images| == 1
  {
    LiveSet(live.annotations + applied.annotations, if live.images == [] then applied.images else live.images[0 := applied.images[0]])
  }

  /** The node's set after an apply that succeeds, from the live one if there is one and it can be read. */
  method AppliedSet(live: Option<LiveSet>, image: Image, read: bool) returns (stored: LiveSet)
    ensures live.Some? ==> stored.annotations == live.value.annotations[SSL_PASSTHROUGH_ANNOTATION := "true"]
    ensures live.None? ==> stored.annotations == map[SSL_PASSTHROUGH_ANNOTATION := "true"]
    ensures UPGRADE_IMAGE_ANNOTATION in stored.annotations <==> live.Some? && UPGRADE_IMAGE_ANNOTATION in live.value.annotations
    ensures |stored.images| > 0
    ensures OtherImages(stored) == if live.Some? then OtherImages(live.value) else []
    ensures stored.images[0] ==
            if read && live.Some? && |live.value.images| > 0 && UPGRADE_IMAGE_ANNOTATION !in live.value.annotations
            then live.value.images[0] else image
  {
    assert UPGRADE_IMAGE_ANNOTATION[0] != SSL_PASSTHROUGH_ANNOTATION[0];
    var desired := LiveSet(map[SSL_PASSTHROUGH_ANNOTATION := "true"], [image]);
    if read && live.Some? {
      desired := Freeze(live.value, desired);
    }
    stored := if live.Some? then Merged(live.value, desired) else desired;
  }

  lemma TrimNothing()
    ensures TrimSpace("") == ""
  {
  }

  /** The set is what an apply makes of the live one. */
  ghost predicate IsApplied(sets: map<string, LiveSet>, plan: Plan, tag: Tag, read: bool, stored: LiveSet) {
    var name := StatefulSetName(tag);
    && |stored.images| > 0
    && (UPGRADE_IMAGE_ANNOTATION in stored.annotations <==> name in sets && UPGRADE_IMAGE_ANNOTATION in sets[name].annotations)
    && stored.images[0] ==
         if read && name in sets && |sets[name].images| > 0 && UPGRADE_IMAGE_ANNOTATION !in sets[name].annotations
         then sets[name].images[0] else plan.image
  }

  lemma AppliedState(sets: map<string, LiveSet>, plan: Plan, tag: Tag, read: bool, stored: LiveSet)
    requires tag in plan.tags && HaveImages(View(sets, plan.tags)) && IsApplied(sets, plan, tag, read, stored)
    ensures var store := View(sets, plan.tags); var e := Desired(plan, store, tag, read);
            e.SetApplied? && Effect(store, e) == store[tag := StateOf(stored)]
  {
    hide StatefulSetName;
    var store := View(sets, plan.tags);
    if tag in store {
      assert store[tag].image != "";
    }
  }

  /** What the apply leaves in the store is what the protocol's apply stores. */
  lemma AppliedView(sets: map<string, LiveSet>, plan: Plan, tag: Tag, read: bool, stored: LiveSet)
    requires NormalTags(plan.tags) && tag in plan.tags && HaveImages(View(sets, plan.tags))
    requires IsApplied(sets, plan, tag, read, stored)
    ensures var store := View(sets, plan.tags); var e := Desired(plan, store, tag, read);
            e.SetApplied? && View(sets[StatefulSetName(tag) := stored], plan.tags) == Effect(store, e)
  {
    hide StatefulSetName, NormalTags, HaveImages, View, Desired, StateOf, Effect, IsApplied;
    ViewUpdate(sets, plan.tags, tag, stored);
    AppliedState(sets, plan, tag, read, stored);
  }
}
