/** The database gate, from the decoded answer of the /databases endpoint on. */
module DatabaseGate {
  import opened Text
  import opened Lists
  import opened Api

  datatype DbStatus = DbStatus(lastStatus: string, lastError: string)

  /** The NodeTag of one node entry; None when it is absent or not a string. */
  type Entry = Option<string>

  datatype Database = Database(name: string, disabled: bool, replicationFactor: int,
                               members: seq<Entry>, promotables: seq<Entry>, rehabs: seq<Entry>,
                               status: map<string, DbStatus>)

  const IGNORED: seq<string> := ["(status: loading)", "not responding", "connection refused", "serviceunavailable", "node in rehabilitation"]

  function Nodes(db: Database): seq<Entry> { db.members + db.promotables + db.rehabs }

  function StatusOf(db: Database, tag: string): DbStatus {
    if tag in db.status then db.status[tag] else DbStatus("", "")
  }

  predicate IsOk(s: DbStatus) { EqualFold(TrimSpace(s.lastStatus), "ok") }

  predicate IsHardLoadError(err: string) { Contains(ToLower(err), "endofstreamexception") }

  predicate Transient(err: string) {
    exists i | 0 <= i < |IGNORED| :: Contains(ToLower(err), ToLower(IGNORED[i]))
  }

  method IsIgnoredTransient(err: string) returns (r: bool)
    ensures r <==> Transient(err)
  {
    hide Contains, ToLower;
    for n := 0 to |IGNORED|
      invariant forall i | 0 <= i < n :: !Contains(ToLower(err), ToLower(IGNORED[i]))
    {
      if Contains(ToLower(err), ToLower(IGNORED[n])) {
        return true;
      }
    }
    return false;
  }

  // ----- what the texts mean -----

  /** An error is hard exactly when it names EndOfStreamException, in whatever letter case. */
  lemma HardErrorIff(err: string)
    ensures IsHardLoadError(err) <==> Mentions(err, "endofstreamexception")
  {
    hide Contains, ToLower, Mentions;
    MentionsIff(err, "endofstreamexception");
  }

  /** An error is passed over exactly when it holds one of five phrases, in whatever letter case. */
  lemma TransientIff(err: string)
    ensures Transient(err) <==>
              Mentions(err, "(status: loading)") || Mentions(err, "not responding") || Mentions(err, "connection refused")
              || Mentions(err, "serviceunavailable") || Mentions(err, "node in rehabilitation")
  {
    hide Contains, ToLower, Mentions;
    IgnoredAreLower();
    forall word ensures Contains(ToLower(err), word) <==> Mentions(err, word) {
      MentionsIff(err, word);
    }
    assert Transient(err) <==>
             Mentions(err, IGNORED[0]) || Mentions(err, IGNORED[1]) || Mentions(err, IGNORED[2]) || Mentions(err, IGNORED[3])
             || Mentions(err, IGNORED[4]);
  }

  lemma IgnoredAreLower()
    ensures forall i | 0 <= i < |IGNORED| :: ToLower(IGNORED[i]) == IGNORED[i]
  {
    hide ToLower;
    forall i | 0 <= i < |IGNORED| ensures ToLower(IGNORED[i]) == IGNORED[i] {
      assert LowerAscii(IGNORED[i]);
      LowerAsciiFixed(IGNORED[i], IGNORED[i]);
    }
  }

  /** The word "ok" in any letter case; the Kelvin sign folds to a k. */
  predicate SpellsOk(w: string) {
    |w| == 2 && (w[0] == 'o' || w[0] == 'O') && (w[1] == 'k' || w[1] == 'K' || w[1] == '\U{212A}')
  }

  /** A status is ok exactly when it is that word with any space around it. */
  lemma OkIff(s: DbStatus)
    ensures IsOk(s) <==> exists a, w, b :: Blank(a) && Blank(b) && SpellsOk(w) && s.lastStatus == a + w + b
  {
    hide TrimSpace, Blank;
    var a, b := TrimSplit(s.lastStatus);
    var w := TrimSpace(s.lastStatus);
    if IsOk(s) {
      assert FoldChar(w[0]) == FoldChar("ok"[0]) && FoldChar(w[1]) == FoldChar("ok"[1]);
      assert SpellsOk(w) && s.lastStatus == a + w + b;
    }
    if x, v, y :| Blank(x) && Blank(y) && SpellsOk(v) && s.lastStatus == x + v + y {
      TrimPadded(x, v, y);
    }
  }

  /** A node without a status is not ok, and has no hard error either. */
  lemma UnknownStatus(db: Database, tag: string)
    requires tag !in db.status
    ensures !IsOk(StatusOf(db, tag)) && !IsHardLoadError(StatusOf(db, tag).lastError)
  {
    TrimBlank();
    hide TrimSpace;
  }

  // ----- tags -----

  /** The trimmed, non-blank tag of an entry, or "". */
  function TagOf(e: Entry): string { if e.Some? then TrimSpace(e.value) else "" }

  function Plucked(entries: seq<Entry>): seq<string> {
    if entries == [] then []
    else
      var before := Plucked(entries[..|entries| - 1]);
      var tag := TagOf(entries[|entries| - 1]);
      if tag == "" || tag in before then before else before + [tag]
  }

  /** Each non-blank tag is listed once. */
  lemma {:induction false} PluckedLists(entries: seq<Entry>)
    ensures Distinct(Plucked(entries))
    ensures forall t :: t in Plucked(entries) <==> t != "" && exists i | 0 <= i < |entries| :: TagOf(entries[i]) == t
  {
    hide TagOf;
    if entries != [] {
      var n := |entries| - 1;
      PluckedLists(entries[..n]);
      assert forall i | 0 <= i < n :: entries[..n][i] == entries[i];
    }
  }

  /** The entries that are the first to name their tag. */
  ghost function FirstNamed(entries: seq<Entry>): set<nat> {
    set i: nat | i < |entries| && TagOf(entries[i]) != "" && forall j | 0 <= j < i :: TagOf(entries[j]) != TagOf(entries[i])
  }

  /** The tags are listed in the order in which they are first named. */
  lemma {:induction false} PluckedOrder(entries: seq<Entry>) returns (idx: seq<nat>)
    ensures Enumerates(idx, FirstNamed(entries)) && |Plucked(entries)| == |idx|
    ensures forall k | 0 <= k < |idx| :: idx[k] < |entries| && Plucked(entries)[k] == TagOf(entries[idx[k]])
  {
    hide Enumerates, TagOf;
    idx := [];
    if entries == [] {
      NothingBelow({});
      assert FirstNamed(entries) == Below({}, 0);
    } else {
      var n, chosen := |entries| - 1, FirstNamed(entries);
      idx := PluckedOrder(entries[..n]);
      FirstNamedNext(entries);
      hide FirstNamed, Below;
      OneFurther(idx, chosen, n);
      var tag := TagOf(entries[n]);
      var isNew := tag != "" && tag !in Plucked(entries[..n]);
      assert Plucked(entries) == Plucked(entries[..n]) + if isNew then [tag] else [];
      hide Plucked;
      if isNew { idx := idx + [n]; }
    }
  }

  lemma FirstNamedNext(entries: seq<Entry>)
    requires entries != []
    ensures var n, chosen := |entries| - 1, FirstNamed(entries);
            && FirstNamed(entries[..n]) == Below(chosen, n) && chosen == Below(chosen, n + 1)
            && (n in chosen <==> TagOf(entries[n]) != "" && TagOf(entries[n]) !in Plucked(entries[..n]))
  {
    var n := |entries| - 1;
    hide TagOf, Plucked;
    PluckedLists(entries[..n]);
    assert forall i | 0 <= i < n :: entries[..n][i] == entries[i];
  }

  method PluckTags(entries: seq<Entry>) returns (out: seq<string>)
    ensures out == Plucked(entries)
  {
    hide TrimSpace, TrimLeft, TrimRight;
    out := [];
    var seen: set<string> := {};
    for n := 0 to |entries|
      invariant out == Plucked(entries[..n])
      invariant forall t :: t in seen <==> t in out
    {
      assert entries[..n + 1][..n] == entries[..n];
      var tag := if entries[n].Some? then entries[n].value else "";
      if tag != "" {
        tag := TrimSpace(tag);
        if tag == "" {
          continue;
        }
        if tag !in seen {
          seen := seen + {tag};
          out := out + [tag];
        }
      } else {
        TrimBlank();
      }
    }
    assert entries[..|entries|] == entries;
  }

  lemma TrimBlank()
    ensures TrimSpace("") == ""
  {
  }

  // ----- the specification -----

  /** The node takes part in the database, as a member, promotable or in rehabilitation. */
  ghost predicate TakesPart(db: Database, tag: string) {
    exists raw :: (Some(raw) in db.members || Some(raw) in db.promotables || Some(raw) in db.rehabs) && TrimSpace(raw) == tag
  }

  /** The node takes part in the database and is not the excluded one. */
  ghost predicate Considered(db: Database, excluded: string, tag: string) {
    tag != "" && !EqualFold(tag, excluded) && TakesPart(db, tag)
  }

  ghost predicate Hard(db: Database, tag: string) {
    !IsOk(StatusOf(db, tag)) && IsHardLoadError(StatusOf(db, tag).lastError)
  }

  predicate Counts(db: Database) { !db.disabled && db.replicationFactor != 1 }

  /** Some considered node is ok, and no considered node that is not ok has a hard load error. */
  ghost predicate Served(db: Database, excluded: string) {
    && (exists tag :: Considered(db, excluded, tag) && IsOk(StatusOf(db, tag)))
    && (forall tag | Considered(db, excluded, tag) :: !Hard(db, tag))
  }

  ghost predicate GateOpen(dbs: seq<Database>, excluded: string) {
    forall i | 0 <= i < |dbs| && !dbs[i].disabled && dbs[i].replicationFactor != 1 :: Served(dbs[i], excluded)
  }

  // ----- the loops -----

  datatype Reason = Usable | HardLoad(tag: string) | FirstError(tag: string) | NoUsableMember

  /** What the reason given for one database means. */
  ghost predicate Explains(db: Database, excluded: string, r: Reason) {
    match r
    case Usable => Served(db, excluded)
    case HardLoad(t) => Considered(db, excluded, t) && Hard(db, t)
    case FirstError(t) =>
      && Considered(db, excluded, t) && StatusOf(db, t).lastError != "" && !Transient(StatusOf(db, t).lastError)
      && forall u | Considered(db, excluded, u) :: !IsOk(StatusOf(db, u))
    case NoUsableMember =>
      forall u | Considered(db, excluded, u) ::
        !IsOk(StatusOf(db, u)) && (StatusOf(db, u).lastError == "" || Transient(StatusOf(db, u).lastError))
  }

  /** The node named is the first of its kind among those that take part, in the order they are listed. */
  ghost predicate NamedFirst(db: Database, excluded: string, r: Reason)
    requires r.HardLoad? || r.FirstError?
  {
    var tags := Plucked(Nodes(db));
    exists p | 0 <= p < |tags| :: tags[p] == r.tag
      && forall q | 0 <= q < p && !EqualFold(tags[q], excluded) && !IsOk(StatusOf(db, tags[q])) ::
           if r.HardLoad? then !Hard(db, tags[q]) else Passable(StatusOf(db, tags[q]).lastError)
  }

  predicate Passable(err: string) { err == "" || Transient(err) }

  lemma PluckedIsConsidered(db: Database, excluded: string, tag: string)
    ensures Considered(db, excluded, tag) <==> tag in Plucked(Nodes(db)) && !EqualFold(tag, excluded)
  {
    hide EqualFold, Plucked;
    PluckedLists(Nodes(db));
    ListedTakesPart(db, tag);
  }

  /** The entries of the three lists, one after the other. */
  lemma ListedTakesPart(db: Database, tag: string)
    ensures tag != "" ==> (TakesPart(db, tag) <==> exists i | 0 <= i < |Nodes(db)| :: TagOf(Nodes(db)[i]) == tag)
  {
    hide TrimSpace;
    var nodes := Nodes(db);
    assert forall e :: e in nodes <==> e in db.members || e in db.promotables || e in db.rehabs;
    if TakesPart(db, tag) {
      var raw :| (Some(raw) in db.members || Some(raw) in db.promotables || Some(raw) in db.rehabs) && TrimSpace(raw) == tag;
      var i :| 0 <= i < |nodes| && nodes[i] == Some(raw);
      assert TagOf(nodes[i]) == tag;
    }
    if i :| 0 <= i < |nodes| && TagOf(nodes[i]) == tag && tag != "" {
      assert nodes[i] in nodes && nodes[i] == Some(nodes[i].value);
    }
  }

  method CheckDatabase(db: Database, excluded: string) returns (r: Reason)
    ensures Explains(db, excluded, r)
    ensures r.Usable? <==> Served(db, excluded)
    ensures r.HardLoad? || r.FirstError? ==> NamedFirst(db, excluded, r)
  {
    hide EqualFold, TagOf, Plucked, IsOk, IsHardLoadError, Transient, StatusOf, Considered;
    var tags := PluckTags(Nodes(db));
    forall tag ensures Considered(db, excluded, tag) <==> tag in tags && !EqualFold(tag, excluded) {
      PluckedIsConsidered(db, excluded, tag);
    }
    var okNodes: seq<string> := [];
    var firstNonIgnored: Option<string> := None;
    ghost var p := 0;
    for n := 0 to |tags|
      invariant forall k | 0 <= k < n && !EqualFold(tags[k], excluded) :: !Hard(db, tags[k])
      invariant forall t :: t in okNodes <==> t in tags[..n] && !EqualFold(t, excluded) && IsOk(StatusOf(db, t))
      invariant firstNonIgnored.Some? ==>
                  && Considered(db, excluded, firstNonIgnored.value)
                  && StatusOf(db, firstNonIgnored.value).lastError != "" && !Transient(StatusOf(db, firstNonIgnored.value).lastError)
      invariant firstNonIgnored.Some? ==>
                  && p < n && tags[p] == firstNonIgnored.value
                  && forall q | 0 <= q < p && !EqualFold(tags[q], excluded) && !IsOk(StatusOf(db, tags[q])) ::
                       Passable(StatusOf(db, tags[q]).lastError)
      invariant firstNonIgnored.None? ==>
                  forall k | 0 <= k < n && !EqualFold(tags[k], excluded) && !IsOk(StatusOf(db, tags[k])) ::
                    StatusOf(db, tags[k]).lastError == "" || Transient(StatusOf(db, tags[k]).lastError)
    {
      var tag := tags[n];
      assert tags[..n + 1] == tags[..n] + [tag];
      if EqualFold(tag, excluded) {
        continue;
      }
      var status := StatusOf(db, tag);
      if IsOk(status) {
        okNodes := okNodes + [tag];
        continue;
      }
      if IsHardLoadError(status.lastError) {
        return HardLoad(tag);
      }
      var ignored := IsIgnoredTransient(status.lastError);
      if status.lastError != "" && !ignored && firstNonIgnored.None? {
        firstNonIgnored := Some(tag);
        p := n;
      }
    }
    assert tags[..|tags|] == tags;
    if |okNodes| > 0 {
      assert okNodes[0] in okNodes;
      return Usable;
    }
    if firstNonIgnored.Some? {
      return FirstError(firstNonIgnored.value);
    }
    return NoUsableMember;
  }

  /** The gate passes exactly when every database that counts is served; otherwise it names the first
      one that is not, and why. */
  method DatabasesOnline(dbs: seq<Database>, excluded: string) returns (ok: bool, at: nat, why: Reason)
    ensures ok <==> GateOpen(dbs, excluded)
    ensures !ok ==> at < |dbs| && Counts(dbs[at]) && !why.Usable? && Explains(dbs[at], excluded, why)
                    && GateOpen(dbs[..at], excluded)
  {
    hide Served, Explains;
    at, why := 0, Usable;
    if |dbs| == 0 {
      return true, 0, Usable;
    }
    for n := 0 to |dbs|
      invariant GateOpen(dbs[..n], excluded)
    {
      assert forall i | 0 <= i < n :: dbs[..n][i] == dbs[i];
      if !Counts(dbs[n]) {
        continue;
      }
      var r := CheckDatabase(dbs[n], excluded);
      if !r.Usable? {
        return false, n, r;
      }
    }
    assert dbs[..|dbs|] == dbs;
    return true, |dbs|, Usable;
  }

  // ----- order does not matter -----

  /** The same database with its node entries listed in any order, in any of the three lists. */
  ghost predicate SameUpToOrder(a: Database, b: Database) {
    && a.disabled == b.disabled && a.replicationFactor == b.replicationFactor && a.status == b.status
    && multiset(Nodes(a)) == multiset(Nodes(b))
  }

  lemma ServedIgnoresOrder(a: Database, b: Database, excluded: string)
    requires SameUpToOrder(a, b)
    ensures Counts(a) == Counts(b)
    ensures Served(a, excluded) <==> Served(b, excluded)
  {
    hide EqualFold, TagOf, IsOk, IsHardLoadError, TakesPart;
    forall tag ensures Considered(a, excluded, tag) <==> Considered(b, excluded, tag) {
      SameTags(Nodes(a), Nodes(b), tag);
      ListedTakesPart(a, tag);
      ListedTakesPart(b, tag);
    }
    assert forall tag :: StatusOf(a, tag) == StatusOf(b, tag);
    assert forall tag :: Hard(a, tag) == Hard(b, tag);
  }

  lemma SameTags(a: seq<Entry>, b: seq<Entry>, tag: string)
    requires multiset(a) == multiset(b)
    ensures (exists i | 0 <= i < |a| :: TagOf(a[i]) == tag) <==> (exists i | 0 <= i < |b| :: TagOf(b[i]) == tag)
  {
    hide TagOf;
    TagPresent(a, b, tag);
    TagPresent(b, a, tag);
  }

  lemma TagPresent(a: seq<Entry>, b: seq<Entry>, tag: string)
    requires multiset(a) == multiset(b)
    ensures (exists i | 0 <= i < |a| :: TagOf(a[i]) == tag) ==> (exists i | 0 <= i < |b| :: TagOf(b[i]) == tag)
  {
    hide TagOf;
    if i :| 0 <= i < |a| && TagOf(a[i]) == tag {
      assert a[i] in multiset(b);
      var j :| 0 <= j < |b| && b[j] == a[i];
      assert TagOf(b[j]) == tag;
    }
  }

  /** Permuting the databases, or the node entries of each of them, leaves the verdict as it is. */
  lemma GateIgnoresOrder(dbs: seq<Database>, others: seq<Database>, perm: seq<nat>, inverse: seq<nat>, excluded: string)
    requires |perm| == |inverse| == |dbs| == |others|
    requires forall i | 0 <= i < |perm| :: perm[i] < |dbs| && SameUpToOrder(dbs[perm[i]], others[i])
    requires forall k | 0 <= k < |inverse| :: inverse[k] < |perm| && perm[inverse[k]] == k
    ensures GateOpen(dbs, excluded) <==> GateOpen(others, excluded)
  {
    hide Served, SameUpToOrder;
    forall i | 0 <= i < |perm|
      ensures Counts(dbs[perm[i]]) == Counts(others[i])
      ensures Served(dbs[perm[i]], excluded) <==> Served(others[i], excluded)
    {
      ServedIgnoresOrder(dbs[perm[i]], others[i], excluded);
    }
    if GateOpen(others, excluded) {
      forall k | 0 <= k < |dbs| && Counts(dbs[k]) ensures Served(dbs[k], excluded) {
        assert Served(others[inverse[k]], excluded);
      }
    }
  }

  /** Excluding "" excludes nothing: the post-gate looks at every node. */
  lemma ExcludingNothing(db: Database, tag: string)
    ensures Considered(db, "", tag) <==> tag != "" && TakesPart(db, tag)
  {
    hide TakesPart;
  }

  /** Excluding a node can only lose ok nodes and hard errors of that node: the verdict for one database
      does not depend on the excluded node's own status. */
  lemma ExcludedStatusIsIgnored(db: Database, excluded: string, status: map<string, DbStatus>)
    requires forall t | !EqualFold(t, excluded) :: StatusOf(db, t) == StatusOf(db.(status := status), t)
    ensures Served(db, excluded) <==> Served(db.(status := status), excluded)
  {
    hide EqualFold, IsOk, IsHardLoadError, StatusOf;
    var other := db.(status := status);
    assert Nodes(other) == Nodes(db);
    assert forall t :: Considered(db, excluded, t) <==> Considered(other, excluded, t);
    assert forall t | Considered(db, excluded, t) :: Hard(db, t) == Hard(other, t);
  }
}
