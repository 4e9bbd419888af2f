/** Admission of updates to a cluster: the validators and what every chain of admitted updates keeps. */
module Admission {
  import opened Text
  import opened Lists
  import opened Api
  import opened Images

  // ----- immutability, compared through joined strings -----

  predicate ImmutablesKept(o: ClusterSpec, n: ClusterSpec) {
    && o.mode == n.mode
    && o.domain == n.domain
    && Join(Tags(o), "|") == Join(Tags(n), "|")
    && Join(PublicUrls(o), "|") == Join(PublicUrls(n), "|")
    && Join(TcpUrls(o), "|") == Join(TcpUrls(n), "|")
  }

  datatype ImmutableField = SpecMode | SpecDomain | NodeTags | NodePublicUrls | NodeTcpUrls

  predicate FieldKept(f: ImmutableField, o: ClusterSpec, n: ClusterSpec) {
    match f
    case SpecMode => o.mode == n.mode
    case SpecDomain => o.domain == n.domain
    case NodeTags => Join(Tags(o), "|") == Join(Tags(n), "|")
    case NodePublicUrls => Join(PublicUrls(o), "|") == Join(PublicUrls(n), "|")
    case NodeTcpUrls => Join(TcpUrls(o), "|") == Join(TcpUrls(n), "|")
  }

  /** The errors so far: one for each of the fields looked at that changed. */
  ghost predicate Noted(errs: seq<ImmutableField>, seen: set<ImmutableField>, o: ClusterSpec, n: ClusterSpec) {
    Distinct(errs) && forall f :: f in errs <==> f in seen && !FieldKept(f, o, n)
  }

  method NoteChange(errs: seq<ImmutableField>, ghost seen: set<ImmutableField>, f: ImmutableField, o: ClusterSpec, n: ClusterSpec)
    returns (more: seq<ImmutableField>)
    requires Noted(errs, seen, o, n) && f !in seen
    ensures Noted(more, seen + {f}, o, n)
  {
    hide FieldKept;
    more := errs;
    if !FieldKept(f, o, n) {
      more := more + [f];
    }
  }

  /** One error for each field that changed, and so none exactly when all are kept. */
  method ValidateImmutableOnceCreated(o: ClusterSpec, n: ClusterSpec) returns (errs: seq<ImmutableField>)
    ensures Distinct(errs) && forall f :: f in errs <==> !FieldKept(f, o, n)
    ensures errs == [] <==> ImmutablesKept(o, n)
  {
    hide FieldKept, ImmutablesKept, Noted;
    errs := [];
    assert Noted([], {}, o, n) by { NothingNoted(o, n); }
    errs := NoteChange(errs, {}, SpecMode, o, n);
    assert {} + {SpecMode} == {SpecMode};
    errs := NoteChange(errs, {SpecMode}, SpecDomain, o, n);
    errs := NoteChange(errs, {SpecMode} + {SpecDomain}, NodeTags, o, n);
    errs := NoteChange(errs, {SpecMode} + {SpecDomain} + {NodeTags}, NodePublicUrls, o, n);
    errs := NoteChange(errs, {SpecMode} + {SpecDomain} + {NodeTags} + {NodePublicUrls}, NodeTcpUrls, o, n);
    AllNoted(errs, o, n);
  }

  lemma NothingNoted(o: ClusterSpec, n: ClusterSpec)
    ensures Noted([], {}, o, n)
  {
  }

  lemma AllNoted(errs: seq<ImmutableField>, o: ClusterSpec, n: ClusterSpec)
    requires Noted(errs, {SpecMode} + {SpecDomain} + {NodeTags} + {NodePublicUrls} + {NodeTcpUrls}, o, n)
    ensures Distinct(errs) && forall f :: f in errs <==> !FieldKept(f, o, n)
    ensures errs == [] <==> ImmutablesKept(o, n)
  {
    AllFieldsKept(o, n);
    hide FieldKept, ImmutablesKept;
    forall f ensures f in errs <==> !FieldKept(f, o, n) {
      match f case SpecMode => case SpecDomain => case NodeTags => case NodePublicUrls => case NodeTcpUrls =>
    }
    assert errs != [] ==> errs[0] in errs;
  }

  lemma AllFieldsKept(o: ClusterSpec, n: ClusterSpec)
    ensures ImmutablesKept(o, n) <==>
              FieldKept(SpecMode, o, n) && FieldKept(SpecDomain, o, n) && FieldKept(NodeTags, o, n)
              && FieldKept(NodePublicUrls, o, n) && FieldKept(NodeTcpUrls, o, n)
  {
    hide Join, Tags, PublicUrls, TcpUrls;
  }

  /** The node lists two specs agree on: order, tags and URLs. */
  ghost predicate SameTopology(o: ClusterSpec, n: ClusterSpec) {
    && o.mode == n.mode && o.domain == n.domain
    && |o.nodes| == |n.nodes|
    && forall i | 0 <= i < |o.nodes| ::
         && o.nodes[i].tag == n.nodes[i].tag
         && o.nodes[i].publicUrl == n.nodes[i].publicUrl
         && o.nodes[i].tcpUrl == n.nodes[i].tcpUrl
  }

  lemma ListsAgree(a: seq<string>, b: seq<string>)
    requires forall i | 0 <= i < |a| :: Plain(a[i])
    requires forall i | 0 <= i < |b| :: Plain(b[i])
    requires a != [] && b != []
    ensures Join(a, "|") == Join(b, "|") <==> a == b
  {
    JoinInjective(a, b, '|');
  }

  /** On well-formed specs the joined comparison decides equality of the ordered lists. */
  lemma ImmutablesKeptIsSameTopology(o: ClusterSpec, n: ClusterSpec)
    requires WellFormed(o) && WellFormed(n)
    ensures ImmutablesKept(o, n) <==> SameTopology(o, n)
  {
    ListsAgree(Tags(o), Tags(n));
    ListsAgree(PublicUrls(o), PublicUrls(n));
    ListsAgree(TcpUrls(o), TcpUrls(n));
    if ImmutablesKept(o, n) {
      assert |Tags(o)| == |Tags(n)|;
      forall i | 0 <= i < |o.nodes|
        ensures o.nodes[i].tag == n.nodes[i].tag && o.nodes[i].publicUrl == n.nodes[i].publicUrl
                && o.nodes[i].tcpUrl == n.nodes[i].tcpUrl
      {
        assert Tags(o)[i] == Tags(n)[i] && PublicUrls(o)[i] == PublicUrls(n)[i] && TcpUrls(o)[i] == TcpUrls(n)[i];
      }
    }
    if SameTopology(o, n) {
      assert Tags(o) == Tags(n) && PublicUrls(o) == PublicUrls(n) && TcpUrls(o) == TcpUrls(n);
    }
  }

  /** With a '|' inside an element the joined comparison accepts a different topology. */
  lemma JoinedComparisonNeedsPlainElements()
    ensures Join(["a|b"], "|") == Join(["a", "b"], "|")
    ensures Join([""], "|") == Join([], "|")
  {
    assert Join(["a", "b"][1..], "|") == "b";
    assert Join(["a", "b"], "|") == "a" + "|" + "b";
  }

  // ----- uniqueness of tags and URLs -----

  /** The elements that repeat an earlier one, in order. */
  function Repeats(s: seq<string>): seq<string> {
    if s == [] then []
    else
      var init, last := s[..|s| - 1], s[|s| - 1];
      Repeats(init) + (if last in init then [last] else [])
  }

  lemma {:induction false} NoRepeatsIsDistinct(s: seq<string>)
    ensures Repeats(s) == [] <==> Distinct(s)
  {
    if s != [] {
      var init := s[..|s| - 1];
      NoRepeatsIsDistinct(init);
      if Distinct(init) && s[|s| - 1] !in init {
        forall i, j | 0 <= i < j < |s| ensures s[i] != s[j] {
          assert s[i] == init[i];
        }
      }
    }
  }

  ghost function Repeated(s: seq<string>): set<nat> { set i: nat | i < |s| && s[i] in s[..i] }

  /** One for each position that holds an element seen before. */
  lemma {:induction false} RepeatsAre(s: seq<string>) returns (idx: seq<nat>)
    ensures Enumerates(idx, Repeated(s)) && |Repeats(s)| == |idx|
    ensures forall k | 0 <= k < |idx| :: idx[k] < |s| && Repeats(s)[k] == s[idx[k]]
  {
    hide Enumerates;
    idx := [];
    if s == [] {
      NothingBelow({});
      assert Repeated(s) == Below({}, 0);
    } else {
      var n, chosen := |s| - 1, Repeated(s);
      idx := RepeatsAre(s[..n]);
      RepeatedNext(s);
      hide Repeated, Below;
      OneFurther(idx, chosen, n);
      var again := s[n] in s[..n];
      assert Repeats(s) == Repeats(s[..n]) + if again then [s[n]] else [];
      hide Repeats;
      if again { idx := idx + [n]; }
    }
  }

  lemma RepeatedNext(s: seq<string>)
    requires s != []
    ensures var n, chosen := |s| - 1, Repeated(s);
            && Repeated(s[..n]) == Below(chosen, n) && chosen == Below(chosen, n + 1)
            && (n in chosen <==> s[n] in s[..n])
  {
    assert forall i | 0 <= i < |s| - 1 :: s[..|s| - 1][..i] == s[..i];
  }

  method ValidateUniqueTags(tags: seq<string>) returns (errs: seq<string>)
    ensures errs == Repeats(tags)
    ensures errs == [] <==> Distinct(tags)
  {
    errs := [];
    var seen: set<string> := {};
    for i := 0 to |tags|
      invariant seen == set k | 0 <= k < i :: tags[k]
      invariant errs == Repeats(tags[..i])
    {
      assert tags[..i + 1][..i] == tags[..i];
      assert tags[i] in seen <==> tags[i] in tags[..i];
      if tags[i] in seen {
        errs := errs + [tags[i]];
      }
      seen := seen + {tags[i]};
    }
    assert tags[..|tags|] == tags;
    NoRepeatsIsDistinct(tags);
  }

  datatype UrlField = PublicUrl(index: nat) | TcpUrl(index: nat)

  datatype UrlScan = UrlScan(seen: map<string, UrlField>, errs: seq<(UrlField, UrlField)>)

  function NoteUrl(s: UrlScan, f: UrlField, url: string): UrlScan {
    if url in s.seen then s.(errs := s.errs + [(f, s.seen[url])])
    else s.(seen := s.seen[url := f])
  }

  /** Noting every labelled URL in order. */
  function ScanUrls(fields: seq<(UrlField, string)>): UrlScan {
    if fields == [] then UrlScan(map[], [])
    else
      var last := fields[|fields| - 1];
      NoteUrl(ScanUrls(fields[..|fields| - 1]), last.0, last.1)
  }

  function Labelled(publicUrls: seq<string>, tcpUrls: seq<string>): (fs: seq<(UrlField, string)>)
    ensures |fs| == |publicUrls| + |tcpUrls|
    ensures forall i | 0 <= i < |fs| :: fs[i].1 == (publicUrls + tcpUrls)[i]
  {
    seq(|publicUrls|, i requires 0 <= i < |publicUrls| => (PublicUrl(i), publicUrls[i])) +
    seq(|tcpUrls|, i requires 0 <= i < |tcpUrls| => (TcpUrl(i), tcpUrls[i]))
  }

  /** The URLs seen are those listed, each under a field that holds it. */
  lemma {:induction false} ScanSees(fields: seq<(UrlField, string)>)
    ensures forall k | 0 <= k < |fields| :: fields[k].1 in ScanUrls(fields).seen
    ensures forall u | u in ScanUrls(fields).seen :: (ScanUrls(fields).seen[u], u) in fields
  {
    if fields != [] {
      var init := fields[..|fields| - 1];
      ScanSees(init);
      forall u | u in ScanUrls(fields).seen ensures (ScanUrls(fields).seen[u], u) in fields {
        if u in ScanUrls(init).seen {
          assert (ScanUrls(init).seen[u], u) in init;
        } else {
          assert fields[|fields| - 1] == (ScanUrls(fields).seen[u], u);
        }
      }
      forall k | 0 <= k < |fields| ensures fields[k].1 in ScanUrls(fields).seen {
        if k < |init| {
          assert init[k] == fields[k];
        }
      }
    }
  }

  ghost predicate DistinctUrls(fields: seq<(UrlField, string)>) {
    forall i, j | 0 <= i < j < |fields| :: fields[i].1 != fields[j].1
  }

  ghost predicate Holds(fields: seq<(UrlField, string)>, f: UrlField, url: string) { (f, url) in fields }

  /** Each error pairs two fields that hold one URL, and there is no error exactly when all the URLs
      are distinct. */
  lemma {:induction false} ScanFindsRepeats(fields: seq<(UrlField, string)>)
    ensures forall e | e in ScanUrls(fields).errs :: exists u :: Holds(fields, e.0, u) && Holds(fields, e.1, u)
    ensures ScanUrls(fields).errs == [] <==> DistinctUrls(fields)
  {
    if fields != [] {
      var n := |fields| - 1;
      var init, last := fields[..n], fields[n];
      ScanFindsRepeats(init);
      ScanSees(init);
      assert last.1 in ScanUrls(init).seen <==> exists k | 0 <= k < n :: fields[k].1 == last.1 by {
        if last.1 in ScanUrls(init).seen {
          var k :| 0 <= k < n && init[k] == (ScanUrls(init).seen[last.1], last.1);
          assert fields[k].1 == last.1;
        }
        if k :| 0 <= k < n && fields[k].1 == last.1 {
          assert init[k].1 == last.1;
        }
      }
      assert DistinctUrls(fields) <==> DistinctUrls(init) && last.1 !in ScanUrls(init).seen by {
        assert forall k | 0 <= k < n :: init[k] == fields[k];
      }
      forall e | e in ScanUrls(fields).errs ensures exists u :: Holds(fields, e.0, u) && Holds(fields, e.1, u) {
        if e in ScanUrls(init).errs {
          var u :| Holds(init, e.0, u) && Holds(init, e.1, u);
          assert Holds(fields, e.0, u) && Holds(fields, e.1, u);
        } else {
          assert Holds(init, e.1, last.1);
          assert Holds(fields, e.0, last.1) && Holds(fields, e.1, last.1);
        }
      }
    }
  }

  lemma ScanStep(fields: seq<(UrlField, string)>, k: nat)
    requires k < |fields|
    ensures ScanUrls(fields[..k + 1]) == NoteUrl(ScanUrls(fields[..k]), fields[k].0, fields[k].1)
  {
    assert fields[..k + 1][..k] == fields[..k];
  }

  lemma LabelledDistinct(publicUrls: seq<string>, tcpUrls: seq<string>)
    ensures DistinctUrls(Labelled(publicUrls, tcpUrls)) <==> Distinct(publicUrls + tcpUrls)
  {
  }

  /** No error means that all public and TCP URLs taken together are distinct. */
  method ValidateUniqueUrls(publicUrls: seq<string>, tcpUrls: seq<string>) returns (errs: seq<(UrlField, UrlField)>)
    ensures errs == [] <==> Distinct(publicUrls + tcpUrls)
    ensures errs == ScanUrls(Labelled(publicUrls, tcpUrls)).errs
  {
    hide ScanUrls, DistinctUrls, Distinct;
    errs := [];
    var seen: map<string, UrlField> := map[];
    ghost var all := Labelled(publicUrls, tcpUrls);
    assert UrlScan(seen, errs) == ScanUrls(all[..0]) by { ScanNothing(); }
    for i := 0 to |publicUrls|
      invariant UrlScan(seen, errs) == ScanUrls(all[..i])
    {
      ScanStep(all, i);
      var url := publicUrls[i];
      if url in seen {
        errs := errs + [(PublicUrl(i), seen[url])];
      } else {
        seen := seen[url := PublicUrl(i)];
      }
    }
    for i := 0 to |tcpUrls|
      invariant UrlScan(seen, errs) == ScanUrls(all[..|publicUrls| + i])
    {
      ScanStep(all, |publicUrls| + i);
      var url := tcpUrls[i];
      if url in seen {
        errs := errs + [(TcpUrl(i), seen[url])];
      } else {
        seen := seen[url := TcpUrl(i)];
      }
    }
    assert all[..|all|] == all;
    ScanFindsRepeats(all);
    LabelledDistinct(publicUrls, tcpUrls);
  }

  lemma ScanNothing()
    ensures ScanUrls([]) == UrlScan(map[], [])
  {
  }

  // ----- the validator registry -----

  datatype Validator = Validator(name: string, accepts: (ClusterSpec, ClusterSpec) -> bool)

  class Registry {
    var validators: seq<Validator>

    constructor ()
      ensures validators == []
    {
      validators := [];
    }

    /** The three validators that the guarantees rest on are registered. */
    ghost predicate Complete()
      reads this
    {
      IMAGE_VALIDATOR in validators && GENERAL_VALIDATOR in validators && NODE_VALIDATOR in validators
    }

    method Register(v: Validator)
      modifies this
      ensures validators == old(validators) + [v]
    {
      validators := validators + [v];
    }

    /** What the webhook registers; the last two are other validators of the repository. */
    method SetupWebhook(externalAccess: Validator, storage: Validator)
      modifies this
      ensures Complete() && old(validators) <= validators
    {
      Register(IMAGE_VALIDATOR);
      Register(GENERAL_VALIDATOR);
      Register(NODE_VALIDATOR);
      Register(externalAccess);
      Register(storage);
    }

    /** An update is admitted when every registered validator accepts it; otherwise the errors name
        the refusing validators in registration order. */
    method RunUpdate(o: ClusterSpec, n: ClusterSpec) returns (errs: seq<string>)
      ensures errs == [] <==> forall i | 0 <= i < |validators| :: validators[i].accepts(o, n)
      ensures errs == Refusals(validators, o, n)
      ensures Complete() && errs == [] ==> Admitted(o, n)
    {
      hide Admitted;
      errs := [];
      for i := 0 to |validators|
        invariant errs == Refusals(validators[..i], o, n)
        invariant errs == [] <==> forall k | 0 <= k < i :: validators[k].accepts(o, n)
      {
        assert validators[..i + 1][..i] == validators[..i];
        if !validators[i].accepts(o, n) {
          errs := errs + [validators[i].name];
        }
      }
      assert validators[..|validators|] == validators;
      if Complete() && errs == [] {
        NoRefusalIsAdmitted(validators, o, n);
      }
    }
  }

  function Refusals(vs: seq<Validator>, o: ClusterSpec, n: ClusterSpec): seq<string> {
    if vs == [] then []
    else
      var v := vs[|vs| - 1];
      Refusals(vs[..|vs| - 1], o, n) + (if v.accepts(o, n) then [] else [v.name])
  }

  ghost function Refusing(vs: seq<Validator>, o: ClusterSpec, n: ClusterSpec): set<nat> {
    set i: nat | i < |vs| && !vs[i].accepts(o, n)
  }

  /** The names of exactly the validators that refuse, in registration order. */
  lemma {:induction false} RefusalsAre(vs: seq<Validator>, o: ClusterSpec, n: ClusterSpec) returns (idx: seq<nat>)
    ensures Enumerates(idx, Refusing(vs, o, n)) && |Refusals(vs, o, n)| == |idx|
    ensures forall k | 0 <= k < |idx| :: idx[k] < |vs| && Refusals(vs, o, n)[k] == vs[idx[k]].name
  {
    hide Enumerates;
    idx := [];
    if vs == [] {
      NothingBelow({});
      assert Refusing(vs, o, n) == Below({}, 0);
    } else {
      var m, chosen := |vs| - 1, Refusing(vs, o, n);
      idx := RefusalsAre(vs[..m], o, n);
      RefusingNext(vs, o, n);
      hide Refusing, Below;
      OneFurther(idx, chosen, m);
      if !vs[m].accepts(o, n) { idx := idx + [m]; }
    }
  }

  lemma RefusingNext(vs: seq<Validator>, o: ClusterSpec, n: ClusterSpec)
    requires vs != []
    ensures var m, chosen := |vs| - 1, Refusing(vs, o, n);
            && Refusing(vs[..m], o, n) == Below(chosen, m) && chosen == Below(chosen, m + 1)
            && (m in chosen <==> !vs[m].accepts(o, n))
  {
  }

  predicate NodesOk(n: ClusterSpec) {
    n.nodes != [] && Distinct(Tags(n)) && Distinct(PublicUrls(n) + TcpUrls(n))
  }

  const IMAGE_VALIDATOR := Validator("image-validator", (o: ClusterSpec, n: ClusterSpec) => ImageUpdateOk(o.image, n.image))
  const GENERAL_VALIDATOR := Validator("general-validator", (o: ClusterSpec, n: ClusterSpec) => ImmutablesKept(o, n))
  const NODE_VALIDATOR := Validator("node-validator", (o: ClusterSpec, n: ClusterSpec) => NodesOk(n))

  /** The conditions an admitted update is known to meet. The other registered validators can only
      refuse more, so whatever holds of these updates holds of the admitted ones. */
  predicate Admitted(o: ClusterSpec, n: ClusterSpec) {
    ImageUpdateOk(o.image, n.image) && ImmutablesKept(o, n) && NodesOk(n)
  }

  lemma NoRefusalIsAdmitted(vs: seq<Validator>, o: ClusterSpec, n: ClusterSpec)
    requires IMAGE_VALIDATOR in vs && GENERAL_VALIDATOR in vs && NODE_VALIDATOR in vs
    requires forall i | 0 <= i < |vs| :: vs[i].accepts(o, n)
    ensures Admitted(o, n)
  {
    assert IMAGE_VALIDATOR.accepts(o, n) && GENERAL_VALIDATOR.accepts(o, n) && NODE_VALIDATOR.accepts(o, n);
  }

  // ----- chains of admitted updates -----

  /** One admitted update between well-formed specs keeps the topology, never lowers the version,
      and leaves distinct tags. */
  lemma AdmittedUpdate(o: ClusterSpec, n: ClusterSpec)
    requires WellFormed(o) && WellFormed(n) && Admitted(o, n)
    ensures SameTopology(o, n) && Tags(o) == Tags(n)
    ensures NotNewer(o.image, n.image)
    ensures Distinct(Tags(n))
  {
    hide ImmutablesKept, ImageUpdateOk, NotNewer;
    ImmutablesKeptIsSameTopology(o, n);
    assert Tags(o) == Tags(n);
    ImageUpdateAccepted(o.image, n.image);
  }

  /** On well-formed specs the modelled validators accept exactly the updates that keep mode, domain and
      the ordered tags and URLs, move to a valid image of no lower version, and have no tag or URL twice. */
  lemma AdmittedIff(o: ClusterSpec, n: ClusterSpec)
    requires WellFormed(o) && WellFormed(n)
    ensures Admitted(o, n) <==>
              && SameTopology(o, n) && Distinct(Tags(n)) && Distinct(PublicUrls(n) + TcpUrls(n))
              && ValidImage(n.image) && VersionOf(o.image).Some? && VersionOf(n.image).Some?
              && !Precedes(VersionOf(n.image).value, VersionOf(o.image).value)
  {
    hide ImmutablesKept, ImageUpdateOk, SameTopology, Distinct, ValidImage, VersionOf, Precedes;
    ImmutablesKeptIsSameTopology(o, n);
    ImageUpdateAccepted(o.image, n.image);
  }

  ghost predicate AdmittedChain(specs: seq<ClusterSpec>) {
    && (forall i | 0 <= i < |specs| :: WellFormed(specs[i]))
    && (forall i | 0 < i < |specs| :: Admitted(specs[i - 1], specs[i]))
  }

  /** Along every chain of admitted updates the topology is the original one and versions only grow. */
  lemma {:induction false} TopologyFixedForLife(specs: seq<ClusterSpec>, i: nat, j: nat)
    requires AdmittedChain(specs) && i <= j < |specs|
    ensures SameTopology(specs[i], specs[j]) && Tags(specs[i]) == Tags(specs[j])
    ensures NotNewer(specs[i].image, specs[j].image)
    decreases j - i
  {
    hide Admitted, NotNewer;
    if i < j {
      TopologyFixedForLife(specs, i, j - 1);
      assert Admitted(specs[j - 1], specs[j]);
      AdmittedUpdate(specs[j - 1], specs[j]);
      NotNewerTransitive(specs[i].image, specs[j - 1].image, specs[j].image);
    } else {
      NotNewerReflexive(specs[i].image);
    }
  }
}
