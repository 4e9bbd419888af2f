/** Image references, the version at the start of their tag, and the downgrade check. */
module Images {
  import opened Text

  type Image = string

  datatype Semver = Semver(major: nat, minor: nat, patch: nat)

  /** Largest value of Go's int on a 64-bit platform; strconv.Atoi answers it on overflow. */
  const MAX_INT: nat := 0x7FFF_FFFF_FFFF_FFFF

  function BeforeAt(image: Image): string {
    var at := IndexOf(image, '@');
    if at != -1 then image[..at] else image
  }

  function NameTag(name: string): Option<string> {
    var lastSlash := LastIndexOf(name, '/');
    var lastColon := LastIndexOf(name, ':');
    if lastColon == -1 || lastColon < lastSlash then None
    else if name[lastColon + 1..] == "" then None
    else Some(name[lastColon + 1..])
  }

  function ExtractTag(image: Image): Option<string> {
    NameTag(BeforeAt(image))
  }

  predicate TagShaped(tag: string) {
    tag != "" && '/' !in tag && ':' !in tag && '@' !in tag
  }

  /** Extraction undoes repository:tag. */
  lemma ExtractTagRoundTrip(repo: string, tag: string)
    requires '@' !in repo && TagShaped(tag)
    ensures ExtractTag(repo + ":" + tag) == Some(tag)
  {
    var image := repo + ":" + tag;
    assert image[|repo| + 1..] == tag;
    LastIndexIs(image, ':', |repo|);
    forall i | |repo| < i < |image| ensures image[i] != '/' {
      assert image[i] == tag[i - |repo| - 1];
    }
  }

  lemma CutAt(name: string, c: nat)
    requires c < |name|
    ensures name == name[..c] + [name[c]] + name[c + 1..]
    ensures forall x | x in name[c + 1..] || x in name[..c] :: x in name
  {
  }

  lemma NoSlashAfter(name: string, c: nat)
    requires LastIndexOf(name, '/') < c < |name|
    ensures '/' !in name[c + 1..]
  {
    var s := LastIndexOf(name, '/');
    forall i | c < i < |name| ensures name[i] != '/' {
      assert name[i] == name[s + 1..][i - s - 1];
    }
  }

  lemma NameTagIsShaped(name: string)
    requires '@' !in name && NameTag(name).Some?
    ensures TagShaped(NameTag(name).value)
    ensures exists repo :: '@' !in repo && name == repo + ":" + NameTag(name).value
  {
    var c := LastIndexOf(name, ':');
    CutAt(name, c);
    NoSlashAfter(name, c);
    var repo := name[..c];
    assert '@' !in repo && name == repo + ":" + NameTag(name).value;
  }

  /** Extraction answers nothing but well-shaped tags, each of which the image names. */
  lemma ExtractedTagIsShaped(image: Image)
    requires ExtractTag(image).Some?
    ensures TagShaped(ExtractTag(image).value)
    ensures exists repo :: '@' !in repo && repo + ":" + ExtractTag(image).value <= image
  {
    NameTagIsShaped(BeforeAt(image));
    assert BeforeAt(image) <= image;
  }

  /** The image names a tag: it is repository:tag, or that with a digest behind an '@'. */
  ghost predicate Names(image: Image, tag: string) {
    TagShaped(tag) && exists repo, rest :: NamedIn(image, tag, repo, rest)
  }

  ghost predicate NamedIn(image: Image, tag: string, repo: string, rest: string) {
    '@' !in repo && image == repo + ":" + tag + rest && (rest == "" || rest[0] == '@')
  }

  lemma SplitAtAt(image: Image)
    ensures var rest := image[|BeforeAt(image)|..];
            '@' !in BeforeAt(image) && image == BeforeAt(image) + rest && (rest == "" || rest[0] == '@')
  {
  }

  lemma ExtractedIsNamed(image: Image, tag: string)
    requires ExtractTag(image) == Some(tag)
    ensures Names(image, tag)
  {
    SplitAtAt(image);
    hide NameTag, BeforeAt, TagShaped;
    var name := BeforeAt(image);
    NameTagIsShaped(name);
    var repo :| '@' !in repo && name == repo + ":" + tag;
    assert NamedIn(image, tag, repo, image[|name|..]);
  }

  lemma NamedIsExtracted(image: Image, tag: string)
    requires Names(image, tag)
    ensures ExtractTag(image) == Some(tag)
  {
    var repo, rest :| NamedIn(image, tag, repo, rest);
    var name := repo + ":" + tag;
    assert '@' !in name;
    hide NameTag, BeforeAt;
    NamedBeforeAt(image, name, rest);
    ExtractTagRoundTrip(repo, tag);
    assert name == name + "";
    NamedBeforeAt(name, name, "");
  }

  /** Extraction answers a tag if and only if the image names it. */
  lemma ExtractTagIff(image: Image, tag: string)
    ensures ExtractTag(image) == Some(tag) <==> Names(image, tag)
  {
    hide ExtractTag, Names;
    if ExtractTag(image) == Some(tag) {
      ExtractedIsNamed(image, tag);
    }
    if Names(image, tag) {
      NamedIsExtracted(image, tag);
    }
  }

  lemma NamedBeforeAt(image: Image, name: string, rest: string)
    requires '@' !in name && image == name + rest && (rest == "" || rest[0] == '@')
    ensures BeforeAt(image) == name
  {
    if rest != "" {
      assert image[|name|] == '@';
      assert image[..|name|] == name;
      FirstIndexIs(image, '@', |name|);
    } else {
      assert image == name;
    }
  }

  // ----- version parsing -----

  predicate IsDigit(c: char) { '0' <= c <= '9' }

  /** The length of the longest prefix of decimal digits. */
  function DigitSpan(s: string): (n: nat)
    ensures n <= |s|
    ensures forall i | 0 <= i < n :: IsDigit(s[i])
    ensures n < |s| ==> !IsDigit(s[n])
  {
    if s != [] && IsDigit(s[0]) then 1 + DigitSpan(s[1..]) else 0
  }

  function DigitValue(c: char): nat
    requires IsDigit(c)
  {
    (c - '0') as int
  }

  function DecimalValue(s: string): nat
    requires forall i | 0 <= i < |s| :: IsDigit(s[i])
  {
    if s == [] then 0
    else 10 * DecimalValue(s[..|s| - 1]) + DigitValue(s[|s| - 1])
  }

  /** strconv.Atoi on digits, with its error ignored: the value, clamped to the largest int. */
  function Atoi(s: string): nat
    requires forall i | 0 <= i < |s| :: IsDigit(s[i])
  {
    var v := DecimalValue(s);
    if v <= MAX_INT then v else MAX_INT
  }

  /** A number at the start of a string, and what follows all its digits. */
  function TakeNumber(s: string): Option<(nat, string)> {
    var n := DigitSpan(s);
    if n == 0 then None else Some((Atoi(s[..n]), s[n..]))
  }

  /** A dot and a number at the start of a string. */
  function TakeDotNumber(s: string): Option<(nat, string)> {
    if s != "" && s[0] == '.' then TakeNumber(s[1..]) else None
  }

  /** The leading major.minor[.patch] of a tag. */
  function ParseVersion(tag: string): Option<Semver> {
    match TakeNumber(tag)
    case None => None
    case Some((major, rest)) =>
      match TakeDotNumber(rest)
      case None => None
      case Some((minor, tail)) =>
        match TakeDotNumber(tail)
        case None => Some(Semver(major, minor, 0))
        case Some((patch, _)) => Some(Semver(major, minor, patch))
  }

  function Print(n: nat): (s: string)
    ensures |s| > 0
    ensures forall i | 0 <= i < |s| :: IsDigit(s[i])
  {
    if n < 10 then ['0' + n as char] else Print(n / 10) + ['0' + (n % 10) as char]
  }

  function PrintVersion(v: Semver): string {
    Print(v.major) + "." + Print(v.minor) + "." + Print(v.patch)
  }

  lemma {:induction false} PrintThenValue(n: nat)
    ensures DecimalValue(Print(n)) == n
  {
    var s := Print(n);
    if n < 10 {
      assert s[..|s| - 1] == "";
    } else {
      PrintThenValue(n / 10);
      assert s[..|s| - 1] == Print(n / 10);
    }
  }

  lemma {:induction false} SpanOfDigits(d: string, rest: string)
    requires forall i | 0 <= i < |d| :: IsDigit(d[i])
    requires rest != "" ==> !IsDigit(rest[0])
    ensures DigitSpan(d + rest) == |d|
  {
    if d == "" {
      assert d + rest == rest;
    } else {
      assert (d + rest)[1..] == d[1..] + rest;
      SpanOfDigits(d[1..], rest);
    }
  }

  /** Leading zeros do not count. */
  lemma {:induction false} LeadingZero(s: string)
    requires forall i | 0 <= i < |s| :: IsDigit(s[i])
    ensures DecimalValue("0" + s) == DecimalValue(s)
  {
    if s == "" {
      assert ("0" + s)[..0] == "";
    } else {
      LeadingZero(s[..|s| - 1]);
      assert ("0" + s)[..|s|] == "0" + s[..|s| - 1];
    }
  }

  /** A number as the code reads it: the largest int stands for all greater ones. */
  function Clamp(n: nat): nat { if n < 0x8000_0000_0000_0000 then n else 0x7FFF_FFFF_FFFF_FFFF }

  lemma TakePrinted(n: nat, rest: string)
    requires rest != "" ==> !IsDigit(rest[0])
    ensures TakeNumber(Print(n) + rest) == Some((Clamp(n), rest))
    ensures TakeDotNumber("." + Print(n) + rest) == Some((Clamp(n), rest))
  {
    var d := Print(n);
    PrintThenValue(n);
    SpanOfDigits(d, rest);
    hide Print, DigitSpan, DecimalValue;
    assert (d + rest)[..|d|] == d && (d + rest)[|d|..] == rest;
    assert ("." + d + rest)[1..] == d + rest;
  }

  lemma ParseSteps(tag: string, a: nat, r: string, b: nat, s: string)
    requires TakeNumber(tag) == Some((a, r)) && TakeDotNumber(r) == Some((b, s))
    ensures ParseVersion(tag) == Some(Semver(a, b, if TakeDotNumber(s).Some? then TakeDotNumber(s).value.0 else 0))
  {
  }

  lemma Regroup(x: string, y: string, z: string, s: string)
    ensures x + "." + y + "." + z + s == x + ("." + y + ("." + z + s))
    ensures x + "." + y + s == x + ("." + y + s)
  {
  }

  function ClampVersion(v: Semver): Semver { Semver(Clamp(v.major), Clamp(v.minor), Clamp(v.patch)) }

  /** A printed version is read back whatever follows it, as long as no digit does; numbers that do not
      fit in an int are read as the largest int. */
  lemma ParsePrintedVersion(v: Semver, suffix: string)
    requires suffix != "" ==> !IsDigit(suffix[0])
    ensures ParseVersion(PrintVersion(v) + suffix) == Some(ClampVersion(v))
    ensures v.major <= MAX_INT && v.minor <= MAX_INT && v.patch <= MAX_INT ==> ParseVersion(PrintVersion(v) + suffix) == Some(v)
  {
    var third := "." + Print(v.patch) + suffix;
    var second := "." + Print(v.minor) + third;
    hide ParseVersion, TakeNumber, TakeDotNumber, Print;
    TakePrinted(v.patch, suffix);
    TakePrinted(v.minor, third);
    TakePrinted(v.major, second);
    Regroup(Print(v.major), Print(v.minor), Print(v.patch), suffix);
    ParseSteps(Print(v.major) + second, Clamp(v.major), second, Clamp(v.minor), third);
  }

  /** No patch number follows. */
  predicate NoPatch(suffix: string) {
    (suffix != "" ==> !IsDigit(suffix[0])) && (|suffix| > 1 && suffix[0] == '.' ==> !IsDigit(suffix[1]))
  }

  /** A printed major.minor without a patch number is read as patch 0. */
  lemma ParsePrintedMinor(major: nat, minor: nat, suffix: string)
    requires NoPatch(suffix)
    ensures ParseVersion(Print(major) + "." + Print(minor) + suffix) == Some(Semver(Clamp(major), Clamp(minor), 0))
  {
    assert TakeDotNumber(suffix).None?;
    var second := "." + Print(minor) + suffix;
    hide ParseVersion, TakeNumber, TakeDotNumber, Print;
    TakePrinted(minor, suffix);
    TakePrinted(major, second);
    Regroup(Print(major), Print(minor), "", suffix);
    ParseSteps(Print(major) + second, Clamp(major), second, Clamp(minor), suffix);
  }

  /** The tag begins with n digits, a dot and a digit. */
  ghost predicate Versioned(tag: string, n: nat) {
    && 0 < n && n + 1 < |tag| && (forall i | 0 <= i < n :: IsDigit(tag[i]))
    && tag[n] == '.' && IsDigit(tag[n + 1])
  }

  /** A version is read if and only if the tag begins with digits, a dot and a digit. */
  lemma ParsesIff(tag: string)
    ensures ParseVersion(tag).Some? <==> exists n: nat :: Versioned(tag, n)
  {
    var k := DigitSpan(tag);
    if ParseVersion(tag).Some? {
      assert tag[k..][0] == tag[k] && tag[k..][1..][0] == tag[k + 1];
      assert Versioned(tag, k);
    }
    if n: nat :| Versioned(tag, n) {
      assert tag == tag[..n] + tag[n..] && tag[n..][0] == '.';
      SpanOfDigits(tag[..n], tag[n..]);
      assert tag[k..][1..][0] == tag[k + 1];
    }
  }

  // ----- version order -----

  /** compareSemver: 1, -1 or 0. */
  function CompareSemver(a: Semver, b: Semver): int {
    if a.major != b.major then (if a.major > b.major then 1 else -1)
    else if a.minor != b.minor then (if a.minor > b.minor then 1 else -1)
    else if a.patch != b.patch then (if a.patch > b.patch then 1 else -1)
    else 0
  }

  function Fields(v: Semver): seq<nat> { [v.major, v.minor, v.patch] }

  /** Semantic Versioning 2.0.0, section 11: the first differing field decides. */
  ghost predicate Precedes(a: Semver, b: Semver) {
    exists k | 0 <= k < 3 :: Fields(a)[k] < Fields(b)[k] && Fields(a)[..k] == Fields(b)[..k]
  }

  predicate VersionLeq(a: Semver, b: Semver) { CompareSemver(a, b) != 1 }

  lemma CompareIsPrecedence(a: Semver, b: Semver)
    ensures CompareSemver(a, b) == 1 <==> Precedes(b, a)
    ensures CompareSemver(a, b) == -1 <==> Precedes(a, b)
    ensures CompareSemver(a, b) == 0 <==> a == b
  {
    FirstDifference(a, b);
    FirstDifference(b, a);
  }

  lemma FirstDifference(a: Semver, b: Semver)
    ensures Precedes(a, b) <==>
              (a.major < b.major
               || (a.major == b.major && a.minor < b.minor)
               || (a.major == b.major && a.minor == b.minor && a.patch < b.patch))
  {
    var x, y := Fields(a), Fields(b);
    assert x[..0] == y[..0];
    assert x[..1] == [a.major] && y[..1] == [b.major];
    assert x[..2] == [a.major, a.minor] && y[..2] == [b.major, b.minor];
    assert forall k | 0 <= k < 3 :: x[k] < y[k] && x[..k] == y[..k] ==> k == 0 || k == 1 || k == 2;
  }

  function VersionOf(image: Image): Option<Semver> {
    var t := ExtractTag(image);
    if t.None? then None else ParseVersion(t.value)
  }

  /** Moving from one image to the other is not a downgrade: they are the same image, or both
      carry a version and the first does not exceed the second. */
  predicate NotNewer(a: Image, b: Image) {
    a == b || BothOrdered(VersionOf(a), VersionOf(b))
  }

  predicate BothOrdered(x: Option<Semver>, y: Option<Semver>) {
    x.Some? && y.Some? && VersionLeq(x.value, y.value)
  }

  lemma OrderedTransitive(x: Option<Semver>, y: Option<Semver>, z: Option<Semver>)
    requires BothOrdered(x, y) && BothOrdered(y, z)
    ensures BothOrdered(x, z)
  {
  }

  lemma NotNewerReflexive(a: Image)
    ensures NotNewer(a, a)
  {
  }

  lemma NotNewerTransitive(a: Image, b: Image, c: Image)
    requires NotNewer(a, b) && NotNewer(b, c)
    ensures NotNewer(a, c)
  {
    if a != b && b != c {
      OrderedTransitive(VersionOf(a), VersionOf(b), VersionOf(c));
    }
  }

  // ----- admission of an image -----

  predicate ValidImage(image: Image) {
    && HasPrefix(image, "ravendb/")
    && !Contains(image, "@sha256:")
    && var tag := ExtractTag(image);
    && tag.Some?
    && !Contains(tag.value, "latest")
    && Contains(tag.value, "ubuntu.")
  }

  ghost predicate Holds(s: string, sub: string) { exists a, b :: s == a + sub + b }

  /** An image is valid if and only if it is ravendb/..., carries no sha256 digest, and names a tag with
      "ubuntu." and without "latest" in it. */
  lemma ValidImageIff(image: Image)
    ensures ValidImage(image) <==>
              && (exists rest :: image == "ravendb/" + rest)
              && !Holds(image, "@sha256:")
              && exists tag :: Names(image, tag) && !Holds(tag, "latest") && Holds(tag, "ubuntu.")
  {
    hide ExtractTag, Names, Contains;
    ContainsIff(image, "@sha256:");
    if HasPrefix(image, "ravendb/") {
      assert image == "ravendb/" + image[8..];
    }
    forall tag ensures ExtractTag(image) == Some(tag) <==> Names(image, tag) {
      ExtractTagIff(image, tag);
    }
    forall tag ensures Contains(tag, "latest") <==> Holds(tag, "latest") {
      ContainsIff(tag, "latest");
    }
    forall tag ensures Contains(tag, "ubuntu.") <==> Holds(tag, "ubuntu.") {
      ContainsIff(tag, "ubuntu.");
    }
  }

  /** The tag that extractTag hands on when its flag is ignored: "" when there is none. */
  function TagOrEmpty(image: Image): string {
    var t := ExtractTag(image);
    if t.Some? then t.value else ""
  }

  predicate NoDowngrade(oldTag: string, newTag: string) {
    var o, n := ParseVersion(oldTag), ParseVersion(newTag);
    o.Some? && n.Some? && CompareSemver(o.value, n.value) != 1
  }

  predicate ImageUpdateOk(oldImage: Image, newImage: Image) {
    ValidImage(newImage) && NoDowngrade(TagOrEmpty(oldImage), TagOrEmpty(newImage))
  }

  /** An accepted update goes from a versioned image to a versioned image that does not precede
      it; conversely those are the only reasons to refuse a valid image. */
  lemma ImageUpdateAccepted(oldImage: Image, newImage: Image)
    ensures ImageUpdateOk(oldImage, newImage) <==>
              ValidImage(newImage) && VersionOf(oldImage).Some? && VersionOf(newImage).Some?
              && !Precedes(VersionOf(newImage).value, VersionOf(oldImage).value)
    ensures ImageUpdateOk(oldImage, newImage) ==> NotNewer(oldImage, newImage)
  {
    assert ParseVersion("") == None;
    if VersionOf(oldImage).Some? && VersionOf(newImage).Some? {
      CompareIsPrecedence(VersionOf(oldImage).value, VersionOf(newImage).value);
    }
  }

  /** The version that an image's tag begins with, in two parts or three. */
  ghost predicate CarriesVersion(image: Image, v: Semver) {
    exists tag, suffix :: Names(image, tag) && TagOfVersion(tag, v, suffix)
  }

  ghost predicate TagOfVersion(tag: string, v: Semver, suffix: string) {
    || (tag == PrintVersion(v) + suffix && (suffix != "" ==> !IsDigit(suffix[0])))
    || (v.patch == 0 && tag == Print(v.major) + "." + Print(v.minor) + suffix && NoPatch(suffix))
  }

  lemma CarriedVersion(image: Image, v: Semver)
    requires CarriesVersion(image, v)
    ensures VersionOf(image) == Some(ClampVersion(v))
  {
    hide ExtractTag, Names, ParseVersion, Print, PrintVersion;
    var tag, suffix :| Names(image, tag) && TagOfVersion(tag, v, suffix);
    ExtractTagIff(image, tag);
    if tag == PrintVersion(v) + suffix && (suffix != "" ==> !IsDigit(suffix[0])) {
      ParsePrintedVersion(v, suffix);
    } else {
      ParsePrintedMinor(v.major, v.minor, suffix);
    }
  }

  /** The downgrade check in terms of the two images: between versions that fit in an int, an update to a
      valid image is accepted if and only if its version does not precede the old one. */
  lemma DowngradeRefused(oldImage: Image, newImage: Image, a: Semver, b: Semver)
    requires CarriesVersion(oldImage, a) && CarriesVersion(newImage, b)
    requires ClampVersion(a) == a && ClampVersion(b) == b && ValidImage(newImage)
    ensures ImageUpdateOk(oldImage, newImage) <==> !Precedes(b, a)
  {
    hide CarriesVersion, VersionOf, ValidImage, ImageUpdateOk, Precedes;
    CarriedVersion(oldImage, a);
    CarriedVersion(newImage, b);
    ImageUpdateAccepted(oldImage, newImage);
  }
}
