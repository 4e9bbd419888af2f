/** The string operations of Go's `strings` package that the operator relies on.
    Letter case is exact for ASCII and for the four non-ASCII letters whose case
    mapping or case folding meets ASCII; any other character is its own case. */
module Text {

  datatype Option<+T> = None | Some(value: T)

  function LowerChar(c: char): char {
    if 'A' <= c <= 'Z' then c - 'A' + 'a'
    else if c == '\U{0130}' then 'i'
    else if c == '\U{212A}' then 'k'
    else c
  }

  function UpperChar(c: char): char {
    if 'a' <= c <= 'z' then c - 'a' + 'A'
    else if c == '\U{0131}' then 'I'
    else if c == '\U{017F}' then 'S'
    else c
  }

  /** The representative of a character's simple case-folding orbit. */
  function FoldChar(c: char): char {
    if 'A' <= c <= 'Z' then c - 'A' + 'a'
    else if c == '\U{212A}' then 'k'
    else if c == '\U{017F}' then 's'
    else c
  }

  function ToLower(s: string): string {
    seq(|s|, i requires 0 <= i < |s| => LowerChar(s[i]))
  }

  function ToUpper(s: string): string {
    seq(|s|, i requires 0 <= i < |s| => UpperChar(s[i]))
  }

  predicate EqualFold(s: string, t: string) {
    |s| == |t| && forall i | 0 <= i < |s| :: FoldChar(s[i]) == FoldChar(t[i])
  }

  predicate IsSpace(c: char) {
    || c == ' ' || '\t' <= c <= '\r' || c == '\U{0085}' || c == '\U{00A0}' || c == '\U{1680}'
    || '\U{2000}' <= c <= '\U{200A}' || c == '\U{2028}' || c == '\U{2029}' || c == '\U{202F}'
    || c == '\U{205F}' || c == '\U{3000}'
  }

  /** The first position from i on that does not hold a space. */
  function SkipSpaces(s: string, i: nat): (r: nat)
    requires i <= |s|
    ensures i <= r <= |s|
    ensures forall k | i <= k < r :: IsSpace(s[k])
    ensures r < |s| ==> !IsSpace(s[r])
    decreases |s| - i
  {
    if i < |s| && IsSpace(s[i]) then SkipSpaces(s, i + 1) else i
  }

  /** The end of what is left before j when the spaces before j are dropped. */
  function DropSpaces(s: string, j: nat): (r: nat)
    requires j <= |s|
    ensures r <= j
    ensures forall k | r <= k < j :: IsSpace(s[k])
    ensures r > 0 ==> !IsSpace(s[r - 1])
  {
    if j > 0 && IsSpace(s[j - 1]) then DropSpaces(s, j - 1) else j
  }

  function TrimLeft(s: string): string { s[SkipSpaces(s, 0)..] }

  function TrimRight(s: string): string { s[..DropSpaces(s, |s|)] }

  function TrimSpace(s: string): string {
    TrimRight(TrimLeft(s))
  }

  predicate Trimmed(s: string) {
    s != [] ==> !IsSpace(s[0]) && !IsSpace(s[|s| - 1])
  }

  predicate Contains(s: string, sub: string) {
    exists i | 0 <= i <= |s| :: sub <= s[i..]
  }

  predicate HasPrefix(s: string, p: string) {
    p <= s
  }

  /** Go's strings.Index for one character: the first position, or -1. */
  function IndexOf(s: string, c: char): (r: int)
    ensures -1 <= r < |s|
    ensures r == -1 <==> c !in s
    ensures r != -1 ==> s[r] == c && c !in s[..r]
  {
    if s == [] then -1
    else if s[0] == c then 0
    else
      var k := IndexOf(s[1..], c);
      if k == -1 then -1 else
        assert s[..k + 1] == [s[0]] + s[1..][..k];
        k + 1
  }

  /** Go's strings.LastIndex for one character: the last position, or -1. */
  function LastIndexOf(s: string, c: char): (r: int)
    ensures -1 <= r < |s|
    ensures r == -1 <==> c !in s
    ensures r != -1 ==> s[r] == c && c !in s[r + 1..]
  {
    if s == [] then -1
    else if s[|s| - 1] == c then |s| - 1
    else
      var k := LastIndexOf(s[..|s| - 1], c);
      assert s == s[..|s| - 1] + [s[|s| - 1]];
      if k == -1 then -1 else
        assert s[k + 1..] == s[..|s| - 1][k + 1..] + [s[|s| - 1]];
        k
  }

  /** Go's strings.Join. */
  function Join(parts: seq<string>, sep: string): string {
    if parts == [] then ""
    else if |parts| == 1 then parts[0]
    else parts[0] + sep + Join(parts[1..], sep)
  }

  lemma TrimmedIsFixed(s: string)
    requires Trimmed(s)
    ensures TrimSpace(s) == s
  {
    hide IsSpace;
    assert SkipSpaces(s, 0) == 0 || s == "";
    assert TrimLeft(s) == s;
  }

  ghost predicate Blank(s: string) { forall i | 0 <= i < |s| :: IsSpace(s[i]) }

  /** Trimming takes spaces away at both ends. */
  lemma TrimSplit(s: string) returns (a: string, b: string)
    ensures s == a + TrimSpace(s) + b && Blank(a) && Blank(b)
  {
    hide IsSpace;
    var i, l := SkipSpaces(s, 0), TrimLeft(s);
    a, b := s[..i], l[DropSpaces(l, |l|)..];
  }

  /** Nothing is left exactly when there was nothing but spaces. */
  lemma TrimsToNothing(s: string)
    ensures TrimSpace(s) == "" <==> Blank(s)
  {
    hide IsSpace, TrimSpace;
    var a, b := TrimSplit(s);
    if TrimSpace(s) == "" {
      assert s == a + b;
    } else if Blank(s) {
      SkipsAll(s);
      assert false;
    }
  }

  lemma SkipsAll(s: string)
    requires Blank(s)
    ensures TrimSpace(s) == ""
  {
    hide IsSpace;
    assert SkipSpaces(s, 0) == |s|;
    assert TrimLeft(s) == "";
  }

  /** What is left of a padded word is the word. */
  lemma TrimPadded(a: string, w: string, b: string)
    requires Blank(a) && Blank(b) && Trimmed(w) && w != ""
    ensures TrimSpace(a + w + b) == w
  {
    hide IsSpace;
    var s := a + w + b;
    assert s[|a|] == w[0];
    assert forall k | 0 <= k < |a| :: s[k] == a[k];
    assert SkipSpaces(s, 0) == |a|;
    var l := TrimLeft(s);
    assert l == w + b;
    assert l[|w| - 1] == w[|w| - 1];
    assert forall k | |w| <= k < |l| :: l[k] == b[k - |w|];
    assert DropSpaces(l, |l|) == |w|;
  }

  /** A character is the given lower-case one, or an upper-case form of it. */
  predicate Spells(c: char, low: char) {
    || (c == low && !('A' <= c <= 'Z') && c != '\U{0130}' && c != '\U{212A}')
    || ('A' <= c <= 'Z' && low == c + ' ')
    || (c == '\U{0130}' && low == 'i')
    || (c == '\U{212A}' && low == 'k')
  }

  /** The text holds the word somewhere, in upper or lower case or a mixture. */
  ghost predicate Mentions(s: string, word: string) { exists i: nat :: MentionsAt(s, word, i) }

  ghost predicate MentionsAt(s: string, word: string, i: nat) {
    i + |word| <= |s| && forall k | 0 <= k < |word| :: Spells(s[i + k], word[k])
  }

  lemma LowerSpells(c: char, low: char)
    ensures LowerChar(c) == low <==> Spells(c, low)
  {
  }

  lemma MentionsHere(s: string, word: string, i: nat)
    requires i <= |s|
    ensures word <= ToLower(s)[i..] <==> MentionsAt(s, word, i)
  {
    hide LowerChar, Spells;
    var low := ToLower(s);
    if i + |word| <= |s| {
      forall k | 0 <= k < |word| ensures low[i..][k] == word[k] <==> Spells(s[i + k], word[k]) {
        LowerSpells(s[i + k], word[k]);
      }
    }
  }

  lemma MentionsIff(s: string, word: string)
    ensures Contains(ToLower(s), word) <==> Mentions(s, word)
  {
    var low := ToLower(s);
    if Contains(low, word) {
      var i :| 0 <= i <= |low| && word <= low[i..];
      MentionsHere(s, word, i);
    }
    if Mentions(s, word) {
      var i: nat :| MentionsAt(s, word, i);
      MentionsHere(s, word, i);
    }
  }

  /** A text contains another if it can be split around it. */
  lemma ContainsIff(s: string, sub: string)
    ensures Contains(s, sub) <==> exists a, b :: s == a + sub + b
  {
    if Contains(s, sub) {
      var i :| 0 <= i <= |s| && sub <= s[i..];
      assert s == s[..i] + sub + s[i + |sub|..];
    }
    if a, b :| s == a + sub + b {
      assert s[|a|..] == sub + b;
    }
  }

  predicate LowerAscii(s: string) {
    forall i | 0 <= i < |s| :: s[i] < '\U{0080}' && !('A' <= s[i] <= 'Z')
  }

  /** Lower-case ASCII strings survive the case changes: lowering is the identity, and
      raising loses nothing that folding does not restore. */
  lemma LowerAsciiFixed(s: string, t: string)
    requires LowerAscii(s) && LowerAscii(t)
    ensures ToLower(s) == s
    ensures EqualFold(s, ToUpper(t)) <==> s == t
    ensures ToUpper(s) == ToUpper(t) <==> s == t
  {
    if EqualFold(s, ToUpper(t)) {
      forall i | 0 <= i < |s| ensures s[i] == t[i] {
        assert FoldChar(s[i]) == FoldChar(ToUpper(t)[i]);
      }
    }
    if ToUpper(s) == ToUpper(t) {
      assert |ToUpper(s)| == |s| && |ToUpper(t)| == |t|;
      forall i | 0 <= i < |s| ensures s[i] == t[i] {
        assert ToUpper(s)[i] == ToUpper(t)[i];
      }
    }
  }

  /** A character's last index is the position that holds it with none after it. */
  lemma LastIndexIs(s: string, c: char, k: nat)
    requires k < |s| && s[k] == c && c !in s[k + 1..]
    ensures LastIndexOf(s, c) == k
  {
    var r := LastIndexOf(s, c);
    forall i | r < i < |s| ensures s[i] != c {
      assert s[i] == s[r + 1..][i - r - 1];
    }
    forall i | k < i < |s| ensures s[i] != c {
      assert s[i] == s[k + 1..][i - k - 1];
    }
  }

  /** A list of separator-free strings can be read back from its join, except that the empty
      list and the list holding one empty string join alike. */
  lemma {:induction false} JoinInjective(a: seq<string>, b: seq<string>, sep: char)
    requires forall x | x in a :: sep !in x
    requires forall x | x in b :: sep !in x
    ensures Join(a, [sep]) == Join(b, [sep])
            <==> a == b || (a == [] && b == [""]) || (a == [""] && b == [])
  {
    JoinSplit(a, sep);
    JoinSplit(b, sep);
    if |a| > 1 && |b| > 1 && Join(a, [sep]) == Join(b, [sep]) {
      HeadsAgree(a[0], Join(a[1..], [sep]), b[0], Join(b[1..], [sep]), sep);
      JoinInjective(a[1..], b[1..], sep);
      assert a == [a[0]] + a[1..];
      assert b == [b[0]] + b[1..];
    }
  }

  /** The separator occurs in a join exactly when there are two elements to separate. */
  lemma JoinSplit(a: seq<string>, sep: char)
    requires forall x | x in a :: sep !in x
    ensures |a| > 1 <==> sep in Join(a, [sep])
    ensures |a| > 1 ==> Join(a, [sep]) == a[0] + [sep] + Join(a[1..], [sep])
  {
    if |a| > 1 {
      assert Join(a, [sep])[|a[0]|] == sep;
    } else if |a| == 1 {
      assert a[0] in a;
    }
  }

  /** Text up to its first separator is determined, and so is what follows. */
  lemma HeadsAgree(x: string, u: string, y: string, v: string, sep: char)
    requires sep !in x && sep !in y
    requires x + [sep] + u == y + [sep] + v
    ensures x == y && u == v
  {
    var s := x + [sep] + u;
    FirstIndexIs(s, sep, |x|);
    FirstIndexIs(s, sep, |y|);
    assert x == s[..|x|];
    assert u == s[|x| + 1..];
    assert v == s[|y| + 1..];
  }

  lemma FirstIndexIs(s: string, c: char, k: nat)
    requires k < |s| && s[k] == c && c !in s[..k]
    ensures IndexOf(s, c) == k
  {
    var r := IndexOf(s, c);
    forall i | 0 <= i < r ensures s[i] != c {
      assert s[i] == s[..r][i];
    }
    forall i | 0 <= i < k ensures s[i] != c {
      assert s[i] == s[..k][i];
    }
  }

  // ----- sorting -----

  /** Go's order on strings: by the first character that differs, a prefix first. */
  predicate AtMost(a: string, b: string) {
    a == [] || (b != [] && (a[0] < b[0] || (a[0] == b[0] && AtMost(a[1..], b[1..]))))
  }

  lemma {:induction false} AtMostIsTotal(a: string, b: string)
    ensures AtMost(a, b) || AtMost(b, a)
    ensures AtMost(a, b) && AtMost(b, a) ==> a == b
  {
    if a != [] && b != [] {
      AtMostIsTotal(a[1..], b[1..]);
      assert a == [a[0]] + a[1..] && b == [b[0]] + b[1..];
    }
  }

  lemma {:induction false} AtMostIsTransitive(a: string, b: string, c: string)
    requires AtMost(a, b) && AtMost(b, c)
    ensures AtMost(a, c)
  {
    if a != [] && a[0] == b[0] == c[0] {
      AtMostIsTransitive(a[1..], b[1..], c[1..]);
    }
  }

  predicate SortedStrings(s: seq<string>) {
    forall i, j | 0 <= i < j < |s| :: AtMost(s[i], s[j])
  }

  function Insert(x: string, s: seq<string>): seq<string> {
    if s == [] || AtMost(x, s[0]) then [x] + s else [s[0]] + Insert(x, s[1..])
  }

  /** Go's sort.Strings. */
  function SortStrings(s: seq<string>): seq<string> {
    if s == [] then [] else Insert(s[0], SortStrings(s[1..]))
  }

  lemma {:induction false} InsertSorts(x: string, s: seq<string>)
    requires SortedStrings(s)
    ensures SortedStrings(Insert(x, s))
    ensures multiset(Insert(x, s)) == multiset{x} + multiset(s)
  {
    hide AtMost;
    if s != [] {
      assert s == [s[0]] + s[1..];
      if AtMost(x, s[0]) {
        forall i | 0 <= i < |s| ensures AtMost(x, s[i]) {
          if i > 0 { AtMostIsTransitive(x, s[0], s[i]); }
        }
      } else {
        AtMostIsTotal(x, s[0]);
        var rest := Insert(x, s[1..]);
        InsertSorts(x, s[1..]);
        forall i | 0 <= i < |rest| ensures AtMost(s[0], rest[i]) {
          assert rest[i] in multiset(rest);
          assert rest[i] == x || rest[i] in s[1..];
        }
      }
    }
  }

  /** The result is sorted and holds the same strings, as often. */
  lemma {:induction false} SortStringsSorts(s: seq<string>)
    ensures SortedStrings(SortStrings(s))
    ensures multiset(SortStrings(s)) == multiset(s)
  {
    hide Insert, AtMost;
    if s != [] {
      SortStringsSorts(s[1..]);
      InsertSorts(s[0], SortStrings(s[1..]));
      assert s == [s[0]] + s[1..];
    }
  }

  lemma SortOfNothing(s: seq<string>)
    ensures SortStrings(s) == [] <==> s == []
  {
  }

  lemma HeadIsLeast(s: seq<string>, x: string)
    requires SortedStrings(s) && x in s
    ensures AtMost(s[0], x)
  {
    hide AtMost;
    AtMostIsTotal(s[0], s[0]);
  }

  lemma SameHead(a: seq<string>, b: seq<string>)
    requires SortedStrings(a) && SortedStrings(b) && multiset(a) == multiset(b) && a != [] && b != []
    ensures a[0] == b[0] && multiset(a[1..]) == multiset(b[1..])
  {
    hide AtMost, SortedStrings;
    assert a[0] in multiset(b) && b[0] in multiset(a);
    HeadIsLeast(a, b[0]);
    HeadIsLeast(b, a[0]);
    AtMostIsTotal(a[0], b[0]);
    assert a == [a[0]] + a[1..] && b == [b[0]] + b[1..];
    assert multiset(a[1..]) == multiset(a) - multiset{a[0]};
    assert multiset(b[1..]) == multiset(b) - multiset{b[0]};
  }

  /** So a list of strings has one sorted form, whatever its order. */
  lemma {:induction false} SortedFormIsUnique(a: seq<string>, b: seq<string>)
    requires SortedStrings(a) && SortedStrings(b) && multiset(a) == multiset(b)
    ensures a == b
  {
    hide AtMost;
    assert |a| == |multiset(a)| == |multiset(b)| == |b|;
    if a != [] {
      SameHead(a, b);
      assert SortedStrings(a[1..]) && SortedStrings(b[1..]);
      SortedFormIsUnique(a[1..], b[1..]);
      assert a == [a[0]] + a[1..] && b == [b[0]] + b[1..];
    }
  }
}
