/**
 * Release versions and their precedence (apps/controller-ui/lib/releases.ts;
 * section 11 of Semantic Versioning 2.0.0).
 */
module Versions {
  import opened Base

  /** A version as it is written. An empty prerelease or build is not written at all. */
  datatype Version = Version(v: bool, major: string, minor: string, patch: string,
                             prerelease: seq<string>, build: seq<string>)

  predicate IsDigit(c: char) {
    '0' <= c <= '9'
  }

  predicate AllDigits(s: string) {
    forall i :: 0 <= i < |s| ==> IsDigit(s[i])
  }

  predicate IsNumeric(s: string) {
    |s| > 0 && AllDigits(s)
  }

  predicate IsNumeral(s: string) {
    IsNumeric(s) && (|s| > 1 ==> s[0] != '0')
  }

  predicate IsWord(s: string) {
    |s| > 0 && forall c <- s :: IsDigit(c) || 'a' <= c <= 'z' || 'A' <= c <= 'Z' || c == '-'
  }

  /** A prerelease identifier: a word that, if numeric, has no leading zero. */
  predicate IsIdentifier(s: string) {
    IsWord(s) && (IsNumeric(s) ==> IsNumeral(s))
  }

  predicate Valid(t: Version) {
    && IsNumeral(t.major) && IsNumeral(t.minor) && IsNumeral(t.patch)
    && (forall p <- t.prerelease :: IsIdentifier(p))
    && (forall b <- t.build :: IsWord(b))
  }

  function Join(parts: seq<string>, c: char): string
    requires |parts| > 0
  {
    if |parts| == 1 then parts[0] else parts[0] + [c] + Join(parts[1..], c)
  }

  /** The text of a list of words, with its mark. */
  function Marked(c: char, parts: seq<string>): string {
    if |parts| == 0 then "" else [c] + Join(parts, '.')
  }

  function ShowCore(t: Version): string {
    (if t.v then "v" else "") + Join([t.major, t.minor, t.patch], '.')
  }

  function Show(t: Version): string {
    ShowCore(t) + Marked('-', t.prerelease) + Marked('+', t.build)
  }

  /** The first place of a character, or the length. */
  function Find(s: string, c: char): (i: nat)
    ensures i <= |s| && c !in s[..i] && (i < |s| ==> s[i] == c)
  {
    if |s| == 0 || s[0] == c then 0
    else
      var i := 1 + Find(s[1..], c);
      assert s[..i] == [s[0]] + s[1..][..i - 1];
      i
  }

  function Split(s: string, c: char): (parts: seq<string>)
    ensures |parts| > 0
    decreases |s|
  {
    var i := Find(s, c);
    if i == |s| then [s] else [s[..i]] + Split(s[i + 1..], c)
  }

  lemma {:induction false} FindIn(s: string, c: char, rest: string)
    requires c !in s && (|rest| > 0 ==> rest[0] == c)
    ensures Find(s + rest, c) == |s|
  {
    if |s| == 0 {
      assert s + rest == rest;
    } else {
      FindIn(s[1..], c, rest);
      assert (s + rest)[1..] == s[1..] + rest;
    }
  }

  lemma {:induction false} JoinOfCons(part: string, rest: seq<string>, c: char)
    requires |rest| > 0
    ensures Join([part] + rest, c) == part + [c] + Join(rest, c)
  {
    assert ([part] + rest)[1..] == rest;
  }

  lemma {:induction false} SplitWhole(s: string, c: char)
    requires c !in s
    ensures Split(s, c) == [s]
  {
    FindIn(s, c, []);
    assert s + [] == s;
  }

  lemma {:induction false} SplitOfCons(part: string, rest: string, c: char)
    requires c !in part
    ensures Split(part + [c] + rest, c) == [part] + Split(rest, c)
  {
    var s := part + [c] + rest;
    assert s == part + ([c] + rest);
    FindIn(part, c, [c] + rest);
    assert s[..|part|] == part && s[|part| + 1..] == rest;
  }

  lemma {:induction false} JoinedSplit(s: string, c: char)
    ensures Join(Split(s, c), c) == s
    decreases |s|
  {
    var i := Find(s, c);
    if i < |s| {
      JoinedSplit(s[i + 1..], c);
      JoinOfCons(s[..i], Split(s[i + 1..], c), c);
      CutAt(s, i);
    }
  }

  lemma {:induction false} SplitJoin(parts: seq<string>, c: char)
    requires |parts| > 0 && forall p <- parts :: c !in p
    ensures Split(Join(parts, c), c) == parts
  {
    if |parts| == 1 {
      SplitWhole(parts[0], c);
    } else {
      SplitJoin(parts[1..], c);
      SplitOfCons(parts[0], Join(parts[1..], c), c);
    }
  }

  lemma CutAt(s: string, i: nat)
    requires i < |s|
    ensures s[..i] + [s[i]] + s[i + 1..] == s
    ensures s[..i] + ([s[i]] + s[i + 1..]) == s
  {
  }

  /** The text behind the first `c`, split at dots; nothing if there is no `c`. */
  function Suffix(s: string, c: char): seq<string> {
    var i := Find(s, c);
    if i == |s| then [] else Split(s[i + 1..], '.')
  }

  function Prefix(s: string, c: char): string {
    s[..Find(s, c)]
  }

  predicate HasV(s: string) {
    |s| > 0 && s[0] == 'v'
  }

  function CoreParts(s: string): seq<string> {
    Split(if HasV(s) then s[1..] else s, '.')
  }

  function ParseCore(s: string, prerelease: seq<string>, build: seq<string>): Option<Version> {
    var parts := CoreParts(s);
    if |parts| != 3 then None
    else
      var t := Version(HasV(s), parts[0], parts[1], parts[2], prerelease, build);
      if Valid(t) then Some(t) else None
  }

  function Parse(s: string): Option<Version> {
    var body := Prefix(s, '+');
    ParseCore(Prefix(body, '-'), Suffix(body, '-'), Suffix(s, '+'))
  }

  lemma SuffixRejoins(s: string, c: char)
    ensures Prefix(s, c) + Marked(c, Suffix(s, c)) == s
  {
    var i := Find(s, c);
    if i < |s| {
      JoinedSplit(s[i + 1..], '.');
      CutAt(s, i);
    } else {
      assert s[..i] + "" == s;
    }
  }

  lemma MarkedSplits(s: string, c: char, parts: seq<string>)
    requires c !in s && forall p <- parts :: '.' !in p
    ensures Prefix(s + Marked(c, parts), c) == s && Suffix(s + Marked(c, parts), c) == parts
  {
    var text := s + Marked(c, parts);
    FindIn(s, c, Marked(c, parts));
    assert text[..|s|] == s;
    if |parts| > 0 {
      assert text[|s| + 1..] == Join(parts, '.');
      SplitJoin(parts, '.');
    }
  }

  lemma CoreRejoins(core: string)
    ensures (if HasV(core) then "v" else "") + Join(CoreParts(core), '.') == core
  {
    JoinedSplit(if HasV(core) then core[1..] else core, '.');
  }

  lemma ThreeParts(p: seq<string>)
    requires |p| == 3
    ensures [p[0], p[1], p[2]] == p
  {
  }

  lemma ParsedCoreIsShown(core: string, prerelease: seq<string>, build: seq<string>)
    requires ParseCore(core, prerelease, build).Some?
    ensures var t := ParseCore(core, prerelease, build).value;
            Valid(t) && ShowCore(t) == core && t.prerelease == prerelease && t.build == build
  {
    ThreeParts(CoreParts(core));
    CoreRejoins(core);
  }

  /** What parses is a valid version, written exactly so. */
  lemma ParsedIsShown(s: string)
    requires Parse(s).Some?
    ensures Valid(Parse(s).value) && Show(Parse(s).value) == s
  {
    var body := Prefix(s, '+');
    SuffixRejoins(s, '+');
    SuffixRejoins(body, '-');
    ParsedCoreIsShown(Prefix(body, '-'), Suffix(body, '-'), Suffix(s, '+'));
  }

  lemma {:induction false} JoinHas(parts: seq<string>, c: char, x: char)
    requires |parts| > 0 && x != c && forall p <- parts :: x !in p
    ensures x !in Join(parts, c)
  {
    if |parts| > 1 {
      JoinHas(parts[1..], c, x);
    }
  }

  lemma NumeralHasNoMark(s: string, x: char)
    requires IsNumeric(s) && !IsDigit(x)
    ensures x !in s
  {
  }

  lemma {:induction false} NumbersParse(parts: seq<string>)
    requires |parts| > 0 && forall p <- parts :: IsNumeric(p)
    ensures var text := Join(parts, '.');
            && Split(text, '.') == parts && |text| > 0 && text[0] != 'v'
            && '-' !in text && '+' !in text
  {
    forall p <- parts
      ensures '.' !in p && '-' !in p && '+' !in p
    {
      NumeralHasNoMark(p, '.');
      NumeralHasNoMark(p, '-');
      NumeralHasNoMark(p, '+');
    }
    SplitJoin(parts, '.');
    JoinHas(parts, '.', '-');
    JoinHas(parts, '.', '+');
    assert IsNumeric(parts[0]) && Join(parts, '.')[0] == parts[0][0];
  }

  lemma CoreParses(t: Version)
    requires Valid(t)
    ensures ParseCore(ShowCore(t), t.prerelease, t.build) == Some(t)
    ensures '-' !in ShowCore(t) && '+' !in ShowCore(t)
  {
    var parts := [t.major, t.minor, t.patch];
    NumbersParse(parts);
    var text := Join(parts, '.');
    if t.v {
      assert ShowCore(t) == "v" + text && ShowCore(t)[1..] == text;
    } else {
      assert ShowCore(t) == text;
    }
  }

  /** Every valid version, as written, parses back to itself. */
  lemma ShownParses(t: Version)
    requires Valid(t)
    ensures Parse(Show(t)) == Some(t)
  {
    CoreParses(t);
    var body := ShowCore(t) + Marked('-', t.prerelease);
    assert '+' !in body by {
      if |t.prerelease| > 0 {
        JoinHas(t.prerelease, '.', '+');
      }
    }
    MarkedSplits(body, '+', t.build);
    MarkedSplits(ShowCore(t), '-', t.prerelease);
  }

  /** The number that a string of digits denotes. */
  function Value(s: string): nat
    requires AllDigits(s)
  {
    if |s| == 0 then 0 else 10 * Value(s[..|s| - 1]) + Digit(s[|s| - 1])
  }

  function Digit(c: char): (d: nat)
    requires IsDigit(c)
    ensures d < 10
  {
    c as int - '0' as int
  }

  function Pow10(n: nat): (p: nat)
    ensures p > 0
  {
    if n == 0 then 1 else 10 * Pow10(n - 1)
  }

  lemma {:induction false} ValueBounds(s: string)
    requires AllDigits(s)
    ensures Value(s) < Pow10(|s|)
    ensures |s| > 0 && s[0] != '0' ==> Value(s) >= Pow10(|s| - 1)
  {
    if |s| > 0 {
      ValueBounds(s[..|s| - 1]);
    }
  }

  lemma {:induction false} SameLengthValues(s: string, t: string)
    requires AllDigits(s) && AllDigits(t) && |s| == |t| && Value(s) == Value(t)
    ensures s == t
  {
    if |s| > 0 {
      SameLengthValues(s[..|s| - 1], t[..|t| - 1]);
      assert s == s[..|s| - 1] + [s[|s| - 1]] && t == t[..|t| - 1] + [t[|t| - 1]];
    }
  }

  lemma {:induction false} Pow10Grows(m: nat, n: nat)
    requires m <= n
    ensures Pow10(m) <= Pow10(n)
  {
    if m < n {
      Pow10Grows(m, n - 1);
    }
  }

  lemma {:induction false} LongerIsGreater(s: string, t: string)
    requires IsNumeral(s) && IsNumeral(t) && |s| < |t|
    ensures Value(s) < Value(t)
  {
    ValueBounds(s);
    ValueBounds(t);
    Pow10Grows(|s|, |t| - 1);
  }

  /** Numerals without leading zeros denote distinct numbers. */
  lemma {:induction false} NumeralsAreDistinct(s: string, t: string)
    requires IsNumeral(s) && IsNumeral(t) && Value(s) == Value(t)
    ensures s == t
  {
    if |s| < |t| {
      LongerIsGreater(s, t);
    } else if |t| < |s| {
      LongerIsGreater(t, s);
    } else {
      SameLengthValues(s, t);
    }
  }

  /** String order by code units. */
  predicate Before(s: string, t: string) {
    |t| > 0 && (|s| == 0 || s[0] < t[0] || (s[0] == t[0] && Before(s[1..], t[1..])))
  }

  lemma {:induction false} BeforeIsTotal(s: string, t: string)
    ensures s != t ==> Before(s, t) || Before(t, s)
    ensures Before(s, t) ==> !Before(t, s) && s != t
  {
    if |s| > 0 && |t| > 0 && s[0] == t[0] {
      BeforeIsTotal(s[1..], t[1..]);
      assert s == [s[0]] + s[1..] && t == [t[0]] + t[1..];
    }
  }

  lemma {:induction false} BeforeIsTransitive(s: string, t: string, u: string)
    requires Before(s, t) && Before(t, u)
    ensures Before(s, u)
  {
    if |s| > 0 && s[0] == t[0] == u[0] {
      BeforeIsTransitive(s[1..], t[1..], u[1..]);
    }
  }

  type Sign = x: int | -1 <= x <= 1

  function CompareIdentifiers(x: string, y: string): Sign {
    if x == y then 0
    else if IsNumeric(x) && IsNumeric(y) then (if Value(x) > Value(y) then 1 else -1)
    else if IsNumeric(x) != IsNumeric(y) then (if IsNumeric(x) then -1 else 1)
    else if Before(y, x) then 1 else -1
  }

  function CompareLists(a: seq<string>, b: seq<string>): Sign {
    if |a| == 0 || |b| == 0 then (if |a| == |b| then 0 else if |a| == 0 then -1 else 1)
    else if a[0] == b[0] then CompareLists(a[1..], b[1..])
    else CompareIdentifiers(a[0], b[0])
  }

  /** The loop over both prerelease lists, up to the longer one. */
  method ComparePrereleases(a: seq<string>, b: seq<string>) returns (sign: Sign)
    ensures sign == CompareLists(a, b)
  {
    var index := 0;
    assert a[0..] == a && b[0..] == b;
    while index < |a| || index < |b|
      invariant index <= |a| && index <= |b|
      invariant CompareLists(a[index..], b[index..]) == CompareLists(a, b)
      decreases |a| - index
    {
      if index == |a| || index == |b| {
        return if index == |a| then -1 else 1;
      }
      if a[index] != b[index] {
        return CompareIdentifiers(a[index], b[index]);
      }
      index := index + 1;
    }
    return 0;
  }

  function CompareNumbers(x: nat, y: nat): Sign {
    if x == y then 0 else if x > y then 1 else -1
  }

  function Compare(a: Version, b: Version): Sign
    requires Valid(a) && Valid(b)
  {
    if Value(a.major) != Value(b.major) then CompareNumbers(Value(a.major), Value(b.major))
    else if Value(a.minor) != Value(b.minor) then CompareNumbers(Value(a.minor), Value(b.minor))
    else if Value(a.patch) != Value(b.patch) then CompareNumbers(Value(a.patch), Value(b.patch))
    else ComparePrerelease(a.prerelease, b.prerelease)
  }

  /** A version without a prerelease comes after all its prereleases. */
  function ComparePrerelease(a: seq<string>, b: seq<string>): Sign {
    if |a| == 0 || |b| == 0 then (if |a| == |b| then 0 else if |a| > 0 then -1 else 1)
    else CompareLists(a, b)
  }

  function CompareVersions(left: string, right: string): Option<Sign> {
    var a, b := Parse(left), Parse(right);
    if a.None? || b.None? then None else Some(Compare(a.value, b.value))
  }

  lemma IdentifiersAreOrdered(x: string, y: string, z: string)
    requires IsIdentifier(x) && IsIdentifier(y) && IsIdentifier(z)
    ensures CompareIdentifiers(x, y) == -CompareIdentifiers(y, x)
    ensures CompareIdentifiers(x, y) == 0 <==> x == y
    ensures CompareIdentifiers(x, y) == -1 && CompareIdentifiers(y, z) == -1 ==> CompareIdentifiers(x, z) == -1
  {
    BeforeIsTotal(x, y);
    if IsNumeric(x) && IsNumeric(y) && Value(x) == Value(y) {
      NumeralsAreDistinct(x, y);
    }
    BeforeIsTotal(y, z);
    if IsNumeric(y) && IsNumeric(z) && Value(y) == Value(z) {
      NumeralsAreDistinct(y, z);
    }
    if Before(x, y) && Before(y, z) {
      BeforeIsTransitive(x, y, z);
    }
    BeforeIsTotal(x, z);
  }

  predicate AllIdentifiers(a: seq<string>) {
    forall p <- a :: IsIdentifier(p)
  }

  lemma {:induction false} ListsAreOrdered(a: seq<string>, b: seq<string>, c: seq<string>)
    requires AllIdentifiers(a) && AllIdentifiers(b) && AllIdentifiers(c)
    ensures CompareLists(a, b) == -CompareLists(b, a)
    ensures CompareLists(a, b) == 0 <==> a == b
    ensures CompareLists(a, b) <= 0 && CompareLists(b, c) <= 0 ==> CompareLists(a, c) <= 0
  {
    if |a| > 0 && |b| > 0 {
      IdentifiersAreOrdered(a[0], b[0], if |c| > 0 then c[0] else b[0]);
      ListsAreOrdered(a[1..], b[1..], if |c| > 0 then c[1..] else []);
      assert a == [a[0]] + a[1..] && b == [b[0]] + b[1..];
      if |c| > 0 {
        IdentifiersAreOrdered(b[0], c[0], a[0]);
      }
    }
  }

  /** Everything but the leading `v` and the build is the same. */
  predicate SamePrecedence(a: Version, b: Version) {
    a.major == b.major && a.minor == b.minor && a.patch == b.patch && a.prerelease == b.prerelease
  }

  /** A total preorder: total by signs, transitive, and equal exactly up to the leading `v` and the build. */
  lemma VersionsAreOrdered(a: Version, b: Version, c: Version)
    requires Valid(a) && Valid(b) && Valid(c)
    ensures Compare(a, b) == -Compare(b, a)
    ensures Compare(a, b) == 0 <==> SamePrecedence(a, b)
    ensures Compare(a, b) <= 0 && Compare(b, c) <= 0 ==> Compare(a, c) <= 0
  {
    PrereleasesAreOrdered(a.prerelease, b.prerelease, c.prerelease);
    if Compare(a, b) == 0 {
      NumeralsAreDistinct(a.major, b.major);
      NumeralsAreDistinct(a.minor, b.minor);
      NumeralsAreDistinct(a.patch, b.patch);
    }
  }

  lemma PrereleasesAreOrdered(a: seq<string>, b: seq<string>, c: seq<string>)
    requires AllIdentifiers(a) && AllIdentifiers(b) && AllIdentifiers(c)
    ensures ComparePrerelease(a, b) == -ComparePrerelease(b, a)
    ensures ComparePrerelease(a, b) == 0 <==> a == b
    ensures ComparePrerelease(a, b) <= 0 && ComparePrerelease(b, c) <= 0 ==> ComparePrerelease(a, c) <= 0
  {
    ListsAreOrdered(a, b, c);
  }

  /** On the versions among all strings, comparison is reflexive, antisymmetric in sign and transitive. */
  lemma CompareIsAnOrder(x: string, y: string, z: string)
    requires Parse(x).Some? && Parse(y).Some? && Parse(z).Some?
    ensures CompareVersions(x, x) == Some(0)
    ensures CompareVersions(x, y).Some? && CompareVersions(y, x) == Some(-CompareVersions(x, y).value)
    ensures CompareVersions(x, y).value <= 0 && CompareVersions(y, z).value <= 0 ==> CompareVersions(x, z).value <= 0
  {
    var a, b, c := Parse(x).value, Parse(y).value, Parse(z).value;
    VersionsAreOrdered(a, b, c);
    VersionsAreOrdered(a, a, a);
  }

  /** The strings that parse are exactly the valid versions as written. */
  lemma ParsesExactly(s: string)
    ensures Parse(s).Some? <==> exists t :: Valid(t) && Show(t) == s
  {
    if Parse(s).Some? {
      ParsedIsShown(s);
    }
    if t :| Valid(t) && Show(t) == s {
      ShownParses(t);
    }
  }

  datatype Release = Release(version: string, url: string)

  /** A release version that parsed, or did not. */
  type Candidate = a: Option<Version> | a.Some? ==> Valid(a.value) witness None

  predicate Eligible(current: Version, a: Candidate) {
    a.Some? && (|current.prerelease| > 0 || |a.value.prerelease| == 0)
  }

  predicate Newer(a: Candidate, b: Candidate) {
    a.Some? && b.Some? && Compare(a.value, b.value) > 0
  }

  function Latest(current: Version, releases: seq<Release>): Option<Release> {
    if |releases| == 0 then None
    else
      var latest, r := Latest(current, releases[..|releases| - 1]), releases[|releases| - 1];
      if Eligible(current, Parse(r.version)) && (latest.None? || Newer(Parse(r.version), Parse(latest.value.version)))
      then Some(r) else latest
  }

  function LatestRelease(current: string, releases: seq<Release>): Option<Release> {
    if Parse(current).None? then None else Latest(Parse(current).value, releases)
  }

  function Candidates(releases: seq<Release>): (cs: seq<Candidate>)
    ensures |cs| == |releases|
  {
    if |releases| == 0 then [] else Candidates(releases[..|releases| - 1]) + [Parse(releases[|releases| - 1].version)]
  }

  /** `i` is the first of the highest eligible candidates. */
  ghost predicate FirstHighest(current: Version, cs: seq<Candidate>, i: nat) {
    && i < |cs| && Eligible(current, cs[i])
    && (forall j :: 0 <= j < |cs| && Eligible(current, cs[j]) ==> !Newer(cs[j], cs[i]))
    && (forall j :: 0 <= j < i && Eligible(current, cs[j]) ==> Newer(cs[i], cs[j]))
  }

  lemma LaterThanBoth(a: Version, b: Version, c: Version)
    requires Valid(a) && Valid(b) && Valid(c)
    ensures Compare(a, b) > 0 && Compare(c, b) <= 0 ==> Compare(a, c) > 0
    ensures Compare(a, b) == -Compare(b, a) && Compare(a, a) == 0
  {
    VersionsAreOrdered(a, c, b);
    VersionsAreOrdered(a, b, c);
    VersionsAreOrdered(a, a, a);
  }

  lemma NewerIsTransitive(a: Candidate, b: Candidate, c: Candidate)
    requires a.Some? && b.Some? && c.Some?
    ensures Newer(a, b) && !Newer(c, b) ==> Newer(a, c)
    ensures Newer(a, b) ==> !Newer(b, a)
    ensures !Newer(a, a)
  {
    LaterThanBoth(a.value, b.value, c.value);
  }

  lemma NewerThanHighest(current: Version, before: seq<Candidate>, a: Candidate, i: nat, j: nat)
    requires FirstHighest(current, before, i) && Eligible(current, a) && Newer(a, before[i])
    requires j < |before| && Eligible(current, before[j])
    ensures !Newer(before[j], a) && Newer(a, before[j])
  {
    NewerIsTransitive(a, before[i], before[j]);
    NewerIsTransitive(a, before[j], a);
  }

  /** A newer candidate becomes the first highest. */
  lemma HighestIsReplaced(current: Version, before: seq<Candidate>, a: Candidate, i: nat)
    requires FirstHighest(current, before, i) && Eligible(current, a) && Newer(a, before[i])
    ensures FirstHighest(current, before + [a], |before|)
  {
    forall j | 0 <= j < |before| && Eligible(current, before[j])
      ensures !Newer(before[j], a) && Newer(a, before[j])
    {
      NewerThanHighest(current, before, a, i, j);
    }
    NewerIsTransitive(a, a, a);
  }

  /** A candidate that is not eligible, or not newer, changes nothing. */
  lemma HighestStays(current: Version, before: seq<Candidate>, a: Candidate, i: nat)
    requires FirstHighest(current, before, i) && (Eligible(current, a) ==> !Newer(a, before[i]))
    ensures FirstHighest(current, before + [a], i)
  {
  }

  lemma OnlyIsHighest(current: Version, before: seq<Candidate>, a: Candidate)
    requires Eligible(current, a) && forall j :: 0 <= j < |before| ==> !Eligible(current, before[j])
    ensures FirstHighest(current, before + [a], |before|)
  {
    NewerIsTransitive(a, a, a);
  }

  /** The same choice made among candidates, as a position. */
  function LatestIndex(current: Version, cs: seq<Candidate>): (i: Option<nat>)
    ensures i.Some? ==> i.value < |cs|
  {
    if |cs| == 0 then None
    else
      var latest, a := LatestIndex(current, cs[..|cs| - 1]), cs[|cs| - 1];
      if Eligible(current, a) && (latest.None? || Newer(a, cs[latest.value])) then Some(|cs| - 1) else latest
  }

  lemma {:induction false} IndexIsFirstHighest(current: Version, cs: seq<Candidate>)
    ensures match LatestIndex(current, cs)
            case None => forall j :: 0 <= j < |cs| ==> !Eligible(current, cs[j])
            case Some(i) => FirstHighest(current, cs, i)
  {
    if |cs| > 0 {
      var before, a := cs[..|cs| - 1], cs[|cs| - 1];
      assert cs == before + [a];
      IndexIsFirstHighest(current, before);
      match LatestIndex(current, before)
      case Some(i) =>
        if Eligible(current, a) && Newer(a, before[i]) {
          HighestIsReplaced(current, before, a, i);
        } else {
          HighestStays(current, before, a, i);
        }
      case None =>
        if Eligible(current, a) {
          OnlyIsHighest(current, before, a);
        }
    }
  }

  /** Only one candidate is the first highest. */
  lemma FirstHighestIsUnique(current: Version, cs: seq<Candidate>, i: nat, j: nat)
    requires FirstHighest(current, cs, i) && FirstHighest(current, cs, j)
    ensures i == j
  {
  }

  lemma {:induction false} CandidateAt(releases: seq<Release>, i: nat)
    requires i < |releases|
    ensures Candidates(releases)[i] == Parse(releases[i].version)
  {
    if i < |releases| - 1 {
      CandidateAt(releases[..|releases| - 1], i);
    }
  }

  /** The release at the chosen position. */
  function Chosen(releases: seq<Release>, i: Option<nat>): Option<Release>
    requires i.Some? ==> i.value < |releases|
  {
    if i.None? then None else Some(releases[i.value])
  }

  lemma {:induction false} LatestIsChosen(current: Version, releases: seq<Release>)
    ensures Latest(current, releases) == Chosen(releases, LatestIndex(current, Candidates(releases)))
  {
    if |releases| > 0 {
      var before := releases[..|releases| - 1];
      LatestIsChosen(current, before);
      assert Candidates(releases)[..|before|] == Candidates(before);
      if LatestIndex(current, Candidates(before)).Some? {
        CandidateAt(before, LatestIndex(current, Candidates(before)).value);
      }
    }
  }

  /** `answer` is the first of the highest eligible releases, whose candidates are `cs`, or none if none is eligible. */
  ghost predicate IsLatest(current: Version, releases: seq<Release>, cs: seq<Candidate>, answer: Option<Release>)
    requires |cs| == |releases|
  {
    match answer
    case None => forall j :: 0 <= j < |cs| ==> !Eligible(current, cs[j])
    case Some(r) => exists i :: 0 <= i < |cs| && FirstHighest(current, cs, i) && r == releases[i]
  }

  lemma {:induction false} ChosenIsLatest(current: Version, releases: seq<Release>, cs: seq<Candidate>)
    requires |cs| == |releases|
    ensures IsLatest(current, releases, cs, Chosen(releases, LatestIndex(current, cs)))
  {
    IndexIsFirstHighest(current, cs);
  }

  /** There is only one such answer. */
  lemma LatestIsUnique(current: Version, releases: seq<Release>, cs: seq<Candidate>, a: Option<Release>, b: Option<Release>)
    requires |cs| == |releases| && IsLatest(current, releases, cs, a) && IsLatest(current, releases, cs, b)
    ensures a == b
  {
    if a.Some? && b.Some? {
      var i :| 0 <= i < |cs| && FirstHighest(current, cs, i) && a.value == releases[i];
      var j :| 0 <= j < |cs| && FirstHighest(current, cs, j) && b.value == releases[j];
      FirstHighestIsUnique(current, cs, i, j);
    }
  }

  /** The answer is null for a current version that does not parse, and otherwise the one latest eligible release. */
  lemma {:induction false} LatestReleaseExactly(current: string, releases: seq<Release>, answer: Option<Release>)
    ensures LatestRelease(current, releases) == answer <==>
            if Parse(current).None? then answer == None
            else IsLatest(Parse(current).value, releases, Candidates(releases), answer)
  {
    if Parse(current).Some? {
      var version, cs := Parse(current).value, Candidates(releases);
      LatestIsChosen(version, releases);
      ChosenIsLatest(version, releases, cs);
      if IsLatest(version, releases, cs, answer) {
        LatestIsUnique(version, releases, cs, answer, LatestRelease(current, releases));
      }
    }
  }
}
