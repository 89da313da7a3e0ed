/**
 The versions releases go by (internal/agentupdate/version.go): a semantic version with a leading `v`, and an order that
 is section 11 of Semantic Versioning 2.0.0 as far as prerelease numbers fit 64 bits.
 */
module Version {
  import opened Wrappers
  import opened Lexical

  const MAX_VERSION_LENGTH := 128
  const UINT64 := 0x1_0000_0000_0000_0000

  datatype Version = Version(major: nat, minor: nat, patch: nat, prerelease: seq<string>, text: string)

  // ---- Texts ----

  /** What comes before the first separator, what comes after it, and whether there is one. */
  function Cut(s: string, separator: char): (r: (string, string, bool))
    ensures r.2 ==> s == r.0 + [separator] + r.1
    ensures !r.2 ==> s == r.0 && r.1 == ""
    ensures separator !in r.0
  {
    if s == "" then ("", "", false)
    else if s[0] == separator then ("", s[1..], true)
    else
      var (before, after, found) := Cut(s[1..], separator);
      ([s[0]] + before, after, found)
  }

  lemma {:induction false} CutAt(before: string, after: string, separator: char)
    requires separator !in before
    ensures Cut(before + [separator] + after, separator) == (before, after, true)
    decreases |before|
  {
    var s := before + [separator] + after;
    if before == "" {
      assert s[0] == separator && s[1..] == after;
    } else {
      CutAt(before[1..], after, separator);
      assert s[1..] == before[1..] + [separator] + after && before == [before[0]] + before[1..];
    }
  }

  /** The pieces between separators; of nothing, one empty piece. */
  function Split(s: string, separator: char): (parts: seq<string>)
    ensures parts != []
    decreases |s|
  {
    var (before, after, found) := Cut(s, separator);
    if found then [before] + Split(after, separator) else [s]
  }

  function Join(parts: seq<string>, separator: char): string {
    if parts == [] then "" else if |parts| == 1 then parts[0] else parts[0] + [separator] + Join(parts[1..], separator)
  }

  lemma {:induction false} JoinSplit(s: string, separator: char)
    ensures Join(Split(s, separator), separator) == s
    decreases |s|
  {
    var (before, after, found) := Cut(s, separator);
    if found {
      JoinSplit(after, separator);
      assert Split(s, separator)[1..] == Split(after, separator);
    }
  }

  predicate Digits(s: string) {
    forall i :: 0 <= i < |s| ==> '0' <= s[i] <= '9'
  }

  function ValueOf(digits: string): nat
    requires Digits(digits)
  {
    if digits == "" then 0 else 10 * ValueOf(digits[..|digits| - 1]) + (digits[|digits| - 1] as int - '0' as int)
  }

  /** A number written the one way it is: digits, and no zero before another. */
  predicate Numeral(s: string) {
    s != "" && Digits(s) && (|s| > 1 ==> s[0] != '0')
  }

  function Decimal(n: nat): (s: string)
    ensures Numeral(s) && ValueOf(s) == n
    ensures n > 0 ==> s[0] != '0'
    ensures ' ' !in s && '.' !in s && '-' !in s && '+' !in s
  {
    var digit := ('0' as int + n % 10) as char;
    if n < 10 then
      assert [digit][..0] == "";
      [digit]
    else
      var front := Decimal(n / 10);
      assert (front + [digit])[..|front|] == front;
      front + [digit]
  }

  /** The number a part names, if it is a numeral and fits 64 bits. */
  function Numeric(part: string): Option<nat> {
    if Numeral(part) && ValueOf(part) < UINT64 then Some(ValueOf(part)) else None
  }

  predicate IdentifierChar(c: char) {
    '0' <= c <= '9' || 'a' <= c <= 'z' || 'A' <= c <= 'Z' || c == '-'
  }

  predicate ValidIdentifier(s: string, ordered: bool) {
    && s != "" && (forall i :: 0 <= i < |s| ==> IdentifierChar(s[i]))
    && !(ordered && |s| > 1 && s[0] == '0' && Digits(s))
  }

  predicate ValidIdentifiers(parts: seq<string>, ordered: bool) {
    forall i :: 0 <= i < |parts| ==> ValidIdentifier(parts[i], ordered)
  }

  // ---- Reading a version ----

  function Unbuilt(text: string): string
    requires text != ""
  {
    Cut(text[1..], '+').0
  }

  function Parsed(text: string): Option<Version> {
    if |text| > MAX_VERSION_LENGTH || text == "" || text[0] != 'v' then None
    else
      var (rest, build, built) := Cut(text[1..], '+');
      var (core, prerelease, released) := Cut(rest, '-');
      var parts := Split(core, '.');
      if built && !ValidIdentifiers(Split(build, '.'), false) then None
      else if released && !ValidIdentifiers(Split(prerelease, '.'), true) then None
      else if |parts| != 3 || Numeric(parts[0]).None? || Numeric(parts[1]).None? || Numeric(parts[2]).None? then None
      else Some(Version(Numeric(parts[0]).value, Numeric(parts[1]).value, Numeric(parts[2]).value,
                        if released then Split(prerelease, '.') else [], text))
  }

  method Identifiers(dotted: string, ordered: bool) returns (valid: bool)
    ensures valid <==> ValidIdentifiers(Split(dotted, '.'), ordered)
  {
    var parts := Split(dotted, '.');
    for i := 0 to |parts|
      invariant forall j :: 0 <= j < i ==> ValidIdentifier(parts[j], ordered)
    {
      if !ValidIdentifier(parts[i], ordered) {
        return false;
      }
    }
    return true;
  }

  method ParseVersion(text: string) returns (r: Option<Version>)
    ensures r == Parsed(text)
  {
    if |text| > MAX_VERSION_LENGTH || text == "" || text[0] != 'v' {
      return None;
    }
    var (rest, build, built) := Cut(text[1..], '+');
    if built {
      var valid := Identifiers(build, false);
      if !valid {
        return None;
      }
    }
    var (core, prerelease, released) := Cut(rest, '-');
    if released {
      var valid := Identifiers(prerelease, true);
      if !valid {
        return None;
      }
    }
    var parts := Split(core, '.');
    if |parts| != 3 {
      return None;
    }
    var numbers := new nat[3](_ => 0);
    for i := 0 to 3
      invariant forall j :: 0 <= j < i ==> Numeric(parts[j]) == Some(numbers[j])
    {
      var number := Numeric(parts[i]);
      if number.None? {
        return None;
      }
      numbers[i] := number.value;
    }
    return Some(Version(numbers[0], numbers[1], numbers[2], if released then Split(prerelease, '.') else [], text));
  }

  // ---- Comparing versions ----

  function CompareNumbers(left: nat, right: nat): int {
    if left < right then -1 else if left > right then 1 else 0
  }

  function CompareTexts(left: string, right: string): int {
    if TextLess(left, right) then -1 else if left == right then 0 else 1
  }

  function CompareIdentifiers(left: string, right: string): int {
    var l, r := Numeric(left), Numeric(right);
    if l.Some? && r.Some? then CompareNumbers(l.value, r.value)
    else if l.Some? then -1
    else if r.Some? then 1
    else CompareTexts(left, right)
  }

  function ComparePrereleases(left: seq<string>, right: seq<string>): int
    decreases |left|
  {
    if left == [] || right == [] then CompareNumbers(|left|, |right|)
    else
      var order := CompareIdentifiers(left[0], right[0]);
      if order != 0 then order else ComparePrereleases(left[1..], right[1..])
  }

  function CompareReleases(left: seq<string>, right: seq<string>): int {
    if left == [] && right == [] then 0 else if left == [] then 1 else if right == [] then -1 else ComparePrereleases(left, right)
  }

  function Compared(v: Version, w: Version): int {
    if v.major != w.major then CompareNumbers(v.major, w.major)
    else if v.minor != w.minor then CompareNumbers(v.minor, w.minor)
    else if v.patch != w.patch then CompareNumbers(v.patch, w.patch)
    else CompareReleases(v.prerelease, w.prerelease)
  }

  method Compare(v: Version, w: Version) returns (order: int)
    ensures order == Compared(v, w)
  {
    var pairs := [(v.major, w.major), (v.minor, w.minor), (v.patch, w.patch)];
    for i := 0 to 3
      invariant forall j :: 0 <= j < i ==> pairs[j].0 == pairs[j].1
    {
      assert (i > 0 ==> pairs[0].0 == pairs[0].1) && (i > 1 ==> pairs[1].0 == pairs[1].1);
      if pairs[i].0 != pairs[i].1 {
        return CompareNumbers(pairs[i].0, pairs[i].1);
      }
    }
    assert pairs[0].0 == pairs[0].1 && pairs[1].0 == pairs[1].1 && pairs[2].0 == pairs[2].1;
    if |v.prerelease| == 0 && |w.prerelease| == 0 {
      return 0;
    } else if |v.prerelease| == 0 {
      return 1;
    } else if |w.prerelease| == 0 {
      return -1;
    }
    var shared := if |v.prerelease| < |w.prerelease| then |v.prerelease| else |w.prerelease|;
    for i := 0 to shared
      invariant ComparePrereleases(v.prerelease, w.prerelease) == ComparePrereleases(v.prerelease[i..], w.prerelease[i..])
    {
      assert v.prerelease[i..][1..] == v.prerelease[i + 1..] && w.prerelease[i..][1..] == w.prerelease[i + 1..];
      var one := CompareIdentifiers(v.prerelease[i], w.prerelease[i]);
      if one != 0 {
        return one;
      }
    }
    return CompareNumbers(|v.prerelease|, |w.prerelease|);
  }

  // ---- A total preorder ----

  lemma IdentifierOrder(a: string, b: string)
    ensures CompareIdentifiers(a, b) == -CompareIdentifiers(b, a)
    ensures -1 <= CompareIdentifiers(a, b) <= 1
  {
    TextOrder(a, b);
  }

  lemma IdentifierChains(a: string, b: string, c: string)
    requires CompareIdentifiers(a, b) <= 0 && CompareIdentifiers(b, c) <= 0
    ensures CompareIdentifiers(a, c) <= 0
    ensures CompareIdentifiers(a, c) == 0 ==> CompareIdentifiers(a, b) == 0 && CompareIdentifiers(b, c) == 0
  {
    TextOrder(a, b);
    TextOrder(b, c);
    TextOrder(a, c);
    if TextLess(a, b) && TextLess(b, c) {
      TextChains(a, b, c);
    }
  }

  lemma {:induction false} PrereleaseOrder(a: seq<string>, b: seq<string>)
    ensures ComparePrereleases(a, b) == -ComparePrereleases(b, a)
    ensures -1 <= ComparePrereleases(a, b) <= 1
    decreases |a|
  {
    if a != [] && b != [] {
      IdentifierOrder(a[0], b[0]);
      PrereleaseOrder(a[1..], b[1..]);
    }
  }

  lemma {:induction false} PrereleaseChains(a: seq<string>, b: seq<string>, c: seq<string>)
    requires ComparePrereleases(a, b) <= 0 && ComparePrereleases(b, c) <= 0
    ensures ComparePrereleases(a, c) <= 0
    decreases |a|
  {
    if a != [] && b != [] && c != [] {
      IdentifierChains(a[0], b[0], c[0]);
      if CompareIdentifiers(a[0], b[0]) == 0 && CompareIdentifiers(b[0], c[0]) == 0 {
        PrereleaseChains(a[1..], b[1..], c[1..]);
      }
    }
  }

  /** Any two versions are ordered, one way, and the order is transitive. */
  lemma CompareIsTotal(v: Version, w: Version)
    ensures Compared(v, w) == -Compared(w, v)
    ensures -1 <= Compared(v, w) <= 1
  {
    PrereleaseOrder(v.prerelease, w.prerelease);
  }

  lemma CompareChains(u: Version, v: Version, w: Version)
    requires Compared(u, v) <= 0 && Compared(v, w) <= 0
    ensures Compared(u, w) <= 0
  {
    if u.prerelease != [] && v.prerelease != [] && w.prerelease != []
       && ComparePrereleases(u.prerelease, v.prerelease) <= 0 && ComparePrereleases(v.prerelease, w.prerelease) <= 0 {
      PrereleaseChains(u.prerelease, v.prerelease, w.prerelease);
    }
  }

  // ---- Equal is the same but for the build ----

  lemma {:induction false} NumeralAtLeast(s: string)
    requires Numeral(s) && |s| > 1
    ensures ValueOf(s) >= 10
    decreases |s|
  {
    var front := s[..|s| - 1];
    if |front| > 1 {
      NumeralAtLeast(front);
    } else {
      assert front == [s[0]] && front[..0] == "";
      assert ValueOf(front) == s[0] as int - '0' as int;
    }
  }

  lemma OneDigitIsOne(a: string, b: string)
    requires Numeral(a) && Numeral(b) && ValueOf(a) == ValueOf(b) && |a| == 1
    ensures a == b
  {
    OneDigit(a);
    if |b| > 1 {
      NumeralAtLeast(b);
    } else {
      OneDigit(b);
    }
  }

  /** A number is written one way. */
  lemma {:induction false} NumeralIsOne(a: string, b: string)
    requires Numeral(a) && Numeral(b) && ValueOf(a) == ValueOf(b)
    ensures a == b
    decreases |a|
  {
    if |a| == 1 {
      OneDigitIsOne(a, b);
    } else if |b| == 1 {
      OneDigitIsOne(b, a);
    } else {
      var n, m := |a| - 1, |b| - 1;
      LastDigit(a, b);
      NumeralIsOne(a[..n], b[..m]);
      assert a == a[..n] + [a[n]] && b == b[..m] + [b[m]];
    }
  }

  lemma OneDigit(s: string)
    requires Numeral(s) && |s| == 1
    ensures ValueOf(s) == s[0] as int - '0' as int < 10
    ensures forall t :: |t| == 1 && t[0] == s[0] ==> t == s
  {
    assert s[..0] == "";
  }

  lemma LastDigit(a: string, b: string)
    requires Numeral(a) && Numeral(b) && |a| > 1 && |b| > 1 && ValueOf(a) == ValueOf(b)
    ensures Digits(a[..|a| - 1]) && Digits(b[..|b| - 1])
    ensures a[|a| - 1] == b[|b| - 1] && ValueOf(a[..|a| - 1]) == ValueOf(b[..|b| - 1])
    ensures Numeral(a[..|a| - 1]) && Numeral(b[..|b| - 1])
  {
    var x, y := ValueOf(a[..|a| - 1]), ValueOf(b[..|b| - 1]);
    var d, e := a[|a| - 1] as int - '0' as int, b[|b| - 1] as int - '0' as int;
    assert 10 * x + d == 10 * y + e && 0 <= d < 10 && 0 <= e < 10;
    assert x == y && d == e;
  }

  lemma IdentifierZero(a: string, b: string)
    ensures CompareIdentifiers(a, b) == 0 <==> a == b
  {
    TextOrder(a, b);
    if Numeric(a).Some? && Numeric(b).Some? && ValueOf(a) == ValueOf(b) {
      NumeralIsOne(a, b);
    }
  }

  lemma {:induction false} PrereleaseZero(a: seq<string>, b: seq<string>)
    ensures ComparePrereleases(a, b) == 0 <==> a == b
    decreases |a|
  {
    if a != [] && b != [] {
      IdentifierZero(a[0], b[0]);
      PrereleaseZero(a[1..], b[1..]);
      assert a == [a[0]] + a[1..] && b == [b[0]] + b[1..];
    }
  }

  lemma CoreIsWritten(a: seq<string>, b: seq<string>)
    requires |a| == |b| == 3
    requires forall i :: 0 <= i < 3 ==> Numeric(a[i]).Some? && Numeric(a[i]) == Numeric(b[i])
    ensures a == b
  {
    forall i | 0 <= i < 3
      ensures a[i] == b[i]
    {
      NumeralIsOne(a[i], b[i]);
    }
  }

  /** Two versions compare equal exactly when their texts agree up to the build metadata. */
  lemma EqualIffSameButBuild(a: string, b: string)
    requires Parsed(a).Some? && Parsed(b).Some?
    ensures Compared(Parsed(a).value, Parsed(b).value) == 0 <==> Unbuilt(a) == Unbuilt(b)
  {
    var v, w := Parsed(a).value, Parsed(b).value;
    PrereleaseZero(v.prerelease, w.prerelease);
    var (coreA, preA, releasedA) := Cut(Unbuilt(a), '-');
    var (coreB, preB, releasedB) := Cut(Unbuilt(b), '-');
    if Compared(v, w) == 0 {
      assert v.prerelease == w.prerelease && releasedA == releasedB;
      CoreIsWritten(Split(coreA, '.'), Split(coreB, '.'));
      JoinSplit(coreA, '.');
      JoinSplit(coreB, '.');
      if releasedA {
        JoinSplit(preA, '.');
        JoinSplit(preB, '.');
      }
    }
  }

  // ---- A version is what its text says ----

  function CoreOf(v: Version): string {
    Decimal(v.major) + "." + Decimal(v.minor) + "." + Decimal(v.patch)
  }

  /** The text of a version after its `v`, without its build metadata. */
  function RestOf(v: Version): string {
    CoreOf(v) + if v.prerelease == [] then "" else "-" + Join(v.prerelease, '.')
  }

  lemma NumericIsWritten(part: string)
    requires Numeric(part).Some?
    ensures Decimal(Numeric(part).value) == part
  {
    NumeralIsOne(Decimal(ValueOf(part)), part);
  }

  lemma CoreIsRead(core: string, v: Version)
    requires |Split(core, '.')| == 3
    requires var parts := Split(core, '.'); Numeric(parts[0]) == Some(v.major) && Numeric(parts[1]) == Some(v.minor) && Numeric(parts[2]) == Some(v.patch)
    ensures CoreOf(v) == core
  {
    var parts := Split(core, '.');
    NumericIsWritten(parts[0]);
    NumericIsWritten(parts[1]);
    NumericIsWritten(parts[2]);
    JoinSplit(core, '.');
    JoinThree(parts);
  }

  lemma Dashed(core: string, prerelease: string)
    ensures core + ['-'] + prerelease == core + ("-" + prerelease)
  {
  }

  lemma RestWith(v: Version, core: string, prerelease: string)
    requires CoreOf(v) == core && v.prerelease == Split(prerelease, '.')
    ensures RestOf(v) == core + ("-" + prerelease)
  {
    JoinSplit(prerelease, '.');
  }

  lemma RestIsRead(rest: string, v: Version)
    requires var (core, prerelease, released) := Cut(rest, '-');
      CoreOf(v) == core && v.prerelease == if released then Split(prerelease, '.') else []
    ensures RestOf(v) == rest
  {
    var (core, prerelease, released) := Cut(rest, '-');
    if released {
      RestWith(v, core, prerelease);
      Dashed(core, prerelease);
    } else {
      assert core + "" == core;
    }
  }

  /** What is read of a text is what it says: the version written out is the text up to its build metadata. */
  lemma ParsedIsWritten(text: string)
    requires Parsed(text).Some?
    ensures RestOf(Parsed(text).value) == Unbuilt(text) && Parsed(text).value.text == text
  {
    var v := Parsed(text).value;
    var (core, prerelease, released) := Cut(Unbuilt(text), '-');
    CoreIsRead(core, v);
    RestIsRead(Unbuilt(text), v);
  }

  lemma JoinThree(parts: seq<string>)
    requires |parts| == 3
    ensures Join(parts, '.') == parts[0] + "." + parts[1] + "." + parts[2]
  {
    assert parts[1..][1..] == [parts[2]] && Join([parts[2]], '.') == parts[2];
    assert Join(parts[1..], '.') == parts[1] + ['.'] + parts[2];
  }

  lemma {:induction false} SplitJoin(parts: seq<string>, separator: char)
    requires parts != [] && forall i :: 0 <= i < |parts| ==> separator !in parts[i]
    ensures Split(Join(parts, separator), separator) == parts
    decreases |parts|
  {
    if |parts| == 1 {
      CutNowhere(parts[0], separator);
    } else {
      SplitJoin(parts[1..], separator);
      CutAt(parts[0], Join(parts[1..], separator), separator);
      assert [parts[0]] + parts[1..] == parts;
    }
  }

  lemma {:induction false} CutNowhere(s: string, separator: char)
    requires separator !in s
    ensures Cut(s, separator) == (s, "", false)
    decreases |s|
  {
    if s != "" {
      CutNowhere(s[1..], separator);
      assert [s[0]] + s[1..] == s;
    }
  }

  /** Numbers of 64 bits and well-formed prerelease identifiers. */
  predicate Sound(v: Version) {
    v.major < UINT64 && v.minor < UINT64 && v.patch < UINT64 && ValidIdentifiers(v.prerelease, true)
  }

  lemma {:induction false} JoinIsPlain(parts: seq<string>)
    requires ValidIdentifiers(parts, true)
    ensures '+' !in Join(parts, '.')
    decreases |parts|
  {
    if |parts| > 1 {
      assert ValidIdentifier(parts[0], true);
      JoinIsPlain(parts[1..]);
    } else if |parts| == 1 {
      assert ValidIdentifier(parts[0], true);
    }
  }

  lemma CoreReads(v: Version)
    requires Sound(v)
    ensures Split(CoreOf(v), '.') == [Decimal(v.major), Decimal(v.minor), Decimal(v.patch)]
    ensures '-' !in CoreOf(v) && '+' !in CoreOf(v)
  {
    var parts := [Decimal(v.major), Decimal(v.minor), Decimal(v.patch)];
    JoinThree(parts);
    SplitJoin(parts, '.');
  }

  lemma RestReads(v: Version)
    requires Sound(v)
    ensures Cut(RestOf(v), '+') == (RestOf(v), "", false)
    ensures Cut(RestOf(v), '-') == if v.prerelease == [] then (CoreOf(v), "", false) else (CoreOf(v), Join(v.prerelease, '.'), true)
  {
    var core, joined := CoreOf(v), Join(v.prerelease, '.');
    CoreReads(v);
    JoinIsPlain(v.prerelease);
    CutNowhere(RestOf(v), '+');
    if v.prerelease == [] {
      assert RestOf(v) == core;
      CutNowhere(core, '-');
    } else {
      assert core + ("-" + joined) == core + ['-'] + joined;
      CutAt(core, joined, '-');
    }
  }

  lemma PrereleaseReads(v: Version)
    requires Sound(v) && v.prerelease != []
    ensures Split(Join(v.prerelease, '.'), '.') == v.prerelease
  {
    forall i | 0 <= i < |v.prerelease|
      ensures '.' !in v.prerelease[i]
    {
      assert ValidIdentifier(v.prerelease[i], true);
    }
    SplitJoin(v.prerelease, '.');
  }

  /** The build metadata a text may end with: none, or a `+` and dotted identifiers. */
  predicate ValidBuild(build: Option<string>) {
    build.Some? ==> ValidIdentifiers(Split(build.value, '.'), false)
  }

  function Suffix(build: Option<string>): string {
    if build.None? then "" else "+" + build.value
  }

  lemma SuffixIsCut(rest: string, build: Option<string>)
    requires '+' !in rest
    ensures Cut(rest + Suffix(build), '+') == if build.None? then (rest, "", false) else (rest, build.value, true)
  {
    if build.None? {
      assert rest + "" == rest;
      CutNowhere(rest, '+');
    } else {
      assert rest + ("+" + build.value) == rest + ['+'] + build.value;
      CutAt(rest, build.value, '+');
    }
  }

  lemma RestIsPlain(v: Version)
    requires Sound(v)
    ensures '+' !in RestOf(v)
  {
    CoreReads(v);
    JoinIsPlain(v.prerelease);
  }

  /** The numbers of a core of three parts. */
  predicate NumbersOf(parts: seq<string>, v: Version) {
    |parts| == 3 && Numeric(parts[0]) == Some(v.major) && Numeric(parts[1]) == Some(v.minor) && Numeric(parts[2]) == Some(v.patch)
  }

  /** What a text cut into its pieces is read as. */
  lemma PiecesAreRead(v: Version, plus: (string, string, bool), dash: (string, string, bool))
    requires 0 < |v.text| <= MAX_VERSION_LENGTH && v.text[0] == 'v'
    requires Cut(v.text[1..], '+') == plus && Cut(plus.0, '-') == dash && NumbersOf(Split(dash.0, '.'), v)
    requires plus.2 ==> ValidIdentifiers(Split(plus.1, '.'), false)
    requires if dash.2 then v.prerelease == Split(dash.1, '.') && ValidIdentifiers(v.prerelease, true) else v.prerelease == []
    ensures Parsed(v.text) == Some(v)
  {
  }

  lemma RestPieces(v: Version, dash: (string, string, bool))
    requires Sound(v) && dash == Cut(RestOf(v), '-')
    ensures if dash.2 then v.prerelease == Split(dash.1, '.') else v.prerelease == []
    ensures NumbersOf(Split(dash.0, '.'), v)
  {
    RestReads(v);
    CoreReads(v);
    if v.prerelease != [] {
      PrereleaseReads(v);
    }
  }

  /** Every such version, written out with whatever build metadata, is read back. */
  lemma WrittenIsParsed(v: Version, build: Option<string>)
    requires Sound(v) && ValidBuild(build) && v.text == "v" + (RestOf(v) + Suffix(build)) && |v.text| <= MAX_VERSION_LENGTH
    ensures Parsed(v.text) == Some(v)
  {
    assert v.text[1..] == RestOf(v) + Suffix(build);
    RestIsPlain(v);
    SuffixIsCut(RestOf(v), build);
    RestPieces(v, Cut(RestOf(v), '-'));
    PiecesAreRead(v, Cut(v.text[1..], '+'), Cut(RestOf(v), '-'));
  }

  lemma SuffixIsRest(text: string)
    requires text != "" && text[0] == 'v'
    ensures var (rest, metadata, built) := Cut(text[1..], '+');
      text == "v" + (rest + Suffix(if built then Some(metadata) else None))
  {
    var (rest, metadata, built) := Cut(text[1..], '+');
    assert text == "v" + text[1..];
    if built {
      assert rest + ['+'] + metadata == rest + ("+" + metadata);
    } else {
      assert rest + "" == rest;
    }
  }

  lemma ParsedIsSound(text: string) returns (build: Option<string>)
    requires Parsed(text).Some?
    ensures Sound(Parsed(text).value) && ValidBuild(build) && text == "v" + (Unbuilt(text) + Suffix(build))
  {
    var (rest, metadata, built) := Cut(text[1..], '+');
    build := if built then Some(metadata) else None;
    SuffixIsRest(text);
  }

  /** The texts read are exactly those of at most 128 characters that write out a sound version, with or without build metadata. */
  lemma ParsesIffWritten(text: string)
    ensures Parsed(text).Some? <==>
      |text| <= MAX_VERSION_LENGTH
      && exists v, build :: Sound(v) && ValidBuild(build) && text == "v" + (RestOf(v) + Suffix(build))
  {
    if Parsed(text).Some? {
      var build := ParsedIsSound(text);
      ParsedIsWritten(text);
    }
    if v, build :| |text| <= MAX_VERSION_LENGTH && Sound(v) && ValidBuild(build) && text == "v" + (RestOf(v) + Suffix(build)) {
      var written := v.(text := text);
      assert RestOf(written) == RestOf(v);
      WrittenIsParsed(written, build);
    }
  }

  // ---- Section 11 of Semantic Versioning 2.0.0 ----

  /**
   Identifiers of only digits are compared as numbers, however long; others by their characters; and a number comes
   before anything that is not one.
   */
  function Section11Identifiers(left: string, right: string): int {
    if Numeral(left) && Numeral(right) then CompareNumbers(ValueOf(left), ValueOf(right))
    else if Numeral(left) then -1
    else if Numeral(right) then 1
    else CompareTexts(left, right)
  }

  function Section11Prereleases(left: seq<string>, right: seq<string>): int
    decreases |left|
  {
    if left == [] || right == [] then CompareNumbers(|left|, |right|)
    else
      var order := Section11Identifiers(left[0], right[0]);
      if order != 0 then order else Section11Prereleases(left[1..], right[1..])
  }

  /** A release comes after every prerelease of it. */
  function Section11(v: Version, w: Version): int {
    if v.major != w.major then CompareNumbers(v.major, w.major)
    else if v.minor != w.minor then CompareNumbers(v.minor, w.minor)
    else if v.patch != w.patch then CompareNumbers(v.patch, w.patch)
    else if v.prerelease == [] && w.prerelease == [] then 0
    else if v.prerelease == [] then 1
    else if w.prerelease == [] then -1
    else Section11Prereleases(v.prerelease, w.prerelease)
  }

  /** A number that does not fit 64 bits. */
  predicate Overflows(s: string) {
    Numeral(s) && ValueOf(s) >= UINT64
  }

  /**
   Two identifiers read in the wrong order: numbers that both do not fit, where the longer begins with the lesser
   characters, or a number that does not fit and a word whose characters come before its digits.
   */
  predicate Misread(left: string, right: string) {
    || (Overflows(left) && Overflows(right) && |left| < |right| && TextLess(right, left))
    || (Overflows(left) && Overflows(right) && |right| < |left| && TextLess(left, right))
    || (Overflows(left) && !Numeral(right) && TextLess(right, left))
    || (Overflows(right) && !Numeral(left) && TextLess(left, right))
  }

  lemma {:induction false} LongerIsGreater(a: string, b: string)
    requires Numeral(a) && Numeral(b) && |a| < |b|
    ensures ValueOf(a) < ValueOf(b)
    decreases |a|
  {
    NumeralAtLeast(b);
    if |a| == 1 {
      OneDigit(a);
    } else {
      LongerIsGreater(a[..|a| - 1], b[..|b| - 1]);
    }
  }

  lemma {:induction false} SameLengthCompares(a: string, b: string)
    requires Digits(a) && Digits(b) && |a| == |b|
    ensures ValueOf(a) < ValueOf(b) <==> TextLess(a, b)
    ensures ValueOf(a) == ValueOf(b) <==> a == b
    decreases |a|
  {
    if a != "" {
      var n := |a| - 1;
      SameLengthCompares(a[..n], b[..n]);
      TextLessSnoc(a[..n], a[n], b[..n], b[n]);
      assert a == a[..n] + [a[n]] && b == b[..n] + [b[n]];
    }
  }

  lemma {:induction false} TextLessSnoc(a: string, c: char, b: string, d: char)
    requires |a| == |b|
    ensures TextLess(a + [c], b + [d]) <==> TextLess(a, b) || (a == b && c < d)
    decreases |a|
  {
    if a != "" {
      TextLessSnoc(a[1..], c, b[1..], d);
      assert (a + [c])[1..] == a[1..] + [c] && (b + [d])[1..] == b[1..] + [d];
      assert a == [a[0]] + a[1..] && b == [b[0]] + b[1..];
    } else {
      assert [c][1..] == "" && [d][1..] == "";
      assert a + [c] == [c] && b + [d] == [d];
    }
  }

  lemma OverflowsCompare(a: string, b: string)
    requires Overflows(a) && Overflows(b)
    ensures CompareIdentifiers(a, b) == Section11Identifiers(a, b) <==> !Misread(a, b)
  {
    TextOrder(a, b);
    if |a| < |b| {
      LongerIsGreater(a, b);
    } else if |b| < |a| {
      LongerIsGreater(b, a);
    } else {
      SameLengthCompares(a, b);
    }
  }

  lemma IdentifiersAgree(a: string, b: string)
    ensures CompareIdentifiers(a, b) == Section11Identifiers(a, b) <==> !Misread(a, b)
    ensures Section11Identifiers(a, b) == 0 <==> a == b
  {
    TextOrder(a, b);
    if Numeral(a) && Numeral(b) && ValueOf(a) == ValueOf(b) {
      NumeralIsOne(a, b);
    }
    if Overflows(a) && Overflows(b) {
      OverflowsCompare(a, b);
    }
  }

  /** Where two prereleases first differ, the identifiers there are not misread. */
  predicate ReadRight(left: seq<string>, right: seq<string>)
    decreases |left|
  {
    if left == [] || right == [] then true
    else if left[0] == right[0] then ReadRight(left[1..], right[1..])
    else !Misread(left[0], right[0])
  }

  lemma {:induction false} PrereleasesAgree(a: seq<string>, b: seq<string>)
    ensures ComparePrereleases(a, b) == Section11Prereleases(a, b) <==> ReadRight(a, b)
    decreases |a|
  {
    if a != [] && b != [] {
      IdentifiersAgree(a[0], b[0]);
      IdentifierZero(a[0], b[0]);
      PrereleasesAgree(a[1..], b[1..]);
    }
  }

  predicate SameCore(v: Version, w: Version) {
    v.major == w.major && v.minor == w.minor && v.patch == w.patch
  }

  /**
   The order is section 11's exactly when the versions differ before their prereleases, or the identifiers their
   prereleases first differ at are not misread.
   */
  lemma Section11IffReadRight(v: Version, w: Version)
    ensures Compared(v, w) == Section11(v, w) <==> (SameCore(v, w) ==> ReadRight(v.prerelease, w.prerelease))
  {
    PrereleasesAgree(v.prerelease, w.prerelease);
  }

  lemma {:induction false} NoOverflowReadsRight(a: seq<string>, b: seq<string>)
    requires forall i :: 0 <= i < |a| ==> !Overflows(a[i])
    requires forall i :: 0 <= i < |b| ==> !Overflows(b[i])
    ensures ReadRight(a, b)
    decreases |a|
  {
    if a != [] && b != [] {
      NoOverflowReadsRight(a[1..], b[1..]);
    }
  }

  /** Where every prerelease number fits 64 bits, the order is section 11's. */
  lemma Section11WhereNumbersFit(v: Version, w: Version)
    requires forall i :: 0 <= i < |v.prerelease| ==> !Overflows(v.prerelease[i])
    requires forall i :: 0 <= i < |w.prerelease| ==> !Overflows(w.prerelease[i])
    ensures Compared(v, w) == Section11(v, w)
  {
    NoOverflowReadsRight(v.prerelease, w.prerelease);
    Section11IffReadRight(v, w);
  }

  function Power(n: nat): nat {
    if n == 0 then 1 else 10 * Power(n - 1)
  }

  lemma {:induction false} NumeralAtLeastPower(s: string)
    requires Numeral(s) && s[0] != '0'
    ensures ValueOf(s) >= Power(|s| - 1)
    decreases |s|
  {
    if |s| == 1 {
      OneDigit(s);
    } else {
      NumeralAtLeastPower(s[..|s| - 1]);
    }
  }

  lemma {:induction false} PowerGrows(n: nat, m: nat)
    requires n <= m
    ensures Power(n) <= Power(m)
    decreases m
  {
    if n < m {
      PowerGrows(n, m - 1);
    }
  }

  lemma LongOverflows(s: string)
    requires Numeral(s) && |s| > 20
    ensures Overflows(s)
  {
    NumeralAtLeastPower(s);
    PowerGrows(20, |s| - 1);
    assert Power(10) == 10_000_000_000;
    assert Power(20) == 100_000_000_000_000_000_000;
  }

  /** A nine and twenty zeros or more comes before a one and one zero more, and is put after it. */
  lemma LongNumbersAreMisread(v: Version, w: Version, zeros: string)
    requires |zeros| >= 20 && forall i :: 0 <= i < |zeros| ==> zeros[i] == '0'
    requires SameCore(v, w) && v.prerelease == ["9" + zeros] && w.prerelease == ["1" + zeros + "0"]
    ensures Compared(v, w) == 1 && Section11(v, w) == -1
  {
    var a, b := "9" + zeros, "1" + zeros + "0";
    assert a[0] == '9' && b[0] == '1';
    LongOverflows(a);
    LongOverflows(b);
    LongerIsGreater(a, b);
    TextOrder(a, b);
    assert TextLess(b, a);
  }

  /** Two such texts that are both read, and put in the wrong order. */
  lemma TwoTextsAreMisread(v: Version, w: Version, zeros: string)
    requires |zeros| == 20 && forall i :: 0 <= i < |zeros| ==> zeros[i] == '0'
    requires v == Version(1, 0, 0, ["9" + zeros], "v1.0.0-" + ("9" + zeros))
    requires w == Version(1, 0, 0, ["1" + zeros + "0"], "v1.0.0-" + ("1" + zeros + "0"))
    ensures Parsed(v.text) == Some(v) && Parsed(w.text) == Some(w)
    ensures Compared(v, w) == 1 && Section11(v, w) == -1
  {
    var a, b := "9" + zeros, "1" + zeros + "0";
    assert ValidIdentifier(a, true);
    assert ValidIdentifier(b, true);
    LonePrereleaseParses(v, a);
    LonePrereleaseParses(w, b);
    LongNumbersAreMisread(v, w, zeros);
  }

  lemma LonePrereleaseParses(v: Version, prerelease: string)
    requires v == Version(1, 0, 0, [prerelease], "v1.0.0-" + prerelease) && |prerelease| <= 100 && ValidIdentifier(prerelease, true)
    ensures Parsed(v.text) == Some(v)
  {
    assert Decimal(1) == "1" && Decimal(0) == "0";
    assert CoreOf(v) == "1.0.0";
    assert RestOf(v) == "1.0.0" + ("-" + prerelease);
    assert RestOf(v) + "" == RestOf(v);
    assert v.text == "v" + RestOf(v);
    WrittenIsParsed(v, None);
  }
}
