/** Which of an image's tags a row leads with. */
module VersionTags {
  import opened Sorting
  import opened Text

  predicate IsDigit(c: char) {
    '0' <= c <= '9'
  }

  /** The length of the run of digits that starts `s`. */
  function DigitRun(s: string): (n: nat)
    ensures n <= |s|
    ensures forall i :: 0 <= i < n ==> IsDigit(s[i])
  {
    if s != [] && IsDigit(s[0]) then 1 + DigitRun(s[1..]) else 0
  }

  function DigitValue(c: char): nat
    requires IsDigit(c)
  {
    c as int - '0' as int
  }

  function ParseInt(digits: string): nat
    requires forall i :: 0 <= i < |digits| ==> IsDigit(digits[i])
  {
    if digits == [] then 0
    else 10 * ParseInt(digits[..|digits| - 1]) + DigitValue(digits[|digits| - 1])
  }

  function Number(s: string): nat {
    ParseInt(s[..DigitRun(s)])
  }

  /** A number at the start of `s` that a dot and another digit follow. */
  predicate DottedNumber(s: string) {
    var n := DigitRun(s);
    n > 0 && n + 1 < |s| && s[n] == '.' && IsDigit(s[n + 1])
  }

  /** The tag without a leading `v`. */
  function Unprefixed(tag: string): string {
    if tag != [] && (tag[0] == 'v' || tag[0] == 'V') then tag[1..] else tag
  }

  /** `N.N` or `N.N.N` and anything after it, or [-1]. */
  function NumberParts(s: string): seq<int> {
    if !DottedNumber(s) then [-1]
    else
      var rest := s[DigitRun(s) + 1..];
      [Number(s), Number(rest),
       if DottedNumber(rest) then Number(rest[DigitRun(rest) + 1..]) else 0]
  }

  /** `parseSemverParts`. */
  function SemverParts(tag: string): seq<int> {
    NumberParts(Unprefixed(tag))
  }

  predicate IsVersion(tag: string) {
    |SemverParts(tag)| == 3
  }

  /** Position `i` of the parts, zero beyond their end. */
  function Part(tag: string, i: nat): int {
    if i < |SemverParts(tag)| then SemverParts(tag)[i] else 0
  }

  /** `localeCompare`: any consistent comparison of strings. */
  type Locale = (string, string) -> int

  ghost predicate Consistent(locale: Locale) {
    && (forall a, b :: locale(a, b) < 0 <==> locale(b, a) > 0)
    && (forall a, b, c :: locale(a, b) <= 0 && locale(b, c) <= 0 ==> locale(a, c) <= 0)
  }

  /** Higher versions first: negative when `a` comes before `b`. */
  function CompareDesc(a: string, b: string, locale: Locale): int {
    if Part(a, 0) != Part(b, 0) then Part(b, 0) - Part(a, 0)
    else if Part(a, 1) != Part(b, 1) then Part(b, 1) - Part(a, 1)
    else if Part(a, 2) != Part(b, 2) then Part(b, 2) - Part(a, 2)
    else locale(a, b)
  }

  /** The comparator as the program runs it: a loop over the longer list of parts. */
  method CompareSemverDesc(a: string, b: string, locale: Locale) returns (c: int)
    ensures c == CompareDesc(a, b, locale)
  {
    var pa, pb := SemverParts(a), SemverParts(b);
    var n := if |pa| < |pb| then |pb| else |pa|;
    for i := 0 to n
      invariant forall j :: 0 <= j < i ==> Part(a, j) == Part(b, j)
    {
      var va := if i < |pa| then pa[i] else 0;
      var vb := if i < |pb| then pb[i] else 0;
      if va != vb {
        assert i < 3;
        assert i == 0 || i == 1 || i == 2;
        return vb - va;
      }
    }
    assert forall j :: n <= j ==> Part(a, j) == Part(b, j) == 0;
    c := locale(a, b);
  }

  function ComesFirst(locale: Locale): (string, string) -> bool {
    (a: string, b: string) => CompareDesc(a, b, locale) <= 0
  }

  lemma CompareTotal(a: string, b: string, locale: Locale)
    requires Consistent(locale)
    ensures CompareDesc(a, b, locale) < 0 <==> CompareDesc(b, a, locale) > 0
  {
  }

  lemma CompareTransitive(a: string, b: string, c: string, locale: Locale)
    requires Consistent(locale)
    requires CompareDesc(a, b, locale) <= 0 && CompareDesc(b, c, locale) <= 0
    ensures CompareDesc(a, c, locale) <= 0
  {
  }

  /** The comparator is a consistent total order whenever the string comparison is one. */
  lemma ComparatorIsOrder(locale: Locale)
    requires Consistent(locale)
    ensures Preorder(ComesFirst(locale))
  {
    var leq := ComesFirst(locale);
    forall a: string, b: string
      ensures leq(a, b) || leq(b, a)
    {
      CompareTotal(a, b, locale);
    }
    forall a: string, b: string, c: string | leq(a, b) && leq(b, c)
      ensures leq(a, c)
    {
      CompareTransitive(a, b, c, locale);
    }
  }

  // ---------------------------------------------------------------------------
  // Written versions
  // ---------------------------------------------------------------------------

  predicate Digits(s: string) {
    s != "" && forall i :: 0 <= i < |s| ==> IsDigit(s[i])
  }

  /** Neither continues the number before it. */
  predicate EndsNumber(s: string) {
    s == "" || !IsDigit(s[0])
  }

  lemma {:induction false} RunOf(n: string, rest: string)
    requires Digits(n) && EndsNumber(rest)
    ensures DigitRun(n + rest) == |n| && (n + rest)[..|n|] == n && (n + rest)[|n|..] == rest
  {
    var s := n + rest;
    assert s[1..] == n[1..] + rest;
    if |n| == 1 {
      assert s[1..] == rest;
    } else {
      RunOf(n[1..], rest);
    }
  }

  lemma NumberOf(n: string, rest: string)
    requires Digits(n) && EndsNumber(rest)
    ensures Number(n + rest) == ParseInt(n)
  {
    RunOf(n, rest);
  }

  /** A leading `v` in either case is ignored. */
  lemma PrefixIgnored(v: string, s: string)
    requires (v == "" || v == "v" || v == "V") && s != "" && IsDigit(s[0])
    ensures Unprefixed(v + s) == s
  {
    if v == "" {
      assert v + s == s;
    } else {
      assert (v + s)[0] == v[0] && (v + s)[1..] == s;
    }
  }

  lemma Dotted(n: string, m: string, rest: string)
    requires Digits(n) && Digits(m)
    ensures DottedNumber(n + ("." + (m + rest))) && (n + ("." + (m + rest)))[DigitRun(n + ("." + (m + rest))) + 1..] == m + rest
    ensures Number(n + ("." + (m + rest))) == ParseInt(n)
  {
    var tail := "." + (m + rest);
    RunOf(n, tail);
    NumberOf(n, tail);
    assert tail[1..] == m + rest && tail[1] == m[0];
  }

  lemma PartsOf(s: string, tail: string, last: string)
    requires DottedNumber(s) && s[DigitRun(s) + 1..] == tail
    requires DottedNumber(tail) && tail[DigitRun(tail) + 1..] == last
    ensures NumberParts(s) == [Number(s), Number(tail), Number(last)]
  {
  }

  /** `v1.2.3`, and whatever follows the third number, reads as its three numbers in their order. */
  lemma ThreeNumbers(v: string, n: string, m: string, p: string, rest: string)
    requires (v == "" || v == "v" || v == "V") && Digits(n) && Digits(m) && Digits(p) && EndsNumber(rest)
    ensures SemverParts(v + (n + ("." + (m + ("." + (p + rest)))))) == [ParseInt(n), ParseInt(m), ParseInt(p)]
  {
    var last := p + rest;
    var tail := m + ("." + last);
    var s := n + ("." + tail);
    assert s[0] == n[0];
    PrefixIgnored(v, s);
    Dotted(n, m, "." + last);
    Dotted(m, p, rest);
    NumberOf(p, rest);
    PartsOf(s, tail, last);
  }

  lemma TwoPartsOf(s: string, tail: string)
    requires DottedNumber(s) && s[DigitRun(s) + 1..] == tail && !DottedNumber(tail)
    ensures NumberParts(s) == [Number(s), Number(tail), 0]
  {
  }

  lemma NotDotted(m: string, rest: string)
    requires Digits(m) && EndsNumber(rest) && (rest == "" || rest[0] != '.')
    ensures !DottedNumber(m + rest)
  {
    RunOf(m, rest);
    assert rest != "" ==> (m + rest)[|m|] == rest[0];
  }

  /** `v1.2` reads as 1, 2, 0. */
  lemma TwoNumbers(v: string, n: string, m: string, rest: string)
    requires (v == "" || v == "v" || v == "V") && Digits(n) && Digits(m) && EndsNumber(rest)
    requires rest == "" || rest[0] != '.'
    ensures SemverParts(v + (n + ("." + (m + rest)))) == [ParseInt(n), ParseInt(m), 0]
  {
    var s := n + ("." + (m + rest));
    assert s[0] == n[0];
    PrefixIgnored(v, s);
    Dotted(n, m, rest);
    NotDotted(m, rest);
    NumberOf(m, rest);
    TwoPartsOf(s, m + rest);
  }

  /** A tag that does not start with a number, `v` aside, is no version and ranks below every one. */
  lemma NoNumberNoVersion(tag: string, other: string, locale: Locale)
    requires var s := if tag != "" && (tag[0] == 'v' || tag[0] == 'V') then tag[1..] else tag; EndsNumber(s)
    requires IsVersion(other)
    ensures SemverParts(tag) == [-1]
    ensures CompareDesc(other, tag, locale) < 0 < CompareDesc(tag, other, locale)
  {
  }

  /** Numbers are read in base ten. */
  lemma {:induction false} ReadInBaseTen(a: string, b: string)
    requires Digits(a) && Digits(b)
    ensures Digits(a + b) && ParseInt(a + b) == ParseInt(a) * TenTo(|b|) + ParseInt(b)
    ensures |b| == 1 ==> ParseInt(b) == b[0] as int - '0' as int
    decreases |b|
  {
    var s := a + b;
    assert s[..|s| - 1] == a + b[..|b| - 1] && s[|s| - 1] == b[|b| - 1];
    if |b| == 1 {
      assert b[..0] == [] && s[..|s| - 1] == a;
      assert ParseInt(b) == 10 * ParseInt(b[..0]) + DigitValue(b[0]);
      assert TenTo(1) == 10 * TenTo(0);
    } else {
      var c := b[..|b| - 1];
      ReadInBaseTen(a, c);
      Distribute(ParseInt(a), TenTo(|c|), ParseInt(c), DigitValue(b[|b| - 1]));
    }
  }

  function TenTo(n: nat): nat {
    if n == 0 then 1 else 10 * TenTo(n - 1)
  }

  lemma Distribute(x: int, t: int, y: int, d: int)
    ensures 10 * (x * t + y) + d == x * (10 * t) + (10 * y + d)
  {
  }

  /** Of two versions the one with the higher first number leads, then the second, then the third. */
  lemma HigherLeads(a: string, b: string, locale: Locale)
    requires IsVersion(a) && IsVersion(b)
    ensures var x, y := SemverParts(a), SemverParts(b);
            x[0] > y[0] || (x[0] == y[0] && (x[1] > y[1] || (x[1] == y[1] && x[2] > y[2]))) ==>
              CompareDesc(a, b, locale) < 0 < CompareDesc(b, a, locale)
  {
  }

  predicate IsLatest(tag: string) {
    Lower(tag) == "latest"
  }

  function WithoutLatest(tags: seq<string>): (r: seq<string>)
    ensures forall t :: t in r <==> t in tags && !IsLatest(t)
  {
    if tags == [] then []
    else
      var rest := WithoutLatest(tags[1..]);
      assert tags == [tags[0]] + tags[1..];
      if IsLatest(tags[0]) then rest else [tags[0]] + rest
  }

  function Candidates(tags: seq<string>): seq<string> {
    if WithoutLatest(tags) != [] then WithoutLatest(tags) else tags
  }

  datatype Choice = Choice(primary: string, restCount: int)

  function PickLatestVersionTag(tags: seq<string>, locale: Locale): Choice {
    if tags == [] then Choice("", 0)
    else
      var sorted := Sort(Candidates(tags), ComesFirst(locale));
      Choice(if sorted == [] then "" else sorted[0], |tags| - 1)
  }

  lemma SortedHeadIsLeast(xs: seq<string>, locale: Locale)
    requires Consistent(locale) && xs != []
    ensures var s := Sort(xs, ComesFirst(locale));
            s != [] && s[0] in xs && forall x :: x in xs ==> CompareDesc(s[0], x, locale) <= 0
  {
    var leq := ComesFirst(locale);
    ComparatorIsOrder(locale);
    SortMembers(xs, leq);
    SortSorts(xs, leq);
    var s := Sort(xs, leq);
    forall x | x in xs
      ensures CompareDesc(s[0], x, locale) <= 0
    {
      assert x in s;
      var i :| 0 <= i < |s| && s[i] == x;
      CompareTotal(x, x, locale);
      assert i > 0 ==> leq(s[0], s[i]);
    }
  }

  /** Comparing versions by their three numbers, most significant first. */
  predicate VersionGeq(a: string, b: string) {
    || Part(a, 0) > Part(b, 0)
    || (Part(a, 0) == Part(b, 0) &&
        (Part(a, 1) > Part(b, 1) || (Part(a, 1) == Part(b, 1) && Part(a, 2) >= Part(b, 2))))
  }

  /**
   The pick is one of the tags and no candidate outranks it: a version beats every
   non-version, the highest version wins, and `latest` leads only when there is nothing else.
   */
  lemma PickIsMaximal(tags: seq<string>, locale: Locale)
    requires Consistent(locale) && tags != []
    ensures var p := PickLatestVersionTag(tags, locale).primary;
            && p in tags
            && (IsLatest(p) ==> forall t :: t in tags ==> IsLatest(t))
            && (forall t :: t in Candidates(tags) ==> CompareDesc(p, t, locale) <= 0 && VersionGeq(p, t))
            && ((exists t :: t in Candidates(tags) && IsVersion(t)) ==> IsVersion(p))
    ensures PickLatestVersionTag(tags, locale).restCount == |tags| - 1
    ensures forall t :: t in tags && Lower(t) != "latest" ==> t in Candidates(tags)
  {
    var c := Candidates(tags);
    SortedHeadIsLeast(c, locale);
    var p := PickLatestVersionTag(tags, locale).primary;
    if WithoutLatest(tags) == [] {
      forall t | t in tags
        ensures IsLatest(t)
      {
        assert t !in WithoutLatest(tags);
      }
    }
    forall t | t in c && IsVersion(t)
      ensures IsVersion(p)
    {
      assert VersionGeq(p, t) && Part(t, 0) >= 0;
    }
  }
}
