/**
 The asset key a container image is grouped under: canonical key, then alias rules that can
 be replaced at run time, behind a bounded memo.
 */
module GroupKey {
  import opened Wrappers
  import opened Text
  import opened ContainerRef

  const MEMO_MAX := 4096

  /** `from => to`: a prefix rewrite; an empty `to` strips the prefix. */
  datatype Rule = Rule(src: string, dst: string)

  // ---------------------------------------------------------------------------
  // Parsing the rules
  // ---------------------------------------------------------------------------

  function Split(s: string, sep: char): (parts: seq<string>)
    ensures |parts| > 0
    decreases |s|
  {
    var i := Find(s, sep);
    if i < 0 then [s] else [s[..i]] + Split(s[i + 1..], sep)
  }

  function ParseSegment(segment: string): seq<Rule> {
    var s := Trim(segment);
    var i := FindSub(s, "=>");
    if i < 0 then []
    else
      var src, dst := Lower(Trim(s[..i])), Lower(Trim(s[i + 2..]));
      if src != "" then [Rule(src, dst)] else []
  }

  /** What `parse` makes of each segment, in order. */
  function ParseEach(parse: string -> seq<Rule>, segments: seq<string>): seq<Rule> {
    if segments == [] then []
    else ParseEach(parse, segments[..|segments| - 1]) + parse(segments[|segments| - 1])
  }

  function ParseRules(raw: string): seq<Rule> {
    ParseEach(ParseSegment, Split(raw, ';'))
  }

  /** `parseContainerAssetPathAliases`: one push per usable segment. */
  method ParseAliases(raw: string) returns (rules: seq<Rule>)
    ensures rules == ParseRules(raw)
  {
    rules := [];
    var segments := Split(raw, ';');
    for k := 0 to |segments|
      invariant rules == ParseEach(ParseSegment, segments[..k])
    {
      assert segments[..k + 1][..k] == segments[..k];
      var s := Trim(segments[k]);
      var i := FindSub(s, "=>");
      if i < 0 {
        continue;
      }
      var src, dst := Lower(Trim(s[..i])), Lower(Trim(s[i + 2..]));
      if src != "" {
        rules := rules + [Rule(src, dst)];
      }
    }
    assert segments[..|segments|] == segments;
  }

  function PrintRule(r: Rule): string {
    r.src + "=>" + r.dst
  }

  function PrintRules(rules: seq<Rule>): seq<string> {
    if rules == [] then [] else PrintRules(rules[..|rules| - 1]) + [PrintRule(rules[|rules| - 1])]
  }

  ghost predicate CleanRule(r: Rule) {
    && r.src != "" && NoSpace(r.src) && NoSpace(r.dst)
    && Lower(r.src) == r.src && Lower(r.dst) == r.dst
    && '=' !in r.src && ';' !in r.src && ';' !in r.dst
  }

  ghost predicate CleanRules(rules: seq<Rule>) {
    forall i :: 0 <= i < |rules| ==> CleanRule(rules[i])
  }

  lemma {:induction false} SplitJoin(parts: seq<string>, sep: char)
    requires |parts| > 0 && AllFree(sep, parts)
    ensures Split(Join(sep, parts), sep) == parts
  {
    if |parts| == 1 {
      FindAbsent(parts[0], sep);
    } else {
      var rest := Join(sep, parts[1..]);
      FindFirst(parts[0], sep, rest);
      var s := parts[0] + [sep] + rest;
      assert s[..|parts[0]|] == parts[0] && s[|parts[0]| + 1..] == rest;
      SplitJoin(parts[1..], sep);
    }
  }

  lemma ParsePrinted(r: Rule)
    requires CleanRule(r)
    ensures ParseSegment(PrintRule(r)) == [r]
  {
    var s := PrintRule(r);
    NoSpaceConcat(r.src, "=>");
    NoSpaceConcat(r.src + "=>", r.dst);
    MarkerAt(r.src, "=>", r.dst);
  }

  lemma {:induction false} ParseAllPrinted(parse: string -> seq<Rule>, rules: seq<Rule>)
    requires forall i :: 0 <= i < |rules| ==> parse(PrintRule(rules[i])) == [rules[i]]
    ensures ParseEach(parse, PrintRules(rules)) == rules
  {
    if rules != [] {
      var init, p := rules[..|rules| - 1], PrintRules(rules);
      ParseAllPrinted(parse, init);
      assert p[..|p| - 1] == PrintRules(init);
    }
  }

  lemma {:induction false} AllPrintedFree(rules: seq<Rule>)
    requires forall i :: 0 <= i < |rules| ==> ';' !in PrintRule(rules[i])
    ensures |PrintRules(rules)| == |rules| && AllFree(';', PrintRules(rules))
  {
    if rules != [] {
      AllPrintedFree(rules[..|rules| - 1]);
    }
  }

  /** Rules survive being written to the configuration string and read back, in order. */
  lemma RulesRoundTrip(rules: seq<Rule>)
    requires |rules| > 0 && CleanRules(rules)
    ensures ParseRules(Join(';', PrintRules(rules))) == rules
  {
    forall i | 0 <= i < |rules|
      ensures ParseSegment(PrintRule(rules[i])) == [rules[i]] && ';' !in PrintRule(rules[i])
    {
      ParsePrinted(rules[i]);
    }
    ParseAllPrinted(ParseSegment, rules);
    AllPrintedFree(rules);
    SplitJoin(PrintRules(rules), ';');
  }

  /** What a segment means: blanks around either side and case do not matter, an empty left side drops it. */
  function Meant(left: string, right: string): seq<Rule> {
    if Trim(left) == "" then [] else [Rule(Lower(Trim(left)), Lower(Trim(right)))]
  }

  lemma TrimmedSides(left: string, m: string, right: string)
    requires m != "" && !IsSpace(m[0]) && !IsSpace(m[|m| - 1])
    ensures Trim(left + m + right) == TrimLeft(left) + m + TrimRight(right)
    ensures Trim(TrimLeft(left)) == Trim(left) && Trim(TrimRight(right)) == Trim(right)
  {
    assert left + m + right == left + (m + right) && (m + right)[0] == m[0];
    TrimLeftConcat(left, m + right);
    assert TrimLeft(left) + (m + right) == (TrimLeft(left) + m) + right;
    TrimRightConcat(TrimLeft(left) + m, right);
    TrimLeftTwice(left);
    TrimEnds(right);
    TrimRightTwice(TrimLeft(right));
  }

  lemma {:induction false} TrimLeftChars(s: string, c: char)
    requires c !in s
    ensures c !in TrimLeft(s)
  {
    if s != [] && IsSpace(s[0]) {
      TrimLeftChars(s[1..], c);
    }
  }

  /** Parsing one segment that has an arrow, however it is spaced and capitalised. */
  lemma SegmentParsed(left: string, right: string)
    requires '=' !in left
    ensures ParseSegment(left + "=>" + right) == Meant(left, right)
  {
    TrimmedSides(left, "=>", right);
    TrimLeftChars(left, '=');
    MarkerAt(TrimLeft(left), "=>", TrimRight(right));
    LowerAt(Trim(left));
  }

  function MeantAll(pairs: seq<(string, string)>): seq<Rule> {
    if pairs == [] then []
    else MeantAll(pairs[..|pairs| - 1]) + Meant(pairs[|pairs| - 1].0, pairs[|pairs| - 1].1)
  }

  function Arrows(pairs: seq<(string, string)>): seq<string> {
    if pairs == [] then []
    else Arrows(pairs[..|pairs| - 1]) + [pairs[|pairs| - 1].0 + "=>" + pairs[|pairs| - 1].1]
  }

  ghost predicate Separable(pairs: seq<(string, string)>) {
    forall i :: 0 <= i < |pairs| ==> '=' !in pairs[i].0 && ';' !in pairs[i].0 && ';' !in pairs[i].1
  }

  lemma {:induction false} ArrowsParsed(pairs: seq<(string, string)>)
    requires Separable(pairs)
    ensures |Arrows(pairs)| == |pairs| && AllFree(';', Arrows(pairs))
    ensures ParseEach(ParseSegment, Arrows(pairs)) == MeantAll(pairs)
  {
    if pairs != [] {
      var init, last := pairs[..|pairs| - 1], pairs[|pairs| - 1];
      ArrowsParsed(init);
      var all := Arrows(pairs);
      assert all[..|all| - 1] == Arrows(init) && all[|all| - 1] == last.0 + "=>" + last.1;
      SegmentParsed(last.0, last.1);
    }
  }

  /** The whole setting: one rule per segment with a left side, in their order, trimmed and in lower case. */
  lemma SettingParsed(pairs: seq<(string, string)>)
    requires |pairs| > 0 && Separable(pairs)
    ensures ParseRules(Join(';', Arrows(pairs))) == MeantAll(pairs)
  {
    ArrowsParsed(pairs);
    SplitJoin(Arrows(pairs), ';');
  }

  // ---------------------------------------------------------------------------
  // The key without the memo
  // ---------------------------------------------------------------------------

  function ApplyRules(key: string, k: string, rules: seq<Rule>): string {
    if rules == [] then key
    else if rules[0].src <= Lower(k) then rules[0].dst + k[MinLen(rules[0].src, k)..]
    else ApplyRules(key, k, rules[1..])
  }

  function MinLen(a: string, b: string): (n: nat)
    ensures n <= |b| && (|a| <= |b| ==> n == |a|)
  {
    if |a| <= |b| then |a| else |b|
  }

  function ApplyAliases(key: string, rules: seq<Rule>): string {
    var k := Trim(key);
    if k == "" then key else ApplyRules(key, k, rules)
  }

  predicate Contains(s: string, sub: string) {
    FindSub(s, sub) >= 0
  }

  datatype Kind = Unknown | Container | Repository | PathScope | PackageScope

  /** `inferAssetKindForGrouping` with no parser id. */
  function InferKind(assetId: string): Kind {
    var aid := Trim(assetId);
    if aid == "" then Unknown
    else if Contains(aid, "/images/") || "sha256:" <= aid || ':' in aid then Container
    else if '/' in aid && aid[0] != '/' then Repository
    else if aid[0] == '/' || "commit:" <= aid || '>' in aid then PathScope
    else PackageScope
  }

  function ComputeKey(img: string, rules: seq<Rule>): string {
    if InferKind(img) == Container || InferKind(img) == Repository
    then ApplyAliases(NormalizeRef(img).key, rules) else img
  }

  predicate Bypasses(img: string) {
    img == "" || "k8s/" <= Lower(img)
  }

  /** What `containerImageGroupKey` is meant to compute. */
  function ImageGroupKey(image: string, rules: seq<Rule>): string {
    var img := Trim(image);
    if Bypasses(img) then img else ComputeKey(img, rules)
  }

  predicate Matches(rule: Rule, k: string) {
    rule.src <= Lower(k)
  }

  lemma {:induction false} NoRuleDecides(key: string, k: string, rules: seq<Rule>)
    requires forall i :: 0 <= i < |rules| ==> !Matches(rules[i], k)
    ensures ApplyRules(key, k, rules) == key
    decreases |rules|
  {
    if rules != [] {
      NoRuleDecides(key, k, rules[1..]);
    }
  }

  /** The first rule that matches decides. */
  lemma {:induction false} FirstRuleDecides(key: string, k: string, rules: seq<Rule>, n: nat)
    requires n < |rules| && Matches(rules[n], k)
    requires forall i :: 0 <= i < n ==> !Matches(rules[i], k)
    ensures |rules[n].src| <= |k| && ApplyRules(key, k, rules) == rules[n].dst + k[|rules[n].src|..]
    decreases n
  {
    if n == 0 {
      LowerAt(k);
    } else {
      assert !Matches(rules[0], k);
      FirstRuleDecides(key, k, rules[1..], n - 1);
    }
  }

  // ---------------------------------------------------------------------------
  // What well-formed references are grouped under
  // ---------------------------------------------------------------------------

  /**
   A text is taken for an image exactly when there is a colon in it, or a slash that is not
   its first character, or `/images/` in a text that starts with a slash.
   */
  lemma ImageIffMarked(text: string)
    ensures var v := Trim(text);
            InferKind(text) == Container || InferKind(text) == Repository
            <==> ':' in v || (v != "" && '/' in v && (v[0] != '/' || Contains(v, "/images/")))
  {
    var v := Trim(text);
    if '/' !in v {
      FindSubAbsent(v, "/images/");
    }
    if "sha256:" <= v {
      assert v[6] == "sha256:"[6];
    }
  }

  /** A name with nothing around it: no registry, no slash, no tag, no digest. */
  predicate Bare(r: Ref) {
    r.registry.None? && '/' !in r.path && r.tag.None? && r.hex.None?
  }

  /**
   The group key of every well-formed reference: its canonical key under the rules, except
   that cluster resources and bare names keep their own text.
   */
  lemma GroupKeyPrinted(r: Ref, rules: seq<Rule>)
    requires WellFormed(r)
    ensures ImageGroupKey(Print(r), rules)
            == if Bypasses(Print(r)) || Bare(r) then Print(r) else ApplyAliases(CanonicalKey(r), rules)
  {
    PrintFacts(r);
    ImageIffMarked(Print(r));
    NormalizePrinted(r);
  }

  /** Some rule, the first that matches the canonical key, rewrites it to `path`. */
  ghost predicate RewrittenTo(key: string, path: string, rules: seq<Rule>) {
    exists n :: 0 <= n < |rules| && FirstMatch(Trim(key), rules, n) && rules[n].dst + Trim(key)[|rules[n].src|..] == path
  }

  ghost predicate FirstMatch(k: string, rules: seq<Rule>, n: nat) {
    n < |rules| && Matches(rules[n], k) && |rules[n].src| <= |k| && forall i :: 0 <= i < n ==> !Matches(rules[i], k)
  }

  lemma {:induction false} FindMatch(k: string, rules: seq<Rule>) returns (n: nat)
    ensures n <= |rules| && (forall i :: 0 <= i < n ==> !Matches(rules[i], k))
    ensures n < |rules| ==> FirstMatch(k, rules, n)
  {
    n := 0;
    LowerAt(k);
    while n < |rules| && !Matches(rules[n], k)
      invariant n <= |rules| && forall i :: 0 <= i < n ==> !Matches(rules[i], k)
    {
      n := n + 1;
    }
  }

  /** When the rules turn a key into another text. */
  lemma AliasesGiveIff(key: string, path: string, rules: seq<Rule>)
    requires Trim(key) != "" && path != key
    ensures ApplyAliases(key, rules) == path <==> RewrittenTo(key, path, rules)
  {
    var k := Trim(key);
    var n := FindMatch(k, rules);
    if n < |rules| {
      FirstRuleDecides(key, k, rules, n);
      assert forall m :: 0 <= m < |rules| && FirstMatch(k, rules, m) ==> m == n;
    } else {
      NoRuleDecides(key, k, rules);
    }
  }

  lemma CanonicalKeyTrimmed(r: Ref)
    requires WellFormed(r) && Bare(r)
    ensures Trim(CanonicalKey(r)) != ""
  {
    var key := CanonicalKey(r);
    LowerAt("library/" + r.path);
    assert key[0] == 'd';
    assert !IsSpace(key[|key| - 1]) by {
      var l := Lower("library/" + r.path);
      assert key[|key| - 1] == l[|l| - 1] == LowerChar(r.path[|r.path| - 1]);
    }
    TrimFixed(key);
  }

  /**
   The exact condition for grouping by repository, under any rules: a reference is grouped
   with its canonical key if and only if it is not bare, or the rules happen to rewrite the
   canonical key to the bare name. Otherwise a bare name and the same name with a tag are two
   assets, although they are one repository.
   */
  lemma GroupedByRepositoryIff(r: Ref, rules: seq<Rule>)
    requires WellFormed(r) && !Bypasses(Print(r))
    ensures ImageGroupKey(Print(r), rules) == ApplyAliases(CanonicalKey(r), rules)
            <==> !Bare(r) || RewrittenTo(CanonicalKey(r), r.path, rules)
  {
    GroupKeyPrinted(r, rules);
    if Bare(r) {
      CanonicalKeyTrimmed(r);
      AliasesGiveIff(CanonicalKey(r), r.path, rules);
    }
  }

  /** References to one repository that carry a tag, a digest or a slash are grouped together. */
  lemma TagAndDigestIrrelevant(r: Ref, tag: Option<string>, hex: Option<string>, rules: seq<Rule>)
    requires var s := r.(tag := tag, hex := hex);
             && WellFormed(r) && !Bare(r) && !Bypasses(Print(r))
             && WellFormed(s) && !Bare(s) && !Bypasses(Print(s))
    ensures ImageGroupKey(Print(r), rules) == ImageGroupKey(Print(r.(tag := tag, hex := hex)), rules)
  {
    GroupKeyPrinted(r, rules);
    GroupKeyPrinted(r.(tag := tag, hex := hex), rules);
  }

  // ---------------------------------------------------------------------------
  // The memo
  // ---------------------------------------------------------------------------

  datatype Op = Get(image: string) | Replace(raw: string)

  /** What one operation answers when nothing is remembered. */
  function Answer(op: Op, rules: seq<Rule>): seq<string> {
    if op.Get? then [ImageGroupKey(op.image, rules)] else []
  }

  function NextRules(op: Op, rules: seq<Rule>): seq<Rule> {
    if op.Replace? then ParseRules(op.raw) else rules
  }

  function Answers(ops: seq<Op>, rules: seq<Rule>): seq<string> {
    if ops == [] then [] else Answer(ops[0], rules) + Answers(ops[1..], NextRules(ops[0], rules))
  }

  function RulesAfter(ops: seq<Op>, rules: seq<Rule>): seq<Rule> {
    if ops == [] then rules else RulesAfter(ops[1..], NextRules(ops[0], rules))
  }

  /** The unmemoised computation under these rules. */
  function KeysUnder(rules: seq<Rule>): string -> string {
    img => ComputeKey(img, rules)
  }

  /** Every remembered answer is the computed one. */
  ghost predicate Agrees(entries: map<string, string>, compute: string -> string) {
    forall k :: k in entries ==> entries[k] == compute(k)
  }

  /** `order` lists the keys of `entries`, each once. */
  ghost predicate Lists(order: seq<string>, entries: map<string, string>) {
    multiset(order) == multiset(entries.Keys)
  }

  lemma ListsFacts(order: seq<string>, entries: map<string, string>)
    requires Lists(order, entries)
    ensures |entries| == |order|
    ensures forall k :: k in entries <==> k in order
  {
    assert |multiset(order)| == |order| && |multiset(entries.Keys)| == |entries.Keys|;
    forall k
      ensures k in entries <==> k in order
    {
      assert k in entries <==> k in multiset(entries.Keys);
      assert k in order <==> k in multiset(order);
    }
  }

  lemma ListsWithoutOldest(order: seq<string>, entries: map<string, string>)
    requires Lists(order, entries) && order != []
    ensures Lists(order[1..], entries - {order[0]})
  {
    var oldest := order[0];
    assert order == [oldest] + order[1..];
    assert (entries - {oldest}).Keys == entries.Keys - {oldest};
    assert multiset(order[1..]) == multiset(order) - multiset{oldest};
  }

  class Memo {
    var rules: seq<Rule>
    var entries: map<string, string>
    /** The keys of `entries`, oldest insertion first. */
    var order: seq<string>

    ghost predicate Valid()
      reads this
    {
      && Agrees(entries, KeysUnder(rules))
      && Lists(order, entries)
      && |order| <= 4096
    }

    /** The rules come from the build-time setting, which may be empty. */
    constructor (raw: string)
      ensures Valid() && rules == ParseRules(raw) && order == []
    {
      var initial := ParseAliases(raw);
      rules, entries, order := initial, map[], [];
    }

    /** The first inserted entry makes room when the memo is full. */
    method Evict()
      requires Valid() && |order| > 0
      modifies this`entries, this`order
      ensures Valid() && order == old(order)[1..] && entries == old(entries) - {old(order)[0]}
    {
      ListsWithoutOldest(order, entries);
      entries := entries - {order[0]};
      order := order[1..];
    }

    /** Remember one more answer. */
    method Insert(img: string, result: string)
      requires Valid() && img !in entries && |order| < MEMO_MAX && result == KeysUnder(rules)(img)
      modifies this`entries, this`order
      ensures Valid() && order == old(order) + [img]
    {
      entries := entries[img := result];
      order := order + [img];
    }

    /** `containerImageGroupKey`: always the unmemoised answer under the current rules. */
    method Lookup(image: string) returns (key: string)
      requires Valid()
      modifies this`entries, this`order
      ensures Valid()
      ensures key == ImageGroupKey(image, rules) && |entries| <= 4096
      ensures var img := Trim(image);
              order == if Bypasses(img) || img in old(order) then old(order)
                       else (if |old(order)| >= 4096 then old(order)[1..] else old(order)) + [img]
    {
      var img := Trim(image);
      if Bypasses(img) {
        return img;
      }
      ListsFacts(order, entries);
      if img in entries {
        return entries[img];
      }
      key := ComputeKey(img, rules);
      if |entries| >= MEMO_MAX {
        Evict();
      }
      Insert(img, key);
      ListsFacts(order, entries);
    }

    /** `setContainerAssetPathAliases`: new rules, and the observer flushes the memo. */
    method SetAliases(raw: string)
      modifies this
      ensures Valid() && rules == ParseRules(raw) && order == []
    {
      rules := ParseAliases(raw);
      entries, order := map[], [];
    }

    method Perform(op: Op) returns (answer: seq<string>)
      requires Valid()
      modifies this
      ensures Valid()
      ensures answer == Answer(op, old(rules)) && rules == NextRules(op, old(rules))
    {
      match op
      case Get(image) =>
        var key := Lookup(image);
        answer := [key];
      case Replace(raw) =>
        SetAliases(raw);
        answer := [];
    }

    /** Any interleaving of lookups and rule changes answers as if there were no memo. */
    method Replay(ops: seq<Op>) returns (results: seq<string>)
      requires Valid()
      modifies this
      ensures Valid()
      ensures results == Answers(ops, old(rules)) && rules == RulesAfter(ops, old(rules))
    {
      results := [];
      assert ops[0..] == ops;
      for k := 0 to |ops|
        invariant Valid()
        invariant results + Answers(ops[k..], rules) == Answers(ops, old(rules))
        invariant RulesAfter(ops[k..], rules) == RulesAfter(ops, old(rules))
      {
        assert ops[k..][1..] == ops[k + 1..];
        var answer := Perform(ops[k]);
        Append(results, answer, Answers(ops[k + 1..], rules));
        results := results + answer;
      }
    }
  }

  lemma Append(a: seq<string>, b: seq<string>, c: seq<string>)
    ensures a + (b + c) == (a + b) + c
  {
  }
}
