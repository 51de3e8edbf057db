/**
 Container image references, `registry/path:tag@sha256:hex`: the TypeScript normaliser, the
 independent Python splitters, and the printer that says what both should recover.
 */
module ContainerRef {
  import opened Wrappers
  import opened Text
  import opened Digests

  const AT_SHA256 := "@sha256:"

  /** The first position of `sub`, or -1. */
  function FindSub(s: string, sub: string): (i: int)
    ensures -1 <= i <= |s|
    ensures i >= 0 ==> i + |sub| <= |s| && s[i..i + |sub|] == sub
  {
    if sub <= s then 0
    else if s == [] then -1
    else
      var i := FindSub(s[1..], sub);
      if i < 0 then -1 else i + 1
  }

  function TrimSlashesLeft(s: string): string {
    if s != [] && s[0] == '/' then TrimSlashesLeft(s[1..]) else s
  }

  function TrimSlashesRight(s: string): string {
    if s != [] && s[|s| - 1] == '/' then TrimSlashesRight(s[..|s| - 1]) else s
  }

  function TrimSlashes(s: string): string {
    TrimSlashesRight(TrimSlashesLeft(s))
  }

  // ---------------------------------------------------------------------------
  // frontend/lib/containerRefNormalization.ts
  // ---------------------------------------------------------------------------

  datatype Normalized = Normalized(key: string, tag: Option<string>, digest: Option<string>, raw: string)

  function NormalizeHexDigest(value: string): Option<string> {
    var s := Lower(Trim(value));
    if s == "" then None
    else if PREFIX <= s then FromHex(s[7..])
    else FromHex(s)
  }

  function SplitDigest(ref: string): (string, Option<string>) {
    var i := FindSub(ref, AT_SHA256);
    if i < 0 then (ref, None)
    else
      var after := ref[i + 8..];
      var j := FindSub(after, AT_SHA256);
      var right := if j < 0 then after else after[..j];
      (Trim(ref[..i]), if right == "" then None else NormalizeHexDigest(PREFIX + right))
  }

  function SplitTag(ref: string): (string, Option<string>) {
    var slash, colon := RFind(ref, '/'), RFind(ref, ':');
    if colon > slash && Trim(ref[colon + 1..]) != "" then (Trim(ref[..colon]), Some(Trim(ref[colon + 1..])))
    else (ref, None)
  }

  predicate LooksLikeRegistry(first: string) {
    '.' in first || ':' in first || first == "localhost"
  }

  function SplitRegistryAndPath(repo: string): (Option<string>, string) {
    var i := Find(repo, '/');
    if i >= 0 && LooksLikeRegistry(repo[..i]) then (Some(repo[..i]), repo[i + 1..]) else (None, repo)
  }

  function DockerHubPath(path: string): string {
    var p := TrimSlashes(path);
    if p == "" then "library/unknown" else if '/' !in p then "library/" + p else p
  }

  /** The canonical key of a split repository. */
  function AssembleKey(registry: Option<string>, path: string): string {
    var host := if registry.Some? then registry.value else "docker.io";
    var p := if registry.Some? then path else DockerHubPath(path);
    var canonical := TrimSlashesRight(Lower(host) + "/" + Lower(TrimSlashes(p)));
    if canonical == "" then "docker.io/library/unknown" else canonical
  }

  function NormalizeRef(value: string): Normalized {
    var raw := Trim(value);
    if raw == "" then Normalized("docker.io/library/unknown", None, None, "")
    else
      var (repoTag, digest) := SplitDigest(raw);
      var (repo, tag) := SplitTag(repoTag);
      var (registry, path) := SplitRegistryAndPath(repo);
      Normalized(AssembleKey(registry, path), tag, digest, raw)
  }

  // ---------------------------------------------------------------------------
  // vat_scanner/container_identity.py and vat_scanner/cli.py
  // ---------------------------------------------------------------------------

  function SplitRepoAndTag(ref: string): (string, string) {
    var r := Trim(ref);
    if r == "" then ("", "latest")
    else
      var i := FindSub(r, AT_SHA256);
      var s := if i < 0 then r else Trim(r[..i]);
      var colon := RFind(s, ':');
      if colon >= 0 && s[colon + 1..] != "" && '/' !in s[colon + 1..]
      then (s[..colon], s[colon + 1..]) else (s, "latest")
  }

  function ImageDigestFromRef(ref: string): Option<string> {
    var r := Trim(ref);
    var i := FindSub(r, AT_SHA256);
    if i < 0 then None else FromHex(r[i + 8..])
  }

  /** Everything before the first `@`. */
  function BeforeAt(ref: string): string {
    var i := Find(ref, '@');
    if i < 0 then ref else ref[..i]
  }

  function ImageRefTag(imageRef: string): Option<string> {
    var ref := Trim(imageRef);
    if ref == "" then None
    else
      var r := BeforeAt(ref);
      var slash, colon := RFind(r, '/'), RFind(r, ':');
      if colon <= slash then (if '@' in ref then None else Some("latest"))
      else if Trim(r[colon + 1..]) == "" then None else Some(Trim(r[colon + 1..]))
  }

  function RepoWithoutTag(ref: string): string {
    var r := BeforeAt(ref);
    var slash, colon := RFind(r, '/'), RFind(r, ':');
    if colon > slash then r[..colon] else r
  }

  /** What a worker pulls, and what it reports under. */
  datatype PullTarget = PullTarget(pullRef: string, asset: string, tag: Option<string>, digest: Option<string>)

  function ScanRequestPullTarget(imageRef: string, digest: string, tags: seq<string>): PullTarget {
    var ref, d := Trim(imageRef), Trim(digest);
    var tag := ImageRefTag(ref);
    PullTarget(
      if d != "" then RepoWithoutTag(ref) + "@" + d else ref,
      BeforeAt(ref),
      if tag.Some? then tag
      else if |tags| > 0 && Trim(tags[0]) != "" then Some(Trim(tags[0])) else None,
      if d != "" then Some(d) else None)
  }

  // ---------------------------------------------------------------------------
  // Well-formed references
  // ---------------------------------------------------------------------------

  datatype Ref = Ref(registry: Option<string>, path: string, tag: Option<string>, hex: Option<string>)

  function Repo(r: Ref): string {
    if r.registry.Some? then r.registry.value + "/" + r.path else r.path
  }

  function RepoTag(r: Ref): string {
    if r.tag.Some? then Repo(r) + ":" + r.tag.value else Repo(r)
  }

  function Print(r: Ref): string {
    if r.hex.Some? then RepoTag(r) + AT_SHA256 + r.hex.value else RepoTag(r)
  }

  ghost predicate PathOk(p: string) {
    && p != "" && NoSpace(p) && ':' !in p && '@' !in p
    && p[0] != '/' && p[|p| - 1] != '/'
  }

  ghost predicate RegistryOk(g: string) {
    && g != "" && NoSpace(g) && '/' !in g && '@' !in g
    && ('.' in g || ':' in g || g == "localhost")
  }

  ghost predicate TagOk(t: string) {
    t != "" && NoSpace(t) && '/' !in t && ':' !in t && '@' !in t
  }

  ghost predicate HexOk(h: string) {
    |h| == 64 && forall i :: 0 <= i < |h| ==> '0' <= h[i] <= '9' || 'a' <= h[i] <= 'f' || 'A' <= h[i] <= 'F'
  }

  /** A path printed without a registry must not be mistaken for one that has it. */
  ghost predicate Unambiguous(p: string) {
    Find(p, '/') >= 0 ==>
      var first := p[..Find(p, '/')];
      '.' !in first && ':' !in first && first != "localhost"
  }

  ghost predicate WellFormed(r: Ref) {
    && PathOk(r.path)
    && (r.registry.Some? ==> RegistryOk(r.registry.value))
    && (r.registry.None? ==> Unambiguous(r.path))
    && (r.tag.Some? ==> TagOk(r.tag.value))
    && (r.hex.Some? ==> HexOk(r.hex.value))
  }

  /** The repository a reference names, with the Docker Hub defaults filled in. */
  function CanonicalKey(r: Ref): string {
    match r.registry
    case Some(g) => Lower(g) + "/" + Lower(r.path)
    case None => "docker.io" + "/" + Lower(if '/' in r.path then r.path else "library/" + r.path)
  }

  function DigestText(r: Ref): Option<string> {
    if r.hex.Some? then Some(PREFIX + Lower(r.hex.value)) else None
  }

  // ---------------------------------------------------------------------------
  // Facts about the pieces
  // ---------------------------------------------------------------------------

  lemma {:induction false} FindSubAt(a: string, sub: string, x: string)
    requires sub != [] && sub[0] !in a
    ensures FindSub(a + sub + x, sub) == |a|
  {
    var s := a + sub + x;
    if a == [] {
      assert s == sub + x;
    } else {
      assert s[0] == a[0];
      assert s[1..] == a[1..] + sub + x;
      FindSubAt(a[1..], sub, x);
    }
  }

  lemma {:induction false} FindSubAbsent(s: string, sub: string)
    requires sub != [] && sub[0] !in s
    ensures FindSub(s, sub) == -1
  {
    if s != [] {
      FindSubAbsent(s[1..], sub);
    }
  }

  lemma NoSpaceTrim(s: string)
    requires NoSpace(s)
    ensures Trim(s) == s
  {
    TrimFixed(s);
  }

  lemma NoSpaceConcat(a: string, b: string)
    requires NoSpace(a) && NoSpace(b)
    ensures NoSpace(a + b)
  {
  }

  lemma NoSlashEnds(s: string)
    requires s != [] && s[0] != '/' && s[|s| - 1] != '/'
    ensures TrimSlashes(s) == s
  {
  }

  lemma RepoFacts(r: Ref)
    requires WellFormed(r)
    ensures Repo(r) != "" && NoSpace(Repo(r)) && '@' !in Repo(r)
    ensures RFind(Repo(r), ':') <= RFind(Repo(r), '/')
  {
    FindAbsent(r.path, ':');
    if r.registry.Some? {
      var g := r.registry.value;
      NoSpaceConcat(g, "/");
      NoSpaceConcat(g + "/", r.path);
      RepoColon(g, r.path);
    } else {
      FindAbsent(Repo(r), ':');
      FindAbsent(Repo(r), '/');
    }
  }

  lemma {:induction false} RepoColon(g: string, p: string)
    requires ':' !in p
    ensures RFind(g + "/" + p, ':') < RFind(g + "/" + p, '/')
  {
    var s := g + "/" + p;
    if p == [] {
      assert s[|s| - 1] == '/';
      assert s[..|s| - 1] == g;
      var _ := RFind(g, ':');
    } else {
      var q := p[..|p| - 1];
      assert s[|s| - 1] == p[|p| - 1];
      assert s[..|s| - 1] == g + "/" + q;
      RepoColon(g, q);
    }
  }

  lemma RepoTagFacts(r: Ref)
    requires WellFormed(r)
    ensures RepoTag(r) != "" && NoSpace(RepoTag(r)) && '@' !in RepoTag(r)
  {
    RepoFacts(r);
    if r.tag.Some? {
      NoSpaceConcat(Repo(r), ":");
      NoSpaceConcat(Repo(r) + ":", r.tag.value);
    }
  }

  lemma HexFacts(h: string)
    requires HexOk(h)
    ensures NoSpace(h) && '@' !in h
    ensures HexPart(h) == Lower(h) && FromHex(h) == Some(PREFIX + Lower(h))
  {
    LowerAt(h);
    forall i | 0 <= i < |h|
      ensures !IsSpace(h[i]) && h[i] != '@'
    {
      assert IsHex(LowerChar(h[i]));
    }
    HexOnlyFixed(Lower(h));
  }

  lemma PrintFacts(r: Ref)
    requires WellFormed(r)
    ensures Print(r) != "" && NoSpace(Print(r)) && Trim(Print(r)) == Print(r)
  {
    RepoTagFacts(r);
    if r.hex.Some? {
      HexFacts(r.hex.value);
      NoSpaceConcat(RepoTag(r), AT_SHA256);
      NoSpaceConcat(RepoTag(r) + AT_SHA256, r.hex.value);
    }
    NoSpaceTrim(Print(r));
  }

  // ---------------------------------------------------------------------------
  // Splitting what was printed
  // ---------------------------------------------------------------------------

  lemma MarkerAt(a: string, sub: string, h: string)
    requires sub != [] && sub[0] !in a
    ensures FindSub(a + sub + h, sub) == |a| == Find(a + sub + h, sub[0])
    ensures (a + sub + h)[..|a|] == a && (a + sub + h)[|a| + |sub|..] == h
  {
    FindSubAt(a, sub, h);
    MarkerHead(a, sub, h);
  }

  lemma MarkerHead(a: string, sub: string, h: string)
    requires sub != [] && sub[0] !in a
    ensures Find(a + sub + h, sub[0]) == |a|
  {
    var rest := sub[1..] + h;
    assert a + sub + h == a + [sub[0]] + rest;
    FindFirst(a, sub[0], rest);
  }

  /** Where the digest marker sits in a printed reference. */
  lemma DigestMarker(r: Ref)
    requires WellFormed(r)
    ensures r.hex.None? ==> FindSub(Print(r), AT_SHA256) == -1 && Find(Print(r), '@') == -1
    ensures r.hex.Some? ==>
              && FindSub(Print(r), AT_SHA256) == |RepoTag(r)| == Find(Print(r), '@')
              && Print(r)[..|RepoTag(r)|] == RepoTag(r)
              && Print(r)[|RepoTag(r)| + 8..] == r.hex.value
  {
    RepoTagFacts(r);
    if r.hex.Some? {
      MarkerAt(RepoTag(r), AT_SHA256, r.hex.value);
    } else {
      FindSubAbsent(Print(r), AT_SHA256);
      FindAbsent(Print(r), '@');
    }
  }

  lemma HexDigestText(h: string)
    requires HexOk(h)
    ensures NormalizeHexDigest(PREFIX + h) == Some(PREFIX + Lower(h))
  {
    var v := PREFIX + h;
    HexFacts(h);
    NoSpaceConcat(PREFIX, h);
    NoSpaceTrim(v);
    LowerConcat(PREFIX, h);
    assert Lower(PREFIX) == PREFIX by {
      LowerAt(PREFIX);
    }
    assert Lower(v)[7..] == Lower(h);
    LowerIdempotent(h);
    assert HexPart(Lower(h)) == HexPart(h);
  }

  lemma SplitDigestPrinted(r: Ref)
    requires WellFormed(r)
    ensures SplitDigest(Print(r)) == (RepoTag(r), DigestText(r))
  {
    RepoTagFacts(r);
    DigestMarker(r);
    if r.hex.Some? {
      HexFacts(r.hex.value);
      FindSubAbsent(r.hex.value, AT_SHA256);
      HexDigestText(r.hex.value);
      NoSpaceTrim(RepoTag(r));
    }
  }

  /** Where the tag separator sits. */
  lemma TagMarker(r: Ref)
    requires WellFormed(r) && r.tag.Some?
    ensures RFind(RepoTag(r), ':') == |Repo(r)|
    ensures RFind(RepoTag(r), '/') < |Repo(r)|
    ensures RepoTag(r)[..|Repo(r)|] == Repo(r) && RepoTag(r)[|Repo(r)| + 1..] == r.tag.value
  {
    var t := r.tag.value;
    assert RepoTag(r) == Repo(r) + [':'] + t;
    RFindLast(Repo(r), ':', t);
    RFindSkips(Repo(r), [':'] + t, '/');
    assert RepoTag(r) == Repo(r) + ([':'] + t);
  }

  lemma {:induction false} RFindSkips(a: string, x: string, c: char)
    requires c !in x
    ensures RFind(a + x, c) == RFind(a, c)
  {
    var s := a + x;
    if x == [] {
      assert s == a;
    } else {
      assert s[|s| - 1] == x[|x| - 1];
      assert s[..|s| - 1] == a + x[..|x| - 1];
      RFindSkips(a, x[..|x| - 1], c);
    }
  }

  lemma SplitTagPrinted(r: Ref)
    requires WellFormed(r)
    ensures SplitTag(RepoTag(r)) == (Repo(r), r.tag)
  {
    RepoFacts(r);
    if r.tag.Some? {
      TagMarker(r);
      NoSpaceTrim(r.tag.value);
      NoSpaceTrim(Repo(r));
    }
  }

  lemma SplitRegistryPrinted(r: Ref)
    requires WellFormed(r)
    ensures SplitRegistryAndPath(Repo(r)) == (r.registry, r.path)
  {
    if r.registry.Some? {
      var g := r.registry.value;
      assert Repo(r) == g + ['/'] + r.path;
      FindFirst(g, '/', r.path);
      assert Repo(r)[..|g|] == g && Repo(r)[|g| + 1..] == r.path;
    }
  }

  lemma CanonicalAssembled(host: string, path: string)
    requires PathOk(path)
    ensures TrimSlashesRight(Lower(host) + "/" + Lower(TrimSlashes(path))) == Lower(host) + "/" + Lower(path)
  {
    NoSlashEnds(path);
    LowerAt(path);
    var s := Lower(host) + "/" + Lower(path);
    assert s[|s| - 1] == Lower(path)[|path| - 1];
  }

  lemma DockerHubPathOk(p: string)
    requires PathOk(p)
    ensures var q := if '/' in p then p else "library/" + p;
            DockerHubPath(p) == q && PathOk(q)
  {
    NoSlashEnds(p);
    if '/' !in p {
      var q := "library/" + p;
      NoSpaceConcat("library/", p);
      assert q[0] == 'l' && q[|q| - 1] == p[|p| - 1];
    }
  }

  lemma DockerHost()
    ensures Lower("docker.io") == "docker.io"
  {
    LowerAt("docker.io");
  }

  lemma AssembledPrinted(r: Ref)
    requires WellFormed(r)
    ensures AssembleKey(r.registry, r.path) == CanonicalKey(r)
  {
    if r.registry.Some? {
      CanonicalAssembled(r.registry.value, r.path);
    } else {
      DockerHubPathOk(r.path);
      CanonicalAssembled("docker.io", if '/' in r.path then r.path else "library/" + r.path);
      DockerHost();
    }
  }

  /**
   The main theorem: printing a well-formed reference and normalising it recovers its tag
   and digest exactly, and its lowercased repository with the Docker Hub defaults.
   */
  lemma NormalizePrinted(r: Ref)
    requires WellFormed(r)
    ensures NormalizeRef(Print(r)) == Normalized(CanonicalKey(r), r.tag, DigestText(r), Print(r))
  {
    PrintFacts(r);
    SplitDigestPrinted(r);
    SplitTagPrinted(r);
    SplitRegistryPrinted(r);
    AssembledPrinted(r);
  }

  // ---------------------------------------------------------------------------
  // Idempotence
  // ---------------------------------------------------------------------------

  /** The reference that a canonical key prints. */
  function KeyRef(r: Ref): Ref {
    match r.registry
    case Some(g) => Ref(Some(Lower(g)), Lower(r.path), None, None)
    case None => Ref(Some("docker.io"), Lower(if '/' in r.path then r.path else "library/" + r.path), None, None)
  }

  lemma LowerPathOk(p: string)
    requires PathOk(p)
    ensures PathOk(Lower(p))
  {
    LowerAt(p);
    LowerKeepsChar(p, ':');
    LowerKeepsChar(p, '@');
  }

  lemma LowerRegistryOk(g: string)
    requires RegistryOk(g)
    ensures RegistryOk(Lower(g))
  {
    LowerAt(g);
    LowerKeepsChar(g, '/');
    LowerKeepsChar(g, '@');
    LowerKeepsChar(g, '.');
    LowerKeepsChar(g, ':');
    if g == "localhost" {
      assert Lower(g) == g;
    }
  }

  lemma HostedKey(g: string, p: string)
    requires RegistryOk(g) && PathOk(p)
    ensures var k := Ref(Some(Lower(g)), Lower(p), None, None);
            WellFormed(k) && Print(k) == Lower(g) + "/" + Lower(p) == CanonicalKey(k)
  {
    LowerPathOk(p);
    LowerRegistryOk(g);
    LowerIdempotent(p);
    LowerIdempotent(g);
  }

  lemma DockerHostOk()
    ensures RegistryOk("docker.io")
  {
    assert "docker.io"[6] == '.';
  }

  lemma KeyRefWellFormed(r: Ref)
    requires WellFormed(r)
    ensures WellFormed(KeyRef(r)) && Print(KeyRef(r)) == CanonicalKey(r) == CanonicalKey(KeyRef(r))
  {
    if r.registry.Some? {
      HostedKey(r.registry.value, r.path);
    } else {
      DockerHubPathOk(r.path);
      DockerHost();
      DockerHostOk();
      HostedKey("docker.io", if '/' in r.path then r.path else "library/" + r.path);
    }
  }

  /** Normalising a canonical key gives the key back, with no tag and no digest. */
  lemma NormalizeIdempotent(r: Ref)
    requires WellFormed(r)
    ensures var key := NormalizeRef(Print(r)).key;
            NormalizeRef(key) == Normalized(key, None, None, key)
  {
    NormalizePrinted(r);
    KeyRefWellFormed(r);
    NormalizePrinted(KeyRef(r));
  }

  /** References that differ in tag and digest only have one canonical key. */
  lemma KeyIgnoresTagAndDigest(r: Ref, tag: Option<string>, hex: Option<string>)
    requires WellFormed(r) && WellFormed(r.(tag := tag, hex := hex))
    ensures NormalizeRef(Print(r)).key == NormalizeRef(Print(r.(tag := tag, hex := hex))).key
  {
    NormalizePrinted(r);
    NormalizePrinted(r.(tag := tag, hex := hex));
  }

  lemma HostSlashSplits(g: string)
    requires RegistryOk(g) && ':' !in g
    ensures NormalizeRef(g + "/").key == AssembleKey(Some(g), "")
  {
    var v := g + "/";
    NoSpaceConcat(g, "/");
    NoSpaceTrim(v);
    FindSubAbsent(v, AT_SHA256);
    FindAbsent(v, ':');
    assert v == g + ['/'] + "";
    FindFirst(g, '/', "");
    assert v[..|g|] == g && v[|g| + 1..] == "";
  }

  lemma BareNameNormalized(p: string)
    requires PathOk(p) && '/' !in p
    ensures |NormalizeRef(p).key| > |p|
  {
    var r := Ref(None, p, None, None);
    FindAbsent(p, '/');
    NormalizePrinted(r);
    LowerAt("library/" + p);
  }

  /**
   Outside well-formed references idempotence fails: every lowercase host that is followed
   by a slash and nothing else normalises to a key that normalises to another one.
   */
  lemma TrailingSlashNotIdempotent(g: string)
    requires RegistryOk(g) && ':' !in g && Lower(g) == g
    ensures NormalizeRef(g + "/").key == g
    ensures NormalizeRef(g).key != g
  {
    HostSlashSplits(g);
    BareHostKey(g);
    BareNameNormalized(g);
  }

  lemma BareHostKey(g: string)
    requires g != "" && g[|g| - 1] != '/' && Lower(g) == g
    ensures AssembleKey(Some(g), "") == g
  {
    var s := Lower(g) + "/" + Lower(TrimSlashes(""));
    assert s[..|s| - 1] == g;
    assert TrimSlashesRight(s) == TrimSlashesRight(g);
  }

  // ---------------------------------------------------------------------------
  // The Python splitters
  // ---------------------------------------------------------------------------

  lemma RepoAndTagPrinted(r: Ref)
    requires WellFormed(r)
    ensures SplitRepoAndTag(Print(r)) == (Repo(r), if r.tag.Some? then r.tag.value else "latest")
  {
    PrintFacts(r);
    DigestMarker(r);
    RepoTagFacts(r);
    NoSpaceTrim(RepoTag(r));
    if r.tag.Some? {
      TagMarker(r);
    } else {
      UntaggedColon(r);
    }
  }

  /** Without a tag the text after the last colon, if there is one, contains a slash. */
  lemma UntaggedColon(r: Ref)
    requires WellFormed(r)
    ensures var s := Repo(r); var colon := RFind(s, ':');
            colon >= 0 ==> '/' in s[colon + 1..]
  {
    var s := Repo(r);
    var colon, slash := RFind(s, ':'), RFind(s, '/');
    RepoFacts(r);
    if colon >= 0 {
      assert colon < slash;
      assert s[colon + 1..][slash - colon - 1] == '/';
    }
  }

  lemma BeforeAtPrinted(r: Ref)
    requires WellFormed(r)
    ensures BeforeAt(Print(r)) == RepoTag(r)
    ensures '@' in Print(r) <==> r.hex.Some?
  {
    DigestMarker(r);
    FindAbsent(Print(r), '@');
  }

  lemma RepoWithoutTagPrinted(r: Ref)
    requires WellFormed(r)
    ensures RepoWithoutTag(Print(r)) == Repo(r)
  {
    BeforeAtPrinted(r);
    RepoFacts(r);
    if r.tag.Some? {
      TagMarker(r);
    }
  }

  lemma ImageRefTagPrinted(r: Ref)
    requires WellFormed(r)
    ensures ImageRefTag(Print(r))
            == if r.tag.Some? then r.tag else if r.hex.Some? then None else Some("latest")
  {
    PrintFacts(r);
    BeforeAtPrinted(r);
    RepoFacts(r);
    if r.tag.Some? {
      TagMarker(r);
      NoSpaceTrim(r.tag.value);
    }
  }

  lemma ImageDigestPrinted(r: Ref)
    requires WellFormed(r)
    ensures ImageDigestFromRef(Print(r)) == DigestText(r)
  {
    PrintFacts(r);
    DigestMarker(r);
    if r.hex.Some? {
      HexFacts(r.hex.value);
    }
  }

  /**
   The three Python splitters and the TypeScript one agree on every well-formed reference:
   same repository, same explicit tag.
   */
  lemma SplittersAgree(r: Ref)
    requires WellFormed(r)
    ensures SplitTag(SplitDigest(Print(r)).0) == (Repo(r), r.tag)
    ensures SplitRepoAndTag(Print(r)) == (Repo(r), if r.tag.Some? then r.tag.value else "latest")
    ensures RepoWithoutTag(Print(r)) == Repo(r)
    ensures ImageRefTag(Print(r))
            == if r.tag.Some? then r.tag else if r.hex.Some? then None else Some("latest")
    ensures ImageDigestFromRef(Print(r)) == DigestText(r) == SplitDigest(Print(r)).1
  {
    SplitDigestPrinted(r);
    SplitTagPrinted(r);
    RepoAndTagPrinted(r);
    RepoWithoutTagPrinted(r);
    ImageRefTagPrinted(r);
    ImageDigestPrinted(r);
  }

  lemma PullRefPrinted(repo: string, hex: string)
    ensures repo + "@" + (PREFIX + hex) == repo + AT_SHA256 + hex
  {
    assert "@" + PREFIX == AT_SHA256;
    assert repo + "@" + (PREFIX + hex) == repo + ("@" + PREFIX) + hex;
  }

  /** The tag a request is reported under: its own, `latest` for a bare reference, else the first observed one. */
  function FallbackTag(r: Ref, tags: seq<string>): Option<string> {
    if r.tag.Some? then r.tag
    else if r.hex.None? then Some("latest")
    else if tags != [] && Trim(tags[0]) != "" then Some(Trim(tags[0]))
    else None
  }

  /** Without a requested digest the reference itself is pulled. */
  lemma PullTargetUndigested(r: Ref, digest: string, tags: seq<string>)
    requires WellFormed(r) && Trim(digest) == ""
    ensures ScanRequestPullTarget(Print(r), digest, tags)
            == PullTarget(Print(r), Print(r.(hex := None)), FallbackTag(r, tags), None)
  {
    PrintFacts(r);
    ImageRefTagPrinted(r);
    BeforeAtPrinted(r);
  }

  lemma DigestTrimmed(hex: string)
    requires HexOk(hex)
    ensures Trim(PREFIX + hex) == PREFIX + hex != ""
  {
    HexFacts(hex);
    NoSpaceConcat(PREFIX, hex);
    NoSpaceTrim(PREFIX + hex);
  }

  /** The pull target in terms of what the splitters say. */
  lemma PullTargetParts(ref: string, d: string, tags: seq<string>, repo: string, asset: string, tag: Option<string>)
    requires Trim(ref) == ref && Trim(d) == d != ""
    requires RepoWithoutTag(ref) == repo && BeforeAt(ref) == asset && ImageRefTag(ref) == tag
    ensures ScanRequestPullTarget(ref, d, tags)
            == PullTarget(repo + "@" + d, asset,
                          if tag.Some? then tag
                          else if tags != [] && Trim(tags[0]) != "" then Some(Trim(tags[0])) else None,
                          Some(d))
  {
  }

  lemma PullTargetPrinted(r: Ref, hex: string, tags: seq<string>)
    requires WellFormed(r) && HexOk(hex)
    ensures var t := ScanRequestPullTarget(Print(r), PREFIX + hex, tags);
            && t.pullRef == Print(r.(tag := None, hex := Some(hex)))
            && t.asset == Print(r.(hex := None))
            && t.digest == Some(PREFIX + hex)
            && t.tag == FallbackTag(r, tags)
  {
    DigestTrimmed(hex);
    PrintFacts(r);
    RepoWithoutTagPrinted(r);
    ImageRefTagPrinted(r);
    BeforeAtPrinted(r);
    PullTargetParts(Print(r), PREFIX + hex, tags, Repo(r), RepoTag(r), ImageRefTag(Print(r)));
    PullRefPrinted(Repo(r), hex);
  }

  /**
   A ScanRequest is pulled by digest and reported under its tag, and both references are
   the same asset: one canonical key, and the pulled one yields the requested digest back.
   */
  lemma PullTargetIsSameAsset(r: Ref, hex: string, tags: seq<string>)
    requires WellFormed(r) && HexOk(hex)
    ensures var t := ScanRequestPullTarget(Print(r), PREFIX + hex, tags);
            && NormalizeRef(t.pullRef).key == NormalizeRef(t.asset).key == CanonicalKey(r)
            && ImageDigestFromRef(t.pullRef) == Some(PREFIX + Lower(hex)) == NormalizeRef(t.pullRef).digest
            && t.digest == Some(PREFIX + hex)
            && (r.tag.Some? ==> t.tag == r.tag == NormalizeRef(t.asset).tag)
  {
    PullTargetPrinted(r, hex, tags);
    NormalizePrinted(r.(tag := None, hex := Some(hex)));
    NormalizePrinted(r.(hex := None));
    ImageDigestPrinted(r.(tag := None, hex := Some(hex)));
  }
}
