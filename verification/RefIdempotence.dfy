/**
 Normalising twice. The frontend stores canonical keys and normalises them again; this module
 says for which texts, of all texts, that changes nothing.
 */
module RefIdempotence {
  import opened Wrappers
  import opened Text
  import opened ContainerRef

  /** What is left of a reference once blanks, digest and tag are off. */
  function RepoPart(v: string): string {
    SplitTag(SplitDigest(Trim(v)).0).0
  }

  function HostOf(repo: string): string {
    var registry := SplitRegistryAndPath(repo).0;
    if registry.Some? then registry.value else "docker.io"
  }

  function PathOf(repo: string): string {
    var (registry, path) := SplitRegistryAndPath(repo);
    TrimSlashes(if registry.Some? then path else DockerHubPath(path))
  }

  function HostPart(v: string): string {
    HostOf(RepoPart(v))
  }

  function PathPart(v: string): string {
    PathOf(RepoPart(v))
  }

  // ---------------------------------------------------------------------------
  // Trimming
  // ---------------------------------------------------------------------------

  lemma {:induction false} TrimRightShape(s: string)
    ensures TrimRight(s) <= s
    ensures TrimRight(s) != "" ==> !IsSpace(TrimRight(s)[|TrimRight(s)| - 1])
    ensures forall i :: |TrimRight(s)| <= i < |s| ==> IsSpace(s[i])
  {
    if s != [] && IsSpace(s[|s| - 1]) {
      TrimRightShape(s[..|s| - 1]);
    }
  }

  lemma {:induction false} TrimLeftShape(s: string)
    ensures |TrimLeft(s)| <= |s|
    ensures s == [] || IsSpace(s[0]) || TrimLeft(s) == s
    ensures TrimLeft(s) == s || |TrimLeft(s)| < |s|
    ensures TrimLeft(s) != "" ==> !IsSpace(TrimLeft(s)[0])
    ensures forall c :: c in TrimLeft(s) ==> c in s
  {
    if s != [] && IsSpace(s[0]) {
      TrimLeftShape(s[1..]);
      assert s == [s[0]] + s[1..];
    }
  }

  /** Does not start with a blank. */
  predicate Starts(s: string) {
    s == "" || !IsSpace(s[0])
  }

  lemma TrimShape(s: string)
    ensures Trim(s) == s || |Trim(s)| < |s|
    ensures Starts(Trim(s))
    ensures forall c :: c in Trim(s) ==> c in s
    ensures Starts(s) ==> Trim(s) <= s && forall i :: |Trim(s)| <= i < |s| ==> IsSpace(s[i])
    ensures s != "" && Starts(s) ==> (Trim(s) == s <==> !IsSpace(s[|s| - 1]))
  {
    var l := TrimLeft(s);
    TrimLeftShape(s);
    TrimRightShape(l);
    assert Trim(s) != "" ==> Trim(s)[0] == l[0];
    if s != "" && Starts(s) && Trim(s) != s {
      assert IsSpace(s[|s| - 1]);
    }
  }

  /** Trimming does not reach past a slash. */
  lemma TrimKeepsHost(h: string, s: string)
    requires h != "" && !IsSpace(h[0]) && h + "/" <= s
    ensures h + "/" <= Trim(s)
  {
    TrimShape(s);
    assert s[0] == h[0] && s[|h|] == '/';
    assert |Trim(s)| > |h|;
  }

  lemma {:induction false} TrimSlashesLeftShape(s: string)
    ensures |TrimSlashesLeft(s)| <= |s|
    ensures TrimSlashesLeft(s) != "" ==> TrimSlashesLeft(s)[0] != '/'
  {
    if s != [] && s[0] == '/' {
      TrimSlashesLeftShape(s[1..]);
    }
  }

  lemma {:induction false} TrimSlashesRightShape(s: string)
    ensures TrimSlashesRight(s) <= s
    ensures TrimSlashesRight(s) != "" ==> TrimSlashesRight(s)[|TrimSlashesRight(s)| - 1] != '/'
  {
    if s != [] && s[|s| - 1] == '/' {
      TrimSlashesRightShape(s[..|s| - 1]);
    }
  }

  /** Neither starts nor ends with a slash. */
  predicate Stripped(s: string) {
    s == "" || (s[0] != '/' && s[|s| - 1] != '/')
  }

  lemma TrimSlashesShape(s: string)
    ensures |TrimSlashes(s)| <= |s| && Stripped(TrimSlashes(s))
  {
    var l := TrimSlashesLeft(s);
    TrimSlashesLeftShape(s);
    TrimSlashesRightShape(l);
  }

  // ---------------------------------------------------------------------------
  // What the splitters leave
  // ---------------------------------------------------------------------------

  lemma SplitDigestShape(s: string)
    ensures Starts(s) ==> Starts(SplitDigest(s).0)
    ensures forall c :: c in SplitDigest(s).0 ==> c in s
    ensures if FindSub(s, AT_SHA256) < 0 then SplitDigest(s) == (s, None) else |SplitDigest(s).0| < |s|
  {
    var i := FindSub(s, AT_SHA256);
    if i >= 0 {
      TrimShape(s[..i]);
      assert forall c :: c in s[..i] ==> c in s;
    }
  }

  predicate TagSplits(s: string) {
    var slash, colon := RFind(s, '/'), RFind(s, ':');
    colon > slash && Trim(s[colon + 1..]) != ""
  }

  lemma SplitTagShape(s: string)
    ensures Starts(s) ==> Starts(SplitTag(s).0)
    ensures forall c :: c in SplitTag(s).0 ==> c in s
    ensures if TagSplits(s) then |SplitTag(s).0| < |s| else SplitTag(s) == (s, None)
  {
    var colon := RFind(s, ':');
    if TagSplits(s) {
      TrimShape(s[..colon]);
      assert forall c :: c in s[..colon] ==> c in s;
    }
  }

  lemma RepoPartShape(v: string)
    ensures Starts(RepoPart(v))
    ensures forall c :: c in RepoPart(v) ==> c in v
    ensures |RepoPart(v)| <= |Trim(v)| <= |v|
    ensures RepoPart(v) == v <==> Trim(v) == v && FindSub(v, AT_SHA256) < 0 && !TagSplits(v)
  {
    TrimShape(v);
    SplitDigestShape(Trim(v));
    SplitTagShape(SplitDigest(Trim(v)).0);
  }

  /** A repository with a recognised registry. */
  lemma RegistrySplit(repo: string)
    requires Starts(repo) && SplitRegistryAndPath(repo).0.Some?
    ensures var (registry, path) := SplitRegistryAndPath(repo); var host := registry.value;
            && host != "" && '/' !in host && !IsSpace(host[0]) && LooksLikeRegistry(host)
            && |host| + 1 + |path| == |repo|
  {
    FirstSlash(repo);
  }

  /** Host and path of every repository text. */
  lemma PartsShape(repo: string)
    requires Starts(repo)
    ensures HostOf(repo) != "" && '/' !in HostOf(repo) && !IsSpace(HostOf(repo)[0]) && LooksLikeRegistry(HostOf(repo))
    ensures Stripped(PathOf(repo))
    ensures if SplitRegistryAndPath(repo).0.Some? then |HostOf(repo)| + 1 + |PathOf(repo)| <= |repo|
            else HostOf(repo) == "docker.io" && PathOf(repo) != ""
  {
    var (registry, path) := SplitRegistryAndPath(repo);
    if registry.Some? {
      RegistrySplit(repo);
      TrimSlashesShape(path);
    } else {
      HubPathShape(path);
      DockerHostOk();
    }
  }

  lemma FirstSlash(s: string)
    requires Find(s, '/') >= 0
    ensures '/' !in s[..Find(s, '/')] && s == s[..Find(s, '/')] + ['/'] + s[Find(s, '/') + 1..]
  {
    FindIsFirst(s, '/');
  }

  lemma {:induction false} FindIsFirst(s: string, c: char)
    requires Find(s, c) >= 0
    ensures c !in s[..Find(s, c)]
  {
    if s[0] != c {
      FindIsFirst(s[1..], c);
      assert s[..Find(s, c)] == [s[0]] + s[1..][..Find(s[1..], c)];
    }
  }

  lemma HubPathShape(path: string)
    ensures DockerHubPath(path) != "" && Stripped(DockerHubPath(path))
    ensures TrimSlashes(DockerHubPath(path)) == DockerHubPath(path)
  {
    var p := TrimSlashes(path);
    TrimSlashesShape(path);
    if p != "" && '/' !in p {
      var q := "library/" + p;
      assert q[0] == 'l' && q[|q| - 1] == p[|p| - 1];
    }
  }

  // ---------------------------------------------------------------------------
  // The key in terms of host and path
  // ---------------------------------------------------------------------------

  function KeyOf(host: string, path: string): string {
    if path == "" then Lower(host) else Lower(host) + "/" + Lower(path)
  }

  lemma LowerStripped(s: string)
    ensures |Lower(s)| == |s| && (Stripped(s) ==> Stripped(Lower(s)))
  {
    LowerAt(s);
  }

  lemma Assembled(host: string, path: string)
    requires host != "" && '/' !in host && Stripped(path)
    ensures TrimSlashesRight(Lower(host) + "/" + Lower(path)) == KeyOf(host, path) != ""
  {
    LowerAt(host);
    LowerStripped(path);
    LowerKeepsChar(host, '/');
    var h, q := Lower(host), Lower(path);
    var s := h + "/" + q;
    if path == "" {
      assert s[|s| - 1] == '/' && s[..|s| - 1] == h;
      assert h[|h| - 1] in h;
      assert TrimSlashesRight(h) == h;
    } else {
      assert s[|s| - 1] == q[|q| - 1];
    }
  }

  lemma UnknownKey(host: string, path: string)
    requires host == "docker.io" && path == "library/unknown"
    ensures KeyOf(host, path) == "docker.io/library/unknown"
  {
    LowerAt(host);
    LowerAt(path);
    assert Lower(host) == host && Lower(path) == path;
  }

  lemma AssembledIsKey(registry: Option<string>, path: string)
    requires registry.Some? ==> registry.value != "" && '/' !in registry.value
    ensures AssembleKey(registry, path)
            == KeyOf(if registry.Some? then registry.value else "docker.io",
                     TrimSlashes(if registry.Some? then path else DockerHubPath(path)))
  {
    var host := if registry.Some? then registry.value else "docker.io";
    var p := if registry.Some? then path else DockerHubPath(path);
    TrimSlashesShape(p);
    Assembled(host, TrimSlashes(p));
  }

  /** The key of every text, blank ones included. */
  lemma KeyParts(v: string)
    ensures NormalizeRef(v).key == KeyOf(HostPart(v), PathPart(v))
  {
    if Trim(v) == "" {
      RepoPartShape(v);
      assert RepoPart(v) == "";
      EmptyParts(RepoPart(v));
      UnknownKey(HostPart(v), PathPart(v));
    } else {
      RepoPartShape(v);
      PartsShape(RepoPart(v));
      var (registry, path) := SplitRegistryAndPath(RepoPart(v));
      AssembledIsKey(registry, path);
    }
  }

  lemma EmptyParts(repo: string)
    requires repo == ""
    ensures HostOf(repo) == "docker.io" && PathOf(repo) == "library/unknown"
  {
    assert TrimSlashes(repo) == repo;
    HubPathShape(repo);
  }

  // ---------------------------------------------------------------------------
  // Normalising a key
  // ---------------------------------------------------------------------------

  lemma {:induction false} RFindConcat(a: string, b: string, c: char)
    ensures RFind(a + b, c) == if RFind(b, c) >= 0 then |a| + RFind(b, c) else RFind(a, c)
  {
    if b == [] {
      assert a + b == a;
    } else {
      var s := a + b;
      assert s[|s| - 1] == b[|b| - 1] && s[..|s| - 1] == a + b[..|b| - 1];
      RFindConcat(a, b[..|b| - 1], c);
    }
  }

  /** A lowercase key with a host and a path. */
  ghost predicate Key(h: string, q: string) {
    && h != "" && '/' !in h && !IsSpace(h[0]) && LooksLikeRegistry(h) && Lower(h) == h
    && q != "" && Stripped(q) && Lower(q) == q
  }

  /** The last colon comes after the last slash and something follows it: the path reads as tagged. */
  predicate ReadsAsTagged(q: string)
    requires q != ""
  {
    RFind(q, ':') > RFind(q, '/') && q[|q| - 1] != ':'
  }

  lemma TagSplitsIff(h: string, q: string)
    requires Key(h, q) && !IsSpace(q[|q| - 1])
    ensures TagSplits(h + "/" + q) <==> ReadsAsTagged(q)
  {
    var k := h + "/" + q;
    RFindConcat(h + "/", q, '/');
    RFindConcat(h + "/", q, ':');
    RFindLast(h, '/', "");
    assert h + ['/'] + "" == h + "/";
    var colon := RFind(q, ':');
    if colon > RFind(q, '/') {
      assert k[|h| + 1 + colon + 1..] == q[colon + 1..];
      TrimmedTail(q, colon);
    }
  }

  lemma TrimmedTail(q: string, colon: nat)
    requires q != "" && !IsSpace(q[|q| - 1]) && colon < |q| && colon == RFind(q, ':')
    ensures Trim(q[colon + 1..]) != "" <==> q[|q| - 1] != ':'
  {
    var t := q[colon + 1..];
    if t == "" {
      TrimShape(t);
    } else {
      assert t[|t| - 1] == q[|q| - 1];
      RFindIsLast(q, ':');
      TrimLastKept(t);
    }
  }

  lemma {:induction false} RFindIsLast(s: string, c: char)
    ensures forall i :: RFind(s, c) < i < |s| ==> s[i] != c
  {
    if s != [] && s[|s| - 1] != c {
      RFindIsLast(s[..|s| - 1], c);
    }
  }

  lemma {:induction false} TrimLastKept(t: string)
    requires t != "" && !IsSpace(t[|t| - 1])
    ensures Trim(t) != ""
  {
    if IsSpace(t[0]) {
      assert t[1..] != "";
      TrimLastKept(t[1..]);
    }
  }

  lemma KeyStays(h: string, q: string)
    requires Key(h, q)
    ensures RepoPart(h + "/" + q) == h + "/" + q
            <==> !IsSpace(q[|q| - 1]) && FindSub(h + "/" + q, AT_SHA256) < 0 && !ReadsAsTagged(q)
  {
    var k := h + "/" + q;
    RepoPartShape(k);
    TrimShape(k);
    assert k[0] == h[0] && k[|k| - 1] == q[|q| - 1];
    if !IsSpace(q[|q| - 1]) {
      TagSplitsIff(h, q);
    }
  }

  /** A host without an `@` survives: neither blanks, nor digest, nor tag are cut before its slash. */
  lemma HostSurvives(h: string, q: string)
    requires Key(h, q) && '@' !in h
    ensures h + "/" <= RepoPart(h + "/" + q)
  {
    var k := h + "/" + q;
    TrimKeepsHost(h, k);
    DigestKeepsHost(h, Trim(k));
    TagKeepsHost(h, SplitDigest(Trim(k)).0);
  }

  lemma DigestKeepsHost(h: string, x: string)
    requires h != "" && !IsSpace(h[0]) && '@' !in h && h + "/" <= x
    ensures h + "/" <= SplitDigest(x).0
  {
    var i := FindSub(x, AT_SHA256);
    if i >= 0 {
      assert x[i] == x[i..i + |AT_SHA256|][0] == '@';
      assert x[|h|] == '/' && forall j :: 0 <= j < |h| ==> x[j] == h[j];
      assert forall j :: 0 <= j < |h| ==> h[j] != '@';
      TrimKeepsHost(h, x[..i]);
    }
  }

  lemma TagKeepsHost(h: string, x: string)
    requires h != "" && !IsSpace(h[0]) && h + "/" <= x
    ensures h + "/" <= SplitTag(x).0
  {
    if TagSplits(x) {
      RFindIsLast(x, '/');
      assert x[|h|] == '/';
      TrimKeepsHost(h, x[..RFind(x, ':')]);
    }
  }

  lemma HostRecognised(h: string, rest: string)
    requires '/' !in h && LooksLikeRegistry(h)
    ensures SplitRegistryAndPath(h + "/" + rest) == (Some(h), rest)
  {
    var s := h + "/" + rest;
    assert s == h + ['/'] + rest;
    FindFirst(h, '/', rest);
    assert s[..|h|] == h && s[|h| + 1..] == rest;
  }

  lemma HostStays(h: string, repo: string)
    requires '/' !in h && LooksLikeRegistry(h) && h + "/" <= repo
    ensures SplitRegistryAndPath(repo).0.Some?
  {
    var rest := repo[|h| + 1..];
    assert repo == h + "/" + rest;
    HostRecognised(h, rest);
  }

  lemma KeyLength(host: string, path: string)
    ensures |KeyOf(host, path)| <= |host| + 1 + |path|
  {
    LowerAt(host);
    LowerAt(path);
  }

  /** Cutting anything off a key changes it: it gets shorter, or its host becomes another. */
  lemma CutChangesKey(h: string, q: string)
    requires Key(h, q) && RepoPart(h + "/" + q) != h + "/" + q
    ensures NormalizeRef(h + "/" + q).key != h + "/" + q
  {
    var k := h + "/" + q;
    KeyParts(k);
    RepoPartShape(k);
    PartsShape(RepoPart(k));
    if SplitRegistryAndPath(RepoPart(k)).0.Some? {
      CutIsShorter(k);
      KeyLength(HostPart(k), PathPart(k));
    } else if KeyOf(HostPart(k), PathPart(k)) == k {
      DockerFacts(HostPart(k));
      SameHost(h, q, HostPart(k), PathPart(k));
      HostSurvives(h, q);
      HostStays(h, RepoPart(k));
    }
  }

  lemma CutIsShorter(v: string)
    requires RepoPart(v) != v
    ensures |RepoPart(v)| < |v|
  {
    TrimShape(v);
    SplitDigestShape(Trim(v));
    SplitTagShape(SplitDigest(Trim(v)).0);
  }

  lemma SameHost(h: string, q: string, host: string, path: string)
    requires '/' !in h && '/' !in host && Lower(host) == host && path != ""
    requires KeyOf(host, path) == h + "/" + q
    ensures h == host
  {
    assert host + ['/'] + Lower(path) == h + ['/'] + q;
    FirstSepUnique('/', host, Lower(path), h, q);
  }

  lemma DockerFacts(host: string)
    requires host == "docker.io"
    ensures Lower(host) == host && '/' !in host && '@' !in host
  {
    LowerAt(host);
    assert Lower(host) == host;
  }

  lemma FixedKey(h: string, q: string)
    requires Key(h, q) && RepoPart(h + "/" + q) == h + "/" + q
    ensures NormalizeRef(h + "/" + q) == Normalized(h + "/" + q, None, None, h + "/" + q)
  {
    var k := h + "/" + q;
    RepoPartShape(k);
    HostRecognised(h, q);
    KeyParts(k);
    SplitDigestShape(k);
    SplitTagShape(k);
  }

  lemma KeyFixedIff(h: string, q: string)
    requires Key(h, q)
    ensures NormalizeRef(h + "/" + q).key == h + "/" + q
            <==> !IsSpace(q[|q| - 1]) && FindSub(h + "/" + q, AT_SHA256) < 0 && !ReadsAsTagged(q)
    ensures NormalizeRef(h + "/" + q).key == h + "/" + q
            ==> NormalizeRef(h + "/" + q) == Normalized(h + "/" + q, None, None, h + "/" + q)
  {
    KeyStays(h, q);
    if RepoPart(h + "/" + q) == h + "/" + q {
      FixedKey(h, q);
    } else {
      CutChangesKey(h, q);
    }
  }

  /** A text without a slash never normalises to itself. */
  lemma HostAloneNotFixed(h: string)
    requires '/' !in h
    ensures NormalizeRef(h).key != h
  {
    RepoPartShape(h);
    PartsShape(RepoPart(h));
    KeyParts(h);
    FindAbsent(RepoPart(h), '/');
    var host, path := HostPart(h), PathPart(h);
    assert (Lower(host) + "/" + Lower(path))[|Lower(host)|] == '/';
    assert KeyOf(host, path) == Lower(host) + "/" + Lower(path);
  }

  // ---------------------------------------------------------------------------
  // Idempotence, of every text
  // ---------------------------------------------------------------------------

  lemma {:induction false} RFindLower(s: string, c: char)
    requires !('A' <= c <= 'Z') && !('a' <= c <= 'z')
    ensures RFind(Lower(s), c) == RFind(s, c)
  {
    LowerAt(s);
    if s != [] {
      var front := s[..|s| - 1];
      LowerAt(front);
      assert Lower(s)[..|s| - 1] == Lower(front);
      RFindLower(front, c);
    }
  }

  lemma LoweredKey(host: string, path: string)
    requires host != "" && '/' !in host && !IsSpace(host[0]) && LooksLikeRegistry(host)
    requires path != "" && Stripped(path)
    ensures Key(Lower(host), Lower(path)) && |Lower(path)| == |path|
    ensures IsSpace(Lower(path)[|path| - 1]) == IsSpace(path[|path| - 1])
    ensures ReadsAsTagged(Lower(path)) == ReadsAsTagged(path)
    ensures Lower(host) + "/" + Lower(path) == Lower(host + "/" + path)
  {
    LowerAt(host);
    LowerAt(path);
    LowerIdempotent(host);
    LowerIdempotent(path);
    LowerKeepsChar(host, '/');
    LowerKeepsChar(host, '.');
    LowerKeepsChar(host, ':');
    RFindLower(path, ':');
    RFindLower(path, '/');
    LowerConcat(host, "/");
    LowerConcat(host + "/", path);
    assert Lower("/") == "/";
    if host == "localhost" {
      assert Lower(host) == host;
    }
  }

  /** Nothing in host and path is read as something else the second time. */
  predicate Stable(host: string, path: string) {
    && path != ""
    && !IsSpace(path[|path| - 1])
    && FindSub(Lower(host + "/" + path), AT_SHA256) < 0
    && !ReadsAsTagged(path)
  }

  lemma StableIff(host: string, path: string, key: string)
    requires host != "" && '/' !in host && !IsSpace(host[0]) && LooksLikeRegistry(host) && Stripped(path)
    requires key == KeyOf(host, path)
    ensures NormalizeRef(key).key == key <==> Stable(host, path)
    ensures NormalizeRef(key).key == key ==> NormalizeRef(key) == Normalized(key, None, None, key)
  {
    if path == "" {
      LowerKeepsChar(host, '/');
      HostAloneNotFixed(key);
    } else {
      LoweredKey(host, path);
      KeyFixedIff(Lower(host), Lower(path));
    }
  }

  /**
   The exact condition, over all texts: normalising twice is normalising once if and only if
   there is a path, it does not end in a blank, lowercasing has not made a digest marker, and
   what follows the path's last colon does not read as a tag.
   */
  lemma IdempotentIff(v: string)
    ensures var key := NormalizeRef(v).key;
            && (NormalizeRef(key).key == key <==> Stable(HostPart(v), PathPart(v)))
            && (NormalizeRef(key).key == key ==> NormalizeRef(key) == Normalized(key, None, None, key))
  {
    RepoPartShape(v);
    PartsShape(RepoPart(v));
    KeyParts(v);
    StableIff(HostPart(v), PathPart(v), NormalizeRef(v).key);
  }
}
