/**
 The backend's own normaliser, which the frontend's says it mirrors: where the two agree, over
 all texts.
 */
module BackendRef {
  import opened Wrappers
  import opened Text
  import opened Digests
  import opened ContainerRef
  import opened RefIdempotence

  /** Everything after the first marker belongs to the digest. */
  function BackendSplitDigest(ref: string): (string, Option<string>) {
    var i := FindSub(ref, AT_SHA256);
    if i < 0 then (ref, None)
    else (Trim(ref[..i]), NormalizeHexDigest(PREFIX + ref[i + 8..]))
  }

  /** The whole key is stripped of slashes at both ends. */
  function BackendKey(registry: Option<string>, path: string): string {
    var host := if registry.Some? then registry.value else "docker.io";
    var p := if registry.Some? then path else DockerHubPath(path);
    var canonical := TrimSlashes(Lower(host) + "/" + Lower(TrimSlashes(p)));
    if canonical == "" then "docker.io/library/unknown" else canonical
  }

  function BackendNormalize(value: string): Normalized {
    var raw := Trim(value);
    if raw == "" then Normalized("docker.io/library/unknown", None, None, "")
    else
      var (repoTag, digest) := BackendSplitDigest(raw);
      var (repo, tag) := SplitTag(repoTag);
      var (registry, path) := SplitRegistryAndPath(repo);
      Normalized(BackendKey(registry, path), tag, digest, raw)
  }

  // ---------------------------------------------------------------------------
  // The key
  // ---------------------------------------------------------------------------

  lemma SameKey(registry: Option<string>, path: string)
    requires registry.Some? ==> registry.value != "" && '/' !in registry.value
    ensures BackendKey(registry, path) == AssembleKey(registry, path)
  {
    var host := if registry.Some? then registry.value else "docker.io";
    LowerAt(host);
    LowerKeepsChar(host, '/');
    NoLeadingSlash(Lower(host), Lower(TrimSlashes(if registry.Some? then path else DockerHubPath(path))));
  }

  lemma NoLeadingSlash(h: string, q: string)
    requires h != "" && '/' !in h
    ensures TrimSlashesLeft(h + "/" + q) == h + "/" + q
  {
    assert (h + "/" + q)[0] == h[0] && h[0] in h;
  }

  // ---------------------------------------------------------------------------
  // The digest
  // ---------------------------------------------------------------------------

  lemma {:induction false} HexOnlyConcat(a: string, b: string)
    ensures HexOnly(a + b) == HexOnly(a) + HexOnly(b)
    decreases a
  {
    if a == [] {
      assert a + b == b;
    } else {
      assert (a + b)[1..] == a[1..] + b;
      HexOnlyConcat(a[1..], b);
    }
  }

  /** The hex digits of a text, in order. */
  function HexDigits(s: string): string {
    HexOnly(Lower(s))
  }

  lemma HexDigitsConcat(a: string, b: string)
    ensures HexDigits(a + b) == HexDigits(a) + HexDigits(b)
  {
    LowerConcat(a, b);
    HexOnlyConcat(Lower(a), Lower(b));
  }

  /** Trailing blanks hold no digits. */
  lemma {:induction false} HexDigitsTrimmed(s: string)
    ensures HexDigits(TrimRight(s)) == HexDigits(s)
  {
    if s != [] && IsSpace(s[|s| - 1]) {
      var front, last := s[..|s| - 1], [s[|s| - 1]];
      HexDigitsTrimmed(front);
      assert s == front + last;
      HexDigitsConcat(front, last);
      assert Lower(last) == last;
      assert HexOnly(last) == "";
    }
  }

  lemma PrefixedTrim(p: string, x: string)
    requires p != "" && !IsSpace(p[0]) && !IsSpace(p[|p| - 1])
    ensures Trim(p + x) == p + TrimRight(x)
  {
    assert (p + x)[0] == p[0];
    TrimRightConcat(p, x);
  }

  lemma PrefixedLower(p: string, x: string)
    requires Lower(p) == p
    ensures p <= Lower(p + x) && Lower(p + x)[|p|..] == Lower(x)
  {
    LowerConcat(p, x);
  }

  lemma PrefixFacts(p: string)
    requires p == PREFIX
    ensures |p| == 7 && !IsSpace(p[0]) && !IsSpace(p[6]) && Lower(p) == p
  {
    LowerAt(p);
    assert Lower(p) == p;
  }

  lemma HexPartIs(s: string)
    ensures HexPart(s) == if |HexDigits(s)| > 64 then HexDigits(s)[..64] else HexDigits(s)
  {
  }

  /** The digest normaliser only looks at the digits behind the prefix. */
  lemma PrefixedDigest(p: string, x: string)
    requires p == PREFIX
    ensures NormalizeHexDigest(p + x) == FromHex(x)
  {
    PrefixFacts(p);
    PrefixedTrim(p, x);
    var y := TrimRight(x);
    PrefixedLower(p, y);
    LowerIdempotent(y);
    HexDigitsTrimmed(x);
    assert HexDigits(Lower(y)) == HexDigits(x);
  }

  /** The frontend stops at a second marker. */
  function FrontendDigits(after: string): string {
    var j := FindSub(after, AT_SHA256);
    if j < 0 then after else after[..j]
  }

  lemma FrontendDigest(ref: string)
    requires FindSub(ref, AT_SHA256) >= 0
    ensures SplitDigest(ref).1 == FromHex(FrontendDigits(ref[FindSub(ref, AT_SHA256) + 8..]))
  {
    var right := FrontendDigits(ref[FindSub(ref, AT_SHA256) + 8..]);
    if right == "" {
      assert HexPart(right) == "";
    } else {
      PrefixedDigest(PREFIX, right);
    }
  }

  /** Digits that are cut at 64 and refused below 12 agree with a longer list exactly so. */
  lemma LongerDigits(x: string, y: string)
    requires HexDigits(x) <= HexDigits(y) && |HexDigits(x)| < |HexDigits(y)|
    ensures FromHex(x) == FromHex(y) <==> |HexDigits(x)| >= 64 || |HexDigits(y)| < 12
  {
    HexPartIs(x);
    HexPartIs(y);
    if |HexDigits(x)| >= 64 {
      assert HexPart(x) == HexDigits(x)[..64] == HexDigits(y)[..64] == HexPart(y);
    } else if |HexDigits(y)| >= 12 {
      assert |HexPart(x)| < |HexPart(y)|;
      assert |PREFIX + HexPart(x)| < |PREFIX + HexPart(y)|;
    }
  }

  lemma MarkerHasDigits(m: string)
    requires m == AT_SHA256
    ensures HexDigits(m) != ""
  {
    LowerAt(m);
    var l := Lower(m);
    assert l[4] == '2';
    HexOnlyConcat(l[..4], l[4..]);
    assert l == l[..4] + l[4..];
    assert HexOnly(l[4..]) != "";
  }

  lemma SecondMarkerHasDigits(after: string)
    requires FindSub(after, AT_SHA256) >= 0
    ensures HexDigits(FrontendDigits(after)) <= HexDigits(after)
    ensures |HexDigits(FrontendDigits(after))| < |HexDigits(after)|
  {
    var j := FindSub(after, AT_SHA256);
    SplitAt(after, j, |AT_SHA256|);
    MarkerHasDigits(AT_SHA256);
    MoreDigits(after[..j], AT_SHA256, after[j + |AT_SHA256|..]);
  }

  lemma SplitAt(s: string, j: nat, n: nat)
    requires j + n <= |s|
    ensures s == s[..j] + (s[j..j + n] + s[j + n..])
  {
  }

  lemma MoreDigits(x: string, m: string, rest: string)
    requires HexDigits(m) != ""
    ensures HexDigits(x) <= HexDigits(x + (m + rest)) && |HexDigits(x)| < |HexDigits(x + (m + rest))|
  {
    HexDigitsConcat(x, m + rest);
    HexDigitsConcat(m, rest);
  }

  /** A second marker does not matter: 64 digits come before it, or there are fewer than 12 in all. */
  predicate SecondMarkerHarmless(after: string) {
    FindSub(after, AT_SHA256) < 0 || |HexDigits(FrontendDigits(after))| >= 64 || |HexDigits(after)| < 12
  }

  lemma BackendDigest(ref: string)
    requires FindSub(ref, AT_SHA256) >= 0
    ensures BackendSplitDigest(ref).1 == FromHex(ref[FindSub(ref, AT_SHA256) + 8..])
  {
    PrefixedDigest(PREFIX, ref[FindSub(ref, AT_SHA256) + 8..]);
  }

  lemma AfterMarkerAgree(after: string)
    ensures FromHex(FrontendDigits(after)) == FromHex(after) <==> SecondMarkerHarmless(after)
  {
    if FindSub(after, AT_SHA256) >= 0 {
      SecondMarkerHasDigits(after);
      LongerDigits(FrontendDigits(after), after);
    }
  }

  lemma DigestsAgreeIff(ref: string)
    ensures var i := FindSub(ref, AT_SHA256);
            SplitDigest(ref).1 == BackendSplitDigest(ref).1 <==> i < 0 || SecondMarkerHarmless(ref[i + 8..])
  {
    var i := FindSub(ref, AT_SHA256);
    if i >= 0 {
      FrontendDigest(ref);
      BackendDigest(ref);
      AfterMarkerAgree(ref[i + 8..]);
    }
  }

  // ---------------------------------------------------------------------------
  // Both
  // ---------------------------------------------------------------------------

  /**
   Frontend and backend give every text the same key and the same tag. They give it the same
   digest, and so the same answer, if and only if no second digest marker changes the digits.
   */
  lemma BackendAgreesIff(v: string)
    ensures var f, b := NormalizeRef(v), BackendNormalize(v);
            var raw := Trim(v); var i := FindSub(raw, AT_SHA256);
            && f.key == b.key && f.tag == b.tag && f.raw == b.raw
            && (f == b <==> i < 0 || SecondMarkerHarmless(raw[i + 8..]))
  {
    var raw := Trim(v);
    if raw == "" {
      FindSubAbsent(raw, AT_SHA256);
    } else {
      DigestsAgreeIff(raw);
      RepoPartShape(v);
      PartsShape(RepoPart(v));
      var (registry, path) := SplitRegistryAndPath(RepoPart(v));
      SameKey(registry, path);
    }
  }

  /** The two do differ: any reference with a digest of 12 to 63 digits, marked twice. */
  lemma DoubledMarkerDiffers(a: string, h: string, rest: string)
    requires a != "" && '@' !in a && !IsSpace(a[0])
    requires AllHex(h) && 12 <= |h| < 64 && rest != "" && !IsSpace(rest[|rest| - 1])
    ensures NormalizeRef(a + AT_SHA256 + (h + AT_SHA256 + rest)) != BackendNormalize(a + AT_SHA256 + (h + AT_SHA256 + rest))
  {
    var after := h + AT_SHA256 + rest;
    var v := a + AT_SHA256 + after;
    assert v[0] == a[0] && v[|v| - 1] == rest[|rest| - 1];
    TrimFixed(v);
    MarkerAt(a, AT_SHA256, after);
    NoAt(h);
    MarkerAt(h, AT_SHA256, rest);
    LowerHexFixed(h);
    HexOnlyFixed(h);
    SecondMarkerHasDigits(after);
    BackendAgreesIff(v);
  }

  lemma NoAt(h: string)
    requires AllHex(h)
    ensures '@' !in h
  {
  }
}
