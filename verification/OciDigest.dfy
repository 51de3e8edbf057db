/** The digest of the image in an OCI layout, read from `index.json` and the blob files. */
module OciDigest {
  import opened Wrappers
  import opened Sorting
  import opened Text
  import opened Digests
  import opened IndexSearch

  const OCI_MANIFEST := "application/vnd.oci.image.manifest.v1+json"
  const DOCKER_MANIFEST := "application/vnd.docker.distribution.manifest.v2+json"
  const OCI_INDEX := "application/vnd.oci.image.index.v1+json"
  const DOCKER_LIST := "application/vnd.docker.distribution.manifest.list.v2+json"

  /** An entry of `manifests`; one that is no object or has no text digest is `Junk`. */
  datatype Descriptor = Junk | Descriptor(mediaType: string, digest: string)

  /** A parsed file; `Opaque` is anything unreadable or without a list of manifests. */
  datatype Blob = Index(manifests: seq<Descriptor>) | Opaque

  /** The files under `blobs/sha256`, by their names. */
  type Layout = map<string, Blob>

  predicate IsImage(m: Descriptor) {
    m.Descriptor? && (m.mediaType == OCI_MANIFEST || m.mediaType == DOCKER_MANIFEST)
  }

  predicate IsNested(m: Descriptor) {
    m.Descriptor? && !IsImage(m) && (m.mediaType == OCI_INDEX || m.mediaType == DOCKER_LIST)
  }

  /** The canonical digest of a descriptor, if it has one. */
  function DigestOf(m: Descriptor): seq<string> {
    if m.Junk? then [] else
    match Normalize(m.digest)
    case Some(d) => [d]
    case None => []
  }

  function Pick(m: Descriptor, which: Descriptor -> bool): seq<string> {
    if which(m) then DigestOf(m) else []
  }

  /** The canonical digests of all descriptors that `which` selects, in file order. */
  function Select(ms: seq<Descriptor>, which: Descriptor -> bool): seq<string> {
    if ms == [] then [] else Pick(ms[0], which) + Select(ms[1..], which)
  }

  function Manifests(b: Blob): seq<Descriptor> {
    if b.Index? then b.manifests else []
  }

  /** What an index file says. */
  function Parse(b: Blob): Node {
    Node(Select(Manifests(b), IsImage), Select(Manifests(b), IsNested))
  }

  /** `_blob_path`: only full 64-digit digests name files. */
  function Lookup(layout: Layout, digest: string): Option<Blob> {
    match Normalize(digest)
    case None => None
    case Some(d) => if |d| == 71 && d[7..] in layout then Some(layout[d[7..]]) else None
  }

  /** The graph the layout holds. */
  function GraphOf(layout: Layout): Graph {
    map d | d in (set hex | hex in layout && |hex| == 64 && AllHex(hex) :: PREFIX + hex) :: Parse(layout[d[7..]])
  }

  lemma LookupIsGraph(layout: Layout, d: string)
    requires Canonical(d)
    ensures Lookup(layout, d).Some? <==> d in GraphOf(layout)
    ensures Lookup(layout, d).Some? ==> Parse(Lookup(layout, d).value) == GraphOf(layout)[d]
  {
    CanonicalIffFixed(d);
    var hex := d[7..];
    assert d == PREFIX + hex;
    assert d in GraphOf(layout) ==> hex in layout && |hex| == 64;
  }

  lemma {:induction false} SelectConcat(a: seq<Descriptor>, b: seq<Descriptor>, which: Descriptor -> bool)
    ensures Select(a + b, which) == Select(a, which) + Select(b, which)
  {
    if a == [] {
      assert a + b == b;
    } else {
      SelectConcat(a[1..], b, which);
      assert (a + b)[1..] == a[1..] + b && (a + b)[0] == a[0];
      var p, x, y := Pick(a[0], which), Select(a[1..], which), Select(b, which);
      assert p + (x + y) == (p + x) + y;
    }
  }

  lemma SelectOne(m: Descriptor, which: Descriptor -> bool)
    ensures Select([m], which) == Pick(m, which)
  {
    assert Select([m], which) == Pick(m, which) + Select([m][1..], which);
  }

  lemma {:induction false} SelectCanonical(ms: seq<Descriptor>, which: Descriptor -> bool)
    ensures forall i :: 0 <= i < |Select(ms, which)| ==> Canonical(Select(ms, which)[i])
  {
    if ms != [] {
      SelectCanonical(ms[1..], which);
      if ms[0].Descriptor? {
        NormalizeIsCanonical(ms[0].digest);
      }
    }
  }

  /** Both lists of an index file, collected in one loop. */
  method Collect(b: Blob) returns (images: seq<string>, nested: seq<string>)
    ensures Node(images, nested) == Parse(b)
  {
    var manifests := Manifests(b);
    images, nested := [], [];
    for k := 0 to |manifests|
      invariant images == Select(manifests[..k], IsImage)
      invariant nested == Select(manifests[..k], IsNested)
    {
      var m := manifests[k];
      assert manifests[..k + 1] == manifests[..k] + [m];
      SelectConcat(manifests[..k], [m], IsImage);
      SelectConcat(manifests[..k], [m], IsNested);
      SelectOne(m, IsImage);
      SelectOne(m, IsNested);
      if IsImage(m) {
        images := images + DigestOf(m);
      } else if IsNested(m) {
        nested := nested + DigestOf(m);
      }
    }
    assert manifests[..|manifests|] == manifests;
  }

  /** `_digest_from_index_object`: it terminates on every acyclic layout. */
  method DigestFromIndex(layout: Layout, b: Blob, ghost rank: string -> nat, ghost bound: nat)
    returns (r: Option<string>)
    requires Acyclic(GraphOf(layout), rank) && Below(GraphOf(layout), Parse(b).nested, rank, bound)
    ensures r == Resolve(GraphOf(layout), Parse(b), rank, bound)
    decreases bound
  {
    ghost var g := GraphOf(layout);
    var images, nested := Collect(b);
    if images != [] {
      SortMembers(images, StringLeq);
      return Some(Sort(images, StringLeq)[0]);
    }
    SortedBelow(g, nested, rank, bound);
    SortMembers(nested, StringLeq);
    SelectCanonical(Manifests(b), IsNested);
    var sorted := Sort(nested, StringLeq);
    assert sorted[0..] == sorted;
    for k := 0 to |sorted|
      invariant Below(g, sorted[k..], rank, bound)
      invariant FirstOf(g, sorted, rank, bound) == FirstOf(g, sorted[k..], rank, bound)
    {
      assert sorted[k..][0] == sorted[k] && sorted[k..][1..] == sorted[k + 1..];
      BelowTail(g, sorted[k..], rank, bound);
      assert sorted[k] in nested;
      LookupIsGraph(layout, sorted[k]);
      var child := Lookup(layout, sorted[k]);
      if child.Some? {
        var got := DigestFromIndex(layout, child.value, rank, rank(sorted[k]));
        if got.Some? {
          return got;
        }
      }
    }
    r := None;
  }

  /**
   On every acyclic layout the resolver answers exactly when an image manifest is reachable
   through readable index files, and then with the canonical digest of one that is.
   */
  lemma ResolverIsExact(layout: Layout, b: Blob, rank: string -> nat, bound: nat)
    requires Acyclic(GraphOf(layout), rank) && Below(GraphOf(layout), Parse(b).nested, rank, bound)
    ensures var r := Resolve(GraphOf(layout), Parse(b), rank, bound);
            && (r.Some? <==> Reachable(GraphOf(layout), Parse(b)))
            && (r.Some? ==> Canonical(r.value) && exists n :: Reaches(GraphOf(layout), Parse(b), r.value, n))
  {
    var g, node := GraphOf(layout), Parse(b);
    var r := Resolve(g, node, rank, bound);
    SearchIsExact(g, node, rank, bound);
    if r.Some? {
      var n :| Reaches(g, node, r.value, n);
      ReachedIsListed(g, node, r.value, n);
      SelectCanonical(Manifests(b), IsImage);
      if r.value !in node.images {
        var x :| x in g && r.value in g[x].images;
        SelectCanonical(Manifests(layout[x[7..]]), IsImage);
      }
    }
  }

  // ---------------------------------------------------------------------------
  // In terms of the files
  // ---------------------------------------------------------------------------

  /** The media types of an image manifest. */
  predicate ManifestText(t: string) {
    || t == "application/vnd.oci.image.manifest.v1+json"
    || t == "application/vnd.docker.distribution.manifest.v2+json"
  }

  /** The media types of an index. */
  predicate IndexText(t: string) {
    || t == "application/vnd.oci.image.index.v1+json"
    || t == "application/vnd.docker.distribution.manifest.list.v2+json"
  }

  /** File `b` lists an image manifest with digest `d`. */
  ghost predicate ListsImage(b: Blob, d: string) {
    exists m :: m in Manifests(b) && m.Descriptor? && ManifestText(m.mediaType) && Normalize(m.digest) == Some(d)
  }

  /** File `b` lists an index with digest `x`. */
  ghost predicate ListsIndex(b: Blob, x: string) {
    exists m :: m in Manifests(b) && m.Descriptor? && IndexText(m.mediaType) && Normalize(m.digest) == Some(x)
  }

  /** `d` is the digest of an image manifest listed `n` index files below `b`. */
  ghost predicate Yields(layout: Layout, b: Blob, d: string, n: nat) {
    Through(layout, ListsImage, ListsIndex, b, d, n)
  }

  lemma {:induction false} SelectMembers(ms: seq<Descriptor>, which: Descriptor -> bool, d: string)
    ensures d in Select(ms, which)
            <==> exists m :: m in ms && which(m) && m.Descriptor? && Normalize(m.digest) == Some(d)
  {
    if ms != [] {
      SelectMembers(ms[1..], which, d);
      assert ms == [ms[0]] + ms[1..];
      if d in Select(ms[1..], which) {
        var m :| m in ms[1..] && which(m) && m.Descriptor? && Normalize(m.digest) == Some(d);
        assert m in ms;
      } else if d in Pick(ms[0], which) {
        assert ms[0] in ms;
      }
    }
  }

  lemma KindsByText(m: Descriptor)
    ensures IsImage(m) <==> m.Descriptor? && ManifestText(m.mediaType)
    ensures IsNested(m) <==> m.Descriptor? && IndexText(m.mediaType)
  {
  }

  lemma ParsedLists(b: Blob, d: string)
    ensures d in Parse(b).images <==> ListsImage(b, d)
    ensures d in Parse(b).nested <==> ListsIndex(b, d)
  {
    SelectMembers(Manifests(b), IsImage, d);
    SelectMembers(Manifests(b), IsNested, d);
    forall m: Descriptor
      ensures IsImage(m) <==> m.Descriptor? && ManifestText(m.mediaType)
      ensures IsNested(m) <==> m.Descriptor? && IndexText(m.mediaType)
    {
      KindsByText(m);
    }
  }

  lemma GraphDescribed(layout: Layout)
    ensures Describes(layout, ListsImage, ListsIndex, Parse, GraphOf(layout))
  {
    forall b: Blob, d
      ensures d in Parse(b).images <==> ListsImage(b, d)
      ensures d in Parse(b).nested <==> ListsIndex(b, d)
    {
      ParsedLists(b, d);
    }
  }

  lemma YieldsIffReaches(layout: Layout, b: Blob, d: string, n: nat)
    ensures Yields(layout, b, d, n) <==> Reaches(GraphOf(layout), Parse(b), d, n)
  {
    GraphDescribed(layout);
    ThroughIffReaches(layout, ListsImage, ListsIndex, Parse, GraphOf(layout), b, d, n);
  }

  lemma LeastImage(layout: Layout, b: Blob, rank: string -> nat, bound: nat, d: string)
    requires Acyclic(GraphOf(layout), rank) && Below(GraphOf(layout), Parse(b).nested, rank, bound)
    ensures var r := Resolve(GraphOf(layout), Parse(b), rank, bound);
            ListsImage(b, d) ==> r.Some? && ListsImage(b, r.value) && StringLeq(r.value, d)
  {
    ParsedLists(b, d);
    if d in Parse(b).images {
      DirectImagesYieldLeast(GraphOf(layout), Parse(b), rank, bound);
      ParsedLists(b, Resolve(GraphOf(layout), Parse(b), rank, bound).value);
    }
  }

  /**
   What the resolver answers, in terms of the files and the four media types: something exactly
   when an image manifest is listed in the file or, through listed index files, below it; then
   the digest of one that is; and the least one when the file itself lists any.
   */
  lemma ResolverReadsFiles(layout: Layout, b: Blob, rank: string -> nat, bound: nat)
    requires Acyclic(GraphOf(layout), rank) && Below(GraphOf(layout), Parse(b).nested, rank, bound)
    ensures var r := Resolve(GraphOf(layout), Parse(b), rank, bound);
            && (r.Some? <==> exists d, n: nat :: Yields(layout, b, d, n))
            && (r.Some? ==> exists n: nat :: Yields(layout, b, r.value, n))
            && (forall d :: ListsImage(b, d) ==> r.Some? && ListsImage(b, r.value) && StringLeq(r.value, d))
  {
    var r := Resolve(GraphOf(layout), Parse(b), rank, bound);
    SearchIsExact(GraphOf(layout), Parse(b), rank, bound);
    if r.Some? {
      var n := FoundIsReached(GraphOf(layout), Parse(b), rank, bound);
      YieldsIffReaches(layout, b, r.value, n);
    }
    if d, n: nat :| Yields(layout, b, d, n) {
      YieldsIffReaches(layout, b, d, n);
    }
    forall d | ListsImage(b, d)
      ensures r.Some? && ListsImage(b, r.value) && StringLeq(r.value, d)
    {
      LeastImage(layout, b, rank, bound, d);
    }
  }

  /** `oci_image_manifest_digest_from_layout`; a missing or unreadable `index.json` is `Opaque`. */
  method DigestFromLayout(layout: Layout, index: Blob, ghost rank: string -> nat, ghost bound: nat)
    returns (r: Option<string>)
    requires Acyclic(GraphOf(layout), rank) && Below(GraphOf(layout), Parse(index).nested, rank, bound)
    ensures r.Some? <==> exists d, n: nat :: Yields(layout, index, d, n)
    ensures r.Some? ==> Canonical(r.value) && exists n: nat :: Yields(layout, index, r.value, n)
    ensures forall d :: ListsImage(index, d) ==> r.Some? && ListsImage(index, r.value) && StringLeq(r.value, d)
  {
    r := DigestFromIndex(layout, index, rank, bound);
    ResolverReadsFiles(layout, index, rank, bound);
    ResolverIsExact(layout, index, rank, bound);
  }

  // ---------------------------------------------------------------------------

  ghost predicate ManifestsShuffled(a: Blob, b: Blob) {
    multiset(Manifests(a)) == multiset(Manifests(b))
  }

  ghost predicate LayoutShuffled(l: Layout, m: Layout) {
    l.Keys == m.Keys && forall k :: k in l ==> ManifestsShuffled(l[k], m[k])
  }

  lemma {:induction false} SelectShuffled(a: seq<Descriptor>, b: seq<Descriptor>, which: Descriptor -> bool)
    requires multiset(a) == multiset(b)
    ensures multiset(Select(a, which)) == multiset(Select(b, which))
  {
    assert |a| == |multiset(a)| == |multiset(b)| == |b|;
    if a != [] {
      assert a == [a[0]] + a[1..];
      var l, r := PullOut(a[0], b);
      SelectShuffled(a[1..], l + r, which);
      SelectConcat([a[0]], a[1..], which);
      SelectConcat(l, [a[0]] + r, which);
      SelectConcat([a[0]], r, which);
      SelectConcat(l, r, which);
    }
  }

  lemma ParseShuffled(a: Blob, b: Blob)
    requires ManifestsShuffled(a, b)
    ensures Shuffled(Parse(a), Parse(b))
  {
    SelectShuffled(Manifests(a), Manifests(b), IsImage);
    SelectShuffled(Manifests(a), Manifests(b), IsNested);
  }

  lemma GraphShuffled(l: Layout, m: Layout)
    requires LayoutShuffled(l, m)
    ensures AllShuffled(GraphOf(l), GraphOf(m))
  {
    var g, h := GraphOf(l), GraphOf(m);
    assert (set hex | hex in l && |hex| == 64 && AllHex(hex) :: PREFIX + hex)
        == (set hex | hex in m && |hex| == 64 && AllHex(hex) :: PREFIX + hex);
    forall k | k in g
      ensures Shuffled(g[k], h[k])
    {
      ParseShuffled(l[k[7..]], m[k[7..]]);
    }
  }

  /** Permuting the `manifests` of any number of index files never changes the answer. */
  lemma ManifestOrderIrrelevant(l: Layout, a: Blob, rank: string -> nat, bound: nat,
                                m: Layout, b: Blob, rank': string -> nat, bound': nat)
    requires Acyclic(GraphOf(l), rank) && Below(GraphOf(l), Parse(a).nested, rank, bound)
    requires Acyclic(GraphOf(m), rank') && Below(GraphOf(m), Parse(b).nested, rank', bound')
    ensures LayoutShuffled(l, m) && ManifestsShuffled(a, b)
            ==> Resolve(GraphOf(l), Parse(a), rank, bound) == Resolve(GraphOf(m), Parse(b), rank', bound')
  {
    if LayoutShuffled(l, m) && ManifestsShuffled(a, b) {
      GraphShuffled(l, m);
      ParseShuffled(a, b);
      OrderIrrelevant(GraphOf(l), Parse(a), rank, bound, GraphOf(m), Parse(b), rank', bound');
    }
  }
}
