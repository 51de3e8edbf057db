/**
 Searching a graph of image indexes for an image: the least image digest of an index that
 lists one, else the first hit among the nested indexes in digest order.
 */
module IndexSearch {
  import opened Wrappers
  import opened Sorting

  /** An index: the image digests and the nested index digests it lists. */
  datatype Node = Node(images: seq<string>, nested: seq<string>)

  /** The indexes that can be read, by digest. */
  type Graph = map<string, Node>

  /** Every readable index among `digests` ranks below `bound`. */
  ghost predicate Below(g: Graph, digests: seq<string>, rank: string -> nat, bound: nat) {
    forall i :: 0 <= i < |digests| && digests[i] in g ==> rank(digests[i]) < bound
  }

  /** `rank` witnesses that no index reaches itself. */
  ghost predicate Acyclic(g: Graph, rank: string -> nat) {
    forall d :: d in g ==> Below(g, g[d].nested, rank, rank(d))
  }

  ghost function Resolve(g: Graph, node: Node, rank: string -> nat, bound: nat): Option<string>
    requires Acyclic(g, rank) && Below(g, node.nested, rank, bound)
    decreases bound, 1, 0
  {
    if node.images != [] then
      SortMembers(node.images, StringLeq);
      Some(Sort(node.images, StringLeq)[0])
    else
      SortedBelow(g, node.nested, rank, bound);
      FirstOf(g, Sort(node.nested, StringLeq), rank, bound)
  }

  /** The answer of the first nested index that has one. */
  ghost function FirstOf(g: Graph, digests: seq<string>, rank: string -> nat, bound: nat): Option<string>
    requires Acyclic(g, rank) && Below(g, digests, rank, bound)
    decreases bound, 0, |digests|
  {
    if digests == [] then None
    else
      var here := if digests[0] in g then Resolve(g, g[digests[0]], rank, rank(digests[0])) else None;
      if here.Some? then here else
        BelowTail(g, digests, rank, bound);
        FirstOf(g, digests[1..], rank, bound)
  }

  lemma BelowTail(g: Graph, digests: seq<string>, rank: string -> nat, bound: nat)
    requires digests != [] && Below(g, digests, rank, bound)
    ensures Below(g, digests[1..], rank, bound)
  {
    var tail := digests[1..];
    assert forall i :: 0 <= i < |tail| ==> tail[i] == digests[i + 1];
  }

  lemma SortedBelow(g: Graph, digests: seq<string>, rank: string -> nat, bound: nat)
    requires Below(g, digests, rank, bound)
    ensures Below(g, Sort(digests, StringLeq), rank, bound)
  {
    SortMembers(digests, StringLeq);
    var s := Sort(digests, StringLeq);
    forall i | 0 <= i < |s| && s[i] in g
      ensures rank(s[i]) < bound
    {
      assert s[i] in digests;
    }
  }

  // ---------------------------------------------------------------------------
  // What it finds
  // ---------------------------------------------------------------------------

  /** `d` is the digest of an image listed `n` indexes below `node`. */
  ghost predicate Reaches(g: Graph, node: Node, d: string, n: nat)
    decreases n
  {
    if n == 0 then d in node.images
    else exists x :: x in node.nested && x in g && Reaches(g, g[x], d, n - 1)
  }

  ghost predicate Reachable(g: Graph, node: Node) {
    exists d, n :: Reaches(g, node, d, n)
  }

  /** A reachable image is listed by the start or by some readable index. */
  lemma {:induction false} ReachedIsListed(g: Graph, node: Node, d: string, n: nat)
    requires Reaches(g, node, d, n)
    ensures d in node.images || exists x :: x in g && d in g[x].images
    decreases n
  {
    if n > 0 {
      var x :| x in node.nested && x in g && Reaches(g, g[x], d, n - 1);
      ReachedIsListed(g, g[x], d, n - 1);
    }
  }

  lemma {:induction false} FoundIsReached(g: Graph, node: Node, rank: string -> nat, bound: nat) returns (n: nat)
    requires Acyclic(g, rank) && Below(g, node.nested, rank, bound)
    requires Resolve(g, node, rank, bound).Some?
    ensures Reaches(g, node, Resolve(g, node, rank, bound).value, n)
    decreases bound, 1, 0
  {
    if node.images != [] {
      SortMembers(node.images, StringLeq);
      n := 0;
    } else {
      SortedBelow(g, node.nested, rank, bound);
      SortMembers(node.nested, StringLeq);
      n := FirstIsReached(g, node, Sort(node.nested, StringLeq), rank, bound);
    }
  }

  lemma {:induction false} FirstIsReached(g: Graph, node: Node, digests: seq<string>, rank: string -> nat, bound: nat)
    returns (n: nat)
    requires Acyclic(g, rank) && Below(g, digests, rank, bound)
    requires forall x :: x in digests ==> x in node.nested
    requires FirstOf(g, digests, rank, bound).Some?
    ensures Reaches(g, node, FirstOf(g, digests, rank, bound).value, n)
    decreases bound, 0, |digests|
  {
    var x := digests[0];
    if x in g && Resolve(g, g[x], rank, rank(x)).Some? {
      var k := FoundIsReached(g, g[x], rank, rank(x));
      n := k + 1;
      assert x in node.nested;
    } else {
      BelowTail(g, digests, rank, bound);
      n := FirstIsReached(g, node, digests[1..], rank, bound);
    }
  }

  lemma {:induction false} ReachedIsFound(g: Graph, node: Node, rank: string -> nat, bound: nat, d: string, n: nat)
    requires Acyclic(g, rank) && Below(g, node.nested, rank, bound)
    requires Reaches(g, node, d, n)
    ensures Resolve(g, node, rank, bound).Some?
    decreases n, 1, 0
  {
    if node.images == [] {
      var x :| x in node.nested && x in g && Reaches(g, g[x], d, n - 1);
      SortedBelow(g, node.nested, rank, bound);
      SortMembers(node.nested, StringLeq);
      ReachedIsFirst(g, Sort(node.nested, StringLeq), rank, bound, x, d, n - 1);
    }
  }

  lemma {:induction false} ReachedIsFirst(g: Graph, digests: seq<string>, rank: string -> nat, bound: nat,
                                          x: string, d: string, n: nat)
    requires Acyclic(g, rank) && Below(g, digests, rank, bound)
    requires x in digests && x in g && Reaches(g, g[x], d, n)
    ensures FirstOf(g, digests, rank, bound).Some?
    decreases n, 2, |digests|
  {
    if digests[0] == x {
      ReachedIsFound(g, g[x], rank, rank(x), d, n);
    } else {
      BelowTail(g, digests, rank, bound);
      ReachedIsFirst(g, digests[1..], rank, bound, x, d, n);
    }
  }

  /** The search answers exactly when an image is reachable, and then with one that is. */
  lemma SearchIsExact(g: Graph, node: Node, rank: string -> nat, bound: nat)
    requires Acyclic(g, rank) && Below(g, node.nested, rank, bound)
    ensures Resolve(g, node, rank, bound).Some? <==> Reachable(g, node)
    ensures Resolve(g, node, rank, bound).Some? ==>
              exists n :: Reaches(g, node, Resolve(g, node, rank, bound).value, n)
  {
    if Resolve(g, node, rank, bound).Some? {
      var n := FoundIsReached(g, node, rank, bound);
    }
    if Reachable(g, node) {
      var d, n :| Reaches(g, node, d, n);
      ReachedIsFound(g, node, rank, bound, d, n);
    }
  }

  /** An index that lists images itself yields the least of their digests. */
  lemma DirectImagesYieldLeast(g: Graph, node: Node, rank: string -> nat, bound: nat)
    requires Acyclic(g, rank) && Below(g, node.nested, rank, bound)
    requires node.images != []
    ensures var r := Resolve(g, node, rank, bound);
            r.Some? && r.value in node.images && forall d :: d in node.images ==> StringLeq(r.value, d)
  {
    StringOrder();
    SortMembers(node.images, StringLeq);
    SortSorts(node.images, StringLeq);
    var s := Sort(node.images, StringLeq);
    forall d | d in node.images
      ensures StringLeq(s[0], d)
    {
      assert d in s;
      var i :| 0 <= i < |s| && s[i] == d;
      StringLeqTotal(s[0], s[0]);
    }
  }

  /**
   The same in terms of files: `d` is an image that file `b`, or a file `n` indexes below it,
   lists. A file is found under its digest without the 7 characters of `sha256:`.
   */
  ghost predicate Through<B(!new)>(files: map<string, B>, image: (B, string) -> bool, index: (B, string) -> bool,
                                   b: B, d: string, n: nat)
    decreases n
  {
    if n == 0 then image(b, d)
    else exists x :: index(b, x) && |x| == 7 + 64 && x[7..] in files
                     && Through(files, image, index, files[x[7..]], d, n - 1)
  }

  /** `g` is the graph that the files describe. */
  ghost predicate Describes<B(!new)>(files: map<string, B>, image: (B, string) -> bool, index: (B, string) -> bool,
                                     parse: B -> Node, g: Graph)
  {
    && (forall b, d :: d in parse(b).images <==> image(b, d))
    && (forall b, x :: x in parse(b).nested <==> index(b, x))
    && (forall b, x :: index(b, x) ==> (x in g <==> |x| == 7 + 64 && x[7..] in files))
    && (forall x :: x in g && |x| == 7 + 64 && x[7..] in files ==> g[x] == parse(files[x[7..]]))
  }

  lemma {:induction false} ThroughIffReaches<B(!new)>(files: map<string, B>, image: (B, string) -> bool,
                                                      index: (B, string) -> bool, parse: B -> Node, g: Graph,
                                                      b: B, d: string, n: nat)
    requires Describes(files, image, index, parse, g)
    ensures Through(files, image, index, b, d, n) <==> Reaches(g, parse(b), d, n)
    decreases n
  {
    if n > 0 {
      if Through(files, image, index, b, d, n) {
        var x :| index(b, x) && |x| == 7 + 64 && x[7..] in files
                 && Through(files, image, index, files[x[7..]], d, n - 1);
        ThroughIffReaches(files, image, index, parse, g, files[x[7..]], d, n - 1);
        assert x in parse(b).nested && x in g && Reaches(g, g[x], d, n - 1);
      }
      if Reaches(g, parse(b), d, n) {
        var x :| x in parse(b).nested && x in g && Reaches(g, g[x], d, n - 1);
        ThroughIffReaches(files, image, index, parse, g, files[x[7..]], d, n - 1);
      }
    }
  }

  lemma {:induction false} FirstIsFirst(g: Graph, digests: seq<string>, rank: string -> nat, bound: nat) returns (k: nat)
    requires Acyclic(g, rank) && Below(g, digests, rank, bound)
    requires FirstOf(g, digests, rank, bound).Some?
    ensures k < |digests| && digests[k] in g
    ensures Resolve(g, g[digests[k]], rank, rank(digests[k])) == FirstOf(g, digests, rank, bound)
    ensures forall j :: 0 <= j < k && digests[j] in g ==> Resolve(g, g[digests[j]], rank, rank(digests[j])).None?
    decreases |digests|
  {
    var x := digests[0];
    if x in g && Resolve(g, g[x], rank, rank(x)).Some? {
      k := 0;
    } else {
      BelowTail(g, digests, rank, bound);
      var tail := digests[1..];
      assert forall i :: 0 <= i < |tail| ==> tail[i] == digests[i + 1];
      k := FirstIsFirst(g, tail, rank, bound);
      k := k + 1;
      forall j | 0 <= j < k && digests[j] in g
        ensures Resolve(g, g[digests[j]], rank, rank(digests[j])).None?
      {
        if j > 0 {
          assert digests[j] == tail[j - 1];
        }
      }
    }
  }

  /** An index without images of its own answers like the least of its nested ones that has an answer. */
  lemma NestedYieldsLeast(g: Graph, node: Node, rank: string -> nat, bound: nat) returns (x: string)
    requires Acyclic(g, rank) && Below(g, node.nested, rank, bound)
    requires node.images == [] && Resolve(g, node, rank, bound).Some?
    ensures x in node.nested && x in g && Resolve(g, g[x], rank, rank(x)) == Resolve(g, node, rank, bound)
    ensures forall y :: y in node.nested && y in g && Resolve(g, g[y], rank, rank(y)).Some? ==> StringLeq(x, y)
  {
    SortedBelow(g, node.nested, rank, bound);
    SortMembers(node.nested, StringLeq);
    StringOrder();
    SortSorts(node.nested, StringLeq);
    var s := Sort(node.nested, StringLeq);
    var k := FirstIsFirst(g, s, rank, bound);
    x := s[k];
    forall y | y in node.nested && y in g && Resolve(g, g[y], rank, rank(y)).Some?
      ensures StringLeq(x, y)
    {
      assert y in s;
      var i :| 0 <= i < |s| && s[i] == y;
      assert i >= k;
      StringLeqTotal(x, x);
    }
  }

  // ---------------------------------------------------------------------------
  // The order of the manifests does not matter, at any level
  // ---------------------------------------------------------------------------

  ghost predicate Shuffled(a: Node, b: Node) {
    multiset(a.images) == multiset(b.images) && multiset(a.nested) == multiset(b.nested)
  }

  ghost predicate AllShuffled(g: Graph, h: Graph) {
    g.Keys == h.Keys && forall k :: k in g ==> Shuffled(g[k], h[k])
  }

  lemma ShuffledSorts(a: Node, b: Node)
    requires Shuffled(a, b)
    ensures Sort(a.images, StringLeq) == Sort(b.images, StringLeq)
    ensures Sort(a.nested, StringLeq) == Sort(b.nested, StringLeq)
    ensures a.images == [] <==> b.images == []
  {
    StringOrder();
    SortEqualIffPermuted(a.images, b.images, StringLeq);
    SortEqualIffPermuted(a.nested, b.nested, StringLeq);
    assert |multiset(a.images)| == |multiset(b.images)|;
  }

  /**
   Reordering what any number of indexes list, nested ones included, leaves the answer
   unchanged; so does the choice of the ranking that witnesses acyclicity.
   */
  lemma {:induction false} OrderIrrelevant(g: Graph, a: Node, rank: string -> nat, bound: nat,
                                           h: Graph, b: Node, rank': string -> nat, bound': nat)
    requires Acyclic(g, rank) && Below(g, a.nested, rank, bound)
    requires Acyclic(h, rank') && Below(h, b.nested, rank', bound')
    requires AllShuffled(g, h) && Shuffled(a, b)
    ensures Resolve(g, a, rank, bound) == Resolve(h, b, rank', bound')
    decreases bound, 1, 0
  {
    ShuffledSorts(a, b);
    if a.images == [] {
      SortedBelow(g, a.nested, rank, bound);
      SortedBelow(h, b.nested, rank', bound');
      OrderIrrelevantFirst(g, Sort(a.nested, StringLeq), rank, bound, h, rank', bound');
    }
  }

  lemma {:induction false} OrderIrrelevantFirst(g: Graph, digests: seq<string>, rank: string -> nat, bound: nat,
                                                h: Graph, rank': string -> nat, bound': nat)
    requires Acyclic(g, rank) && Below(g, digests, rank, bound)
    requires Acyclic(h, rank') && Below(h, digests, rank', bound')
    requires AllShuffled(g, h)
    ensures FirstOf(g, digests, rank, bound) == FirstOf(h, digests, rank', bound')
    decreases bound, 0, |digests|
  {
    if digests != [] {
      var x := digests[0];
      if x in g {
        OrderIrrelevant(g, g[x], rank, rank(x), h, h[x], rank', rank'(x));
      }
      BelowTail(g, digests, rank, bound);
      BelowTail(h, digests, rank', bound');
      OrderIrrelevantFirst(g, digests[1..], rank, bound, h, rank', bound');
    }
  }
}
