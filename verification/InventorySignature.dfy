/**
 The signature that decides whether an inventory image has changed since it was scanned.
 One comma joins both the pull secrets of a target and the targets of an image, so that
 the signature can be read back at all is not obvious.
 */
module InventorySignature {
  import opened Wrappers
  import opened Sorting
  import opened Text

  datatype ScanType = ImageSca | ImageGrype | ImageSbom | ImageStig

  /** A workload that runs the image, as the inventory file gives it; absent fields are "". */
  datatype Target = Target(
    namespace: string,
    kind: string,
    name: string,
    containerName: string,
    imagePullSecrets: seq<string>,
    imagePullSecretNames: seq<string>
  )

  datatype Item = Item(image: string, imageDigest: string, targets: seq<Target>)

  function TypeName(t: ScanType): string {
    match t
    case ImageSca => "image-sca"
    case ImageGrype => "image-grype"
    case ImageSbom => "image-sbom"
    case ImageStig => "image-stig"
  }

  function NonBlank(names: seq<string>): (r: seq<string>)
    ensures forall i :: 0 <= i < |r| ==> r[i] != ""
  {
    if names == [] then []
    else
      (if Trim(names[0]) != "" then [Trim(names[0])] else []) + NonBlank(names[1..])
  }

  function Key(item: Item): string {
    var digest := Trim(item.imageDigest);
    if digest != "" then digest else Trim(item.image)
  }

  function TargetSignature(target: Target): string {
    var parts := [Trim(target.namespace), Trim(target.kind), Trim(target.name), Trim(target.containerName)];
    var secrets := if target.imagePullSecrets != [] then target.imagePullSecrets else target.imagePullSecretNames;
    var secretPart := Join(',', Sort(NonBlank(secrets), StringLeq));
    Join('/', if secretPart != "" then parts + ["pullSecrets=" + secretPart] else parts)
  }

  function ItemSignature(item: Item): string {
    Key(item) + "|" + Join(',', Sort(Map(TargetSignature, item.targets), StringLeq))
  }

  /** What a pass stores under the item's key. */
  function Signature(item: Item, scanTypes: seq<ScanType>): string {
    ItemSignature(item) + "|scanTypes=" + Join(',', Map(TypeName, scanTypes))
  }

  // ---------------------------------------------------------------------------
  // What the signature is meant to identify
  // ---------------------------------------------------------------------------

  /** A target without surrounding blanks, blank secrets, or an order on its secrets. */
  datatype Identity = Identity(
    namespace: string,
    kind: string,
    name: string,
    containerName: string,
    secrets: seq<string>
  )

  function Identify(target: Target): (id: Identity) {
    Identity(Trim(target.namespace), Trim(target.kind), Trim(target.name), Trim(target.containerName),
             Sort(NonBlank(if target.imagePullSecrets != [] then target.imagePullSecrets
                           else target.imagePullSecretNames), StringLeq))
  }

  function Identities(item: Item): seq<Identity> {
    Map(Identify, item.targets)
  }

  /** The characters Kubernetes forbids in names, and the signature relies on. */
  ghost predicate CleanName(s: string) {
    '/' !in s && ',' !in s && '|' !in s
  }

  ghost predicate Clean(id: Identity) {
    && CleanName(id.namespace) && CleanName(id.kind) && CleanName(id.name) && CleanName(id.containerName)
    && forall i :: 0 <= i < |id.secrets| ==> CleanName(id.secrets[i]) && id.secrets[i] != ""
  }

  ghost predicate AllClean(ids: seq<Identity>) {
    forall i :: 0 <= i < |ids| ==> Clean(ids[i])
  }

  // ---------------------------------------------------------------------------
  // One target
  // ---------------------------------------------------------------------------

  function Fields(id: Identity): seq<string> {
    [id.namespace, id.kind, id.name, id.containerName]
  }

  function HeadFields(id: Identity): seq<string> {
    if id.secrets == [] then Fields(id) else Fields(id) + ["pullSecrets=" + id.secrets[0]]
  }

  /** What lies between the commas of one target's signature. */
  function Pieces(id: Identity): seq<string> {
    [Join('/', HeadFields(id))] + if id.secrets == [] then [] else id.secrets[1..]
  }

  function IdentitySignature(id: Identity): string {
    Join(',', Pieces(id))
  }

  lemma SortedNonBlank(names: seq<string>)
    ensures forall i :: 0 <= i < |Sort(NonBlank(names), StringLeq)| ==> Sort(NonBlank(names), StringLeq)[i] != ""
  {
    var s := Sort(NonBlank(names), StringLeq);
    SortMembers(NonBlank(names), StringLeq);
    forall i | 0 <= i < |s|
      ensures s[i] != ""
    {
      assert s[i] in NonBlank(names);
    }
  }

  lemma Assoc(a: string, b: string, c: string)
    ensures a + (b + c) == (a + b) + c
  {
  }

  lemma JoinHead(sep: char, x: string, rest: seq<string>)
    requires |rest| > 0
    ensures Join(sep, [x] + rest) == x + ([sep] + Join(sep, rest))
  {
    assert ([x] + rest)[1..] == rest;
    Assoc(x, [sep], Join(sep, rest));
  }

  lemma JoinLast(sep: char, parts: seq<string>, last: string, tail: string)
    requires |parts| > 0
    ensures Join(sep, parts + [last + tail]) == Join(sep, parts + [last]) + tail
  {
    JoinConcat(sep, parts, [last + tail]);
    JoinConcat(sep, parts, [last]);
    Assoc(Join(sep, parts) + [sep], last, tail);
  }

  /** Joining the secrets into the last field, or the last field into the secrets. */
  lemma SecretsJoined(fields: seq<string>, prefix: string, s0: string, rest: seq<string>)
    requires |fields| > 0 && |rest| > 0
    ensures Join('/', fields + [prefix + Join(',', [s0] + rest)])
            == Join(',', [Join('/', fields + [prefix + s0])] + rest)
  {
    var tail := [','] + Join(',', rest);
    JoinHead(',', s0, rest);
    Assoc(prefix, s0, tail);
    JoinLast('/', fields, prefix + s0, tail);
    JoinHead(',', Join('/', fields + [prefix + s0]), rest);
  }

  /** The program's signature of a target depends on its identity only. */
  lemma TargetSignatureIdentity(target: Target)
    ensures TargetSignature(target) == IdentitySignature(Identify(target))
  {
    var id := Identify(target);
    SortedNonBlank(if target.imagePullSecrets != [] then target.imagePullSecrets else target.imagePullSecretNames);
    if |id.secrets| <= 1 {
      assert Pieces(id) == [Join('/', HeadFields(id))];
    } else {
      SecretsJoined(Fields(id), "pullSecrets=", id.secrets[0], id.secrets[1..]);
      assert id.secrets == [id.secrets[0]] + id.secrets[1..];
    }
  }

  lemma HeadsClean(id: Identity)
    requires Clean(id)
    ensures AllFree('/', HeadFields(id)) && AllFree(',', HeadFields(id)) && AllFree('|', HeadFields(id))
  {
    if id.secrets != [] {
      var p := "pullSecrets=";
      assert '/' !in p && ',' !in p && '|' !in p;
      assert CleanName(id.secrets[0]);
    }
  }

  lemma PiecesShape(id: Identity)
    requires Clean(id)
    ensures '/' in Pieces(id)[0]
    ensures forall i :: 1 <= i < |Pieces(id)| ==> '/' !in Pieces(id)[i]
    ensures AllFree(',', Pieces(id)) && AllFree('|', Pieces(id))
  {
    HeadsClean(id);
    JoinFree(',', '/', HeadFields(id));
    JoinFree('|', '/', HeadFields(id));
    assert Pieces(id)[0][|id.namespace|] == '/';
    forall i | 1 <= i < |Pieces(id)|
      ensures CleanName(Pieces(id)[i])
    {
      assert Pieces(id)[i] == id.secrets[i];
    }
  }

  lemma PiecesInjective(a: Identity, b: Identity)
    requires Clean(a) && Clean(b) && Pieces(a) == Pieces(b)
    ensures a == b
  {
    HeadsClean(a);
    HeadsClean(b);
    assert Pieces(a)[0] == Pieces(b)[0];
    JoinInjective('/', HeadFields(a), HeadFields(b));
    var ha, hb := HeadFields(a), HeadFields(b);
    assert ha[0] == hb[0] && ha[1] == hb[1] && ha[2] == hb[2] && ha[3] == hb[3];
    if a.secrets != [] {
      assert ha[4] == hb[4];
      assert a.secrets[0] == ha[4][12..] && b.secrets[0] == hb[4][12..];
      assert a.secrets[1..] == Pieces(a)[1..] && b.secrets[1..] == Pieces(b)[1..];
      assert a.secrets == [a.secrets[0]] + a.secrets[1..];
      assert b.secrets == [b.secrets[0]] + b.secrets[1..];
    }
  }

  // ---------------------------------------------------------------------------
  // Several targets
  // ---------------------------------------------------------------------------

  function AllPieces(ids: seq<Identity>): seq<string> {
    if ids == [] then [] else Pieces(ids[0]) + AllPieces(ids[1..])
  }

  lemma {:induction false} JoinAllPieces(ids: seq<Identity>)
    ensures Join(',', Map(IdentitySignature, ids)) == Join(',', AllPieces(ids))
  {
    if ids != [] {
      JoinAllPieces(ids[1..]);
      var ss := Map(IdentitySignature, ids);
      assert ss[1..] == Map(IdentitySignature, ids[1..]);
      if |ids| == 1 {
        assert AllPieces(ids) == Pieces(ids[0]) + [];
        assert AllPieces(ids) == Pieces(ids[0]);
      } else {
        assert |AllPieces(ids[1..])| > 0;
        JoinConcat(',', Pieces(ids[0]), AllPieces(ids[1..]));
      }
    }
  }

  lemma {:induction false} AllPiecesFree(ids: seq<Identity>)
    requires AllClean(ids)
    ensures AllFree(',', AllPieces(ids)) && AllFree('|', AllPieces(ids))
    ensures ids != [] ==> |AllPieces(ids)| > 0 && '/' in AllPieces(ids)[0]
  {
    if ids != [] {
      PiecesShape(ids[0]);
      AllPiecesFree(ids[1..]);
    }
  }

  /** A group runs up to the next piece that has a slash. */
  lemma GroupUnique(p: seq<string>, a: seq<string>, q: seq<string>, b: seq<string>)
    requires |p| > 0 && |q| > 0 && p + a == q + b
    requires forall i :: 1 <= i < |p| ==> '/' !in p[i]
    requires forall i :: 1 <= i < |q| ==> '/' !in q[i]
    requires a != [] ==> '/' in a[0]
    requires b != [] ==> '/' in b[0]
    ensures p == q && a == b
  {
    var s, t := p + a, q + b;
    assert a != [] ==> '/' in s[|p|];
    assert b != [] ==> '/' in t[|q|];
    assert forall i :: 1 <= i < |p| ==> '/' !in s[i];
    assert forall i :: 1 <= i < |q| ==> '/' !in t[i];
    assert |p| == |q|;
    assert p == s[..|p|] && q == t[..|q|] && a == s[|p|..] && b == t[|q|..];
  }

  lemma {:induction false} AllPiecesInjective(xs: seq<Identity>, ys: seq<Identity>)
    requires AllClean(xs) && AllClean(ys) && AllPieces(xs) == AllPieces(ys)
    ensures xs == ys
  {
    AllPiecesFree(xs);
    AllPiecesFree(ys);
    if xs != [] && ys != [] {
      PiecesShape(xs[0]);
      PiecesShape(ys[0]);
      AllPiecesFree(xs[1..]);
      AllPiecesFree(ys[1..]);
      GroupUnique(Pieces(xs[0]), AllPieces(xs[1..]), Pieces(ys[0]), AllPieces(ys[1..]));
      PiecesInjective(xs[0], ys[0]);
      AllPiecesInjective(xs[1..], ys[1..]);
      assert xs == [xs[0]] + xs[1..] && ys == [ys[0]] + ys[1..];
    }
  }

  predicate SignatureLeq(a: Identity, b: Identity) {
    StringLeq(IdentitySignature(a), IdentitySignature(b))
  }

  lemma {:induction false} InsertMapped(x: Identity, xs: seq<Identity>)
    ensures Map(IdentitySignature, Insert(x, xs, SignatureLeq))
            == Insert(IdentitySignature(x), Map(IdentitySignature, xs), StringLeq)
  {
    if xs != [] {
      assert Map(IdentitySignature, xs)[1..] == Map(IdentitySignature, xs[1..]);
      if !SignatureLeq(x, xs[0]) {
        InsertMapped(x, xs[1..]);
      }
    }
  }

  /** Sorting the signatures is sorting the identities by signature. */
  lemma {:induction false} SortMapped(xs: seq<Identity>)
    ensures Map(IdentitySignature, Sort(xs, SignatureLeq)) == Sort(Map(IdentitySignature, xs), StringLeq)
  {
    if xs != [] {
      SortMapped(xs[1..]);
      InsertMapped(xs[0], Sort(xs[1..], SignatureLeq));
      assert Map(IdentitySignature, xs)[1..] == Map(IdentitySignature, xs[1..]);
    }
  }

  function TargetsPart(ids: seq<Identity>): string {
    Join(',', Sort(Map(IdentitySignature, ids), StringLeq))
  }

  lemma SortedClean(ids: seq<Identity>)
    requires AllClean(ids)
    ensures AllClean(Sort(ids, SignatureLeq))
  {
    SortMembers(ids, SignatureLeq);
    var s := Sort(ids, SignatureLeq);
    forall i | 0 <= i < |s|
      ensures Clean(s[i])
    {
      assert s[i] in ids;
    }
  }

  lemma TargetsPartPieces(ids: seq<Identity>)
    ensures TargetsPart(ids) == Join(',', AllPieces(Sort(ids, SignatureLeq)))
  {
    SortMapped(ids);
    JoinAllPieces(Sort(ids, SignatureLeq));
  }

  lemma TargetsPartFree(ids: seq<Identity>)
    requires AllClean(ids)
    ensures '|' !in TargetsPart(ids)
    ensures TargetsPart(ids) == "" <==> ids == []
  {
    var s := Sort(ids, SignatureLeq);
    TargetsPartPieces(ids);
    SortedClean(ids);
    SortMembers(ids, SignatureLeq);
    AllPiecesFree(s);
    JoinFree('|', ',', AllPieces(s));
    if ids != [] {
      assert '/' in AllPieces(s)[0];
      assert AllPieces(s)[0] <= Join(',', AllPieces(s));
    }
  }

  lemma TargetsPartInjective(xs: seq<Identity>, ys: seq<Identity>)
    requires AllClean(xs) && AllClean(ys) && TargetsPart(xs) == TargetsPart(ys)
    ensures multiset(xs) == multiset(ys)
  {
    TargetsPartFree(xs);
    TargetsPartFree(ys);
    if xs != [] && ys != [] {
      var s, t := Sort(xs, SignatureLeq), Sort(ys, SignatureLeq);
      TargetsPartPieces(xs);
      TargetsPartPieces(ys);
      SortedClean(xs);
      SortedClean(ys);
      SortMultiset(xs, SignatureLeq);
      SortMultiset(ys, SignatureLeq);
      SortMembers(xs, SignatureLeq);
      SortMembers(ys, SignatureLeq);
      AllPiecesFree(s);
      AllPiecesFree(t);
      JoinInjective(',', AllPieces(s), AllPieces(t));
      AllPiecesInjective(s, t);
    }
  }

  lemma MapConcat<A, B>(f: A -> B, xs: seq<A>, ys: seq<A>)
    ensures Map(f, xs + ys) == Map(f, xs) + Map(f, ys)
  {
  }

  lemma {:induction false} MapPermuted<A, B>(f: A -> B, xs: seq<A>, ys: seq<A>)
    requires multiset(xs) == multiset(ys)
    ensures multiset(Map(f, xs)) == multiset(Map(f, ys))
  {
    assert |xs| == |multiset(xs)| == |multiset(ys)| == |ys|;
    if xs != [] {
      assert xs == [xs[0]] + xs[1..];
      var l, r := PullOut(xs[0], ys);
      MapPermuted(f, xs[1..], l + r);
      MapConcat(f, [xs[0]], xs[1..]);
      MapConcat(f, l, [xs[0]] + r);
      MapConcat(f, [xs[0]], r);
      MapConcat(f, l, r);
    }
  }

  // ---------------------------------------------------------------------------
  // The whole signature
  // ---------------------------------------------------------------------------

  lemma ItemTargetsPart(item: Item)
    ensures ItemSignature(item) == Key(item) + "|" + TargetsPart(Identities(item))
  {
    forall i | 0 <= i < |item.targets|
      ensures TargetSignature(item.targets[i]) == IdentitySignature(Identities(item)[i])
    {
      TargetSignatureIdentity(item.targets[i]);
    }
    assert Map(TargetSignature, item.targets) == Map(IdentitySignature, Identities(item));
  }

  lemma TypesPartInjective(a: seq<ScanType>, b: seq<ScanType>)
    requires Join(',', Map(TypeName, a)) == Join(',', Map(TypeName, b))
    ensures a == b
  {
    var x, y := Map(TypeName, a), Map(TypeName, b);
    assert forall t: ScanType :: ',' !in TypeName(t) && TypeName(t) != "";
    if a != [] && b != [] {
      JoinInjective(',', x, y);
      forall i | 0 <= i < |a|
        ensures a[i] == b[i]
      {
        assert TypeName(a[i]) == x[i] == y[i] == TypeName(b[i]);
      }
    }
  }

  lemma TypesPartFree(types: seq<ScanType>)
    ensures '|' !in "scanTypes=" + Join(',', Map(TypeName, types))
  {
    JoinFree('|', ',', Map(TypeName, types));
  }

  lemma SignatureRespects(a: Item, b: Item)
    requires Key(a) == Key(b) && multiset(Identities(a)) == multiset(Identities(b))
    ensures ItemSignature(a) == ItemSignature(b)
  {
    ItemTargetsPart(a);
    ItemTargetsPart(b);
    MapPermuted(IdentitySignature, Identities(a), Identities(b));
    StringOrder();
    SortEqualIffPermuted(Map(IdentitySignature, Identities(a)), Map(IdentitySignature, Identities(b)), StringLeq);
  }

  lemma ItemSignatureInjective(a: Item, b: Item)
    requires AllClean(Identities(a)) && AllClean(Identities(b))
    requires ItemSignature(a) == ItemSignature(b)
    ensures Key(a) == Key(b) && multiset(Identities(a)) == multiset(Identities(b))
  {
    ItemTargetsPart(a);
    ItemTargetsPart(b);
    TargetsPartFree(Identities(a));
    TargetsPartFree(Identities(b));
    LastSepUnique('|', Key(a), TargetsPart(Identities(a)), Key(b), TargetsPart(Identities(b)));
    TargetsPartInjective(Identities(a), Identities(b));
  }

  lemma LastFieldUnique(sep: char, label_: string, a: string, x: string, b: string, y: string)
    requires sep !in label_ + x && sep !in label_ + y
    requires a + ([sep] + label_) + x == b + ([sep] + label_) + y
    ensures a == b && x == y
  {
    assert a + ([sep] + label_) + x == a + [sep] + (label_ + x);
    assert b + ([sep] + label_) + y == b + [sep] + (label_ + y);
    LastSepUnique(sep, a, label_ + x, b, label_ + y);
    assert x == (label_ + x)[|label_|..] && y == (label_ + y)[|label_|..];
  }

  /** Reading the scan types off the end of a signature. */
  lemma SignatureSplits(a: Item, types: seq<ScanType>, b: Item, types': seq<ScanType>)
    requires Signature(a, types) == Signature(b, types')
    ensures ItemSignature(a) == ItemSignature(b) && types == types'
  {
    TypesPartFree(types);
    TypesPartFree(types');
    assert "|scanTypes=" == ['|'] + "scanTypes=";
    LastFieldUnique('|', "scanTypes=", ItemSignature(a), Join(',', Map(TypeName, types)),
                    ItemSignature(b), Join(',', Map(TypeName, types')));
    TypesPartInjective(types, types');
  }

  /**
   The signature is an exact identity: two images have equal signatures if and only if
   they have the same key, the same multiset of targets with their secrets, and the same
   scan types. The key is unrestricted; only target and secret names must be clean.
   */
  lemma SignatureIdentifies(a: Item, types: seq<ScanType>, b: Item, types': seq<ScanType>)
    requires AllClean(Identities(a)) && AllClean(Identities(b))
    ensures Signature(a, types) == Signature(b, types')
            <==> Key(a) == Key(b) && multiset(Identities(a)) == multiset(Identities(b)) && types == types'
  {
    if Signature(a, types) == Signature(b, types') {
      SignatureSplits(a, types, b, types');
      ItemSignatureInjective(a, b);
    }
    if Key(a) == Key(b) && multiset(Identities(a)) == multiset(Identities(b)) {
      SignatureRespects(a, b);
    }
  }

  /** The non-blank names, without the blanks around them. */
  lemma {:induction false} NonBlankMembers(names: seq<string>, x: string)
    ensures x in NonBlank(names) <==> x != "" && exists i :: 0 <= i < |names| && Trim(names[i]) == x
  {
    if names != [] {
      NonBlankMembers(names[1..], x);
      assert names == [names[0]] + names[1..];
      if x in NonBlank(names[1..]) {
        var i :| 0 <= i < |names[1..]| && Trim(names[1..][i]) == x;
        assert Trim(names[i + 1]) == x;
      }
    }
  }

  /** The secrets a target names: the first list unless it is empty. */
  function SecretNames(t: Target): seq<string> {
    NonBlank(if |t.imagePullSecrets| > 0 then t.imagePullSecrets else t.imagePullSecretNames)
  }

  lemma SameIdentityIff(t: Target, u: Target)
    ensures Identify(t) == Identify(u)
            <==> && Trim(t.namespace) == Trim(u.namespace) && Trim(t.kind) == Trim(u.kind)
                 && Trim(t.name) == Trim(u.name) && Trim(t.containerName) == Trim(u.containerName)
                 && multiset(SecretNames(t)) == multiset(SecretNames(u))
  {
    StringOrder();
    SortEqualIffPermuted(SecretNames(t), SecretNames(u), StringLeq);
  }

  lemma ReplacedIdentities(item: Item, i: nat, t: Target)
    requires i < |item.targets|
    ensures Identities(item.(targets := item.targets[i := t])) == Identities(item)[i := Identify(t)]
  {
  }

  /** Which change of a workload makes the image look new: exactly one of its fields or secrets. */
  lemma ChangeShows(item: Item, i: nat, t: Target, types: seq<ScanType>)
    requires i < |item.targets|
    requires AllClean(Identities(item)) && Clean(Identify(t))
    ensures var u := item.targets[i];
            Signature(item, types) == Signature(item.(targets := item.targets[i := t]), types)
            <==> && Trim(t.namespace) == Trim(u.namespace) && Trim(t.kind) == Trim(u.kind)
                 && Trim(t.name) == Trim(u.name) && Trim(t.containerName) == Trim(u.containerName)
                 && multiset(SecretNames(t)) == multiset(SecretNames(u))
  {
    ReplacedIdentities(item, i, t);
    SignatureIdentifies(item, types, item.(targets := item.targets[i := t]), types);
    ReplacedMultiset(Identities(item), i, Identify(t));
    SameIdentityIff(t, item.targets[i]);
  }

  lemma ReplacedMultiset<A>(xs: seq<A>, i: nat, x: A)
    requires i < |xs|
    ensures multiset(xs) == multiset(xs[i := x]) <==> xs[i] == x
  {
    assert multiset(xs[i := x]) == multiset(xs) - multiset{xs[i]} + multiset{x};
    if xs[i] != x {
      assert multiset(xs[i := x])[x] == multiset(xs)[x] + 1;
    }
  }

  // ---------------------------------------------------------------------------
  // Each of the three characters has to be excluded
  // ---------------------------------------------------------------------------

  /** The scanner cannot tell the two images apart although they are not the same work. */
  ghost predicate Collide(a: Item, b: Item) {
    && (Key(a) != Key(b) || multiset(Identities(a)) != multiset(Identities(b)))
    && forall types :: Signature(a, types) == Signature(b, types)
  }

  lemma SingleTarget(image: string, digest: string, t: Target)
    ensures ItemSignature(Item(image, digest, [t]))
            == Key(Item(image, digest, [t])) + "|" + IdentitySignature(Identify(t))
    ensures Identities(Item(image, digest, [t])) == [Identify(t)]
  {
    var item := Item(image, digest, [t]);
    TargetSignatureIdentity(t);
    assert Map(TargetSignature, item.targets) == [TargetSignature(t)];
    assert Sort([TargetSignature(t)], StringLeq) == [TargetSignature(t)];
  }

  lemma DifferentTargets(image: string, digest: string, t: Target, u: Target)
    requires Identify(t) != Identify(u) && IdentitySignature(Identify(t)) == IdentitySignature(Identify(u))
    ensures Collide(Item(image, digest, [t]), Item(image, digest, [u]))
  {
    var a, b := Item(image, digest, [t]), Item(image, digest, [u]);
    SingleTarget(image, digest, t);
    SingleTarget(image, digest, u);
    assert Identify(t) in multiset(Identities(a)) && Identify(t) !in multiset(Identities(b));
  }

  ghost predicate Trimmed(s: string) {
    s != "" && Trim(s) == s && !IsSpace(s[0]) && !IsSpace(s[|s| - 1])
  }

  lemma TrimmedConcat(a: string, c: char, b: string)
    requires Trimmed(a) && Trimmed(b)
    ensures Trimmed(a + ([c] + b))
  {
    var s := a + ([c] + b);
    assert s[0] == a[0] && s[|s| - 1] == b[|b| - 1];
    TrimFixed(s);
  }

  /** A secret with a comma in it reads as two secrets, on every target of every image. */
  lemma CommaCollides(image: string, digest: string, t: Target, x: string, y: string)
    requires Trimmed(x) && Trimmed(y) && StringLeq(x, y)
    ensures Collide(Item(image, digest, [t.(imagePullSecrets := [x + ([','] + y)])]),
                    Item(image, digest, [t.(imagePullSecrets := [x, y])]))
  {
    var xy := x + ([','] + y);
    var one, two := t.(imagePullSecrets := [xy]), t.(imagePullSecrets := [x, y]);
    TrimmedConcat(x, ',', y);
    SecretsKept([xy]);
    SecretsKept([x, y]);
    assert Sort([y], StringLeq) == [y];
    assert Sort([x, y], StringLeq) == [x, y] by {
      assert [x, y][1..] == [y];
    }
    assert Sort([xy], StringLeq) == [xy];
    assert |Identify(one).secrets| != |Identify(two).secrets|;
    CommaInSecret(Identify(t), x, y);
    assert Identify(one) == Identify(t).(secrets := [xy]) && Identify(two) == Identify(t).(secrets := [x, y]);
    DifferentTargets(image, digest, one, two);
  }

  lemma {:induction false} SecretsKept(names: seq<string>)
    requires forall i :: 0 <= i < |names| ==> Trimmed(names[i])
    ensures NonBlank(names) == names
  {
    if names != [] {
      SecretsKept(names[1..]);
    }
  }

  lemma CommaInSecret(id: Identity, x: string, y: string)
    ensures IdentitySignature(id.(secrets := [x + ([','] + y)])) == IdentitySignature(id.(secrets := [x, y]))
  {
    var one, two := id.(secrets := [x + ([','] + y)]), id.(secrets := [x, y]);
    SecretsJoined(Fields(id), "pullSecrets=", x, [y]);
    JoinHead(',', x, [y]);
    assert Join(',', [y]) == y;
    assert two.secrets[1..] == [y];
    assert Pieces(one) == [Join('/', Fields(id) + ["pullSecrets=" + (x + ([','] + y))])];
    assert Pieces(two) == [Join('/', Fields(id) + ["pullSecrets=" + x])] + [y];
  }

  /** What stands at the front of the first piece stands at the front of the whole. */
  lemma JoinPrefix(sep: char, x: string, y: string, rest: seq<string>)
    ensures Join(sep, [x + y] + rest) == x + Join(sep, [y] + rest)
  {
    if rest != [] {
      JoinHead(sep, x + y, rest);
      JoinHead(sep, y, rest);
      Assoc(x, y, [sep] + Join(sep, rest));
    }
  }

  /** A slash in a name moves into the container's name, on every image. */
  lemma SlashCollides(image: string, digest: string, t: Target, x: string, y: string, z: string)
    requires Trimmed(x) && Trimmed(y) && Trimmed(z)
    ensures Collide(Item(image, digest, [t.(name := x + (['/'] + y), containerName := z)]),
                    Item(image, digest, [t.(name := x, containerName := y + (['/'] + z))]))
  {
    var one := t.(name := x + (['/'] + y), containerName := z);
    var two := t.(name := x, containerName := y + (['/'] + z));
    TrimmedConcat(x, '/', y);
    TrimmedConcat(y, '/', z);
    SlashInName(Identify(t), x, y, z);
    assert |one.name| != |two.name|;
    DifferentTargets(image, digest, one, two);
  }

  lemma Slide(x: string, c: char, y: string, tail: string)
    ensures (x + ([c] + y)) + ([c] + tail) == x + ([c] + ((y + [c]) + tail))
  {
  }

  lemma SlashSlides(x: string, y: string, z: string, rest: seq<string>)
    ensures Join('/', [x + (['/'] + y)] + ([z] + rest)) == Join('/', [x] + ([y + (['/'] + z)] + rest))
  {
    JoinHead('/', x + (['/'] + y), [z] + rest);
    JoinHead('/', x, [y + (['/'] + z)] + rest);
    Assoc(y, ['/'], z);
    JoinPrefix('/', y + ['/'], z, rest);
    Slide(x, '/', y, Join('/', [z] + rest));
  }

  lemma SlashMoves(front: seq<string>, x: string, y: string, z: string, rest: seq<string>)
    requires |front| > 0
    ensures Join('/', front + ([x + (['/'] + y)] + ([z] + rest))) == Join('/', front + ([x] + ([y + (['/'] + z)] + rest)))
  {
    SlashSlides(x, y, z, rest);
    JoinConcat('/', front, [x + (['/'] + y)] + ([z] + rest));
    JoinConcat('/', front, [x] + ([y + (['/'] + z)] + rest));
  }

  lemma SlashInName(id: Identity, x: string, y: string, z: string)
    ensures IdentitySignature(id.(name := x + (['/'] + y), containerName := z))
            == IdentitySignature(id.(name := x, containerName := y + (['/'] + z)))
  {
    var one := id.(name := x + (['/'] + y), containerName := z);
    var two := id.(name := x, containerName := y + (['/'] + z));
    var rest := if id.secrets == [] then [] else ["pullSecrets=" + id.secrets[0]];
    var front := [id.namespace, id.kind];
    assert HeadFields(one) == front + ([x + (['/'] + y)] + ([z] + rest));
    assert HeadFields(two) == front + ([x] + ([y + (['/'] + z)] + rest));
    SlashMoves(front, x, y, z, rest);
  }

  lemma KeyOfImage(image: string, targets: seq<Target>)
    requires Trimmed(image)
    ensures Key(Item(image, "", targets)) == image
  {
    TrimFixed("");
  }

  lemma PipeSlides(image: string, x: string, rest: string)
    ensures image + "|" + ((x + ['|']) + rest) == (image + (['|'] + x)) + "|" + rest
  {
  }

  /** A pipe in a namespace moves into the image's key. */
  lemma PipeCollides(image: string, t: Target, x: string, y: string)
    requires Trimmed(image) && Trimmed(x) && Trimmed(y)
    ensures Collide(Item(image, "", [t.(namespace := x + (['|'] + y))]),
                    Item(image + (['|'] + x), "", [t.(namespace := y)]))
  {
    var one, two := t.(namespace := x + (['|'] + y)), t.(namespace := y);
    TrimmedConcat(x, '|', y);
    TrimmedConcat(image, '|', x);
    KeyOfImage(image, [one]);
    KeyOfImage(image + (['|'] + x), [two]);
    PipeInNamespace(image, one, two, x, y);
    assert |image| != |image + (['|'] + x)|;
  }

  lemma PipeInNamespace(image: string, one: Target, two: Target, x: string, y: string)
    ensures && Identify(one) == Identify(two).(namespace := x + (['|'] + y)) && Identify(two).namespace == y
            && Key(Item(image, "", [one])) == image && Key(Item(image + (['|'] + x), "", [two])) == image + (['|'] + x)
            ==> ItemSignature(Item(image, "", [one])) == ItemSignature(Item(image + (['|'] + x), "", [two]))
  {
    SingleTarget(image, "", one);
    SingleTarget(image + (['|'] + x), "", two);
    Assoc(x, ['|'], y);
    NamespaceFirst(Identify(two), x + ['|'], y);
    PipeSlides(image, x, IdentitySignature(Identify(two)));
  }

  lemma NamespaceFirst(id: Identity, x: string, y: string)
    ensures IdentitySignature(id.(namespace := x + y)) == x + IdentitySignature(id.(namespace := y))
  {
    var one, two := id.(namespace := x + y), id.(namespace := y);
    var fields := HeadFields(two)[1..];
    assert HeadFields(one) == [x + y] + fields && HeadFields(two) == [y] + fields;
    JoinPrefix('/', x, y, fields);
    var rest := if id.secrets == [] then [] else id.secrets[1..];
    assert Pieces(one) == [x + Join('/', HeadFields(two))] + rest;
    assert Pieces(two) == [Join('/', HeadFields(two))] + rest;
    JoinPrefix(',', x, Join('/', HeadFields(two)), rest);
  }
}
