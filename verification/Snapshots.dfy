/**
 The local snapshot of findings and assets: each finding is stored once, slimmed, and assets
 carry finding ids only.
 */
module Snapshots {
  import opened Wrappers

  datatype SourceRef = SourceRef(name: string, importedAt: string, detail: string)

  /** `core` stands for the fields every list and report reads; the rest can be large. */
  datatype Finding = Finding(
    id: string,
    core: string,
    audit: seq<string>,
    externalLinks: Option<seq<string>>,
    regressionOf: Option<string>,
    attestation: Option<string>,
    description: Option<string>,
    justification: Option<string>,
    compensatingControls: Option<string>,
    reviewerNote: Option<string>,
    snippetMasked: Option<string>,
    archivedReason: Option<string>,
    sources: Option<seq<SourceRef>>
  )

  datatype Asset = Asset(rest: string, findings: seq<Finding>)

  /** What a saved snapshot holds for an asset: finding ids, or in older ones whole findings. */
  datatype SavedAsset = SavedAsset(rest: string, findings: Option<seq<Finding>>, findingIds: Option<seq<string>>)

  datatype Snapshot = Snapshot(findings: seq<Finding>, assets: seq<SavedAsset>)

  function SlimSource(s: SourceRef): SourceRef {
    SourceRef(s.name, s.importedAt, "")
  }

  function Slim(f: Finding): Finding {
    Finding(f.id, f.core, [], None, None, None, None, None, None, None, None, None,
            Some(if f.sources.Some? then Map(SlimSource, f.sources.value) else []))
  }

  function Id(f: Finding): string {
    f.id
  }

  function DehydrateAsset(a: Asset): SavedAsset {
    SavedAsset(a.rest, None, Some(Map(Id, a.findings)))
  }

  function Save(findings: seq<Finding>, assets: seq<Asset>): Snapshot {
    Snapshot(Map(Slim, findings), Map(DehydrateAsset, assets))
  }

  /** The map from id to finding: of several with one id the last wins. */
  function Lookup(findings: seq<Finding>, id: string): Option<Finding> {
    if findings == [] then None
    else if findings[|findings| - 1].id == id then Some(findings[|findings| - 1])
    else Lookup(findings[..|findings| - 1], id)
  }

  /** The findings that the ids name, unknown ids dropped. */
  function Resolve(ids: seq<string>, findings: seq<Finding>): (r: seq<Finding>)
    ensures |r| <= |ids|
  {
    if ids == [] then []
    else
      var f := Lookup(findings, ids[0]);
      (if f.Some? then [f.value] else []) + Resolve(ids[1..], findings)
  }

  function RehydrateAsset(a: SavedAsset, findings: seq<Finding>): Asset {
    if a.findings.Some? && a.findings.value != [] then Asset(a.rest, a.findings.value)
    else Asset(a.rest, Resolve(if a.findingIds.Some? then a.findingIds.value else [], findings))
  }

  function Rehydrate(assets: seq<SavedAsset>, findings: seq<Finding>): seq<Asset> {
    Map((a: SavedAsset) => RehydrateAsset(a, findings), assets)
  }

  function Load(s: Snapshot): seq<Asset> {
    Rehydrate(s.assets, s.findings)
  }

  /** An asset that carries its findings, as older snapshots stored it, with or without ids. */
  function Nest(a: Asset, ids: Option<seq<string>>): SavedAsset {
    SavedAsset(a.rest, Some(a.findings), ids)
  }

  /**
   Nested findings win over ids, whatever the list holds, exactly when there are some or the
   ids resolve to nothing.
   */
  lemma NestedWinsIff(a: Asset, ids: Option<seq<string>>, findings: seq<Finding>)
    ensures RehydrateAsset(Nest(a, ids), findings) == a
            <==> a.findings != [] || ids.None? || forall i :: 0 <= i < |ids.value| ==> Lookup(findings, ids.value[i]).None?
  {
    if ids.Some? {
      ResolveEmptyIff(ids.value, findings);
    }
  }

  lemma {:induction false} ResolveEmptyIff(ids: seq<string>, findings: seq<Finding>)
    ensures Resolve(ids, findings) == [] <==> forall i :: 0 <= i < |ids| ==> Lookup(findings, ids[i]).None?
  {
    if ids != [] {
      ResolveEmptyIff(ids[1..], findings);
      assert ids == [ids[0]] + ids[1..];
      if Resolve(ids, findings) == [] {
        assert |Resolve(ids, findings)| == 0;
        forall i | 0 <= i < |ids|
          ensures Lookup(findings, ids[i]).None?
        {
          assert i > 0 ==> ids[i] == ids[1..][i - 1];
        }
      }
    }
  }

  /**
   Rehydration is a projection: what was rehydrated, even if the ids are kept beside it,
   comes back unchanged against any list.
   */
  lemma HydratedUnchanged(assets: seq<Asset>, ids: seq<Option<seq<string>>>, findings: seq<Finding>)
    requires |ids| == |assets|
    requires forall i :: 0 <= i < |assets| ==> assets[i].findings != [] || ids[i].None?
    ensures Rehydrate(seq(|assets|, i requires 0 <= i < |assets| => Nest(assets[i], ids[i])), findings) == assets
  {
    forall i | 0 <= i < |assets|
      ensures RehydrateAsset(Nest(assets[i], ids[i]), findings) == assets[i]
    {
      NestedWinsIff(assets[i], ids[i], findings);
    }
  }

  // ---------------------------------------------------------------------------

  lemma {:induction false} LookupMember(findings: seq<Finding>, id: string)
    ensures Lookup(findings, id).Some? ==> Lookup(findings, id).value in findings && Lookup(findings, id).value.id == id
    ensures Lookup(findings, id).None? ==> forall i :: 0 <= i < |findings| ==> findings[i].id != id
  {
    if findings != [] && findings[|findings| - 1].id != id {
      LookupMember(findings[..|findings| - 1], id);
      assert findings == findings[..|findings| - 1] + [findings[|findings| - 1]];
    }
  }

  /** Of several findings with one id the last is found. */
  lemma {:induction false} LookupLast(findings: seq<Finding>, i: nat)
    requires i < |findings| && forall j :: i < j < |findings| ==> findings[j].id != findings[i].id
    ensures Lookup(findings, findings[i].id) == Some(findings[i])
  {
    if i < |findings| - 1 {
      LookupLast(findings[..|findings| - 1], i);
    }
  }

  ghost predicate UniqueIds(findings: seq<Finding>) {
    forall i, j :: 0 <= i < j < |findings| ==> findings[i].id != findings[j].id
  }

  lemma LookupUnique(findings: seq<Finding>, i: nat)
    requires UniqueIds(findings) && i < |findings|
    ensures Lookup(findings, findings[i].id) == Some(findings[i])
  {
    LookupMember(findings, findings[i].id);
    var got := Lookup(findings, findings[i].id);
    var j :| 0 <= j < |findings| && findings[j] == got.value;
    assert i == j;
  }

  /** The saved list finds, for every finding of the asset, that finding's own slim form. */
  ghost predicate Covers(saved: seq<Finding>, members: seq<Finding>) {
    forall i :: 0 <= i < |members| ==> Lookup(saved, members[i].id) == Some(Slim(members[i]))
  }

  lemma MapCons<A, B>(f: A -> B, xs: seq<A>)
    requires xs != []
    ensures Map(f, xs) == [f(xs[0])] + Map(f, xs[1..])
  {
  }

  lemma ConsEqual(x: Finding, xs: seq<Finding>, y: Finding, ys: seq<Finding>)
    ensures [x] + xs == [y] + ys <==> x == y && xs == ys
  {
    assert ([x] + xs)[1..] == xs && ([y] + ys)[1..] == ys;
    assert ([x] + xs)[0] == x && ([y] + ys)[0] == y;
  }

  lemma {:induction false} ResolveIffCovers(saved: seq<Finding>, members: seq<Finding>)
    ensures Resolve(Map(Id, members), saved) == Map(Slim, members) <==> Covers(saved, members)
  {
    if members != [] {
      var tail := members[1..];
      ResolveIffCovers(saved, tail);
      MapCons(Id, members);
      MapCons(Slim, members);
      assert Map(Id, members)[1..] == Map(Id, tail);
      var f, rest := Lookup(saved, members[0].id), Resolve(Map(Id, tail), saved);
      assert Resolve(Map(Id, members), saved) == (if f.Some? then [f.value] else []) + rest;
      if f.Some? {
        ConsEqual(f.value, rest, Slim(members[0]), Map(Slim, tail));
      } else {
        assert |Resolve(Map(Id, members), saved)| < |Map(Slim, members)|;
      }
    }
  }

  /** Assets whose findings all come from the top-level list. */
  ghost predicate Drawn(findings: seq<Finding>, assets: seq<Asset>) {
    forall i, j :: 0 <= i < |assets| && 0 <= j < |assets[i].findings| ==> assets[i].findings[j] in findings
  }

  /** What a reader may expect of a loaded asset. */
  function SlimAsset(a: Asset): Asset {
    Asset(a.rest, Map(Slim, a.findings))
  }

  /**
   Round trip: with unique ids and assets drawn from the list, loading a saved snapshot
   gives every asset its findings in their order, each in slim form.
   */
  lemma LoadAfterSave(findings: seq<Finding>, assets: seq<Asset>)
    requires UniqueIds(findings) && Drawn(findings, assets)
    ensures Load(Save(findings, assets)) == Map(SlimAsset, assets)
    ensures forall i :: 0 <= i < |assets| ==>
              var loaded := Load(Save(findings, assets))[i];
              && loaded.rest == assets[i].rest && |loaded.findings| == |assets[i].findings|
              && forall j :: 0 <= j < |assets[i].findings| ==>
                   loaded.findings[j].id == assets[i].findings[j].id && loaded.findings[j].core == assets[i].findings[j].core
  {
    var saved := Map(Slim, findings);
    forall i | 0 <= i < |assets|
      ensures RehydrateAsset(DehydrateAsset(assets[i]), saved) == SlimAsset(assets[i])
    {
      var members := assets[i].findings;
      forall j | 0 <= j < |members|
        ensures Lookup(saved, members[j].id) == Some(Slim(members[j]))
      {
        assert members[j] in findings;
        var n :| 0 <= n < |findings| && findings[n] == members[j];
        LookupUnique(saved, n);
      }
      ResolveIffCovers(saved, members);
    }
  }

  /** Without those conditions, exactly the covered assets come back whole. */
  lemma AssetRestoredIffCovered(findings: seq<Finding>, a: Asset)
    ensures RehydrateAsset(DehydrateAsset(a), Map(Slim, findings)) == SlimAsset(a)
            <==> Covers(Map(Slim, findings), a.findings)
  {
    ResolveIffCovers(Map(Slim, findings), a.findings);
  }

  /** What a slim finding keeps and what it drops. */
  lemma SlimKeeps(f: Finding)
    ensures Slim(f).id == f.id && Slim(f).core == f.core
    ensures Slim(f).sources.Some? && |Slim(f).sources.value| == if f.sources.Some? then |f.sources.value| else 0
    ensures f.sources.Some? ==> forall i :: 0 <= i < |f.sources.value| ==>
              && Slim(f).sources.value[i].name == f.sources.value[i].name
              && Slim(f).sources.value[i].importedAt == f.sources.value[i].importedAt
              && Slim(f).sources.value[i].detail == ""
    ensures Slim(f).audit == [] && Slim(f).externalLinks.None? && Slim(f).regressionOf.None? && Slim(f).attestation.None?
    ensures Slim(f).description.None? && Slim(f).justification.None? && Slim(f).compensatingControls.None?
    ensures Slim(f).reviewerNote.None? && Slim(f).snippetMasked.None? && Slim(f).archivedReason.None?
  {
  }

  lemma SlimIdempotent(f: Finding)
    ensures Slim(Slim(f)) == Slim(f)
  {
    var s := Slim(f).sources.value;
    assert Map(SlimSource, s) == s;
  }

  /** Saving what was loaded saves the same snapshot again. */
  lemma SaveIsStable(findings: seq<Finding>, assets: seq<Asset>)
    requires UniqueIds(findings) && Drawn(findings, assets)
    ensures var s := Save(findings, assets); Save(s.findings, Load(s)) == s
  {
    var s := Save(findings, assets);
    LoadAfterSave(findings, assets);
    forall i | 0 <= i < |findings|
      ensures Slim(s.findings[i]) == s.findings[i]
    {
      SlimIdempotent(findings[i]);
    }
    assert Map(Slim, s.findings) == s.findings;
    forall i | 0 <= i < |assets|
      ensures DehydrateAsset(SlimAsset(assets[i])) == DehydrateAsset(assets[i])
    {
      assert Map(Id, Map(Slim, assets[i].findings)) == Map(Id, assets[i].findings);
    }
    assert Map(DehydrateAsset, Load(s)) == s.assets;
  }
}
