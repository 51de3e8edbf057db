/** Deriving assets from findings: group by key, then count. */
module AssetRollup {
  import opened Wrappers
  import opened Text
  import opened MetricSemantics
  import G = GroupKey
  import R = ContainerRef

  datatype Finding = Finding(
    id: string,
    image: string,
    component: string,
    status: string,
    severity: string,
    slaDue: Option<int>
  )

  datatype Asset = Asset(
    id: string,
    findings: seq<Finding>,
    openCount: nat,
    inReviewCount: nat,
    overdueCount: nat,
    verifiedCount: nat,
    statusBreakdown: map<string, nat>,
    worstSeverity: string
  )

  // ---------------------------------------------------------------------------
  // The key
  // ---------------------------------------------------------------------------

  predicate Exposed(assetId: string) {
    var id := Lower(Trim(assetId));
    id != "" && !("k8s/" <= id)
  }

  function AssetKey(f: Finding, rules: seq<G.Rule>): Option<string> {
    var img, comp := Trim(f.image), Trim(f.component);
    if img != "" then
      var key := G.ImageGroupKey(img, rules);
      if Exposed(key) then Some(key) else None
    else if comp != "" then (if Exposed(comp) then Some(comp) else None)
    else Some("unknown-" + f.id)
  }

  type KeyOf = Finding -> Option<string>

  // ---------------------------------------------------------------------------
  // Counting
  // ---------------------------------------------------------------------------

  function Count(fs: seq<Finding>, p: Finding -> bool): nat {
    if fs == [] then 0 else Count(fs[..|fs| - 1], p) + if p(fs[|fs| - 1]) then 1 else 0
  }

  /** The findings that belong to asset `k`, in input order. */
  function Members(fs: seq<Finding>, key: KeyOf, k: string): seq<Finding> {
    if fs == [] then []
    else Members(fs[..|fs| - 1], key, k) + if key(fs[|fs| - 1]) == Some(k) then [fs[|fs| - 1]] else []
  }

  /** The findings that belong to some asset. */
  function Visible(fs: seq<Finding>, key: KeyOf): seq<Finding> {
    if fs == [] then []
    else Visible(fs[..|fs| - 1], key) + if key(fs[|fs| - 1]).Some? then [fs[|fs| - 1]] else []
  }

  /** The asset ids in the order their first finding appears. */
  function Ids(fs: seq<Finding>, key: KeyOf): seq<string> {
    if fs == [] then []
    else
      var ids, k := Ids(fs[..|fs| - 1], key), key(fs[|fs| - 1]);
      if k.Some? && k.value !in ids then ids + [k.value] else ids
  }

  function SumCounts(ids: seq<string>, fs: seq<Finding>, key: KeyOf, p: Finding -> bool): nat {
    if ids == [] then 0
    else SumCounts(ids[..|ids| - 1], fs, key, p) + Count(Members(fs, key, ids[|ids| - 1]), p)
  }

  ghost predicate Distinct(ids: seq<string>) {
    forall i, j :: 0 <= i < j < |ids| ==> ids[i] != ids[j]
  }

  lemma {:induction false} IdsFacts(fs: seq<Finding>, key: KeyOf)
    ensures Distinct(Ids(fs, key))
    ensures forall k :: k in Ids(fs, key) <==> exists i :: 0 <= i < |fs| && key(fs[i]) == Some(k)
  {
    if fs != [] {
      var init, last := fs[..|fs| - 1], fs[|fs| - 1];
      IdsFacts(init, key);
      forall k
        ensures k in Ids(fs, key) <==> exists i :: 0 <= i < |fs| && key(fs[i]) == Some(k)
      {
        if k in Ids(init, key) {
          var i :| 0 <= i < |init| && key(init[i]) == Some(k);
          assert fs[i] == init[i];
        } else if exists i :: 0 <= i < |fs| && key(fs[i]) == Some(k) {
          var i :| 0 <= i < |fs| && key(fs[i]) == Some(k);
          assert i < |init| ==> init[i] == fs[i];
        }
      }
    }
  }

  lemma CountSnoc(fs: seq<Finding>, f: Finding, p: Finding -> bool)
    ensures Count(fs + [f], p) == Count(fs, p) + if p(f) then 1 else 0
  {
    assert (fs + [f])[..|fs|] == fs;
  }

  lemma MembersSnoc(fs: seq<Finding>, f: Finding, key: KeyOf, k: string)
    ensures Members(fs + [f], key, k) == Members(fs, key, k) + if key(f) == Some(k) then [f] else []
  {
    assert (fs + [f])[..|fs|] == fs;
  }

  lemma CountMembersSnoc(fs: seq<Finding>, f: Finding, key: KeyOf, k: string, p: Finding -> bool)
    ensures Count(Members(fs + [f], key, k), p)
            == Count(Members(fs, key, k), p) + if key(f) == Some(k) && p(f) then 1 else 0
  {
    MembersSnoc(fs, f, key, k);
    if key(f) == Some(k) {
      CountSnoc(Members(fs, key, k), f, p);
    } else {
      assert Members(fs, key, k) + [] == Members(fs, key, k);
    }
  }

  /** One more finding adds to the total of exactly the asset it belongs to. */
  lemma {:induction false} SumSnoc(ids: seq<string>, fs: seq<Finding>, f: Finding, key: KeyOf, p: Finding -> bool)
    requires Distinct(ids)
    ensures SumCounts(ids, fs + [f], key, p)
            == SumCounts(ids, fs, key, p)
               + if key(f).Some? && key(f).value in ids && p(f) then 1 else 0
  {
    if ids != [] {
      var init, k := ids[..|ids| - 1], ids[|ids| - 1];
      SumSnoc(init, fs, f, key, p);
      CountMembersSnoc(fs, f, key, k, p);
      assert key(f) == Some(k) ==> k !in init;
    }
  }

  lemma {:induction false} NoMembers(fs: seq<Finding>, key: KeyOf, k: string)
    requires forall i :: 0 <= i < |fs| ==> key(fs[i]) != Some(k)
    ensures Members(fs, key, k) == []
  {
    if fs != [] {
      NoMembers(fs[..|fs| - 1], key, k);
    }
  }

  /** The total over the assets there were grows by the finding or by nothing; so does a new asset's. */
  lemma SumWithIds(fs: seq<Finding>, f: Finding, key: KeyOf, p: Finding -> bool)
    ensures SumCounts(Ids(fs + [f], key), fs, key, p) == SumCounts(Ids(fs, key), fs, key, p)
    ensures key(f).Some? ==> key(f).value in Ids(fs + [f], key)
  {
    assert (fs + [f])[..|fs|] == fs;
    IdsFacts(fs, key);
    if key(f).Some? && key(f).value !in Ids(fs, key) {
      NoMembers(fs, key, key(f).value);
    }
  }

  lemma VisibleSnoc(fs: seq<Finding>, f: Finding, key: KeyOf, p: Finding -> bool)
    ensures Count(Visible(fs + [f], key), p) == Count(Visible(fs, key), p) + if key(f).Some? && p(f) then 1 else 0
  {
    assert (fs + [f])[..|fs|] == fs;
    if key(f).Some? {
      CountSnoc(Visible(fs, key), f, p);
    } else {
      assert Visible(fs, key) + [] == Visible(fs, key);
    }
  }

  /**
   Conservation: for any property whatever, the assets together hold exactly as many
   findings with it as the visible input does. Nothing is lost, duplicated or invented.
   */
  lemma {:induction false} Conservation(fs: seq<Finding>, key: KeyOf, p: Finding -> bool)
    ensures SumCounts(Ids(fs, key), fs, key, p) == Count(Visible(fs, key), p)
  {
    if fs != [] {
      var init, f := fs[..|fs| - 1], fs[|fs| - 1];
      assert fs == init + [f];
      Conservation(init, key, p);
      IdsFacts(fs, key);
      SumSnoc(Ids(fs, key), init, f, key, p);
      SumWithIds(init, f, key, p);
      VisibleSnoc(init, f, key, p);
    }
  }

  // ---------------------------------------------------------------------------
  // The numbers of one asset
  // ---------------------------------------------------------------------------

  function IndexOf(order: seq<string>, s: string): (i: int)
    ensures -1 <= i < |order|
    ensures i >= 0 ==> order[i] == s && forall j :: 0 <= j < i ==> order[j] != s
    ensures i < 0 ==> s !in order
  {
    if order == [] then -1
    else if order[0] == s then 0
    else
      var i := IndexOf(order[1..], s);
      if i < 0 then -1 else i + 1
  }

  /** The index of the most severe finding, or -1 when no severity is in the order. */
  function Worst(fs: seq<Finding>, order: seq<string>): int {
    if fs == [] then -1
    else
      var w, idx := Worst(fs[..|fs| - 1], order), IndexOf(order, fs[|fs| - 1].severity);
      if idx >= 0 && (w < 0 || idx < w) then idx else w
  }

  function SeverityAt(w: int, order: seq<string>): string {
    if 0 <= w < |order| then order[w] else "Informational"
  }

  predicate IsOverdue(f: Finding, now: int) {
    IsOpenRisk(f.status) && f.slaDue.Some? && f.slaDue.value < now
  }

  predicate OpenFinding(f: Finding) {
    IsOpenRisk(f.status)
  }

  predicate VerifiedFinding(f: Finding) {
    IsClosedDisposition(f.status)
  }

  predicate AcceptedFinding(f: Finding) {
    IsRiskAccepted(f.status)
  }

  predicate BlankFinding(f: Finding) {
    IsBlank(f.status)
  }

  predicate InReview(f: Finding) {
    f.status == "In Review"
  }

  function OverdueAt(now: int): Finding -> bool {
    (f: Finding) => IsOverdue(f, now)
  }

  function WithStatus(s: string): Finding -> bool {
    (f: Finding) => f.status == s
  }

  /** Every status present has its exact count, and no other status has an entry. */
  ghost predicate IsBreakdown(m: map<string, nat>, fs: seq<Finding>) {
    && (forall s :: s in m ==> m[s] == Count(fs, WithStatus(s)) > 0)
    && (forall i :: 0 <= i < |fs| ==> fs[i].status in m)
  }

  /** All that `deriveAssets` promises about one asset. */
  ghost predicate RolledUp(a: Asset, sevOrder: seq<string>, now: int) {
    && a.openCount == Count(a.findings, OpenFinding)
    && a.inReviewCount == Count(a.findings, InReview)
    && a.overdueCount == Count(a.findings, OverdueAt(now))
    && a.verifiedCount == Count(a.findings, VerifiedFinding)
    && IsBreakdown(a.statusBreakdown, a.findings)
    && a.worstSeverity == SeverityAt(Worst(a.findings, sevOrder), sevOrder)
  }

  lemma BreakdownSnoc(m: map<string, nat>, fs: seq<Finding>, f: Finding)
    requires IsBreakdown(m, fs)
    ensures IsBreakdown(m[f.status := (if f.status in m then m[f.status] else 0) + 1], fs + [f])
  {
    var m' := m[f.status := (if f.status in m then m[f.status] else 0) + 1];
    forall s | s in m'
      ensures m'[s] == Count(fs + [f], WithStatus(s)) > 0
    {
      CountSnoc(fs, f, WithStatus(s));
      if s !in m {
        Absent(fs, s);
      }
    }
  }

  lemma {:induction false} Absent(fs: seq<Finding>, s: string)
    requires forall i :: 0 <= i < |fs| ==> fs[i].status != s
    ensures Count(fs, WithStatus(s)) == 0
  {
    if fs != [] {
      Absent(fs[..|fs| - 1], s);
    }
  }

  /** The numbers of one asset, in one loop over its findings. */
  method RollUp(id: string, list: seq<Finding>, sevOrder: seq<string>, now: int) returns (a: Asset)
    ensures a.id == id && a.findings == list && RolledUp(a, sevOrder, now)
  {
    var open, review, overdue, verified, worst := 0, 0, 0, 0, -1;
    var breakdown: map<string, nat> := map[];
    for k := 0 to |list|
      invariant open == Count(list[..k], OpenFinding) && review == Count(list[..k], InReview)
      invariant overdue == Count(list[..k], OverdueAt(now)) && verified == Count(list[..k], VerifiedFinding)
      invariant worst == Worst(list[..k], sevOrder)
      invariant IsBreakdown(breakdown, list[..k])
    {
      var f := list[k];
      assert list[..k + 1] == list[..k] + [f] && list[..k + 1][..k] == list[..k];
      BreakdownSnoc(breakdown, list[..k], f);
      breakdown := breakdown[f.status := (if f.status in breakdown then breakdown[f.status] else 0) + 1];
      if IsOpenRisk(f.status) { open := open + 1; }
      if f.status == "In Review" { review := review + 1; }
      if IsOverdue(f, now) { overdue := overdue + 1; }
      if IsClosedDisposition(f.status) { verified := verified + 1; }
      var idx := IndexOf(sevOrder, f.severity);
      if idx >= 0 && (worst < 0 || idx < worst) { worst := idx; }
    }
    assert list[..|list|] == list;
    a := Asset(id, list, open, review, overdue, verified, breakdown, SeverityAt(worst, sevOrder));
  }

  /** `ids` and `byKey` are the insertion-ordered map of the findings seen so far. */
  ghost predicate Grouped(ids: seq<string>, byKey: map<string, seq<Finding>>, fs: seq<Finding>, key: KeyOf) {
    && ids == Ids(fs, key)
    && (forall k :: k in byKey <==> k in ids)
    && (forall k :: k in byKey ==> byKey[k] == Members(fs, key, k))
  }

  /** The lists after `f` joins the list of its key. */
  function Joined(byKey: map<string, seq<Finding>>, f: Finding, k: string): map<string, seq<Finding>> {
    byKey[k := (if k in byKey then byKey[k] else []) + [f]]
  }

  lemma JoinedMembers(ids: seq<string>, byKey: map<string, seq<Finding>>, fs: seq<Finding>, f: Finding, key: KeyOf, k: string)
    requires Grouped(ids, byKey, fs, key) && key(f).Some?
    requires k in Joined(byKey, f, key(f).value)
    ensures Joined(byKey, f, key(f).value)[k] == Members(fs + [f], key, k)
  {
    MembersSnoc(fs, f, key, k);
    if k !in byKey {
      IdsFacts(fs, key);
      NoMembers(fs, key, k);
    }
  }

  lemma GroupedSnoc(ids: seq<string>, byKey: map<string, seq<Finding>>, fs: seq<Finding>, f: Finding, key: KeyOf)
    requires Grouped(ids, byKey, fs, key) && key(f).Some?
    ensures var k := key(f).value;
            Grouped(if k in byKey then ids else ids + [k], Joined(byKey, f, k), fs + [f], key)
  {
    assert (fs + [f])[..|fs|] == fs;
    forall k | k in Joined(byKey, f, key(f).value)
      ensures Joined(byKey, f, key(f).value)[k] == Members(fs + [f], key, k)
    {
      JoinedMembers(ids, byKey, fs, f, key, k);
    }
  }

  method Group(fs: seq<Finding>, key: KeyOf) returns (ids: seq<string>, byKey: map<string, seq<Finding>>)
    ensures Grouped(ids, byKey, fs, key)
  {
    ids, byKey := [], map[];
    for n := 0 to |fs|
      invariant Grouped(ids, byKey, fs[..n], key)
    {
      assert fs[..n + 1] == fs[..n] + [fs[n]];
      var k := key(fs[n]);
      if k.None? {
        continue;
      }
      GroupedSnoc(ids, byKey, fs[..n], fs[n], key);
      var list := if k.value in byKey then byKey[k.value] else [];
      if k.value !in byKey {
        ids := ids + [k.value];
      }
      byKey := byKey[k.value := list + [fs[n]]];
    }
    assert fs[..|fs|] == fs;
  }

  /** One asset per distinct key, in order of first appearance, with its findings in input order. */
  method DeriveAssets(fs: seq<Finding>, key: KeyOf, sevOrder: seq<string>, now: int) returns (assets: seq<Asset>)
    ensures |assets| == |Ids(fs, key)| && Distinct(Ids(fs, key))
    ensures forall i :: 0 <= i < |assets| ==>
              && assets[i].id == Ids(fs, key)[i]
              && assets[i].findings == Members(fs, key, assets[i].id)
              && RolledUp(assets[i], sevOrder, now)
  {
    var ids, byKey := Group(fs, key);
    IdsFacts(fs, key);
    assets := [];
    for n := 0 to |ids|
      invariant |assets| == n
      invariant forall i :: 0 <= i < n ==>
                  && assets[i].id == ids[i]
                  && assets[i].findings == Members(fs, key, ids[i])
                  && RolledUp(assets[i], sevOrder, now)
    {
      assert ids[n] in byKey;
      var a := RollUp(ids[n], byKey[ids[n]], sevOrder, now);
      assets := assets + [a];
    }
  }

  // ---------------------------------------------------------------------------
  // What the numbers mean
  // ---------------------------------------------------------------------------

  /** Open, verified, risk-accepted and blank findings are all of an asset's findings, once each. */
  lemma {:induction false} ReadingsAddUp(fs: seq<Finding>)
    ensures Count(fs, OpenFinding) + Count(fs, VerifiedFinding) + Count(fs, AcceptedFinding) + Count(fs, BlankFinding)
            == |fs|
  {
    if fs != [] {
      ReadingsAddUp(fs[..|fs| - 1]);
      ExactlyOneReading(fs[|fs| - 1].status);
    }
  }

  /** The worst severity is the least index present; none is present when it is -1. */
  lemma {:induction false} WorstIsLeast(fs: seq<Finding>, order: seq<string>)
    ensures var w := Worst(fs, order);
            && -1 <= w < |order|
            && (w >= 0 ==> exists i :: 0 <= i < |fs| && IndexOf(order, fs[i].severity) == w)
            && (forall i :: 0 <= i < |fs| && fs[i].severity in order ==> 0 <= w <= IndexOf(order, fs[i].severity))
  {
    if fs != [] {
      var init, f := fs[..|fs| - 1], fs[|fs| - 1];
      WorstIsLeast(init, order);
      var w := Worst(fs, order);
      if w >= 0 {
        if w == Worst(init, order) {
          var i :| 0 <= i < |init| && IndexOf(order, init[i].severity) == w;
          assert fs[i] == init[i];
        } else {
          assert fs[|fs| - 1] == f;
        }
      }
      forall i | 0 <= i < |fs| && fs[i].severity in order
        ensures 0 <= w <= IndexOf(order, fs[i].severity)
      {
        if i < |init| {
          assert init[i] == fs[i];
        }
      }
    }
  }

  function StatusKey(f: Finding): Option<string> {
    Some(f.status)
  }

  predicate Any(f: Finding) {
    true
  }

  lemma {:induction false} CountAny(fs: seq<Finding>)
    ensures Count(fs, Any) == |fs|
  {
    if fs != [] {
      CountAny(fs[..|fs| - 1]);
    }
  }

  lemma {:induction false} StatusMembers(fs: seq<Finding>, s: string)
    ensures |Members(fs, StatusKey, s)| == Count(fs, WithStatus(s))
    ensures |Visible(fs, StatusKey)| == |fs|
  {
    if fs != [] {
      StatusMembers(fs[..|fs| - 1], s);
    }
  }

  function SumOver(keys: seq<string>, m: map<string, nat>): nat {
    if keys == [] then 0
    else SumOver(keys[..|keys| - 1], m) + if keys[|keys| - 1] in m then m[keys[|keys| - 1]] else 0
  }

  lemma {:induction false} SumOverIsSumCounts(keys: seq<string>, m: map<string, nat>, fs: seq<Finding>)
    requires IsBreakdown(m, fs) && forall k :: k in keys ==> k in m
    ensures SumOver(keys, m) == SumCounts(keys, fs, StatusKey, Any)
  {
    if keys != [] {
      var init, k := keys[..|keys| - 1], keys[|keys| - 1];
      SumOverIsSumCounts(init, m, fs);
      StatusMembers(fs, k);
      CountAny(Members(fs, StatusKey, k));
      assert k in keys;
    }
  }

  /** The breakdown lists each status once, and its counts sum to the asset's size. */
  lemma BreakdownSums(m: map<string, nat>, fs: seq<Finding>)
    requires IsBreakdown(m, fs)
    ensures Distinct(Ids(fs, StatusKey)) && forall k :: k in m <==> k in Ids(fs, StatusKey)
    ensures SumOver(Ids(fs, StatusKey), m) == |fs|
  {
    IdsFacts(fs, StatusKey);
    forall k
      ensures k in m <==> k in Ids(fs, StatusKey)
    {
      if k in m && k !in Ids(fs, StatusKey) {
        Absent(fs, k);
      }
    }
    SumOverIsSumCounts(Ids(fs, StatusKey), m, fs);
    Conservation(fs, StatusKey, Any);
    StatusMembers(fs, "");
    CountAny(Visible(fs, StatusKey));
  }

  function SumOpen(assets: seq<Asset>): nat {
    if assets == [] then 0 else SumOpen(assets[..|assets| - 1]) + assets[|assets| - 1].openCount
  }

  lemma {:induction false} SumOpenIsSumCounts(assets: seq<Asset>, ids: seq<string>, fs: seq<Finding>, key: KeyOf)
    requires |assets| == |ids|
    requires forall i :: 0 <= i < |assets| ==> assets[i].openCount == Count(Members(fs, key, ids[i]), OpenFinding)
    ensures SumOpen(assets) == SumCounts(ids, fs, key, OpenFinding)
  {
    if assets != [] {
      SumOpenIsSumCounts(assets[..|assets| - 1], ids[..|ids| - 1], fs, key);
    }
  }

  /** The open counts of the derived assets sum to the open findings of the visible input. */
  lemma OpenCountsAddUp(assets: seq<Asset>, fs: seq<Finding>, key: KeyOf, sevOrder: seq<string>, now: int)
    requires |assets| == |Ids(fs, key)|
    requires forall i :: 0 <= i < |assets| ==>
               && assets[i].id == Ids(fs, key)[i]
               && assets[i].findings == Members(fs, key, assets[i].id)
               && RolledUp(assets[i], sevOrder, now)
    ensures SumOpen(assets) == Count(Visible(fs, key), OpenFinding)
  {
    SumOpenIsSumCounts(assets, Ids(fs, key), fs, key);
    Conservation(fs, key, OpenFinding);
  }

  function KeyWith(rules: seq<G.Rule>): KeyOf {
    (f: Finding) => AssetKey(f, rules)
  }

  // ---------------------------------------------------------------------------
  // Order and counts, independently of the loops
  // ---------------------------------------------------------------------------

  /** Input order: the findings of a key in two lists are those in the first, then those in the second. */
  lemma {:induction false} MembersConcat(fs: seq<Finding>, gs: seq<Finding>, key: KeyOf, k: string)
    ensures Members(fs + gs, key, k) == Members(fs, key, k) + Members(gs, key, k)
  {
    if gs == [] {
      assert fs + gs == fs;
    } else {
      var init, last := gs[..|gs| - 1], gs[|gs| - 1];
      assert (fs + gs)[..|fs + gs| - 1] == fs + init;
      MembersConcat(fs, init, key, k);
    }
  }

  /** First-seen order: more findings only add assets behind the ones there are. */
  lemma {:induction false} IdsPrefix(fs: seq<Finding>, gs: seq<Finding>, key: KeyOf)
    ensures Ids(fs, key) <= Ids(fs + gs, key)
  {
    if gs == [] {
      assert fs + gs == fs;
    } else {
      var init := gs[..|gs| - 1];
      assert (fs + gs)[..|fs + gs| - 1] == fs + init;
      IdsPrefix(fs, init, key);
    }
  }

  /** The positions of the findings that are still a risk, in review, overdue, or closed. */
  function OpenAt(fs: seq<Finding>): set<int> {
    set i | 0 <= i < |fs| && IsOpenRisk(fs[i].status)
  }

  function ReviewAt(fs: seq<Finding>): set<int> {
    set i | 0 <= i < |fs| && fs[i].status == "In Review"
  }

  function LateAt(fs: seq<Finding>, now: int): set<int> {
    set i | i in OpenAt(fs) && fs[i].slaDue.Some? && fs[i].slaDue.value < now
  }

  function ClosedAt(fs: seq<Finding>): set<int> {
    set i | 0 <= i < |fs| && IsClosedDisposition(fs[i].status)
  }

  function Positions(fs: seq<Finding>, p: Finding -> bool): set<int> {
    set i | 0 <= i < |fs| && p(fs[i])
  }

  lemma PositionsSnoc(fs: seq<Finding>, f: Finding, p: Finding -> bool)
    ensures Positions(fs + [f], p) == if p(f) then Positions(fs, p) + {|fs|} else Positions(fs, p)
  {
    assert (fs + [f])[|fs|] == f;
    assert forall i :: 0 <= i < |fs| ==> (fs + [f])[i] == fs[i];
  }

  /** A count is the number of positions. */
  lemma {:induction false} CountIsCardinality(fs: seq<Finding>, p: Finding -> bool)
    ensures Count(fs, p) == |Positions(fs, p)|
  {
    if fs != [] {
      var init, last := fs[..|fs| - 1], fs[|fs| - 1];
      CountIsCardinality(init, p);
      PositionsSnoc(init, last, p);
      assert fs == init + [last];
      assert |init| !in Positions(init, p);
    }
  }

  /** What the four counters of an asset count. */
  lemma CountersMean(a: Asset, sevOrder: seq<string>, now: int)
    requires RolledUp(a, sevOrder, now)
    ensures a.openCount == |OpenAt(a.findings)| && a.verifiedCount == |ClosedAt(a.findings)|
    ensures a.inReviewCount == |ReviewAt(a.findings)| && a.overdueCount == |LateAt(a.findings, now)|
  {
    CountIsCardinality(a.findings, OpenFinding);
    CountIsCardinality(a.findings, VerifiedFinding);
    CountIsCardinality(a.findings, InReview);
    CountIsCardinality(a.findings, OverdueAt(now));
    assert OpenAt(a.findings) == Positions(a.findings, OpenFinding);
    assert ClosedAt(a.findings) == Positions(a.findings, VerifiedFinding);
    assert ReviewAt(a.findings) == Positions(a.findings, InReview);
    assert LateAt(a.findings, now) == Positions(a.findings, OverdueAt(now));
  }

  /** The severity an asset shows: the first in the order that one of its findings has. */
  lemma WorstSeverityMeans(a: Asset, sevOrder: seq<string>, now: int, n: nat)
    requires RolledUp(a, sevOrder, now)
    requires n <= |sevOrder| && forall i, j :: 0 <= i < n && 0 <= j < |a.findings| ==> a.findings[j].severity != sevOrder[i]
    ensures n < |sevOrder| && (exists j :: 0 <= j < |a.findings| && a.findings[j].severity == sevOrder[n])
            ==> a.worstSeverity == sevOrder[n]
    ensures n == |sevOrder| ==> a.worstSeverity == "Informational"
  {
    WorstIsLeast(a.findings, sevOrder);
    var w := Worst(a.findings, sevOrder);
    if n < |sevOrder| && exists j :: 0 <= j < |a.findings| && a.findings[j].severity == sevOrder[n] {
      var j :| 0 <= j < |a.findings| && a.findings[j].severity == sevOrder[n];
      assert IndexOf(sevOrder, a.findings[j].severity) <= n;
      assert w >= n;
    }
  }

  // ---------------------------------------------------------------------------
  // Where a finding is shown
  // ---------------------------------------------------------------------------

  /** The finding is in the asset with this id and in no other. */
  ghost predicate ShownUnder(f: Finding, assets: seq<Asset>, id: string) {
    && (exists i :: 0 <= i < |assets| && assets[i].id == id && f in assets[i].findings)
    && (forall i :: 0 <= i < |assets| && f in assets[i].findings ==> assets[i].id == id)
  }

  ghost predicate ShownNowhere(f: Finding, assets: seq<Asset>) {
    forall i :: 0 <= i < |assets| ==> f !in assets[i].findings
  }

  /** Shown under `text`, or nowhere when that is blank or names a cluster resource. */
  ghost predicate ShownUnless(f: Finding, assets: seq<Asset>, text: string) {
    if Trim(text) == "" || "k8s/" <= Lower(Trim(text)) then ShownNowhere(f, assets) else ShownUnder(f, assets, text)
  }

  /**
   Where a finding is shown: under its image whatever its component is, under its component
   where it has no image, else under an id of its own. A well-formed image stands for its
   canonical key under the rules; cluster resources and bare names for themselves.
   */
  ghost predicate ShownRight(f: Finding, rules: seq<G.Rule>, assets: seq<Asset>) {
    && (forall r: R.Ref :: R.WellFormed(r) && Trim(f.image) == R.Print(r) ==>
          ShownUnless(f, assets, if "k8s/" <= Lower(R.Print(r)) || G.Bare(r) then R.Print(r)
                                 else G.ApplyAliases(R.CanonicalKey(r), rules)))
    && (Trim(f.image) == "" && Trim(f.component) != "" ==> ShownUnless(f, assets, Trim(f.component)))
    && (Trim(f.image) == "" && Trim(f.component) == "" ==> ShownUnder(f, assets, "unknown-" + f.id))
  }

  lemma {:induction false} MembersContain(fs: seq<Finding>, key: KeyOf, k: string, f: Finding)
    ensures f in Members(fs, key, k) <==> f in fs && key(f) == Some(k)
  {
    if fs != [] {
      MembersContain(fs[..|fs| - 1], key, k, f);
      assert fs == fs[..|fs| - 1] + [fs[|fs| - 1]];
    }
  }

  ghost predicate Derived(assets: seq<Asset>, fs: seq<Finding>, key: KeyOf) {
    && |assets| == |Ids(fs, key)|
    && forall i :: 0 <= i < |assets| ==> assets[i].id == Ids(fs, key)[i] && assets[i].findings == Members(fs, key, assets[i].id)
  }

  lemma ShownByKey(f: Finding, fs: seq<Finding>, key: KeyOf, assets: seq<Asset>)
    requires f in fs && Derived(assets, fs, key)
    ensures if key(f).Some? then ShownUnder(f, assets, key(f).value) else ShownNowhere(f, assets)
  {
    IdsFacts(fs, key);
    forall i | 0 <= i < |assets|
      ensures f in assets[i].findings <==> key(f) == Some(assets[i].id)
    {
      MembersContain(fs, key, assets[i].id, f);
    }
    if key(f).Some? {
      var j :| 0 <= j < |fs| && fs[j] == f;
      assert key(f).value in Ids(fs, key);
      var i :| 0 <= i < |Ids(fs, key)| && Ids(fs, key)[i] == key(f).value;
      assert assets[i].id == key(f).value;
    }
  }

  /** The text a finding's key is made from, and when it is hidden. */
  predicate KeyIs(key: Option<string>, text: string) {
    key == if Trim(text) == "" || "k8s/" <= Lower(Trim(text)) then None else Some(text)
  }

  lemma ExposedMeans(text: string)
    ensures Exposed(text) <==> Trim(text) != "" && !("k8s/" <= Lower(Trim(text)))
  {
    LowerAt(Trim(text));
  }

  lemma ImageKey(f: Finding, rules: seq<G.Rule>, r: R.Ref)
    requires R.WellFormed(r) && Trim(f.image) == R.Print(r)
    ensures KeyIs(AssetKey(f, rules), if "k8s/" <= Lower(R.Print(r)) || G.Bare(r) then R.Print(r)
                                      else G.ApplyAliases(R.CanonicalKey(r), rules))
  {
    R.PrintFacts(r);
    G.GroupKeyPrinted(r, rules);
    ExposedMeans(G.ImageGroupKey(R.Print(r), rules));
  }

  lemma ComponentKey(f: Finding, rules: seq<G.Rule>)
    requires Trim(f.image) == ""
    ensures Trim(f.component) != "" ==> KeyIs(AssetKey(f, rules), Trim(f.component))
    ensures Trim(f.component) == "" ==> AssetKey(f, rules) == Some("unknown-" + f.id)
  {
    ExposedMeans(Trim(f.component));
  }

  lemma AllShownRight(f: Finding, fs: seq<Finding>, rules: seq<G.Rule>, assets: seq<Asset>)
    requires f in fs && Derived(assets, fs, KeyWith(rules))
    ensures ShownRight(f, rules, assets)
  {
    ShownByKey(f, fs, KeyWith(rules), assets);
    forall r: R.Ref | R.WellFormed(r) && Trim(f.image) == R.Print(r)
      ensures ShownUnless(f, assets, if "k8s/" <= Lower(R.Print(r)) || G.Bare(r) then R.Print(r)
                                     else G.ApplyAliases(R.CanonicalKey(r), rules))
    {
      ImageKey(f, rules, r);
    }
    if Trim(f.image) == "" {
      ComponentKey(f, rules);
    }
  }

  /** The dashboard's own pipeline: every finding it shows is counted once under its asset. */
  method DeriveDashboard(fs: seq<Finding>, rules: seq<G.Rule>, sevOrder: seq<string>, now: int)
    returns (assets: seq<Asset>)
    ensures |assets| == |Ids(fs, KeyWith(rules))| && Distinct(Ids(fs, KeyWith(rules)))
    ensures forall i :: 0 <= i < |assets| ==>
              && assets[i].id == Ids(fs, KeyWith(rules))[i]
              && assets[i].findings == Members(fs, KeyWith(rules), assets[i].id)
              && RolledUp(assets[i], sevOrder, now)
    ensures SumOpen(assets) == Count(Visible(fs, KeyWith(rules)), OpenFinding)
    ensures forall f :: f in fs ==> ShownRight(f, rules, assets)
  {
    assets := DeriveAssets(fs, KeyWith(rules), sevOrder, now);
    OpenCountsAddUp(assets, fs, KeyWith(rules), sevOrder, now);
    forall f | f in fs
      ensures ShownRight(f, rules, assets)
    {
      AllShownRight(f, fs, rules, assets);
    }
  }
}
