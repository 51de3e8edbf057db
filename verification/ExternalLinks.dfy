/**
 Migration 015: the columns `tracker_id` and `source_issue_ids` become one list of external
 links, and the downgrade takes the list apart again.
 */
module ExternalLinks {
  import opened Wrappers

  /** A value in the JSON object; `JOther` is a number, boolean, array or object and its text. */
  datatype Json = JNull | JText(text: string) | JOther(text: string)

  /** The column `source_issue_ids`. */
  datatype SourceIds = SqlNull | NotObject | Object(fields: map<string, Json>)

  datatype Kind = TrackerLink | SourceLink

  datatype Link = Link(adapterKey: string, kind: Kind, issueId: Option<string>)

  /** The two old columns of a finding. */
  datatype Row = Row(trackerId: Option<string>, sourceIds: SourceIds)

  /** `->>` and `jsonb_each_text`: a JSON null is an SQL null, anything else its text. */
  function Text(j: Json): Option<string> {
    match j
    case JNull => None
    case JText(t) => Some(t)
    case JOther(t) => Some(t)
  }

  /** `jsonb_build_object` of a text value. */
  function FromText(t: Option<string>): Json {
    if t.None? then JNull else JText(t.value)
  }

  // ---------------------------------------------------------------------------
  // One row
  // ---------------------------------------------------------------------------

  predicate HasTracker(row: Row) {
    row.trackerId.Some? && row.trackerId.value != ""
  }

  function TrackerPart(row: Row, trackerKey: string): seq<Link> {
    if HasTracker(row) then [Link(trackerKey, TrackerLink, row.trackerId)] else []
  }

  function Fields(row: Row): map<string, Json> {
    if row.sourceIds.Object? then row.sourceIds.fields else map[]
  }

  /** One source link for each key of `keys`. */
  function SourcePart(fields: map<string, Json>, keys: seq<string>): seq<Link>
    requires forall k :: k in keys ==> k in fields
  {
    if keys == [] then []
    else
      var k := keys[|keys| - 1];
      SourcePart(fields, keys[..|keys| - 1]) + [Link(k, SourceLink, Text(fields[k]))]
  }

  /** `keys` lists exactly the keys of `fields`, each once, in whatever order the database has. */
  ghost predicate Enumerates(keys: seq<string>, fields: map<string, Json>) {
    && (forall i, j :: 0 <= i < j < |keys| ==> keys[i] != keys[j])
    && (forall k :: k in fields <==> k in keys)
  }

  ghost predicate Upgraded(row: Row, trackerKey: string, links: seq<Link>) {
    exists keys :: Enumerates(keys, Fields(row)) && links == TrackerPart(row, trackerKey) + SourcePart(Fields(row), keys)
  }

  /** The state of the downgrade loop after some links: the tracker found, the sources found. */
  function TakeApart(links: seq<Link>): (Option<string>, map<string, Json>) {
    if links == [] then (None, map[])
    else
      var (tid, sids) := TakeApart(links[..|links| - 1]);
      var link := links[|links| - 1];
      if link.kind == TrackerLink && tid.None? then (link.issueId, sids)
      else if link.kind == SourceLink then (tid, sids[link.adapterKey := FromText(link.issueId)])
      else (tid, sids)
  }

  function Downgraded(links: seq<Link>): Row {
    var (tid, sids) := TakeApart(links);
    Row(tid, if sids == map[] then SqlNull else Object(sids))
  }

  // ---------------------------------------------------------------------------
  // The migration as it runs
  // ---------------------------------------------------------------------------

  /** The table; `links` is the new column, the other two are the old ones. */
  class Findings {
    var trackerIds: array<Option<string>>
    var sourceIds: array<SourceIds>
    var links: array<seq<Link>>

    ghost predicate Valid()
      reads this
    {
      && trackerIds.Length == sourceIds.Length == links.Length
      && links as object != trackerIds && links as object != sourceIds
      && trackerIds as object != sourceIds
    }

    ghost function RowAt(i: nat): Row
      requires Valid() && i < links.Length
      reads this, trackerIds, sourceIds
    {
      Row(trackerIds[i], sourceIds[i])
    }

    constructor (rows: seq<Row>)
      ensures Valid() && fresh(trackerIds) && fresh(sourceIds) && fresh(links)
      ensures links.Length == |rows| && forall i :: 0 <= i < |rows| ==> RowAt(i) == rows[i]
    {
      trackerIds := new Option<string>[|rows|](i requires 0 <= i < |rows| => rows[i].trackerId);
      sourceIds := new SourceIds[|rows|](i requires 0 <= i < |rows| => rows[i].sourceIds);
      links := new seq<Link>[|rows|](_ => []);
    }

    /** The two old columns, as a SELECT returns them. */
    method Rows() returns (rows: seq<Row>)
      requires Valid()
      ensures |rows| == links.Length && forall i :: 0 <= i < |rows| ==> rows[i] == RowAt(i)
    {
      rows := [];
      for i := 0 to links.Length
        invariant |rows| == i && forall j :: 0 <= j < i ==> rows[j] == RowAt(j)
      {
        rows := rows + [Row(trackerIds[i], sourceIds[i])];
      }
    }

    /** The upgrade loop. */
    method Upgrade(trackerKey: string)
      requires Valid()
      modifies links
      ensures forall i :: 0 <= i < links.Length ==> Upgraded(RowAt(i), trackerKey, links[i])
    {
      for r := 0 to links.Length
        invariant forall i :: 0 <= i < r ==> Upgraded(RowAt(i), trackerKey, links[i])
      {
        links[r] := BuildLinks(Row(trackerIds[r], sourceIds[r]), trackerKey);
      }
    }

    /** The downgrade loop, over the re-created old columns. */
    method Downgrade()
      requires Valid()
      modifies trackerIds, sourceIds
      ensures links[..] == old(links[..])
      ensures forall i :: 0 <= i < links.Length ==> RowAt(i) == Downgraded(links[i])
    {
      for r := 0 to links.Length
        invariant links[..] == old(links[..])
        invariant forall i :: 0 <= i < r ==> RowAt(i) == Downgraded(links[i])
      {
        var tid: Option<string>, sids: map<string, Json> := None, map[];
        var column := links[r];
        for l := 0 to |column|
          invariant (tid, sids) == TakeApart(column[..l])
        {
          assert column[..l + 1][..l] == column[..l];
          var link := column[l];
          if link.kind == TrackerLink && tid.None? {
            tid := link.issueId;
          } else if link.kind == SourceLink {
            sids := sids[link.adapterKey := FromText(link.issueId)];
          }
        }
        assert column[..|column|] == column;
        trackerIds[r] := tid;
        sourceIds[r] := if sids == map[] then SqlNull else Object(sids);
      }
    }
  }

  /** The links of one row. */
  method BuildLinks(row: Row, trackerKey: string) returns (links: seq<Link>)
    ensures Upgraded(row, trackerKey, links)
  {
    links := TrackerPart(row, trackerKey);
    var fields := Fields(row);
    var left := fields.Keys;
    ghost var keys: seq<string> := [];
    while left != {}
      invariant left <= fields.Keys
      invariant forall k :: k in fields.Keys <==> k in left || k in keys
      invariant forall k :: k in keys ==> k !in left
      invariant forall i, j :: 0 <= i < j < |keys| ==> keys[i] != keys[j]
      invariant links == TrackerPart(row, trackerKey) + SourcePart(fields, keys)
      decreases |left|
    {
      var k :| k in left;
      links := links + [Link(k, SourceLink, Text(fields[k]))];
      keys := keys + [k];
      left := left - {k};
    }
    assert Enumerates(keys, fields);
  }

  // ---------------------------------------------------------------------------
  // Round trip
  // ---------------------------------------------------------------------------

  lemma TakeApartSource(links: seq<Link>, k: string, t: Option<string>)
    ensures TakeApart(links + [Link(k, SourceLink, t)])
            == (TakeApart(links).0, TakeApart(links).1[k := FromText(t)])
  {
    assert (links + [Link(k, SourceLink, t)])[..|links|] == links;
  }

  lemma {:induction false} TakeApartSources(start: seq<Link>, fields: map<string, Json>, keys: seq<string>)
    requires forall k :: k in keys ==> k in fields
    requires TakeApart(start).1 == map[]
    ensures TakeApart(start + SourcePart(fields, keys)).0 == TakeApart(start).0
    ensures var sids := TakeApart(start + SourcePart(fields, keys)).1;
            && (forall k :: k in sids <==> k in keys)
            && (forall k :: k in keys ==> sids[k] == FromText(Text(fields[k])))
  {
    if keys == [] {
      assert start + SourcePart(fields, keys) == start;
    } else {
      var init, k := keys[..|keys| - 1], keys[|keys| - 1];
      TakeApartSources(start, fields, init);
      assert keys == init + [k];
      TakeApartSource(start + SourcePart(fields, init), k, Text(fields[k]));
      assert start + SourcePart(fields, keys)
          == (start + SourcePart(fields, init)) + [Link(k, SourceLink, Text(fields[k]))];
    }
  }

  /** What a row has become after the way up and the way down, in any key order. */
  function Survivor(row: Row): Row {
    Row(if HasTracker(row) then row.trackerId else None,
        if Fields(row) == map[] then SqlNull
        else Object(map k | k in Fields(row) :: FromText(Text(Fields(row)[k]))))
  }

  lemma DownAfterUp(row: Row, trackerKey: string, links: seq<Link>)
    requires Upgraded(row, trackerKey, links)
    ensures Downgraded(links) == Survivor(row)
  {
    var fields := Fields(row);
    var keys :| Enumerates(keys, fields) && links == TrackerPart(row, trackerKey) + SourcePart(fields, keys);
    var start := TrackerPart(row, trackerKey);
    assert start[..0] == [] && TakeApart([]) == (None, map[]);
    assert HasTracker(row) ==> start[..|start| - 1] == [];
    assert TakeApart(start) == (if HasTracker(row) then row.trackerId else None, map[]);
    TakeApartSources(start, fields, keys);
    var sids := TakeApart(links).1;
    assert forall k :: k in sids <==> k in fields;
    if fields == map[] {
      assert sids == map[];
    } else {
      var k :| k in fields;
      assert k in sids;
      assert sids == map k | k in fields :: FromText(Text(fields[k]));
    }
  }

  lemma {:induction false} SourceLinks(fields: map<string, Json>, keys: seq<string>, link: Link)
    requires forall k :: k in keys ==> k in fields
    ensures |SourcePart(fields, keys)| == |keys|
    ensures link in SourcePart(fields, keys)
            <==> link.kind == SourceLink && link.adapterKey in keys && link.issueId == Text(fields[link.adapterKey])
  {
    if keys != [] {
      var init := keys[..|keys| - 1];
      SourceLinks(fields, init, link);
      assert keys == init + [keys[|keys| - 1]];
    }
  }

  lemma {:induction false} EnumerationSize(keys: seq<string>, fields: map<string, Json>)
    requires Enumerates(keys, fields)
    ensures |keys| == |fields|
  {
    if keys == [] {
      assert fields.Keys == {};
    } else {
      var n := |keys| - 1;
      var init, k := keys[..n], keys[n];
      assert keys == init + [k];
      EnumerationSize(init, fields - {k});
      assert (fields - {k}).Keys == fields.Keys - {k};
    }
  }

  /**
   What a row's links are: the tracker first, if the id is not blank, under the tracker's own
   adapter; then one link per source under that source's name; nothing twice and nothing else.
   */
  lemma LinksAre(row: Row, trackerKey: string, links: seq<Link>)
    requires Upgraded(row, trackerKey, links)
    ensures var tracked := row.trackerId.Some? && row.trackerId.value != "";
            && (tracked ==> |links| > 0 && links[0] == Link(trackerKey, TrackerLink, row.trackerId))
            && |links| == (if tracked then 1 else 0) + (if row.sourceIds.Object? then |row.sourceIds.fields| else 0)
            && (forall link :: link in links <==>
                  || (tracked && link == Link(trackerKey, TrackerLink, row.trackerId))
                  || (row.sourceIds.Object? && link.kind == SourceLink && link.adapterKey in row.sourceIds.fields
                      && link.issueId == Text(row.sourceIds.fields[link.adapterKey])))
  {
    var fields := Fields(row);
    var keys :| Enumerates(keys, fields) && links == TrackerPart(row, trackerKey) + SourcePart(fields, keys);
    EnumerationSize(keys, fields);
    forall link
      ensures |SourcePart(fields, keys)| == |keys|
      ensures link in SourcePart(fields, keys)
              <==> link.kind == SourceLink && link.adapterKey in fields && link.issueId == Text(fields[link.adapterKey])
    {
      SourceLinks(fields, keys, link);
    }
    SourceLinks(fields, keys, Link("", SourceLink, None));
  }

  /** On any list of links the downgrade takes the first tracker that has an issue id. */
  lemma {:induction false} FirstTrackerWins(links: seq<Link>, n: nat)
    requires n <= |links| && forall i :: 0 <= i < n ==> links[i].kind == TrackerLink ==> links[i].issueId.None?
    ensures n == |links| ==> Downgraded(links).trackerId == None
    ensures n < |links| && links[n].kind == TrackerLink && links[n].issueId.Some? ==>
              Downgraded(links).trackerId == links[n].issueId
    decreases |links|
  {
    if links != [] {
      var init := links[..|links| - 1];
      if n == |links| {
        FirstTrackerWins(init, n - 1);
      } else {
        FirstTrackerWins(init, n);
      }
    }
  }

  /** And for every source the last link under its name. */
  lemma {:induction false} LastSourceWins(links: seq<Link>, n: nat)
    requires n < |links| && links[n].kind == SourceLink
    requires forall i :: n < i < |links| && links[i].kind == SourceLink ==> links[i].adapterKey != links[n].adapterKey
    ensures var ids := Downgraded(links).sourceIds;
            && ids.Object? && links[n].adapterKey in ids.fields
            && ids.fields[links[n].adapterKey] == if links[n].issueId.Some? then JText(links[n].issueId.value) else JNull
    decreases |links|
  {
    var k := links[n].adapterKey;
    var sids := TakeApart(links).1;
    if n < |links| - 1 {
      var init := links[..|links| - 1];
      LastSourceWins(init, n);
      assert k in TakeApart(init).1;
    }
    assert k in sids;
  }

  /** The rows the downgrade can restore; a caller can check this before upgrading. */
  ghost predicate Restorable(row: Row) {
    && row.trackerId != Some("")
    && (row.sourceIds.SqlNull?
        || (row.sourceIds.Object? && row.sourceIds.fields != map[]
            && forall k :: k in row.sourceIds.fields ==> !row.sourceIds.fields[k].JOther?))
  }

  /**
   The exact condition: upgrading and downgrading restores both columns if and only if the
   tracker id is not the empty string and the source ids are NULL or a non-empty object of
   texts and nulls.
   */
  lemma RestoredIffRestorable(row: Row, trackerKey: string, links: seq<Link>)
    requires Upgraded(row, trackerKey, links)
    ensures Downgraded(links) == row <==> Restorable(row)
  {
    DownAfterUp(row, trackerKey, links);
    var fields := Fields(row);
    if Restorable(row) && row.sourceIds.Object? {
      assert (map k | k in fields :: FromText(Text(fields[k]))) == fields;
    }
    if Survivor(row) == row && row.sourceIds.Object? {
      assert forall k :: k in fields ==> fields[k] == FromText(Text(fields[k]));
    }
  }

  /** The whole migration, there and back, on a table. */
  method RoundTrip(rows: seq<Row>, trackerKey: string) returns (restored: seq<Row>)
    ensures |restored| == |rows|
    ensures forall i :: 0 <= i < |rows| ==> restored[i] == Survivor(rows[i])
    ensures forall i :: 0 <= i < |rows| ==> (restored[i] == rows[i] <==> Restorable(rows[i]))
  {
    var t := new Findings(rows);
    t.Upgrade(trackerKey);
    assert forall i :: 0 <= i < |rows| ==> t.RowAt(i) == rows[i];
    ghost var links := t.links[..];
    t.Downgrade();
    restored := t.Rows();
    forall i | 0 <= i < |rows|
      ensures restored[i] == Survivor(rows[i]) && (restored[i] == rows[i] <==> Restorable(rows[i]))
    {
      assert links[i] == t.links[i];
      assert Upgraded(rows[i], trackerKey, links[i]);
      DownAfterUp(rows[i], trackerKey, links[i]);
      RestoredIffRestorable(rows[i], trackerKey, links[i]);
    }
  }
}
