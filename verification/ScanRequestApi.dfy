/**
 The queue worker in the form the program has: an API object whose versioned store the
 status PUT updates in place, and one draining pass that loops over the listed requests.
 */
module ScanRequestApi {
  import opened Wrappers
  import opened ScanStatus
  import opened ScanQueue

  /** What the network makes of one PUT. All but `Delivered` surface as an API error. */
  datatype Fate = Delivered | RequestLost | ResponseLost

  /** Everything about one request's turn that the worker does not control. */
  datatype Turn = Turn(
    claim: Fate,
    startedAt: real,
    scanOk: bool,
    finishedAt: real,
    finish: Fate
  )

  datatype Outcome = Ok(obj: Snapshot) | ConflictError | ApiError

  /** The history a request has after its turn in a pass that nobody else disturbs. */
  function Drained(r: Stored, now: real, turn: Turn, maxAttempts: int): seq<Status> {
    var claimed := Claimed(r.status, turn.startedAt);
    var finished := Finished(claimed, r.status.attempts, turn.scanOk, maxAttempts, turn.finishedAt);
    if !Ready(r.status, now) || turn.claim == RequestLost then r.history
    else if turn.claim == ResponseLost || turn.finish == RequestLost then r.history + [claimed]
    else r.history + [claimed, finished]
  }

  /**
   What a turn makes of a request's status, spelled out: untouched when it may not be claimed
   or the claim is lost, left scanning when the worker loses its claim's response or its
   report is lost, else done or one attempt older.
   */
  ghost predicate TurnOutcome(before: Status, after: Status, now: real, turn: Turn, maxAttempts: int) {
    var claimable := && (before.phase == Unset || before.phase == Pending)
                     && (before.attempts >= 1 && before.finishedAt.Some? ==>
                           now - before.finishedAt.value >= 30.0 * (Pow2(before.attempts - 1) as real));
    if !claimable || turn.claim == RequestLost then after == before
    else if turn.claim == ResponseLost || turn.finish == RequestLost then
      after == Status(Scanning, before.attempts, Some(turn.startedAt), before.finishedAt, before.lastError)
    else if turn.scanOk then
      after == Status(Done, before.attempts, Some(turn.startedAt), Some(turn.finishedAt), "")
    else
      && after.attempts == before.attempts + 1
      && (after.phase == Failed <==> after.attempts >= maxAttempts)
      && (after.phase == Pending <==> after.attempts < maxAttempts)
      && after.startedAt == Some(turn.startedAt) && after.finishedAt == Some(turn.finishedAt)
      && IsScanError(after.lastError)
  }

  lemma DrainedOutcome(r: Stored, now: real, turn: Turn, maxAttempts: int)
    requires Settled(r, r.history)
    ensures var h := Drained(r, now, turn, maxAttempts);
            |h| > 0 && TurnOutcome(r.status, h[|h| - 1], now, turn, maxAttempts)
  {
    ReadyMeans(r.status, now);
  }

  /** Every request of `done` has the status its own turn gives it, and no other has changed. */
  ghost predicate OutcomesRight(before: map<Name, Stored>, after: map<Name, Stored>, done: set<Name>,
                                now: real, world: Name -> Turn, maxAttempts: int)
  {
    && after.Keys == before.Keys
    && forall n :: n in before ==>
         if n in done then TurnOutcome(before[n].status, after[n].status, now, world(n), maxAttempts)
         else after[n] == before[n]
  }

  lemma TurnsGiveOutcomes(before: map<Name, Stored>, after: map<Name, Stored>, done: set<Name>,
                          now: real, world: Name -> Turn, maxAttempts: int)
    requires TurnsTaken(before, after, done, now, world, maxAttempts)
    requires forall n :: n in before ==> Settled(before[n], before[n].history)
    ensures OutcomesRight(before, after, done, now, world, maxAttempts)
  {
    forall n | n in before
      ensures if n in done then TurnOutcome(before[n].status, after[n].status, now, world(n), maxAttempts)
              else after[n] == before[n]
    {
      DrainedOutcome(before[n], now, world(n), maxAttempts);
    }
  }

  /** The pass wins the request and sees that it did. */
  predicate Wins(r: Stored, now: real, turn: Turn) {
    Ready(r.status, now) && turn.claim == Delivered
  }

  ghost predicate Settled(r: Stored, h: seq<Status>) {
    |h| > 0 && r.history == h && r.status == h[|h| - 1]
  }

  /** Exactly the requests in `done` have had their turn between the two stores. */
  ghost predicate TurnsTaken(before: map<Name, Stored>, after: map<Name, Stored>, done: set<Name>,
                             now: real, world: Name -> Turn, maxAttempts: int)
  {
    && after.Keys == before.Keys
    && forall n :: n in before ==>
         if n in done then
           && after[n].uid == before[n].uid
           && Settled(after[n], Drained(before[n], now, world(n), maxAttempts))
         else after[n] == before[n]
  }

  lemma TurnsAddUp(before: map<Name, Stored>, mid: map<Name, Stored>, after: map<Name, Stored>,
                   done: set<Name>, n: Name, now: real, world: Name -> Turn, maxAttempts: int)
    requires n !in done
    requires TurnsTaken(before, mid, done, now, world, maxAttempts)
    requires TurnsTaken(mid, after, {n}, now, world, maxAttempts)
    ensures TurnsTaken(before, after, done + {n}, now, world, maxAttempts)
  {
  }

  function Names(items: seq<Snapshot>): set<Name> {
    if items == [] then {} else Names(items[..|items| - 1]) + {items[|items| - 1].name}
  }

  /** No name is listed twice. */
  predicate Distinct(items: seq<Snapshot>) {
    items == [] ||
    (Distinct(items[..|items| - 1]) && items[|items| - 1].name !in Names(items[..|items| - 1]))
  }

  lemma NamesExtended(items: seq<Snapshot>, snap: Snapshot)
    requires Distinct(items) && snap.name !in Names(items)
    ensures Distinct(items + [snap]) && Names(items + [snap]) == Names(items) + {snap.name}
  {
    assert (items + [snap])[..|items|] == items;
  }

  predicate AsStored(store: map<Name, Stored>, snap: Snapshot) {
    snap.name in store && snap == Snapshot(snap.name, store[snap.name].version, store[snap.name].status)
  }

  /** `items` lists exactly the requests of `store` that are not in `left`, each once. */
  ghost predicate Lists(store: map<Name, Stored>, items: seq<Snapshot>, left: set<Name>) {
    && left <= store.Keys
    && (forall i :: 0 <= i < |items| ==> AsStored(store, items[i]))
    && Distinct(items)
    && Names(items) == store.Keys - left
  }

  lemma ListsOneMore(store: map<Name, Stored>, items: seq<Snapshot>, left: set<Name>, snap: Snapshot)
    requires Lists(store, items, left) && snap.name in left && AsStored(store, snap)
    ensures Lists(store, items + [snap], left - {snap.name})
  {
    NamesExtended(items, snap);
  }

  lemma {:induction false} DistinctPrefix(items: seq<Snapshot>, k: nat)
    requires Distinct(items) && k < |items|
    ensures items[k].name !in Names(items[..k])
    ensures Names(items[..k + 1]) == Names(items[..k]) + {items[k].name}
  {
    var init := items[..|items| - 1];
    assert items[..k + 1][..k] == items[..k];
    if k < |init| {
      DistinctPrefix(init, k);
      assert init[..k] == items[..k];
    }
  }

  /** The requests among `names` that the pass wins (and scans well, if `ok` is asked for). */
  ghost function Won(store: map<Name, Stored>, names: set<Name>, now: real, world: Name -> Turn, ok: bool): set<Name> {
    set n | n in names && n in store && Wins(store[n], now, world(n)) && (ok ==> world(n).scanOk)
  }

  lemma WonGrows(store: map<Name, Stored>, names: set<Name>, now: real, world: Name -> Turn, ok: bool, n: Name)
    requires n in store && n !in names
    ensures |Won(store, names + {n}, now, world, ok)|
            == |Won(store, names, now, world, ok)|
               + if Wins(store[n], now, world(n)) && (ok ==> world(n).scanOk) then 1 else 0
  {
    var a, b := Won(store, names, now, world, ok), Won(store, names + {n}, now, world, ok);
    assert b == if Wins(store[n], now, world(n)) && (ok ==> world(n).scanOk) then a + {n} else a;
  }

  class Api {
    var store: map<Name, Stored>
    var nextVersion: nat

    ghost predicate Valid()
      reads this
    {
      forall n :: n in store ==>
        && store[n].version < nextVersion
        && Settled(store[n], store[n].history)
    }

    constructor ()
      ensures Valid() && store == map[] && nextVersion == 0
    {
      store, nextVersion := map[], 0;
    }

    /** GET on the collection: every request exactly once. */
    method List() returns (items: seq<Snapshot>)
      ensures Lists(store, items, {})
    {
      items := [];
      var left := store.Keys;
      while left != {}
        invariant Lists(store, items, left)
        decreases |left|
      {
        var n :| n in left;
        var snap := Snapshot(n, store[n].version, store[n].status);
        ListsOneMore(store, items, left, snap);
        items, left := items + [snap], left - {n};
      }
    }

    /**
     PUT on the status subresource. The write is applied exactly when it arrives and the
     object still has the version the caller holds; nothing else changes.
     */
    method UpdateStatus(obj: Snapshot, fate: Fate) returns (r: Outcome)
      requires Valid()
      modifies this
      ensures Valid()
      ensures var arrives := fate != RequestLost && obj.name in old(store)
                             && old(store[obj.name].version) == obj.version;
              && (!arrives ==> store == old(store) && nextVersion == old(nextVersion))
              && (arrives ==>
                    && nextVersion == old(nextVersion) + 1
                    && store == old(store)[obj.name :=
                         Stored(old(store[obj.name].uid), old(nextVersion), obj.status,
                                old(store[obj.name].history) + [obj.status])])
              && (r.Ok? <==> arrives && fate == Delivered)
              && (r.Ok? ==> r.obj == Snapshot(obj.name, old(nextVersion), obj.status))
              && (r.ConflictError? <==> fate == Delivered && obj.name in old(store)
                                        && old(store[obj.name].version) != obj.version)
    {
      if fate == RequestLost || obj.name !in store {
        return ApiError;
      }
      var stored := store[obj.name];
      if stored.version != obj.version {
        return if fate == Delivered then ConflictError else ApiError;
      }
      var version := nextVersion;
      store := store[obj.name := Stored(stored.uid, version, obj.status, stored.history + [obj.status])];
      nextVersion := nextVersion + 1;
      r := if fate == Delivered then Ok(Snapshot(obj.name, version, obj.status)) else ApiError;
    }
  }

  /** Claim, scan, report. */
  method ClaimScanReport(api: Api, item: Snapshot, now: real, world: Name -> Turn, maxAttempts: int)
    returns (claimed: bool, succeeded: bool)
    requires api.Valid() && AsStored(api.store, item)
    modifies api
    ensures api.Valid()
    ensures TurnsTaken(old(api.store), api.store, {item.name}, now, world, maxAttempts)
    ensures claimed == Wins(old(api.store)[item.name], now, world(item.name))
    ensures succeeded == (claimed && world(item.name).scanOk)
  {
    var turn := world(item.name);
    claimed, succeeded := false, false;
    if !Ready(item.status, now) {
      return;
    }
    var prevAttempts := item.status.attempts;
    var r := api.UpdateStatus(item.(status := Claimed(item.status, turn.startedAt)), turn.claim);
    if !r.Ok? {
      return;
    }
    claimed, succeeded := true, turn.scanOk;
    var obj := r.obj;
    var result := Finished(obj.status, prevAttempts, turn.scanOk, maxAttempts, turn.finishedAt);
    var _ := api.UpdateStatus(obj.(status := result), turn.finish);
  }

  /** One request's turn, and what it makes of the request's status. */
  method TakeTurn(api: Api, item: Snapshot, now: real, world: Name -> Turn, maxAttempts: int)
    returns (claimed: bool, succeeded: bool)
    requires api.Valid() && AsStored(api.store, item)
    modifies api
    ensures api.Valid()
    ensures TurnsTaken(old(api.store), api.store, {item.name}, now, world, maxAttempts)
    ensures OutcomesRight(old(api.store), api.store, {item.name}, now, world, maxAttempts)
    ensures claimed == Wins(old(api.store)[item.name], now, world(item.name))
    ensures succeeded == (claimed && world(item.name).scanOk)
  {
    ghost var before := api.store;
    claimed, succeeded := ClaimScanReport(api, item, now, world, maxAttempts);
    TurnsGiveOutcomes(before, api.store, {item.name}, now, world, maxAttempts);
  }

  /**
   One pass of the worker over the queue, with an adversarial network and scanner and no
   other writer: every request ends with exactly the history its own turn prescribes.
   */
  method DrainQueue(api: Api, now: real, world: Name -> Turn, maxAttempts: int)
    returns (claimed: nat, succeeded: nat, failed: nat)
    requires api.Valid()
    modifies api
    ensures api.Valid()
    ensures TurnsTaken(old(api.store), api.store, old(api.store).Keys, now, world, maxAttempts)
    ensures OutcomesRight(old(api.store), api.store, old(api.store).Keys, now, world, maxAttempts)
    ensures claimed == |Won(old(api.store), old(api.store).Keys, now, world, false)|
    ensures succeeded == |Won(old(api.store), old(api.store).Keys, now, world, true)|
    ensures claimed == succeeded + failed
  {
    var items := api.List();
    claimed, succeeded, failed := 0, 0, 0;
    ghost var before := api.store;
    ghost var done: set<Name> := {};
    for k := 0 to |items|
      invariant api.Valid()
      invariant done == Names(items[..k]) && done <= before.Keys
      invariant TurnsTaken(before, api.store, done, now, world, maxAttempts)
      invariant claimed == |Won(before, done, now, world, false)|
      invariant succeeded == |Won(before, done, now, world, true)|
      invariant claimed == succeeded + failed
    {
      var item := items[k];
      assert AsStored(before, item);
      DistinctPrefix(items, k);
      WonGrows(before, done, now, world, false, item.name);
      WonGrows(before, done, now, world, true, item.name);
      ghost var mid := api.store;
      var won, ok := TakeTurn(api, item, now, world, maxAttempts);
      TurnsAddUp(before, mid, api.store, done, item.name, now, world, maxAttempts);
      if won {
        claimed := claimed + 1;
        if ok { succeeded := succeeded + 1; } else { failed := failed + 1; }
      }
      done := done + {item.name};
    }
    assert items[..|items|] == items;
    assert done == before.Keys;
    TurnsGiveOutcomes(before, api.store, done, now, world, maxAttempts);
  }

  /** A turn taken on a sane clock keeps the request's history legal, whatever is lost. */
  lemma DrainedStaysLegal(r: Stored, now: real, turn: Turn, maxAttempts: int)
    requires LegalHistory(r.history, maxAttempts) && r.history[|r.history| - 1] == r.status
    requires now <= turn.startedAt <= turn.finishedAt
    ensures LegalHistory(Drained(r, now, turn, maxAttempts), maxAttempts)
  {
    var h := Drained(r, now, turn, maxAttempts);
    if h != r.history {
      ReadyLater(r.status, now, turn.startedAt);
      var claimed := h[|r.history|];
      assert ClaimWrite(r.status, claimed);
      assert |h| > |r.history| + 1 ==> FinishWrite(claimed, h[|r.history| + 1], maxAttempts);
      forall i | 0 < i < |h|
        ensures ClaimWrite(h[i - 1], h[i]) || FinishWrite(h[i - 1], h[i], maxAttempts)
      {
        if i < |r.history| {
          assert h[i - 1] == r.history[i - 1] && h[i] == r.history[i];
        }
      }
    }
  }
}
