/**
 The status record of a ScanRequest, the two kinds of write a queue worker makes to it,
 and what every legal sequence of such writes satisfies: the retry budget and the
 exponential backoff.
 */
module ScanStatus {
  import opened Wrappers

  /** `Unset` is a freshly created request whose status has no phase yet. */
  datatype Phase = Unset | Pending | Scanning | Done | Failed

  datatype Status = Status(
    phase: Phase,
    attempts: int,
    startedAt: Option<real>,
    finishedAt: Option<real>,
    lastError: string
  )

  /** The status of a request the operator has just created. */
  const FRESH := Status(Unset, 0, None, None, "")

  const BACKOFF_BASE := 30.0
  const SCAN_ERROR := "scan or ingest failed; see worker logs"

  /** The text a failed scan leaves behind. */
  predicate IsScanError(text: string) {
    text == "scan or ingest failed; see worker logs"
  }

  function Pow2(n: nat): (p: nat)
    ensures p >= 1
  {
    if n == 0 then 1 else 2 * Pow2(n - 1)
  }

  predicate Claimable(p: Phase) {
    p == Unset || p == Pending
  }

  predicate Terminal(p: Phase) {
    p == Done || p == Failed
  }

  /** The window that follows the `attempts`-th recorded failure. */
  function Backoff(attempts: int): (window: real)
    requires attempts >= 1
    ensures window >= BACKOFF_BASE
  {
    BACKOFF_BASE * (Pow2(attempts - 1) as real)
  }

  /** An unparseable or absent `finishedAt` is `None`, and counts as ready. */
  predicate BackoffReady(status: Status, now: real) {
    status.attempts <= 0 || status.finishedAt.None? ||
    now >= status.finishedAt.value + Backoff(status.attempts)
  }

  predicate Ready(status: Status, now: real) {
    Claimable(status.phase) && BackoffReady(status, now)
  }

  /** The body of the claiming write. */
  function Claimed(status: Status, at: real): Status {
    status.(phase := Scanning, startedAt := Some(at))
  }

  /** The body of the finishing write, computed from the status the claim returned. */
  function Finished(status: Status, prevAttempts: int, ok: bool, maxAttempts: int, at: real): Status {
    if ok then
      status.(phase := Done, finishedAt := Some(at), lastError := "")
    else
      var attempts := prevAttempts + 1;
      status.(phase := if attempts >= maxAttempts then Failed else Pending,
              attempts := attempts,
              finishedAt := Some(at),
              lastError := SCAN_ERROR)
  }

  // ---------------------------------------------------------------------------
  // Histories: the successive statuses one request has had, oldest first.
  // ---------------------------------------------------------------------------

  predicate ClaimWrite(prev: Status, next: Status) {
    && next.startedAt.Some?
    && Ready(prev, next.startedAt.value)
    && next == Claimed(prev, next.startedAt.value)
  }

  predicate FinishWrite(prev: Status, next: Status, maxAttempts: int) {
    && prev.phase == Scanning
    && prev.startedAt.Some?
    && next.finishedAt.Some?
    && next.finishedAt.value >= prev.startedAt.value
    && next == Finished(prev, prev.attempts, next.phase == Done, maxAttempts, next.finishedAt.value)
  }

  ghost predicate LegalHistory(h: seq<Status>, maxAttempts: int) {
    && |h| > 0
    && h[0] == FRESH
    && forall i :: 0 < i < |h| ==> ClaimWrite(h[i - 1], h[i]) || FinishWrite(h[i - 1], h[i], maxAttempts)
  }

  /** A write records a failure exactly when it leaves the request pending or failed. */
  predicate RecordsFailure(s: Status) {
    s.phase == Pending || s.phase == Failed
  }

  /** `finishedAt` of every recorded failure, in order. */
  function FailureTimes(h: seq<Status>): seq<real> {
    if |h| == 0 then []
    else
      var last := h[|h| - 1];
      FailureTimes(h[..|h| - 1]) +
      if RecordsFailure(last) && last.finishedAt.Some? then [last.finishedAt.value] else []
  }

  function Claims(h: seq<Status>): nat {
    if |h| == 0 then 0
    else Claims(h[..|h| - 1]) + if h[|h| - 1].phase == Scanning then 1 else 0
  }

  /** How many more successful status writes a request can receive. */
  function Budget(s: Status, maxAttempts: int): int {
    match s.phase
    case Done => 0
    case Failed => 0
    case Scanning => 2 * (maxAttempts - s.attempts) - 1
    case _ => 2 * (maxAttempts - s.attempts)
  }

  /** What one status tells about the history it ends. */
  ghost predicate Accounted(h: seq<Status>, maxAttempts: int)
    requires |h| > 0
  {
    var last := h[|h| - 1];
    && last.attempts == |FailureTimes(h)|
    && 0 <= last.attempts <= maxAttempts
    && (last.phase == Failed <==> last.attempts == maxAttempts)
    && (last.phase == Unset ==> last == FRESH)
    && (last.phase == Pending ==> last.attempts > 0)
    && (last.attempts > 0 ==> last.finishedAt.Some?)
    && (last.attempts > 0 && last.phase != Done ==>
          last.finishedAt == Some(FailureTimes(h)[last.attempts - 1]))
    && (last.phase == Scanning ==> last.startedAt.Some?)
    && (last.phase == Scanning && last.attempts > 0 ==>
          last.startedAt.value >= FailureTimes(h)[last.attempts - 1] + Backoff(last.attempts))
    && Claims(h) == last.attempts + (if last.phase == Scanning || last.phase == Done then 1 else 0)
    && |h| - 1 + Budget(last, maxAttempts) <= 2 * maxAttempts
  }

  /**
   Every legal history is accounted for: attempts counts the recorded failures, `Failed`
   holds exactly when the attempts are used up, and the writes fit the budget.
   */
  lemma {:induction false} HistoryAccounted(h: seq<Status>, maxAttempts: int)
    requires maxAttempts >= 1
    requires LegalHistory(h, maxAttempts)
    ensures Accounted(h, maxAttempts)
  {
    if |h| == 1 {
      assert h[..0] == [];
      assert FailureTimes(h) == FailureTimes(h[..0]) + [];
      assert Claims(h) == Claims(h[..0]) == 0;
    } else {
      var p := h[..|h| - 1];
      HistoryAccounted(p, maxAttempts);
      assert p[|p| - 1] == h[|h| - 2];
      assert ClaimWrite(h[|h| - 2], h[|h| - 1]) || FinishWrite(h[|h| - 2], h[|h| - 1], maxAttempts);
    }
  }

  /** Every position of a legal history ends a legal history of its own. */
  lemma {:induction false} LegalUpTo(h: seq<Status>, maxAttempts: int, n: nat)
    requires LegalHistory(h, maxAttempts) && 1 <= n <= |h|
    ensures LegalHistory(h[..n], maxAttempts)
    decreases |h| - n
  {
    if n == |h| {
      assert h[..n] == h;
    } else {
      LegalUpTo(h, maxAttempts, n + 1);
      assert h[..n + 1][..n] == h[..n];
    }
  }

  /**
   The measure on (attempts, phase) strictly falls with every write and never below zero;
   in particular nothing is written after `Done` or `Failed`.
   */
  lemma WriteSpendsBudget(h: seq<Status>, maxAttempts: int, i: nat)
    requires maxAttempts >= 1
    requires LegalHistory(h, maxAttempts)
    requires 0 < i < |h|
    ensures !Terminal(h[i - 1].phase)
    ensures 0 <= Budget(h[i], maxAttempts) < Budget(h[i - 1], maxAttempts)
  {
    LegalUpTo(h, maxAttempts, i);
    HistoryAccounted(h[..i], maxAttempts);
    assert h[..i][i - 1] == h[i - 1];
    assert ClaimWrite(h[i - 1], h[i]) || FinishWrite(h[i - 1], h[i], maxAttempts);
  }

  /** At most `maxAttempts` claims, and twice as many writes, over any legal history. */
  lemma WritesBounded(h: seq<Status>, maxAttempts: int)
    requires maxAttempts >= 1
    requires LegalHistory(h, maxAttempts)
    ensures Claims(h) <= maxAttempts
    ensures |h| - 1 <= 2 * maxAttempts
  {
    HistoryAccounted(h, maxAttempts);
  }

  // ---------------------------------------------------------------------------
  // Backoff
  // ---------------------------------------------------------------------------

  /** The windows in seconds: 30, then twice the one before. */
  lemma Windows(attempts: int)
    requires attempts >= 1
    ensures Backoff(attempts) == if attempts == 1 then 30.0 else 2.0 * Backoff(attempts - 1)
  {
  }

  /**
   When a claim is allowed, in the terms of the request: it was never worked on or is to be
   retried, and the last failure, if its time is known, is 30 * 2^(attempts - 1) seconds old.
   */
  lemma ReadyMeans(status: Status, now: real)
    ensures Ready(status, now)
            <==> && (status.phase == Unset || status.phase == Pending)
                 && (status.attempts >= 1 && status.finishedAt.Some? ==>
                       now - status.finishedAt.value >= 30.0 * (Pow2(status.attempts - 1) as real))
  {
  }

  /** The (k+1)-th recorded failure comes at least `30 * 2^(k-1)` seconds after the k-th. */
  lemma {:induction false} FailuresBackOff(h: seq<Status>, maxAttempts: int)
    requires maxAttempts >= 1
    requires LegalHistory(h, maxAttempts)
    ensures forall k :: 1 <= k < |FailureTimes(h)| ==>
              FailureTimes(h)[k] >= FailureTimes(h)[k - 1] + Backoff(k)
  {
    if |h| > 1 {
      var p := h[..|h| - 1];
      FailuresBackOff(p, maxAttempts);
      HistoryAccounted(p, maxAttempts);
      var prev, last := h[|h| - 2], h[|h| - 1];
      assert p[|p| - 1] == prev;
      assert ClaimWrite(prev, last) || FinishWrite(prev, last, maxAttempts);
      var old', new' := FailureTimes(p), FailureTimes(h);
      forall k | 1 <= k < |new'|
        ensures new'[k] >= new'[k - 1] + Backoff(k)
      {
        if k < |old'| {
          assert new'[k] == old'[k] && new'[k - 1] == old'[k - 1];
        } else {
          assert new'[k - 1] == old'[k - 1];
        }
      }
    } else {
      assert h[..0] == [];
      assert FailureTimes(h) == FailureTimes(h[..0]) + [];
    }
  }

  lemma {:induction false} BackoffsAddUp(ts: seq<real>, m: nat)
    requires 1 <= m <= |ts|
    requires forall k :: 1 <= k < |ts| ==> ts[k] >= ts[k - 1] + Backoff(k)
    ensures ts[m - 1] >= ts[0] + 30.0 * ((Pow2(m - 1) - 1) as real)
  {
    if m > 1 {
      BackoffsAddUp(ts, m - 1);
      assert ts[m - 1] >= ts[m - 2] + Backoff(m - 1);
      assert Pow2(m - 1) == 2 * Pow2(m - 2);
    }
  }

  /**
   A request cannot be parked as `Failed` earlier than `30 * (2^(maxAttempts-1) - 1)`
   seconds after its first recorded failure.
   */
  lemma ParkedNoEarlierThan(h: seq<Status>, maxAttempts: int)
    requires maxAttempts >= 1
    requires LegalHistory(h, maxAttempts)
    requires h[|h| - 1].phase == Failed
    ensures |FailureTimes(h)| == maxAttempts
    ensures h[|h| - 1].finishedAt.Some?
    ensures h[|h| - 1].finishedAt.value
            >= FailureTimes(h)[0] + 30.0 * ((Pow2(maxAttempts - 1) - 1) as real)
  {
    HistoryAccounted(h, maxAttempts);
    FailuresBackOff(h, maxAttempts);
    BackoffsAddUp(FailureTimes(h), maxAttempts);
  }

  /**
   The history of a request that fails `n` times, first at `start`, each later claim and
   failure coming at the very instant its backoff window closes.
   */
  function TightHistory(n: nat, maxAttempts: int, start: real): seq<Status> {
    if n == 0 then [FRESH]
    else
      var h := TightHistory(n - 1, maxAttempts, start);
      if |h| == 0 then h else
        var last := h[|h| - 1];
        var at := if n == 1 || last.finishedAt.None? then start
                  else last.finishedAt.value + Backoff(n - 1);
        h + [Claimed(last, at), Finished(Claimed(last, at), n - 1, false, maxAttempts, at)]
  }

  /** The bound of `ParkedNoEarlierThan` is attained, so it cannot be improved. */
  lemma {:induction false} ParkingBoundIsTight(n: nat, maxAttempts: int, start: real)
    requires n <= maxAttempts
    ensures LegalHistory(TightHistory(n, maxAttempts, start), maxAttempts)
    ensures var last := TightHistory(n, maxAttempts, start)[|TightHistory(n, maxAttempts, start)| - 1];
            && last.attempts == n
            && (n == 0 ==> last == FRESH)
            && (n > 0 ==> last.phase == if n == maxAttempts then Failed else Pending)
            && (n > 0 ==> last.finishedAt == Some(start + 30.0 * ((Pow2(n - 1) - 1) as real)))
  {
    if n > 0 {
      ParkingBoundIsTight(n - 1, maxAttempts, start);
      var p, h := TightHistory(n - 1, maxAttempts, start), TightHistory(n, maxAttempts, start);
      var last := p[|p| - 1];
      if n > 1 {
        assert Pow2(n - 1) == 2 * Pow2(n - 2);
      }
      assert h[|p|] == Claimed(last, h[|p|].startedAt.value);
      assert ClaimWrite(last, h[|p|]);
      assert FinishWrite(h[|p|], h[|p| + 1], maxAttempts);
      forall i | 0 < i < |h|
        ensures ClaimWrite(h[i - 1], h[i]) || FinishWrite(h[i - 1], h[i], maxAttempts)
      {
        if i < |p| {
          assert h[i - 1] == p[i - 1] && h[i] == p[i];
        }
      }
    }
  }
}
