/**
 * Waiver expiry and the alert list, both read off the same calendar arithmetic.
 *
 * Times are milliseconds.  Date parsing is a parameter: `parse(d)` is the instant the text `d`
 * names, or None where the text names none (the source's NaN).
 */
module Waivers {
  import opened Wrappers
  import Text
  import opened Sorting
  import opened MetricSemantics

  const DAY: int := 86_400_000

  type Parse = string -> Option<int>

  /** What `daysLeft` can return: null, NaN, or a whole number of days. */
  datatype Days = NoDate | NotANumber | Left(days: int)

  /** The quotient rounded up. */
  function CeilDiv(x: int, n: int): (q: int)
    requires n > 0
    ensures n * (q - 1) < x <= n * q
  {
    -((-x) / n)
  }

  function DaysLeft(d: string, now: int, parse: Parse): Days {
    if d == "" then NoDate
    else match parse(d)
      case None => NotANumber
      case Some(t) => Left(CeilDiv(t - now, DAY))
  }

  /** A date runs out one full day after the instant it names, not at that instant. */
  lemma DaysLeftMeaning(d: string, now: int, parse: Parse, t: int)
    requires d != "" && parse(d) == Some(t)
    ensures DaysLeft(d, now, parse).Left?
    ensures forall k :: DaysLeft(d, now, parse).days <= k <==> t <= now + k * 86_400_000
    ensures DaysLeft(d, now, parse).days < 0 <==> t + 86_400_000 <= now
  {
    var q := DaysLeft(d, now, parse).days;
    forall k
      ensures q <= k <==> t <= now + k * DAY
    {
      if q <= k {
        assert DAY * q <= DAY * k;
      } else {
        assert DAY * k <= DAY * (q - 1);
      }
    }
    assert q <= -1 <==> t <= now + -1 * DAY;
  }

  // ------------------------------------------------------------------------- Findings

  datatype AuditEntry = AuditEntry(ts: int, user: string, action: string, note: string)

  datatype Attestation = Attestation(
    expiresAt: string,
    waiverRef: string,
    approver: string,
    expiredAt: Option<int>)

  /** Absent optional texts are empty, as the source reads both alike. */
  datatype Finding = Finding(
    id: string,
    archived: bool,
    status: string,
    previousStatus: string,
    attestation: Option<Attestation>,
    slaDue: string,
    trackerComment: bool,
    findingType: string,
    audit: seq<AuditEntry>)

  /** A risk acceptance that carries an expiry date. */
  predicate HoldsWaiver(f: Finding) {
    IsRiskAccepted(f.status) && f.attestation.Some? && f.attestation.value.expiresAt != ""
  }

  /** The waiver's day count is not a number at or above zero. */
  predicate Lapsed(f: Finding, now: int, parse: Parse) {
    HoldsWaiver(f)
    && match DaysLeft(f.attestation.value.expiresAt, now, parse)
       case NoDate => false
       case NotANumber => true
       case Left(d) => d < 0
  }

  function Reopened(f: Finding, now: int): Finding
    requires f.attestation.Some?
  {
    var a := f.attestation.value;
    f.(status := "Open",
       previousStatus := "Risk Accepted",
       attestation := Some(a.(expiredAt := Some(now))),
       audit := f.audit + [AuditEntry(now, "system", "Waiver expired — auto-reopened",
                                      "Waiver " + a.waiverRef + " expired " + a.expiresAt)])
  }

  /** One finding of `applyWaiverExpiry`. */
  function Expire(f: Finding, now: int, parse: Parse): Finding {
    if Lapsed(f, now, parse) then Reopened(f, now) else f
  }

  /** `applyWaiverExpiry`. */
  function ExpireAll(fs: seq<Finding>, now: int, parse: Parse): seq<Finding> {
    seq(|fs|, i requires 0 <= i < |fs| => Expire(fs[i], now, parse))
  }

  lemma OpenStatus(s: string)
    requires s == "Open"
    ensures !IsRiskAccepted(s) && IsOpenRisk(s)
  {
    SpacedStatus(s);
    Text.LowerAt(s);
    assert NormalizeStatus(s)[0] == 'o';
    assert forall i :: 0 <= i < |CLOSED| ==> CLOSED[i][0] != 'o';
  }

  /** A regression is not an accepted risk. */
  lemma RegressionStatus(s: string)
    requires s == "Reopened"
    ensures !IsRiskAccepted(s)
  {
    SpacedStatus(s);
    Text.LowerAt(s);
    assert NormalizeStatus(s)[1] == 'e';
  }

  lemma LowerIs(s: string, t: string)
    requires |s| == |t| && forall i :: 0 <= i < |s| ==> Text.LowerChar(s[i]) == t[i]
    ensures Text.Lower(s) == t
  {
    Text.LowerAt(s);
  }

  lemma AcceptedStatus(s: string)
    requires s == "Risk Accepted"
    ensures IsRiskAccepted(s)
  {
    SpacedStatus(s);
    AcceptedLower(s);
  }

  lemma AcceptedLower(s: string)
    requires s == "Risk Accepted"
    ensures Text.Lower(s) == RISK_ACCEPTED
  {
    LowerIs(s, RISK_ACCEPTED);
  }

  /** A finding that was reopened never lapses again. */
  lemma ReopenedStaysOpen(f: Finding, at: int, now: int, parse: Parse)
    requires f.attestation.Some?
    ensures !Lapsed(Reopened(f, at), now, parse)
    ensures IsOpenRisk(Reopened(f, at).status)
  {
    OpenStatus(Reopened(f, at).status);
  }

  /** The system's own entry about a waiver that ran out. */
  predicate IsExpiryEntry(e: AuditEntry, now: int, a: Attestation) {
    && e.ts == now && e.user == "system" && e.action == "Waiver expired — auto-reopened"
    && e.note == "Waiver " + a.waiverRef + " expired " + a.expiresAt
  }

  /**
   Reopening loses nothing: it moves the status between its two readings, adds one audit
   entry stamped with the instant, and taking both back gives the finding that was.
   */
  lemma ReopenKeepsRecord(f: Finding, now: int, parse: Parse)
    requires Lapsed(f, now, parse)
    ensures var r := Expire(f, now, parse);
            && IsOpenRisk(r.status) && IsRiskAccepted(f.status) && IsRiskAccepted(r.previousStatus)
            && r.attestation.Some? && r.attestation.value.expiredAt == Some(now)
            && r.status == "Open" && r.previousStatus == "Risk Accepted"
            && |r.audit| == |f.audit| + 1
            && IsExpiryEntry(r.audit[|f.audit|], now, f.attestation.value)
            && r.(status := f.status, previousStatus := f.previousStatus, audit := r.audit[..|f.audit|],
                  attestation := Some(r.attestation.value.(expiredAt := f.attestation.value.expiredAt))) == f
  {
    var r := Expire(f, now, parse);
    OpenStatus(r.status);
    AcceptedStatus(r.previousStatus);
  }

  /** A lapsed waiver stays lapsed at every later instant; an unreadable date is lapsed at all. */
  lemma LapseIsPermanent(f: Finding, t1: int, t2: int, parse: Parse)
    requires t1 <= t2 && Lapsed(f, t1, parse)
    ensures Lapsed(f, t2, parse)
  {
    var d := f.attestation.value.expiresAt;
    if parse(d).Some? {
      DaysLeftMeaning(d, t1, parse, parse(d).value);
      DaysLeftMeaning(d, t2, parse, parse(d).value);
    }
  }

  /** Loading the findings once at each of these instants, in this order. */
  function Loads(f: Finding, times: seq<int>, parse: Parse): Finding
    decreases |times|
  {
    if times == [] then f else Loads(Expire(f, times[0], parse), times[1..], parse)
  }

  lemma {:induction false} LoadsUnlapsed(f: Finding, times: seq<int>, parse: Parse)
    requires forall i :: 0 <= i < |times| ==> !Lapsed(f, times[i], parse)
    ensures Loads(f, times, parse) == f
    decreases |times|
  {
    if times != [] {
      var rest := times[1..];
      assert forall i :: 0 <= i < |rest| ==> rest[i] == times[i + 1];
      LoadsUnlapsed(f, rest, parse);
    }
  }

  /** A series of loads is one load: at the first instant that finds the waiver lapsed. */
  lemma {:induction false} LoadsCollapse(f: Finding, times: seq<int>, k: nat, parse: Parse)
    requires k < |times| && Lapsed(f, times[k], parse)
    requires forall i :: 0 <= i < k ==> !Lapsed(f, times[i], parse)
    ensures Loads(f, times, parse) == Reopened(f, times[k])
    decreases |times|
  {
    var rest := times[1..];
    assert forall i :: 0 <= i < |rest| ==> rest[i] == times[i + 1];
    if k == 0 {
      forall i | 0 <= i < |rest|
        ensures !Lapsed(Reopened(f, times[0]), rest[i], parse)
      {
        ReopenedStaysOpen(f, times[0], rest[i], parse);
      }
      LoadsUnlapsed(Reopened(f, times[0]), rest, parse);
    } else {
      LoadsCollapse(f, rest, k - 1, parse);
    }
  }

  /** Equal but for the instant at which the system recorded the expiry. */
  predicate SameVerdict(f: Finding, g: Finding) {
    && f.status == g.status
    && f.previousStatus == g.previousStatus
    && |f.audit| == |g.audit|
    && (forall i :: 0 <= i < |f.audit| ==> f.audit[i].(ts := 0) == g.audit[i].(ts := 0))
    && f.(status := "", previousStatus := "", attestation := None, audit := [])
       == g.(status := "", previousStatus := "", attestation := None, audit := [])
    && f.attestation.Some? == g.attestation.Some?
    && (f.attestation.Some? ==>
          f.attestation.value.(expiredAt := None) == g.attestation.value.(expiredAt := None))
  }

  /**
   * A series of loads whose latest instant is `now` ends with the verdict of loading at `now`
   * alone, whatever the dates; in particular expiry at `t1` then at `t2 >= t1` is expiry at `t2`.
   */
  lemma LoadsAreLastLoad(f: Finding, times: seq<int>, now: int, parse: Parse)
    requires now in times && forall i :: 0 <= i < |times| ==> times[i] <= now
    ensures SameVerdict(Loads(f, times, parse), Expire(f, now, parse))
  {
    if Lapsed(f, now, parse) {
      var k := FirstLapse(f, times, now, parse);
      LoadsCollapse(f, times, k, parse);
    } else {
      forall i | 0 <= i < |times|
        ensures !Lapsed(f, times[i], parse)
      {
        if Lapsed(f, times[i], parse) {
          LapseIsPermanent(f, times[i], now, parse);
        }
      }
      LoadsUnlapsed(f, times, parse);
    }
  }

  lemma FirstLapse(f: Finding, times: seq<int>, now: int, parse: Parse) returns (k: nat)
    requires now in times && Lapsed(f, now, parse)
    ensures k < |times| && Lapsed(f, times[k], parse)
    ensures forall i :: 0 <= i < k ==> !Lapsed(f, times[i], parse)
  {
    k := 0;
    while !Lapsed(f, times[k], parse)
      invariant k < |times|
      invariant forall i :: 0 <= i < k ==> !Lapsed(f, times[i], parse)
      decreases |times| - k
    {
      var j :| 0 <= j < |times| && times[j] == now;
      assert j > k;
      k := k + 1;
    }
  }

  lemma ExpireTwice(f: Finding, t1: int, t2: int, parse: Parse)
    requires t1 <= t2
    ensures SameVerdict(Expire(Expire(f, t1, parse), t2, parse), Expire(f, t2, parse))
    ensures Expire(Expire(f, t1, parse), t1, parse) == Expire(f, t1, parse)
  {
    LoadsAreLastLoad(f, [t1, t2], t2, parse);
    assert Loads(f, [t1, t2], parse) == Loads(Expire(f, t1, parse), [t2], parse);
    if Lapsed(f, t1, parse) {
      ReopenedStaysOpen(f, t1, t1, parse);
    }
  }

  // --------------------------------------------------------------------------- Alerts

  datatype Kind = ExpiredWaiver | WaiverExpiring | SlaSoon | Overdue | Regression | SecretOpen

  datatype Severity = Critical | High | Medium | Low

  datatype Alert = Alert(kind: Kind, severity: Severity, id: string, waiverRef: string, days: Option<int>)

  function Rank(s: Severity): int {
    match s case Critical => 0 case High => 1 case Medium => 2 case Low => 3
  }

  predicate NoLessSevere(a: Alert, b: Alert) {
    Rank(a.severity) <= Rank(b.severity)
  }

  /** Due in the past, on an open risk; the instant itself counts, not whole days. */
  predicate IsOverdueOpenRisk(f: Finding, now: int, parse: Parse) {
    IsOpenRisk(f.status) && f.slaDue != "" && parse(f.slaDue).Some? && parse(f.slaDue).value < now
  }

  /** What one finding adds in the pass for `kind`. */
  function Raised(kind: Kind, f: Finding, now: int, parse: Parse): seq<Alert> {
    if f.archived then [] else
    match kind
    case ExpiredWaiver =>
      if !HoldsWaiver(f) then []
      else (match DaysLeft(f.attestation.value.expiresAt, now, parse)
            case Left(d) =>
              if d < 0 then [Alert(kind, High, f.id, f.attestation.value.waiverRef, None)] else []
            case _ => [])
    case WaiverExpiring =>
      if !HoldsWaiver(f) then []
      else (match DaysLeft(f.attestation.value.expiresAt, now, parse)
            case Left(d) =>
              if 0 <= d <= 30 then [Alert(kind, if d <= 7 then High else Medium, f.id, "", Some(d))] else []
            case _ => [])
    case SlaSoon =>
      if !IsOpenRisk(f.status) || f.slaDue == "" || f.trackerComment then []
      else (match DaysLeft(f.slaDue, now, parse)
            case Left(d) => if 0 <= d <= 2 then [Alert(kind, High, f.id, "", None)] else []
            case _ => [])
    case Overdue =>
      if !IsOverdueOpenRisk(f, now, parse) then []
      else (match DaysLeft(f.slaDue, now, parse)
            case Left(d) => if d < 0 then [Alert(kind, Critical, f.id, "", None)] else []
            case _ => [])
    case Regression =>
      if f.status == "Reopened" then [Alert(kind, High, f.id, "", None)] else []
    case SecretOpen =>
      if f.findingType == "Secret" && IsOpenRisk(f.status) then [Alert(kind, Critical, f.id, "", None)] else []
  }

  /** The alerts of one pass, in the order of the findings. */
  function Pass(kind: Kind, fs: seq<Finding>, now: int, parse: Parse): seq<Alert> {
    if fs == [] then []
    else Pass(kind, fs[..|fs| - 1], now, parse) + Raised(kind, fs[|fs| - 1], now, parse)
  }

  const KINDS: seq<Kind> := [ExpiredWaiver, WaiverExpiring, SlaSoon, Overdue, Regression, SecretOpen]

  /** The passes for the first `n` kinds, one after the other. */
  function Passes(n: nat, fs: seq<Finding>, now: int, parse: Parse): seq<Alert>
    requires n <= |KINDS|
  {
    if n == 0 then [] else Passes(n - 1, fs, now, parse) + Pass(KINDS[n - 1], fs, now, parse)
  }

  /** The alerts of one severity, in their order. */
  function Of(s: Severity, alerts: seq<Alert>): seq<Alert> {
    if alerts == [] then []
    else (if alerts[0].severity == s then [alerts[0]] else []) + Of(s, alerts[1..])
  }

  function BySeverity(alerts: seq<Alert>): seq<Alert> {
    Of(Critical, alerts) + Of(High, alerts) + Of(Medium, alerts) + Of(Low, alerts)
  }

  // ---- The order of the list

  lemma OfCons(s: Severity, a: Alert, xs: seq<Alert>)
    ensures Of(s, [a] + xs) == (if a.severity == s then [a] else []) + Of(s, xs)
  {
    assert ([a] + xs)[1..] == xs;
  }

  function Only(s: Severity, a: Alert): seq<Alert> {
    if a.severity == s then [a] else []
  }

  /** Inserting before equals keeps the inserted alert ahead of its own severity, and moves no other. */
  lemma {:induction false} InsertStable(s: Severity, a: Alert, xs: seq<Alert>)
    ensures Of(s, Insert(a, xs, NoLessSevere)) == Only(s, a) + Of(s, xs)
    decreases xs
  {
    if xs == [] || NoLessSevere(a, xs[0]) {
      OfCons(s, a, xs);
      assert [a] + [] == [a];
    } else {
      var x, tail := xs[0], xs[1..];
      InsertStable(s, a, tail);
      OfCons(s, x, Insert(a, tail, NoLessSevere));
    }
  }

  lemma SeverityPreorder()
    ensures Preorder(NoLessSevere)
  {
  }

  lemma {:induction false} SortStable(s: Severity, xs: seq<Alert>)
    ensures Of(s, Sort(xs, NoLessSevere)) == Of(s, xs)
    decreases xs
  {
    if xs != [] {
      SortStable(s, xs[1..]);
      var rest := Sort(xs[1..], NoLessSevere);
      InsertStable(s, xs[0], rest);
    }
  }

  /** Nothing of a severity above the first of a sorted list is in it. */
  lemma {:induction false} OfAbove(s: Severity, xs: seq<Alert>)
    requires forall i :: 0 <= i < |xs| ==> Rank(s) < Rank(xs[i].severity)
    ensures Of(s, xs) == []
    decreases xs
  {
    if xs != [] {
      OfAbove(s, xs[1..]);
    }
  }

  lemma Assoc(a: seq<Alert>, b: seq<Alert>, c: seq<Alert>)
    ensures (a + b) + c == a + (b + c)
  {
  }

  lemma BySeverityCons(a: Alert, xs: seq<Alert>)
    requires forall i :: 0 <= i < |xs| ==> NoLessSevere(a, xs[i])
    ensures BySeverity([a] + xs) == [a] + BySeverity(xs)
  {
    var c, h, m, l := Of(Critical, xs), Of(High, xs), Of(Medium, xs), Of(Low, xs);
    OfCons(Critical, a, xs);
    OfCons(High, a, xs);
    OfCons(Medium, a, xs);
    OfCons(Low, a, xs);
    if Rank(a.severity) > 0 { OfAbove(Critical, xs); }
    if Rank(a.severity) > 1 { OfAbove(High, xs); }
    if Rank(a.severity) > 2 { OfAbove(Medium, xs); }
    match a.severity
    case Critical => Assoc([a], c, h); Assoc([a], c + h, m); Assoc([a], c + h + m, l);
    case High => Assoc([a], h, m); Assoc([a], h + m, l);
    case Medium => Assoc([a], m, l);
    case Low =>
  }

  lemma {:induction false} SortedIsBySeverity(xs: seq<Alert>)
    requires SortedBy(xs, NoLessSevere)
    ensures BySeverity(xs) == xs
    decreases xs
  {
    if xs != [] {
      SortedIsBySeverity(xs[1..]);
      BySeverityCons(xs[0], xs[1..]);
      assert xs == [xs[0]] + xs[1..];
    }
  }

  /** The sort is the four severities in turn, each in the order in which its alerts were raised. */
  lemma SortIsBySeverity(xs: seq<Alert>)
    ensures Sort(xs, NoLessSevere) == BySeverity(xs)
  {
    SeverityPreorder();
    SortSorts(xs, NoLessSevere);
    SortedIsBySeverity(Sort(xs, NoLessSevere));
    forall s: Severity
      ensures Of(s, Sort(xs, NoLessSevere)) == Of(s, xs)
    {
      SortStable(s, xs);
    }
  }

  // ---- Which alerts there are

  /** Some finding adds `a` in the pass for `kind`. */
  predicate RaisedIn(kind: Kind, fs: seq<Finding>, now: int, parse: Parse, a: Alert) {
    exists i :: 0 <= i < |fs| && a in Raised(kind, fs[i], now, parse)
  }

  lemma RaisedInSnoc(kind: Kind, fs: seq<Finding>, f: Finding, now: int, parse: Parse, a: Alert)
    ensures RaisedIn(kind, fs + [f], now, parse, a)
            <==> RaisedIn(kind, fs, now, parse, a) || a in Raised(kind, f, now, parse)
  {
    var all := fs + [f];
    assert all[|fs|] == f;
    if RaisedIn(kind, fs, now, parse, a) {
      var i :| 0 <= i < |fs| && a in Raised(kind, fs[i], now, parse);
      assert a in Raised(kind, all[i], now, parse);
    }
  }

  lemma {:induction false} PassMembers(kind: Kind, fs: seq<Finding>, now: int, parse: Parse, a: Alert)
    ensures a in Pass(kind, fs, now, parse) <==> RaisedIn(kind, fs, now, parse, a)
    decreases fs
  {
    if fs != [] {
      var front, last := fs[..|fs| - 1], fs[|fs| - 1];
      PassMembers(kind, front, now, parse, a);
      RaisedInSnoc(kind, front, last, now, parse, a);
      assert fs == front + [last];
    }
  }

  lemma {:induction false} PassesMembers(n: nat, fs: seq<Finding>, now: int, parse: Parse, a: Alert)
    requires n <= |KINDS|
    ensures a in Passes(n, fs, now, parse)
            <==> exists k :: 0 <= k < n && RaisedIn(KINDS[k], fs, now, parse, a)
    decreases n
  {
    if n > 0 {
      PassesMembers(n - 1, fs, now, parse, a);
      PassMembers(KINDS[n - 1], fs, now, parse, a);
    }
  }

  /** A finding raises an alert of each kind exactly in these windows around the date it carries. */
  lemma RaisedWindows(f: Finding, now: int, parse: Parse)
    ensures Raised(ExpiredWaiver, f, now, parse) != []
            <==> !f.archived && HoldsWaiver(f) && (match parse(f.attestation.value.expiresAt)
                  case None => false
                  case Some(t) => t + DAY <= now)
    ensures Raised(WaiverExpiring, f, now, parse) != []
            <==> !f.archived && HoldsWaiver(f) && (match parse(f.attestation.value.expiresAt)
                  case None => false
                  case Some(t) => now < t + DAY && t <= now + 30 * DAY)
    ensures Raised(SlaSoon, f, now, parse) != []
            <==> !f.archived && IsOpenRisk(f.status) && f.slaDue != "" && !f.trackerComment
                 && (match parse(f.slaDue)
                     case None => false
                     case Some(t) => now < t + DAY && t <= now + 2 * DAY)
    ensures Raised(Overdue, f, now, parse) != []
            <==> !f.archived && IsOpenRisk(f.status) && f.slaDue != ""
                 && (match parse(f.slaDue)
                     case None => false
                     case Some(t) => t + DAY <= now)
  {
  }

  /** A waiver about to expire is urgent in its last week. */
  lemma ExpiringSeverity(f: Finding, now: int, parse: Parse, a: Alert)
    requires a in Raised(WaiverExpiring, f, now, parse)
    ensures HoldsWaiver(f) && parse(f.attestation.value.expiresAt).Some?
    ensures a.severity == if parse(f.attestation.value.expiresAt).value <= now + 7 * DAY then High else Medium
  {
  }

  predicate Dated(kind: Kind) {
    kind != Regression && kind != SecretOpen
  }

  /** Of the four kinds that depend on a date, a finding raises at most one. */
  lemma DatedAlertsExclusive(f: Finding, now: int, parse: Parse, j: Kind, k: Kind)
    requires Dated(j) && Dated(k)
    requires Raised(j, f, now, parse) != [] && Raised(k, f, now, parse) != []
    ensures j == k
  {
    RaisedWindows(f, now, parse);
  }

  /** The instant a text names lies in the days from `first` to `last` after `now`. */
  predicate DueWithin(d: string, now: int, parse: Parse, first: int, last: int) {
    parse(d).Some? && now + (first - 1) * 86_400_000 < parse(d).value <= now + last * 86_400_000
  }

  predicate DueDaysAgo(d: string, now: int, parse: Parse) {
    parse(d).Some? && parse(d).value <= now - 86_400_000
  }

  /**
   The alert `a` is exactly what finding `f` calls for, spelled out kind by kind: which
   findings, in which window around which date, how severe, and what the alert carries.
   */
  ghost predicate CallsFor(f: Finding, a: Alert, now: int, parse: Parse) {
    && !f.archived && a.id == f.id
    && match a.kind
       case ExpiredWaiver =>
         && IsRiskAccepted(f.status) && f.attestation.Some? && f.attestation.value.expiresAt != ""
         && DueDaysAgo(f.attestation.value.expiresAt, now, parse)
         && a.severity == High && a.waiverRef == f.attestation.value.waiverRef && a.days == None
       case WaiverExpiring =>
         && IsRiskAccepted(f.status) && f.attestation.Some? && f.attestation.value.expiresAt != ""
         && DueWithin(f.attestation.value.expiresAt, now, parse, 0, 30)
         && a.severity == (if DueWithin(f.attestation.value.expiresAt, now, parse, 0, 7) then High else Medium)
         && a.waiverRef == "" && a.days.Some?
         && DueWithin(f.attestation.value.expiresAt, now, parse, a.days.value, a.days.value)
       case SlaSoon =>
         && IsOpenRisk(f.status) && f.slaDue != "" && !f.trackerComment && DueWithin(f.slaDue, now, parse, 0, 2)
         && a.severity == High && a.waiverRef == "" && a.days == None
       case Overdue =>
         && IsOpenRisk(f.status) && f.slaDue != "" && DueDaysAgo(f.slaDue, now, parse)
         && a.severity == Critical && a.waiverRef == "" && a.days == None
       case Regression =>
         f.status == "Reopened" && a.severity == High && a.waiverRef == "" && a.days == None
       case SecretOpen =>
         && f.findingType == "Secret" && IsOpenRisk(f.status)
         && a.severity == Critical && a.waiverRef == "" && a.days == None
  }

  lemma OtherAlertIff(f: Finding, a: Alert, now: int, parse: Parse)
    requires a.kind != ExpiredWaiver && a.kind != WaiverExpiring
    ensures a in Raised(a.kind, f, now, parse) <==> CallsFor(f, a, now, parse)
  {
  }

  /** A finding raises an alert if and only if it calls for it, in all six passes. */
  lemma RaisedIff(f: Finding, a: Alert, now: int, parse: Parse)
    ensures a in Raised(a.kind, f, now, parse) <==> CallsFor(f, a, now, parse)
    ensures forall kind :: |Raised(kind, f, now, parse)| <= 1
  {
    if a.kind != ExpiredWaiver && a.kind != WaiverExpiring {
      OtherAlertIff(f, a, now, parse);
    }
  }

  /** The overdue test by the instant and the overdue alert by whole days differ for one day. */
  lemma OverdueWithoutAlertIff(f: Finding, now: int, parse: Parse)
    requires !f.archived && IsOverdueOpenRisk(f, now, parse)
    ensures Raised(Overdue, f, now, parse) == [] <==> now < parse(f.slaDue).value + DAY
  {
    RaisedWindows(f, now, parse);
  }

  /** Loading reopens a finding exactly when it raised an expired-waiver alert, was archived, or
      its date could not be read. */
  lemma ReopenedIff(f: Finding, now: int, parse: Parse)
    ensures Expire(f, now, parse) != f
            <==> Raised(ExpiredWaiver, f, now, parse) != []
                 || (HoldsWaiver(f) && parse(f.attestation.value.expiresAt).None?)
                 || (f.archived && Raised(ExpiredWaiver, f.(archived := false), now, parse) != [])
  {
    if Lapsed(f, now, parse) {
      assert |Reopened(f, now).audit| == |f.audit| + 1;
    }
  }

  /** What loading does to the alerts of one finding. */
  lemma RaisedAfterExpire(kind: Kind, f: Finding, now: int, parse: Parse)
    ensures var after := Raised(kind, Expire(f, now, parse), now, parse);
            match kind
            case ExpiredWaiver => after == []
            case WaiverExpiring => after == Raised(kind, f, now, parse)
            case _ => Raised(kind, f, now, parse) == [] || after == Raised(kind, f, now, parse)
  {
    if Lapsed(f, now, parse) {
      OpenStatus(Expire(f, now, parse).status);
      if f.status == "Reopened" {
        RegressionStatus(f.status);
      }
    }
  }

  /**
   * At the instant of loading no expired-waiver alert is left, the waivers about to expire are
   * announced as before, and no alert of another kind is lost.
   */
  lemma {:induction false} PassAfterExpire(kind: Kind, fs: seq<Finding>, now: int, parse: Parse)
    ensures var before, after := Pass(kind, fs, now, parse), Pass(kind, ExpireAll(fs, now, parse), now, parse);
            match kind
            case ExpiredWaiver => after == []
            case WaiverExpiring => after == before
            case _ => multiset(before) <= multiset(after)
    decreases fs
  {
    if fs != [] {
      var front, last := fs[..|fs| - 1], fs[|fs| - 1];
      PassAfterExpire(kind, front, now, parse);
      var all := ExpireAll(fs, now, parse);
      assert all[..|all| - 1] == ExpireAll(front, now, parse);
      assert all[|all| - 1] == Expire(last, now, parse);
      RaisedAfterExpire(kind, last, now, parse);
    }
  }

  lemma PassSnoc(kind: Kind, fs: seq<Finding>, i: nat, now: int, parse: Parse)
    requires i < |fs|
    ensures Pass(kind, fs[..i + 1], now, parse)
            == Pass(kind, fs[..i], now, parse) + Raised(kind, fs[i], now, parse)
  {
    assert fs[..i + 1][..i] == fs[..i];
  }

  /** One pass: every finding in turn may push an alert onto the list. */
  method RunPass(kind: Kind, fs: seq<Finding>, now: int, parse: Parse, before: seq<Alert>) returns (alerts: seq<Alert>)
    ensures alerts == before + Pass(kind, fs, now, parse)
  {
    alerts := before;
    for i := 0 to |fs|
      invariant alerts == before + Pass(kind, fs[..i], now, parse)
    {
      PassSnoc(kind, fs, i, now, parse);
      alerts := alerts + Raised(kind, fs[i], now, parse);
    }
    assert fs[..|fs|] == fs;
  }

  /** `computeAlerts`: six passes over the findings, then a stable sort. */
  method ComputeAlerts(fs: seq<Finding>, now: int, parse: Parse) returns (alerts: seq<Alert>)
    ensures alerts == BySeverity(Passes(|KINDS|, fs, now, parse))
    ensures SortedBy(alerts, NoLessSevere)
    ensures multiset(alerts) == multiset(Passes(|KINDS|, fs, now, parse))
    ensures forall a :: a in alerts <==> exists i :: 0 <= i < |fs| && CallsFor(fs[i], a, now, parse)
  {
    alerts := [];
    for n := 0 to |KINDS|
      invariant alerts == Passes(n, fs, now, parse)
    {
      alerts := RunPass(KINDS[n], fs, now, parse, alerts);
    }
    SortIsBySeverity(alerts);
    SortMultiset(alerts, NoLessSevere);
    SeverityPreorder();
    SortSorts(alerts, NoLessSevere);
    alerts := Sort(alerts, NoLessSevere);
    forall a
      ensures a in alerts <==> exists i :: 0 <= i < |fs| && CallsFor(fs[i], a, now, parse)
    {
      ListedIff(fs, now, parse, a);
    }
  }

  /** The list holds exactly the alerts that the findings call for. */
  lemma ListedIff(fs: seq<Finding>, now: int, parse: Parse, a: Alert)
    ensures a in BySeverity(Passes(|KINDS|, fs, now, parse))
            <==> exists i :: 0 <= i < |fs| && CallsFor(fs[i], a, now, parse)
  {
    AlertMembers(fs, now, parse, a);
    if RaisedIn(a.kind, fs, now, parse, a) {
      var i :| 0 <= i < |fs| && a in Raised(a.kind, fs[i], now, parse);
      RaisedIff(fs[i], a, now, parse);
    }
    if i :| 0 <= i < |fs| && CallsFor(fs[i], a, now, parse) {
      RaisedIff(fs[i], a, now, parse);
      assert a in Raised(a.kind, fs[i], now, parse);
    }
  }

  /** The order of the passes. */
  lemma PassesInOrder(fs: seq<Finding>, now: int, parse: Parse)
    ensures Passes(|KINDS|, fs, now, parse)
            == Pass(ExpiredWaiver, fs, now, parse) + Pass(WaiverExpiring, fs, now, parse) + Pass(SlaSoon, fs, now, parse)
               + Pass(Overdue, fs, now, parse) + Pass(Regression, fs, now, parse) + Pass(SecretOpen, fs, now, parse)
  {
    assert Passes(0, fs, now, parse) == [];
    assert Passes(1, fs, now, parse) == Pass(ExpiredWaiver, fs, now, parse);
    assert Passes(2, fs, now, parse) == Passes(1, fs, now, parse) + Pass(WaiverExpiring, fs, now, parse);
    assert Passes(3, fs, now, parse) == Passes(2, fs, now, parse) + Pass(SlaSoon, fs, now, parse);
    assert Passes(4, fs, now, parse) == Passes(3, fs, now, parse) + Pass(Overdue, fs, now, parse);
    assert Passes(5, fs, now, parse) == Passes(4, fs, now, parse) + Pass(Regression, fs, now, parse);
  }

  /** Each pass goes through the findings in their order. */
  lemma {:induction false} PassConcat(kind: Kind, fs: seq<Finding>, gs: seq<Finding>, now: int, parse: Parse)
    ensures Pass(kind, fs + gs, now, parse) == Pass(kind, fs, now, parse) + Pass(kind, gs, now, parse)
    decreases gs
  {
    if gs == [] {
      assert fs + gs == fs;
    } else {
      assert (fs + gs)[..|fs + gs| - 1] == fs + gs[..|gs| - 1];
      PassConcat(kind, fs, gs[..|gs| - 1], now, parse);
    }
  }

  /** An alert is on the list exactly when some finding raises it in the pass for its kind. */
  lemma AlertMembers(fs: seq<Finding>, now: int, parse: Parse, a: Alert)
    ensures a in BySeverity(Passes(|KINDS|, fs, now, parse)) <==> RaisedIn(a.kind, fs, now, parse, a)
  {
    var raised := Passes(|KINDS|, fs, now, parse);
    SortIsBySeverity(raised);
    SortMembers(raised, NoLessSevere);
    PassesMembers(|KINDS|, fs, now, parse, a);
    var k := Index(a.kind);
    assert KINDS[k] == a.kind;
    forall j | 0 <= j < |KINDS| && RaisedIn(KINDS[j], fs, now, parse, a)
      ensures KINDS[j] == a.kind
    {
      var i :| 0 <= i < |fs| && a in Raised(KINDS[j], fs[i], now, parse);
      RaisedKind(KINDS[j], fs[i], now, parse, a);
    }
  }

  function Index(kind: Kind): (k: nat)
    ensures k < |KINDS| && KINDS[k] == kind
  {
    match kind
    case ExpiredWaiver => 0 case WaiverExpiring => 1 case SlaSoon => 2
    case Overdue => 3 case Regression => 4 case SecretOpen => 5
  }

  lemma RaisedKind(kind: Kind, f: Finding, now: int, parse: Parse, a: Alert)
    ensures a in Raised(kind, f, now, parse) ==> a.kind == kind && a.id == f.id
  {
  }

  /** Findings as loaded and the alerts shown for them, both at `now`. */
  method LoadAndAlert(fs: seq<Finding>, now: int, parse: Parse) returns (loaded: seq<Finding>, alerts: seq<Alert>)
    ensures |loaded| == |fs| && forall i :: 0 <= i < |fs| ==> loaded[i] == Expire(fs[i], now, parse)
    ensures forall a :: a in alerts ==> a.kind != ExpiredWaiver
    ensures forall a: Alert :: a.kind != ExpiredWaiver && RaisedIn(a.kind, fs, now, parse, a) ==> a in alerts
  {
    loaded := ExpireAll(fs, now, parse);
    alerts := ComputeAlerts(loaded, now, parse);
    forall a | a in alerts
      ensures a.kind != ExpiredWaiver
    {
      AlertMembers(loaded, now, parse, a);
      NoExpiredLeft(fs, now, parse, a);
    }
    forall a: Alert | a.kind != ExpiredWaiver && RaisedIn(a.kind, fs, now, parse, a)
      ensures a in alerts
    {
      OthersKept(fs, now, parse, a);
      AlertMembers(loaded, now, parse, a);
    }
  }

  lemma NoExpiredLeft(fs: seq<Finding>, now: int, parse: Parse, a: Alert)
    ensures RaisedIn(a.kind, ExpireAll(fs, now, parse), now, parse, a) ==> a.kind != ExpiredWaiver
  {
    PassMembers(a.kind, ExpireAll(fs, now, parse), now, parse, a);
    PassAfterExpire(a.kind, fs, now, parse);
  }

  lemma OthersKept(fs: seq<Finding>, now: int, parse: Parse, a: Alert)
    ensures a.kind != ExpiredWaiver && RaisedIn(a.kind, fs, now, parse, a)
            ==> RaisedIn(a.kind, ExpireAll(fs, now, parse), now, parse, a)
  {
    PassMembers(a.kind, fs, now, parse, a);
    PassMembers(a.kind, ExpireAll(fs, now, parse), now, parse, a);
    PassAfterExpire(a.kind, fs, now, parse);
    assert a in Pass(a.kind, fs, now, parse) ==> a in multiset(Pass(a.kind, fs, now, parse));
  }
}
