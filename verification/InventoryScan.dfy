/**
 Incremental inventory scanning: what a pass skips, what it scans, and what it checkpoints.
 Scanner and ingest outcomes are adversarial, and a pass may die at any image, after the last
 one, and while it rewrites the state file.
 */
module InventoryScan {
  import opened Wrappers
  import opened Text
  import opened InventorySignature

  datatype Parser = Trivy | Grype | Openscap | Cyclonedx

  /** An entry of the inventory file; anything that is not an object is `None`. */
  type Entry = Option<Item>

  datatype Config = Config(
    scanTypes: seq<ScanType>,
    dryRun: bool,
    failOnError: bool,
    forceFullRescan: bool,
    fullRescanInterval: int,
    knownDigests: Option<set<string>>,
    grypeKey: bool,
    openscapKey: bool,
    cyclonedxKey: bool
  )

  /** Whether the process lives, dies first, or dies while it saves: a torn file loads as empty. */
  datatype Fate = Lives | DiesBefore | DiesSaving

  /** Which scanners report, which ingests are accepted, and what becomes of the process. */
  datatype World = World(reports: set<Parser>, accepted: set<Parser>, fate: Fate)

  /** The persistent state file, as the next pass loads it. */
  datatype ScanState = ScanState(images: map<string, string>, lastFullScanAt: Option<int>)

  const EMPTY := ScanState(map[], None)

  /** What happened to one image; `ingested` are the reports that VAT accepted. */
  datatype Event =
    | Skipped(item: Item, scanTypes: seq<ScanType>)
    | Scanned(item: Item, scanTypes: seq<ScanType>, dryRun: bool, ingested: set<Parser>, failures: nat)

  predicate FullRescanDue(state: ScanState, cfg: Config, now: int) {
    cfg.forceFullRescan ||
    (cfg.fullRescanInterval > 0 && state.lastFullScanAt.Some?
     && now - state.lastFullScanAt.value >= cfg.fullRescanInterval)
  }

  predicate Scannable(e: Entry) {
    e.Some? && Trim(e.value.image) != ""
  }

  predicate VatHasIt(cfg: Config, item: Item) {
    var digest := Trim(item.imageDigest);
    cfg.knownDigests.None? || digest == "" || Lower(digest) in cfg.knownDigests.value
  }

  predicate Skips(images: map<string, string>, cfg: Config, due: bool, item: Item) {
    && !due
    && VatHasIt(cfg, item)
    && Key(item) in images
    && images[Key(item)] == Signature(item, cfg.scanTypes)
  }

  // ---------------------------------------------------------------------------
  // One image
  // ---------------------------------------------------------------------------

  /** `parser` is asked for and produced a report. */
  predicate Reported(cfg: Config, w: World, t: ScanType, parser: Parser) {
    t in cfg.scanTypes && parser in w.reports
  }

  function Miss(cfg: Config, w: World, t: ScanType, parser: Parser): nat {
    if t in cfg.scanTypes && parser !in w.reports then 1 else 0
  }

  /** Only a missing Trivy or CycloneDX report counts against the checkpoint. */
  function RequiredMisses(cfg: Config, w: World): nat {
    Miss(cfg, w, ImageSca, Trivy) + Miss(cfg, w, ImageSbom, Cyclonedx)
  }

  function AllMisses(cfg: Config, w: World): nat {
    RequiredMisses(cfg, w) + Miss(cfg, w, ImageGrype, Grype) + Miss(cfg, w, ImageStig, Openscap)
  }

  datatype Ingest = Ingest(ingested: set<Parser>, failures: nat, blocked: bool)

  /** Ingest one report unless an earlier missing key ended this target. */
  function Post(so: Ingest, due: bool, hasKey: bool, parser: Parser, w: World): Ingest {
    if so.blocked || !due then so
    else if !hasKey then Ingest(so.ingested, so.failures + 1, true)
    else if parser in w.accepted then so.(ingested := so.ingested + {parser})
    else so.(failures := so.failures + 1)
  }

  /** The four ingests of an image, in the order the program makes them. */
  function IngestAll(cfg: Config, w: World): Ingest {
    var a := Post(Ingest({}, 0, false), Reported(cfg, w, ImageSca, Trivy), true, Trivy, w);
    var b := Post(a, Reported(cfg, w, ImageGrype, Grype), cfg.grypeKey, Grype, w);
    var c := Post(b, Reported(cfg, w, ImageStig, Openscap), cfg.openscapKey, Openscap, w);
    Post(c, Reported(cfg, w, ImageSbom, Cyclonedx), cfg.cyclonedxKey, Cyclonedx, w)
  }

  /** The ingests one by one: failures only add up, and a missing key ends the target. */
  lemma IngestStages(cfg: Config, w: World) returns (a: Ingest, b: Ingest, c: Ingest, d: Ingest)
    ensures a == Post(Ingest({}, 0, false), Reported(cfg, w, ImageSca, Trivy), true, Trivy, w)
    ensures b == Post(a, Reported(cfg, w, ImageGrype, Grype), cfg.grypeKey, Grype, w)
    ensures c == Post(b, Reported(cfg, w, ImageStig, Openscap), cfg.openscapKey, Openscap, w)
    ensures d == Post(c, Reported(cfg, w, ImageSbom, Cyclonedx), cfg.cyclonedxKey, Cyclonedx, w)
    ensures d == IngestAll(cfg, w)
    ensures a.failures <= b.failures <= c.failures <= d.failures
    ensures b.blocked ==> d == b
    ensures c.blocked ==> d == c
  {
    a := Post(Ingest({}, 0, false), Reported(cfg, w, ImageSca, Trivy), true, Trivy, w);
    b := Post(a, Reported(cfg, w, ImageGrype, Grype), cfg.grypeKey, Grype, w);
    c := Post(b, Reported(cfg, w, ImageStig, Openscap), cfg.openscapKey, Openscap, w);
    d := Post(c, Reported(cfg, w, ImageSbom, Cyclonedx), cfg.cyclonedxKey, Cyclonedx, w);
  }

  /** The scan of one image: the program stops, or goes on with what reached VAT and what failed. */
  datatype Result = Stopped | Completed(ingested: set<Parser>, failures: nat)

  function ScanImage(cfg: Config, w: World): Result {
    if w.fate.DiesBefore? || (cfg.failOnError && AllMisses(cfg, w) > 0) then Stopped
    else if cfg.dryRun then Completed({}, RequiredMisses(cfg, w))
    else
      var i := IngestAll(cfg, w);
      if cfg.failOnError && i.failures > 0 then Stopped
      else Completed(i.ingested, RequiredMisses(cfg, w) + i.failures)
  }

  /** The reports a scan of these types must bring to VAT. */
  predicate Delivered(scanTypes: seq<ScanType>, ingested: set<Parser>) {
    && (ImageSca in scanTypes ==> Trivy in ingested)
    && (ImageSbom in scanTypes ==> Cyclonedx in ingested)
  }

  /** No recorded failure means that every required report was made and, unless dry, accepted. */
  lemma CleanScanDelivers(cfg: Config, w: World)
    requires ScanImage(cfg, w).Completed? && ScanImage(cfg, w).failures == 0
    ensures ImageSca in cfg.scanTypes ==> Trivy in w.reports
    ensures ImageSbom in cfg.scanTypes ==> Cyclonedx in w.reports
    ensures !cfg.dryRun ==> Delivered(cfg.scanTypes, ScanImage(cfg, w).ingested)
    ensures ScanImage(cfg, w).ingested <= w.accepted * w.reports
  {
  }

  /**
   When a scan is checkpointed, in terms of what happened: the process gets that far, the
   required reports are there, in strict mode the others too, and unless the run is dry every
   report that is there finds its key and is accepted.
   */
  lemma CheckpointedIff(cfg: Config, w: World)
    ensures ScanImage(cfg, w).Completed? && ScanImage(cfg, w).failures == 0
            <==> && w.fate != DiesBefore
                 && (ImageSca in cfg.scanTypes ==> Trivy in w.reports)
                 && (ImageSbom in cfg.scanTypes ==> Cyclonedx in w.reports)
                 && (cfg.failOnError ==> && (ImageGrype in cfg.scanTypes ==> Grype in w.reports)
                                         && (ImageStig in cfg.scanTypes ==> Openscap in w.reports))
                 && (!cfg.dryRun ==>
                       && (ImageSca in cfg.scanTypes ==> Trivy in w.accepted)
                       && (ImageSbom in cfg.scanTypes ==> cfg.cyclonedxKey && Cyclonedx in w.accepted)
                       && (ImageGrype in cfg.scanTypes && Grype in w.reports ==> cfg.grypeKey && Grype in w.accepted)
                       && (ImageStig in cfg.scanTypes && Openscap in w.reports ==> cfg.openscapKey && Openscap in w.accepted))
  {
  }

  /** Grype finds no key, and that ends the target before the later reports are posted. */
  predicate StopsAtGrype(cfg: Config, w: World) {
    ImageGrype in cfg.scanTypes && Grype in w.reports && !cfg.grypeKey
  }

  predicate StopsAtOpenscap(cfg: Config, w: World) {
    StopsAtGrype(cfg, w) || (ImageStig in cfg.scanTypes && Openscap in w.reports && !cfg.openscapKey)
  }

  /** Which reports reach VAT: asked for, made and accepted, with a key, and no key missing before. */
  lemma IngestedIff(cfg: Config, w: World)
    requires ScanImage(cfg, w).Completed?
    ensures var ingested := ScanImage(cfg, w).ingested;
            && (Trivy in ingested <==> !cfg.dryRun && ImageSca in cfg.scanTypes && Trivy in w.reports * w.accepted)
            && (Grype in ingested <==> !cfg.dryRun && ImageGrype in cfg.scanTypes && Grype in w.reports * w.accepted
                                       && !StopsAtGrype(cfg, w))
            && (Openscap in ingested <==> !cfg.dryRun && ImageStig in cfg.scanTypes && Openscap in w.reports * w.accepted
                                          && !StopsAtOpenscap(cfg, w))
            && (Cyclonedx in ingested <==> !cfg.dryRun && ImageSbom in cfg.scanTypes && Cyclonedx in w.reports * w.accepted
                                           && cfg.cyclonedxKey && !StopsAtOpenscap(cfg, w))
  {
    var a, b, c, d := IngestStages(cfg, w);
  }

  // ---------------------------------------------------------------------------
  // One pass
  // ---------------------------------------------------------------------------

  datatype Progress = Progress(
    images: map<string, string>,
    events: seq<Event>,
    failures: nat,
    scanned: nat,
    skipped: nat,
    stopped: bool,
    torn: bool
  )

  function Consider(p: Progress, cfg: Config, due: bool, e: Entry, w: World): Progress {
    if p.stopped || !Scannable(e) then p
    else
      var item := e.value;
      if Skips(p.images, cfg, due, item) then
        p.(events := p.events + [Skipped(item, cfg.scanTypes)], skipped := p.skipped + 1)
      else
        var r := ScanImage(cfg, w);
        if r.Stopped? then p.(scanned := p.scanned + 1, stopped := true)
        else
          p.(images := if r.failures > 0 then p.images
                       else if w.fate.DiesSaving? then map[]
                       else p.images[Key(item) := Signature(item, cfg.scanTypes)],
             stopped := w.fate.DiesSaving?,
             torn := r.failures == 0 && w.fate.DiesSaving?,
             events := p.events + [Scanned(item, cfg.scanTypes, cfg.dryRun, r.ingested, r.failures)],
             failures := p.failures + r.failures,
             scanned := p.scanned + 1)
  }

  /** The pass after its first `k` entries. */
  function After(images: map<string, string>, cfg: Config, due: bool, entries: seq<Entry>, world: nat -> World, k: nat): Progress
    requires k <= |entries|
  {
    if k == 0 then Progress(images, [], 0, 0, 0, false, false)
    else Consider(After(images, cfg, due, entries, world, k - 1), cfg, due, entries[k - 1], world(k - 1))
  }

  /** `end` is what becomes of the process after the last entry. */
  datatype PassInput = PassInput(cfg: Config, entries: seq<Entry>, world: nat -> World, now: int, end: Fate)

  function Loop(state: ScanState, pass: PassInput): Progress {
    After(state.images, pass.cfg, FullRescanDue(state, pass.cfg, pass.now), pass.entries, pass.world, |pass.entries|)
  }

  /** The pass got through without a failure and a full scan is to be recorded. */
  predicate FullScanDone(state: ScanState, pass: PassInput) {
    var p := Loop(state, pass);
    && !p.stopped && p.failures == 0
    && (FullRescanDue(state, pass.cfg, pass.now) || state.lastFullScanAt.None?)
  }

  /** The pass ends by declaring that a full scan has been made. */
  predicate DeclaresFull(state: ScanState, pass: PassInput) {
    FullScanDone(state, pass) && pass.end.Lives?
  }

  /** What the end of a pass makes of the state, given whether a full scan is to be recorded. */
  function Ended(state: ScanState, now: int, end: Fate, done: bool): ScanState {
    if !done || end.DiesBefore? then state
    else if end.DiesSaving? then EMPTY
    else state.(lastFullScanAt := Some(now))
  }

  function AfterPass(state: ScanState, pass: PassInput): ScanState {
    if Loop(state, pass).torn then EMPTY
    else Ended(ScanState(Loop(state, pass).images, state.lastFullScanAt), pass.now, pass.end, FullScanDone(state, pass))
  }

  // ---------------------------------------------------------------------------
  // The pass as the program runs it
  // ---------------------------------------------------------------------------

  class Scanner {
    var images: map<string, string>
    var lastFullScanAt: Option<int>

    constructor ()
      ensures images == map[] && lastFullScanAt == None
    {
      images, lastFullScanAt := map[], None;
    }

    /** The scan of one image; its targets all resolve to the one asset named by the image. */
    method ScanOne(cfg: Config, item: Item, w: World) returns (r: Result)
      requires Trim(item.image) != ""
      ensures r == ScanImage(cfg, w)
    {
      if w.fate.DiesBefore? {
        return Stopped;
      }
      var failures := Miss(cfg, w, ImageSca, Trivy) + Miss(cfg, w, ImageSbom, Cyclonedx);
      var bestEffort := Miss(cfg, w, ImageGrype, Grype) + Miss(cfg, w, ImageStig, Openscap);
      if cfg.failOnError && failures + bestEffort > 0 {
        return Stopped;
      }
      r := Completed({}, failures);
      var count := if |item.targets| == 0 then 1 else |item.targets|;
      var seen: set<string> := {};
      for t := 0 to count
        invariant t == 0 ==> seen == {} && r == Completed({}, RequiredMisses(cfg, w))
        invariant t > 0 ==> seen == {Trim(item.image)} && r == ScanImage(cfg, w) && r.Completed?
      {
        var asset := Trim(item.image);
        if asset in seen {
          continue;
        }
        seen := seen + {asset};
        if cfg.dryRun {
          continue;
        }
        var posted := IngestTarget(cfg, w);
        if posted.Stopped? {
          return Stopped;
        }
        r := Completed(r.ingested + posted.ingested, r.failures + posted.failures);
      }
    }

    /** The ingests of one target; a missing key ends the target, a rejected report does not. */
    method IngestTarget(cfg: Config, w: World) returns (r: Result)
      ensures var i := IngestAll(cfg, w);
              r == if cfg.failOnError && i.failures > 0 then Stopped else Completed(i.ingested, i.failures)
    {
      ghost var a, b, c, d := IngestStages(cfg, w);
      var ingested: set<Parser>, failures := {}, 0;
      if ImageSca in cfg.scanTypes && Trivy in w.reports {
        if Trivy in w.accepted {
          ingested := ingested + {Trivy};
        } else {
          failures := failures + 1;
          if cfg.failOnError { return Stopped; }
        }
      }
      assert a == Ingest(ingested, failures, false);
      if ImageGrype in cfg.scanTypes && Grype in w.reports {
        if !cfg.grypeKey {
          return if cfg.failOnError then Stopped else Completed(ingested, failures + 1);
        }
        if Grype in w.accepted {
          ingested := ingested + {Grype};
        } else {
          failures := failures + 1;
          if cfg.failOnError { return Stopped; }
        }
      }
      assert b == Ingest(ingested, failures, false);
      if ImageStig in cfg.scanTypes && Openscap in w.reports {
        if !cfg.openscapKey {
          return if cfg.failOnError then Stopped else Completed(ingested, failures + 1);
        }
        if Openscap in w.accepted {
          ingested := ingested + {Openscap};
        } else {
          failures := failures + 1;
          if cfg.failOnError { return Stopped; }
        }
      }
      assert c == Ingest(ingested, failures, false);
      if ImageSbom in cfg.scanTypes && Cyclonedx in w.reports {
        if !cfg.cyclonedxKey {
          return if cfg.failOnError then Stopped else Completed(ingested, failures + 1);
        }
        if Cyclonedx in w.accepted {
          ingested := ingested + {Cyclonedx};
        } else {
          failures := failures + 1;
          if cfg.failOnError { return Stopped; }
        }
      }
      r := Completed(ingested, failures);
    }

    /** One entry of the inventory: skip it, or scan it and checkpoint a clean scan. */
    method ConsiderEntry(cfg: Config, due: bool, e: Entry, w: World, ghost p: Progress)
      returns (scanned: nat, skipped: nat, failures: nat, stopped: bool, ghost p': Progress)
      requires images == p.images && !p.stopped && !p.torn
      modifies this
      ensures p' == Consider(p, cfg, due, e, w)
      ensures && lastFullScanAt == (if p'.torn then None else old(lastFullScanAt)) && (p'.torn ==> p'.stopped)
              && images == p'.images && scanned == p'.scanned - p.scanned && skipped == p'.skipped - p.skipped
              && failures == p'.failures - p.failures && stopped == p'.stopped
    {
      scanned, skipped, failures, stopped, p' := 0, 0, 0, false, Consider(p, cfg, due, e, w);
      if !Scannable(e) {
        return;
      }
      var item := e.value;
      var key, signature := Key(item), Signature(item, cfg.scanTypes);
      if !due && VatHasIt(cfg, item) && key in images && images[key] == signature {
        skipped := 1;
        return;
      }
      scanned := 1;
      var r := ScanOne(cfg, item, w);
      if r.Stopped? {
        stopped := true;
        return;
      }
      failures := r.failures;
      if r.failures == 0 {
        images := images[key := signature];
      }
      if w.fate.DiesSaving? {
        stopped := true;
        if r.failures == 0 {
          images, lastFullScanAt := map[], None;
        }
      }
    }

    /** Entry `k` of a pass that started from `start` and has come to `p`. */
    method ConsiderAt(pass: PassInput, due: bool, k: nat, ghost start: map<string, string>, ghost p: Progress)
      returns (scanned: nat, skipped: nat, failures: nat, stopped: bool, ghost p': Progress)
      requires k < |pass.entries| && p == After(start, pass.cfg, due, pass.entries, pass.world, k)
      requires images == p.images && !p.stopped && !p.torn
      modifies this
      ensures p' == After(start, pass.cfg, due, pass.entries, pass.world, k + 1)
      ensures && lastFullScanAt == (if p'.torn then None else old(lastFullScanAt)) && (p'.torn ==> p'.stopped)
              && images == p'.images && scanned == p'.scanned - p.scanned && skipped == p'.skipped - p.skipped
              && failures == p'.failures - p.failures && stopped == p'.stopped
    {
      scanned, skipped, failures, stopped, p' := ConsiderEntry(pass.cfg, due, pass.entries[k], pass.world(k), p);
    }

    /** One run of the command over the inventory. */
    method RunPass(pass: PassInput) returns (scanned: nat, skipped: nat, failures: nat, completed: bool)
      modifies this
      ensures ScanState(images, lastFullScanAt) == AfterPass(old(ScanState(images, lastFullScanAt)), pass)
      ensures var p := Loop(old(ScanState(images, lastFullScanAt)), pass);
              scanned == p.scanned && skipped == p.skipped && failures == p.failures
              && completed == (!p.stopped && pass.end.Lives?)
    {
      var cfg := pass.cfg;
      var due := FullRescanDue(ScanState(images, lastFullScanAt), cfg, pass.now);
      ghost var start := images;
      ghost var p := After(start, cfg, due, pass.entries, pass.world, 0);
      scanned, skipped, failures, completed := 0, 0, 0, false;
      for k := 0 to |pass.entries|
        invariant lastFullScanAt == old(lastFullScanAt)
        invariant p == After(start, cfg, due, pass.entries, pass.world, k) && !p.stopped && !p.torn
        invariant images == p.images && scanned == p.scanned && skipped == p.skipped && failures == p.failures
      {
        var a, b, c, stopped;
        a, b, c, stopped, p := ConsiderAt(pass, due, k, start, p);
        scanned, skipped, failures := scanned + a, skipped + b, failures + c;
        if stopped {
          StoppedPass(old(ScanState(images, lastFullScanAt)), pass, k + 1, p);
          return;
        }
      }
      RanThrough(old(ScanState(images, lastFullScanAt)), pass, p);
      EndPass(pass.now, pass.end, failures == 0 && (due || lastFullScanAt.None?));
      completed := pass.end.Lives?;
    }

    /** A full scan is recorded at the very end. */
    method EndPass(now: int, end: Fate, done: bool)
      modifies this
      ensures ScanState(images, lastFullScanAt) == Ended(old(ScanState(images, lastFullScanAt)), now, end, done)
    {
      if end.DiesBefore? || !done {
        return;
      }
      lastFullScanAt := Some(now);
      if end.DiesSaving? {
        images, lastFullScanAt := map[], None;
      }
    }
  }

  lemma {:induction false} StaysStopped(images: map<string, string>, cfg: Config, due: bool, entries: seq<Entry>,
                                        world: nat -> World, k: nat, n: nat)
    requires k <= n <= |entries|
    requires After(images, cfg, due, entries, world, k).stopped
    ensures After(images, cfg, due, entries, world, n) == After(images, cfg, due, entries, world, k)
  {
    if k < n {
      StaysStopped(images, cfg, due, entries, world, k, n - 1);
    }
  }

  lemma StoppedPass(state: ScanState, pass: PassInput, k: nat, p: Progress)
    requires k <= |pass.entries| && p.stopped
    requires p == After(state.images, pass.cfg, FullRescanDue(state, pass.cfg, pass.now), pass.entries, pass.world, k)
    ensures Loop(state, pass) == p
    ensures AfterPass(state, pass) == if p.torn then EMPTY else ScanState(p.images, state.lastFullScanAt)
  {
    StaysStopped(state.images, pass.cfg, FullRescanDue(state, pass.cfg, pass.now), pass.entries, pass.world, k, |pass.entries|);
  }

  lemma RanThrough(state: ScanState, pass: PassInput, p: Progress)
    requires p == Loop(state, pass) && !p.stopped && !p.torn
    ensures var done := p.failures == 0 && (FullRescanDue(state, pass.cfg, pass.now) || state.lastFullScanAt.None?);
            AfterPass(state, pass) == Ended(ScanState(p.images, state.lastFullScanAt), pass.now, pass.end, done)
  {
  }

  // ---------------------------------------------------------------------------
  // Soundness of skipping, over every sequence of passes
  // ---------------------------------------------------------------------------

  /** `e` is a scan of exactly this work: same key, same targets and secrets, same scan types. */
  ghost predicate SameWork(e: Event, item: Item, scanTypes: seq<ScanType>) {
    && e.Scanned?
    && Key(e.item) == Key(item)
    && multiset(Identities(e.item)) == multiset(Identities(item))
    && e.scanTypes == scanTypes
  }

  /** A checkpointed scan: nothing required was missing or rejected. */
  ghost predicate CleanScan(e: Event) {
    && e.Scanned? && e.failures == 0
    && (!e.dryRun ==> Delivered(e.scanTypes, e.ingested))
  }

  /** Some event before position `n` is the clean scan that justifies `signature` under `key`. */
  ghost predicate Justified(events: seq<Event>, n: nat, key: string, signature: string) {
    exists j :: 0 <= j < n && j < |events| && CleanScan(events[j])
             && Key(events[j].item) == key && Signature(events[j].item, events[j].scanTypes) == signature
  }

  ghost predicate CheckpointsBacked(images: map<string, string>, events: seq<Event>) {
    forall k :: k in images ==> Justified(events, |events|, k, images[k])
  }

  ghost predicate SkipsBacked(events: seq<Event>) {
    forall i :: 0 <= i < |events| && events[i].Skipped? ==>
      Justified(events, i, Key(events[i].item), Signature(events[i].item, events[i].scanTypes))
  }

  /** Every checkpoint is justified, and so was every skip when it happened. */
  ghost predicate Backed(images: map<string, string>, events: seq<Event>) {
    CheckpointsBacked(images, events) && SkipsBacked(events)
  }

  lemma JustifiedLater(events: seq<Event>, more: seq<Event>, n: nat, m: nat, key: string, signature: string)
    requires n <= m && events <= more && Justified(events, n, key, signature)
    ensures Justified(more, m, key, signature)
  {
    var j :| 0 <= j < n && j < |events| && CleanScan(events[j])
             && Key(events[j].item) == key && Signature(events[j].item, events[j].scanTypes) == signature;
    assert more[j] == events[j];
  }

  lemma CheckpointsBackedByMore(images: map<string, string>, events: seq<Event>, more: seq<Event>)
    requires CheckpointsBacked(images, events) && events <= more
    ensures CheckpointsBacked(images, more)
  {
    forall k | k in images
      ensures Justified(more, |more|, k, images[k])
    {
      JustifiedLater(events, more, |events|, |more|, k, images[k]);
    }
  }

  lemma SkipsBackedByMore(events: seq<Event>, e: Event)
    requires SkipsBacked(events)
    requires e.Skipped? ==> Justified(events, |events|, Key(e.item), Signature(e.item, e.scanTypes))
    ensures SkipsBacked(events + [e])
  {
    var more := events + [e];
    forall i | 0 <= i < |more| && more[i].Skipped?
      ensures Justified(more, i, Key(more[i].item), Signature(more[i].item, more[i].scanTypes))
    {
      JustifiedLater(events, more, i, i, Key(more[i].item), Signature(more[i].item, more[i].scanTypes));
    }
  }

  lemma CleanScanBacks(images: map<string, string>, events: seq<Event>, e: Event)
    requires CheckpointsBacked(images, events + [e]) && CleanScan(e)
    ensures CheckpointsBacked(images[Key(e.item) := Signature(e.item, e.scanTypes)], events + [e])
  {
    var more := events + [e];
    assert more[|events|] == e;
    assert Justified(more, |more|, Key(e.item), Signature(e.item, e.scanTypes));
  }

  lemma BackedByOneMore(images: map<string, string>, events: seq<Event>, e: Event)
    requires Backed(images, events)
    requires e.Skipped? ==> Justified(events, |events|, Key(e.item), Signature(e.item, e.scanTypes))
    ensures Backed(images, events + [e]) && Backed(map[], events + [e])
    ensures CleanScan(e) ==> Backed(images[Key(e.item) := Signature(e.item, e.scanTypes)], events + [e])
  {
    CheckpointsBackedByMore(images, events, events + [e]);
    SkipsBackedByMore(events, e);
    if CleanScan(e) {
      CleanScanBacks(images, events, e);
    }
  }

  lemma SnocEvents(past: seq<Event>, events: seq<Event>, e: Event)
    ensures past + (events + [e]) == (past + events) + [e]
  {
  }

  lemma SkipKeepsBacked(images: map<string, string>, events: seq<Event>, item: Item, scanTypes: seq<ScanType>)
    requires Backed(images, events)
    ensures Key(item) in images && images[Key(item)] == Signature(item, scanTypes)
            ==> Backed(images, events + [Skipped(item, scanTypes)])
  {
    if Key(item) in images && images[Key(item)] == Signature(item, scanTypes) {
      assert Justified(events, |events|, Key(item), images[Key(item)]);
      BackedByOneMore(images, events, Skipped(item, scanTypes));
    }
  }

  lemma ScanKeepsBacked(images: map<string, string>, events: seq<Event>, item: Item, cfg: Config, w: World)
    requires Backed(images, events) && ScanImage(cfg, w).Completed?
    ensures var r := ScanImage(cfg, w);
            var more := events + [Scanned(item, cfg.scanTypes, cfg.dryRun, r.ingested, r.failures)];
            && Backed(images, more) && Backed(map[], more)
            && (r.failures == 0 ==> Backed(images[Key(item) := Signature(item, cfg.scanTypes)], more))
  {
    var r := ScanImage(cfg, w);
    var e := Scanned(item, cfg.scanTypes, cfg.dryRun, r.ingested, r.failures);
    if r.failures == 0 {
      CleanScanDelivers(cfg, w);
      assert CleanScan(e);
    }
    BackedByOneMore(images, events, e);
  }

  lemma ConsiderKeepsBacked(p: Progress, past: seq<Event>, cfg: Config, due: bool, e: Entry, w: World)
    requires Backed(p.images, past + p.events)
    ensures var p' := Consider(p, cfg, due, e, w); Backed(p'.images, past + p'.events)
  {
    if !p.stopped && Scannable(e) {
      var item, r := e.value, ScanImage(cfg, w);
      if Skips(p.images, cfg, due, item) {
        SkipKeepsBacked(p.images, past + p.events, item, cfg.scanTypes);
        SnocEvents(past, p.events, Skipped(item, cfg.scanTypes));
      } else if r.Completed? {
        ScanKeepsBacked(p.images, past + p.events, item, cfg, w);
        SnocEvents(past, p.events, Scanned(item, cfg.scanTypes, cfg.dryRun, r.ingested, r.failures));
      }
    }
  }

  lemma {:induction false} PassKeepsBacked(state: ScanState, past: seq<Event>, pass: PassInput, k: nat)
    requires Backed(state.images, past) && k <= |pass.entries|
    ensures var p := After(state.images, pass.cfg, FullRescanDue(state, pass.cfg, pass.now), pass.entries, pass.world, k);
            Backed(p.images, past + p.events)
  {
    var due := FullRescanDue(state, pass.cfg, pass.now);
    if k == 0 {
      assert past + [] == past;
    } else {
      PassKeepsBacked(state, past, pass, k - 1);
      ConsiderKeepsBacked(After(state.images, pass.cfg, due, pass.entries, pass.world, k - 1), past,
                          pass.cfg, due, pass.entries[k - 1], pass.world(k - 1));
    }
  }

  /** The state and the events after a sequence of passes that started from an empty state. */
  function RunAll(passes: seq<PassInput>): (ScanState, seq<Event>) {
    if passes == [] then (EMPTY, [])
    else
      var (state, events) := RunAll(passes[..|passes| - 1]);
      var pass := passes[|passes| - 1];
      (AfterPass(state, pass), events + Loop(state, pass).events)
  }

  lemma {:induction false} RunsAreBacked(passes: seq<PassInput>)
    ensures Backed(RunAll(passes).0.images, RunAll(passes).1)
  {
    if passes != [] {
      var init, pass := passes[..|passes| - 1], passes[|passes| - 1];
      RunsAreBacked(init);
      PassKeepsBacked(RunAll(init).0, RunAll(init).1, pass, |pass.entries|);
    }
  }

  ghost predicate CleanEvents(events: seq<Event>) {
    forall i :: 0 <= i < |events| ==> AllClean(Identities(events[i].item))
  }

  /**
   Skipping is sound over every sequence of passes, whatever the scanners, VAT and the
   process do: an image is skipped only if the same work was scanned cleanly before, and
   unless that was a dry run its required reports reached VAT.
   */
  lemma SkipIsSound(passes: seq<PassInput>, i: nat)
    requires i < |RunAll(passes).1| && RunAll(passes).1[i].Skipped?
    requires CleanEvents(RunAll(passes).1)
    ensures var events := RunAll(passes).1;
            exists j :: 0 <= j < i && SameWork(events[j], events[i].item, events[i].scanTypes) && CleanScan(events[j])
  {
    RunsAreBacked(passes);
    var events := RunAll(passes).1;
    var e := events[i];
    assert Justified(events, i, Key(e.item), Signature(e.item, e.scanTypes));
    var j :| 0 <= j < i && j < |events| && CleanScan(events[j])
             && Key(events[j].item) == Key(e.item)
             && Signature(events[j].item, events[j].scanTypes) == Signature(e.item, e.scanTypes);
    SignatureIdentifies(events[j].item, events[j].scanTypes, e.item, e.scanTypes);
    assert SameWork(events[j], e.item, e.scanTypes);
  }

  ghost predicate NoDryRun(passes: seq<PassInput>) {
    forall i :: 0 <= i < |passes| ==> !passes[i].cfg.dryRun
  }

  /** Every scan in `events` was dry, or none was. */
  ghost predicate ScansAre(events: seq<Event>, dry: bool) {
    forall i :: 0 <= i < |events| && events[i].Scanned? ==> events[i].dryRun == dry
  }

  lemma ScansAreConcat(a: seq<Event>, b: seq<Event>, dry: bool)
    requires ScansAre(a, dry) && ScansAre(b, dry)
    ensures ScansAre(a + b, dry)
  {
  }

  lemma {:induction false} PassScansAre(images: map<string, string>, cfg: Config, due: bool, entries: seq<Entry>,
                                        world: nat -> World, k: nat)
    requires k <= |entries|
    ensures ScansAre(After(images, cfg, due, entries, world, k).events, cfg.dryRun)
  {
    if k > 0 {
      PassScansAre(images, cfg, due, entries, world, k - 1);
      var p, p' := After(images, cfg, due, entries, world, k - 1), After(images, cfg, due, entries, world, k);
      if p'.events != p.events {
        var e := p'.events[|p.events|];
        assert p'.events == p.events + [e];
        ScansAreConcat(p.events, [e], cfg.dryRun);
      }
    }
  }

  lemma {:induction false} WetRun(passes: seq<PassInput>)
    requires NoDryRun(passes)
    ensures ScansAre(RunAll(passes).1, false)
  {
    if passes != [] {
      var init, pass := passes[..|passes| - 1], passes[|passes| - 1];
      WetRun(init);
      var state := RunAll(init).0;
      PassScansAre(state.images, pass.cfg, FullRescanDue(state, pass.cfg, pass.now), pass.entries, pass.world, |pass.entries|);
      ScansAreConcat(RunAll(init).1, Loop(state, pass).events, false);
    }
  }

  /** Without dry runs a skipped image's required reports are in VAT. */
  lemma SkippedWasIngested(passes: seq<PassInput>, i: nat)
    requires NoDryRun(passes)
    requires i < |RunAll(passes).1| && RunAll(passes).1[i].Skipped?
    requires CleanEvents(RunAll(passes).1)
    ensures var events := RunAll(passes).1;
            exists j :: && 0 <= j < i && SameWork(events[j], events[i].item, events[i].scanTypes)
                        && Delivered(events[i].scanTypes, events[j].ingested)
  {
    SkipIsSound(passes, i);
    WetRun(passes);
    var events := RunAll(passes).1;
    var j :| 0 <= j < i && SameWork(events[j], events[i].item, events[i].scanTypes) && CleanScan(events[j]);
    assert events[j].Scanned?;
  }

  // ---------------------------------------------------------------------------
  // Dry runs: exactly when a skipped image may never have been ingested
  // ---------------------------------------------------------------------------

  /** Some image is skipped though no scan of the same work has delivered its reports before. */
  ghost predicate Unsound(events: seq<Event>) {
    exists i :: 0 <= i < |events| && events[i].Skipped? && !DeliveredBefore(events, i)
  }

  ghost predicate DeliveredBefore(events: seq<Event>, i: nat)
    requires i < |events| && events[i].Skipped?
  {
    exists j :: && 0 <= j < i && SameWork(events[j], events[i].item, events[i].scanTypes)
                && Delivered(events[i].scanTypes, events[j].ingested)
  }

  /** These scan types bring at least one report that has to reach VAT. */
  predicate Binding(scanTypes: seq<ScanType>) {
    ImageSca in scanTypes || ImageSbom in scanTypes
  }

  /** Pass `d` is dry and pass `e`, the same or a later one, may skip what it has checkpointed. */
  predicate Poisons(cfgs: seq<Config>, d: nat, e: nat) {
    && d <= e < |cfgs|
    && cfgs[d].dryRun && !cfgs[e].forceFullRescan
    && cfgs[d].scanTypes == cfgs[e].scanTypes && Binding(cfgs[d].scanTypes)
  }

  ghost predicate Configured(passes: seq<PassInput>, cfgs: seq<Config>) {
    |passes| == |cfgs| && forall k :: 0 <= k < |cfgs| ==> passes[k].cfg == cfgs[k]
  }

  /** An event carries the flags of the pass it happened in. */
  ghost predicate Fits(e: Event, cfg: Config) {
    && e.scanTypes == cfg.scanTypes
    && (e.Scanned? ==> e.dryRun == cfg.dryRun)
    && (e.Skipped? ==> !cfg.forceFullRescan)
  }

  lemma {:induction false} PassEventsFit(state: ScanState, pass: PassInput, k: nat)
    requires k <= |pass.entries|
    ensures var due := FullRescanDue(state, pass.cfg, pass.now);
            forall i :: 0 <= i < |After(state.images, pass.cfg, due, pass.entries, pass.world, k).events| ==>
              Fits(After(state.images, pass.cfg, due, pass.entries, pass.world, k).events[i], pass.cfg)
  {
    if k > 0 {
      PassEventsFit(state, pass, k - 1);
    }
  }

  lemma {:induction false} EventPass(passes: seq<PassInput>, i: nat) returns (d: nat)
    requires i < |RunAll(passes).1|
    ensures d < |passes| && Fits(RunAll(passes).1[i], passes[d].cfg)
    decreases |passes|
  {
    var init, pass := passes[..|passes| - 1], passes[|passes| - 1];
    if i < |RunAll(init).1| {
      d := EventPass(init, i);
    } else {
      d := |passes| - 1;
      PassEventsFit(RunAll(init).0, pass, |pass.entries|);
    }
  }

  /** Of two events the earlier one happened in the same pass or in an earlier one. */
  lemma {:induction false} EventPasses(passes: seq<PassInput>, j: nat, i: nat) returns (d: nat, e: nat)
    requires j < i < |RunAll(passes).1|
    ensures d <= e < |passes|
    ensures Fits(RunAll(passes).1[j], passes[d].cfg) && Fits(RunAll(passes).1[i], passes[e].cfg)
    decreases |passes|
  {
    var init, pass := passes[..|passes| - 1], passes[|passes| - 1];
    if i < |RunAll(init).1| {
      d, e := EventPasses(init, j, i);
    } else {
      e := |passes| - 1;
      PassEventsFit(RunAll(init).0, pass, |pass.entries|);
      if j < |RunAll(init).1| {
        d := EventPass(init, j);
      } else {
        d := e;
      }
    }
  }

  lemma UnsoundNeedsDryRun(passes: seq<PassInput>, cfgs: seq<Config>) returns (d: nat, e: nat)
    requires Configured(passes, cfgs)
    requires CleanEvents(RunAll(passes).1) && Unsound(RunAll(passes).1)
    ensures Poisons(cfgs, d, e)
  {
    var events := RunAll(passes).1;
    var i :| 0 <= i < |events| && events[i].Skipped? && !DeliveredBefore(events, i);
    SkipIsSound(passes, i);
    var j :| 0 <= j < i && SameWork(events[j], events[i].item, events[i].scanTypes) && CleanScan(events[j]);
    d, e := EventPasses(passes, j, i);
  }

  // The other direction: two passes see one image, all others see nothing.

  function PoisonEntries(item: Item, d: nat, e: nat, k: nat): seq<Entry> {
    (if k == d then [Some(item)] else []) + (if k == e then [Some(item)] else [])
  }

  /** Every scanner reports, VAT accepts nothing, nobody dies. */
  function Reporting(): World {
    World({Trivy, Grype, Openscap, Cyclonedx}, {}, Lives)
  }

  function PoisonPass(cfgs: seq<Config>, item: Item, d: nat, e: nat, k: nat): PassInput
    requires k < |cfgs|
  {
    PassInput(cfgs[k], PoisonEntries(item, d, e, k), (n: nat) => Reporting(), 0, Lives)
  }

  function PoisonPasses(cfgs: seq<Config>, item: Item, d: nat, e: nat): seq<PassInput> {
    seq(|cfgs|, k requires 0 <= k < |cfgs| => PoisonPass(cfgs, item, d, e, k))
  }

  /** No time has passed since the last full scan, if there was one. */
  predicate Fresh(state: ScanState) {
    state.lastFullScanAt.None? || state.lastFullScanAt == Some(0)
  }

  lemma FreshNotDue(state: ScanState, cfg: Config)
    requires Fresh(state)
    ensures FullRescanDue(state, cfg, 0) == cfg.forceFullRescan
  {
  }

  lemma EmptyPass(state: ScanState, pass: PassInput)
    requires pass.entries == [] && pass.end.Lives? && pass.now == 0
    ensures Loop(state, pass).events == [] && AfterPass(state, pass).images == state.images
    ensures Fresh(state) ==> Fresh(AfterPass(state, pass))
  {
  }

  function DryScan(item: Item, cfg: Config): Event {
    Scanned(item, cfg.scanTypes, true, {}, 0)
  }

  lemma SkipConsider(p: Progress, cfg: Config, item: Item)
    requires !p.stopped && p.images == map[Key(item) := Signature(item, cfg.scanTypes)]
    requires Trim(item.image) != "" && VatHasIt(cfg, item)
    ensures Consider(p, cfg, false, Some(item), Reporting())
            == p.(events := p.events + [Skipped(item, cfg.scanTypes)], skipped := p.skipped + 1)
  {
  }

  lemma LoopOne(state: ScanState, pass: PassInput, item: Item, w: World)
    requires pass.entries == [Some(item)] && pass.world(0) == w
    ensures Loop(state, pass) == Consider(Progress(state.images, [], 0, 0, 0, false, false), pass.cfg,
                                          FullRescanDue(state, pass.cfg, pass.now), Some(item), w)
  {
    var due := FullRescanDue(state, pass.cfg, pass.now);
    assert After(state.images, pass.cfg, due, pass.entries, pass.world, 0)
        == Progress(state.images, [], 0, 0, 0, false, false);
  }

  lemma LoopTwo(state: ScanState, pass: PassInput, item: Item, w: World)
    requires pass.entries == [Some(item), Some(item)] && pass.world(0) == w && pass.world(1) == w
    ensures var due := FullRescanDue(state, pass.cfg, pass.now);
            Loop(state, pass)
            == Consider(Consider(Progress(state.images, [], 0, 0, 0, false, false), pass.cfg, due, Some(item), w),
                        pass.cfg, due, Some(item), w)
  {
    var due := FullRescanDue(state, pass.cfg, pass.now);
    assert After(state.images, pass.cfg, due, pass.entries, pass.world, 0)
        == Progress(state.images, [], 0, 0, 0, false, false);
    assert After(state.images, pass.cfg, due, pass.entries, pass.world, 1)
        == Consider(Progress(state.images, [], 0, 0, 0, false, false), pass.cfg, due, Some(item), w);
  }

  /** Where the poisoning stands after the first `k` passes. */
  ghost predicate PoisonedSoFar(cfgs: seq<Config>, item: Item, d: nat, e: nat, k: nat, state: ScanState, events: seq<Event>)
    requires d <= e < |cfgs|
  {
    if k <= d then Fresh(state) && state.images == map[] && events == []
    else if k <= e then
      && Fresh(state) && state.images == map[Key(item) := Signature(item, cfgs[d].scanTypes)]
      && events == [DryScan(item, cfgs[d])]
    else events == [DryScan(item, cfgs[d]), Skipped(item, cfgs[d].scanTypes)]
  }

  lemma PoisonStep(cfgs: seq<Config>, item: Item, d: nat, e: nat, k: nat, state: ScanState, events: seq<Event>)
    requires Poisons(cfgs, d, e) && Trim(item.image) != "" && VatHasIt(cfgs[e], item) && k < |cfgs|
    requires PoisonedSoFar(cfgs, item, d, e, k, state, events)
    ensures var pass := PoisonPass(cfgs, item, d, e, k);
            PoisonedSoFar(cfgs, item, d, e, k + 1, AfterPass(state, pass), events + Loop(state, pass).events)
  {
    var pass := PoisonPass(cfgs, item, d, e, k);
    var start := Progress(state.images, [], 0, 0, 0, false, false);
    if k != d && k != e {
      EmptyPass(state, pass);
    } else {
      FreshNotDue(state, pass.cfg);
      if k == d && d == e {
        assert pass.entries == [Some(item), Some(item)];
        LoopTwo(state, pass, item, Reporting());
        SkipConsider(Consider(start, pass.cfg, false, Some(item), Reporting()), pass.cfg, item);
      } else if k == d {
        assert pass.entries == [Some(item)];
        LoopOne(state, pass, item, Reporting());
      } else {
        assert pass.entries == [Some(item)];
        LoopOne(state, pass, item, Reporting());
        SkipConsider(start, pass.cfg, item);
      }
    }
  }

  lemma {:induction false} PoisonRun(cfgs: seq<Config>, item: Item, d: nat, e: nat, k: nat)
    requires Poisons(cfgs, d, e) && Trim(item.image) != "" && VatHasIt(cfgs[e], item) && k <= |cfgs|
    ensures var (state, events) := RunAll(PoisonPasses(cfgs, item, d, e)[..k]);
            PoisonedSoFar(cfgs, item, d, e, k, state, events)
  {
    var passes := PoisonPasses(cfgs, item, d, e);
    if k > 0 {
      PoisonRun(cfgs, item, d, e, k - 1);
      assert passes[..k][..k - 1] == passes[..k - 1];
      var (state, events) := RunAll(passes[..k - 1]);
      PoisonStep(cfgs, item, d, e, k - 1, state, events);
    }
  }

  /**
   Such flags poison every image: there are runs under them in which it is scanned once, dry,
   and skipped afterwards, so that VAT never hears of it.
   */
  lemma DryRunPoisons(cfgs: seq<Config>, d: nat, e: nat, item: Item)
    requires Poisons(cfgs, d, e) && Trim(item.image) != "" && VatHasIt(cfgs[e], item)
    ensures var passes := PoisonPasses(cfgs, item, d, e);
            && Configured(passes, cfgs)
            && RunAll(passes).1 == [DryScan(item, cfgs[d]), Skipped(item, cfgs[d].scanTypes)]
            && Unsound(RunAll(passes).1)
  {
    var passes := PoisonPasses(cfgs, item, d, e);
    PoisonRun(cfgs, item, d, e, |cfgs|);
    assert passes[..|cfgs|] == passes;
    var events := RunAll(passes).1;
    assert events[1].Skipped? && !DeliveredBefore(events, 1);
  }

  /** A run under these flags that skips an image whose reports VAT never got. */
  ghost predicate SkipsUningested(passes: seq<PassInput>, cfgs: seq<Config>) {
    Configured(passes, cfgs) && CleanEvents(RunAll(passes).1) && Unsound(RunAll(passes).1)
  }

  lemma PoisonedRun(cfgs: seq<Config>, d: nat, e: nat) returns (passes: seq<PassInput>)
    requires Poisons(cfgs, d, e)
    ensures SkipsUningested(passes, cfgs)
  {
    var item := PlainItem();
    DryRunPoisons(cfgs, d, e, item);
    passes := PoisonPasses(cfgs, item, d, e);
  }

  /**
   The exact condition, on the flags alone: a list of configurations admits a skip of an image
   whose reports VAT never got if and only if some pass is dry, that pass or a later one does
   not force a full rescan, and both ask for the same scan types with a binding one among them.
   */
  lemma SkipsUningestedIff(cfgs: seq<Config>)
    ensures (exists passes :: SkipsUningested(passes, cfgs)) <==> (exists d: nat, e: nat :: Poisons(cfgs, d, e))
  {
    if passes :| SkipsUningested(passes, cfgs) {
      var d, e := UnsoundNeedsDryRun(passes, cfgs);
    }
    if d: nat, e: nat :| Poisons(cfgs, d, e) {
      var passes := PoisonedRun(cfgs, d, e);
    }
  }

  /** An image without digest and workloads, which every configuration takes VAT to have. */
  lemma PlainItem() returns (item: Item)
    ensures Trim(item.image) != "" && AllClean(Identities(item))
    ensures forall cfg: Config :: VatHasIt(cfg, item)
  {
    item := Item("x", "", []);
    TrimFixed("x");
    TrimFixed("");
  }

  // ---------------------------------------------------------------------------
  // What a pass guarantees by itself
  // ---------------------------------------------------------------------------

  function CountScannable(entries: seq<Entry>, k: nat): nat
    requires k <= |entries|
  {
    if k == 0 then 0 else CountScannable(entries, k - 1) + if Scannable(entries[k - 1]) then 1 else 0
  }

  /** Entry `m` is the last of the first `k` that carries this key. */
  ghost predicate LastWithKey(entries: seq<Entry>, k: nat, m: nat, key: string) {
    && m < k <= |entries| && Scannable(entries[m]) && Key(entries[m].value) == key
    && forall n :: m < n < k && Scannable(entries[n]) ==> Key(entries[n].value) != key
  }

  /** What is true as long as nothing has stopped the pass. */
  lemma {:induction false} RunningPass(images: map<string, string>, cfg: Config, due: bool, entries: seq<Entry>,
                                       world: nat -> World, k: nat)
    requires k <= |entries|
    requires !After(images, cfg, due, entries, world, k).stopped
    ensures var p := After(images, cfg, due, entries, world, k);
            && p.scanned + p.skipped == CountScannable(entries, k)
            && |p.events| == p.scanned + p.skipped && !p.torn
            && (due ==> p.skipped == 0)
            && (p.failures == 0 ==>
                  forall m: nat, key :: LastWithKey(entries, k, m, key) ==>
                    key in p.images && p.images[key] == Signature(entries[m].value, cfg.scanTypes))
  {
    if k > 0 {
      RunningPass(images, cfg, due, entries, world, k - 1);
      var p, p' := After(images, cfg, due, entries, world, k - 1), After(images, cfg, due, entries, world, k);
      if p'.failures == 0 {
        forall m: nat, key | LastWithKey(entries, k, m, key)
          ensures key in p'.images && p'.images[key] == Signature(entries[m].value, cfg.scanTypes)
        {
          if m < k - 1 {
            assert LastWithKey(entries, k - 1, m, key);
          }
        }
      }
    }
  }

  function FailuresOf(events: seq<Event>): nat {
    if events == [] then 0
    else
      var e := events[|events| - 1];
      FailuresOf(events[..|events| - 1]) + if e.Scanned? then e.failures else 0
  }

  /** The failures a pass reports are those of its scans. */
  lemma {:induction false} FailuresAddUp(images: map<string, string>, cfg: Config, due: bool, entries: seq<Entry>,
                                         world: nat -> World, k: nat)
    requires k <= |entries|
    ensures var p := After(images, cfg, due, entries, world, k); p.failures == FailuresOf(p.events)
  {
    if k > 0 {
      FailuresAddUp(images, cfg, due, entries, world, k - 1);
      var p, p' := After(images, cfg, due, entries, world, k - 1), After(images, cfg, due, entries, world, k);
      if p'.events != p.events {
        assert p'.events[..|p'.events| - 1] == p.events;
      }
    }
  }

  /** The pass reaches entry `k` and skips it. */
  predicate SkipsAt(state: ScanState, pass: PassInput, k: nat)
    requires k < |pass.entries|
  {
    var due := FullRescanDue(state, pass.cfg, pass.now);
    After(state.images, pass.cfg, due, pass.entries, pass.world, k + 1).skipped
    > After(state.images, pass.cfg, due, pass.entries, pass.world, k).skipped
  }

  /**
   Exactly when an entry is skipped, spelled out: no full rescan is forced or overdue, VAT is
   not known to have lost the image, and what is stored under the image's digest, or its name
   where it has none, is its present signature.
   */
  lemma SkippedIff(state: ScanState, pass: PassInput, k: nat, item: Item)
    requires k < |pass.entries| && pass.entries[k] == Some(item)
    ensures var images := After(state.images, pass.cfg, FullRescanDue(state, pass.cfg, pass.now),
                                pass.entries, pass.world, k).images;
            var stopped := After(state.images, pass.cfg, FullRescanDue(state, pass.cfg, pass.now),
                                 pass.entries, pass.world, k).stopped;
            var digest := Trim(item.imageDigest);
            var key := if digest != "" then digest else Trim(item.image);
            SkipsAt(state, pass, k)
            <==> && !stopped && Trim(item.image) != ""
                 && !pass.cfg.forceFullRescan
                 && !(pass.cfg.fullRescanInterval > 0 && state.lastFullScanAt.Some?
                      && pass.now - state.lastFullScanAt.value >= pass.cfg.fullRescanInterval)
                 && (pass.cfg.knownDigests.None? || digest == "" || Lower(digest) in pass.cfg.knownDigests.value)
                 && key in images && images[key] == Signature(item, pass.cfg.scanTypes)
  {
  }

  /** An image VAT has lost is skipped by no pass of any run. */
  lemma {:induction false} LostIsRescanned(passes: seq<PassInput>, i: nat) returns (d: nat)
    requires i < |RunAll(passes).1| && RunAll(passes).1[i].Skipped?
    ensures d < |passes|
    ensures var digest := Trim(RunAll(passes).1[i].item.imageDigest); var known := passes[d].cfg.knownDigests;
            known.None? || digest == "" || Lower(digest) in known.value
    ensures |RunAll(passes[..d]).1| <= i < |RunAll(passes[..d + 1]).1|
    decreases |passes|
  {
    var init, pass := passes[..|passes| - 1], passes[|passes| - 1];
    if i < |RunAll(init).1| {
      d := LostIsRescanned(init, i);
      assert init[..d] == passes[..d] && init[..d + 1] == passes[..d + 1];
    } else {
      d := |passes| - 1;
      assert passes[..d + 1] == passes;
      KnownSkips(RunAll(init).0, pass, |pass.entries|);
    }
  }

  ghost predicate SkipKnown(e: Event, cfg: Config) {
    e.Skipped? ==>
      var digest := Trim(e.item.imageDigest);
      cfg.knownDigests.None? || digest == "" || Lower(digest) in cfg.knownDigests.value
  }

  lemma {:induction false} KnownSkips(state: ScanState, pass: PassInput, k: nat)
    requires k <= |pass.entries|
    ensures var due := FullRescanDue(state, pass.cfg, pass.now);
            forall i :: 0 <= i < |After(state.images, pass.cfg, due, pass.entries, pass.world, k).events| ==>
              SkipKnown(After(state.images, pass.cfg, due, pass.entries, pass.world, k).events[i], pass.cfg)
  {
    if k > 0 {
      KnownSkips(state, pass, k - 1);
    }
  }

  /**
   Whenever a pass declares a full scan, the state holds for every key the signature of the
   last image with that key; and a due full rescan skips nothing.
   */
  lemma FullScanStoresEverything(state: ScanState, pass: PassInput, m: nat, key: string)
    requires DeclaresFull(state, pass)
    requires LastWithKey(pass.entries, |pass.entries|, m, key)
    ensures key in AfterPass(state, pass).images
    ensures AfterPass(state, pass).images[key] == Signature(pass.entries[m].value, pass.cfg.scanTypes)
    ensures AfterPass(state, pass).lastFullScanAt == Some(pass.now)
    ensures FullRescanDue(state, pass.cfg, pass.now) ==> Loop(state, pass).skipped == 0
  {
    RunningPass(state.images, pass.cfg, FullRescanDue(state, pass.cfg, pass.now), pass.entries, pass.world, |pass.entries|);
  }

  /** A pass that is not cut short accounts for every image it was given. */
  lemma PassCountsEverything(state: ScanState, pass: PassInput)
    requires !Loop(state, pass).stopped
    ensures Loop(state, pass).scanned + Loop(state, pass).skipped == CountScannable(pass.entries, |pass.entries|)
    ensures FullRescanDue(state, pass.cfg, pass.now) ==> Loop(state, pass).skipped == 0
  {
    RunningPass(state.images, pass.cfg, FullRescanDue(state, pass.cfg, pass.now), pass.entries, pass.world, |pass.entries|);
  }

  lemma {:induction false} FindLast(entries: seq<Entry>, k: nat, i: nat) returns (m: nat)
    requires i < k <= |entries| && Scannable(entries[i])
    ensures i <= m && LastWithKey(entries, k, m, Key(entries[i].value))
    decreases k - i
  {
    m := i;
    if exists n :: i < n < k && Scannable(entries[n]) && Key(entries[n].value) == Key(entries[i].value) {
      var n :| i < n < k && Scannable(entries[n]) && Key(entries[n].value) == Key(entries[i].value);
      m := FindLast(entries, k, n);
    }
  }

  /** Every image's own signature is what the state holds for it. */
  ghost predicate AllStored(state: ScanState, pass: PassInput) {
    forall i :: 0 <= i < |pass.entries| && Scannable(pass.entries[i]) ==>
      && Key(pass.entries[i].value) in state.images
      && state.images[Key(pass.entries[i].value)] == Signature(pass.entries[i].value, pass.cfg.scanTypes)
  }

  /** Entries that share a key agree on their signature; distinct keys are the common case. */
  ghost predicate KeysConsistent(pass: PassInput) {
    forall i, j :: 0 <= i < j < |pass.entries| && Scannable(pass.entries[i]) && Scannable(pass.entries[j])
      && Key(pass.entries[i].value) == Key(pass.entries[j].value)
      ==> Signature(pass.entries[i].value, pass.cfg.scanTypes) == Signature(pass.entries[j].value, pass.cfg.scanTypes)
  }

  /**
   The exact condition: after a declared full scan every image has its current signature
   stored if and only if no two entries with one key differ in signature.
   */
  lemma FullScanStoresAllIffConsistent(state: ScanState, pass: PassInput)
    requires DeclaresFull(state, pass)
    ensures AllStored(AfterPass(state, pass), pass) <==> KeysConsistent(pass)
  {
    if KeysConsistent(pass) {
      forall i | 0 <= i < |pass.entries| && Scannable(pass.entries[i])
        ensures var images := AfterPass(state, pass).images;
                && Key(pass.entries[i].value) in images
                && images[Key(pass.entries[i].value)] == Signature(pass.entries[i].value, pass.cfg.scanTypes)
      {
        var m := FindLast(pass.entries, |pass.entries|, i);
        FullScanStoresEverything(state, pass, m, Key(pass.entries[i].value));
      }
    }
  }

  /** A pass over two entries that every scanner reports and VAT accepts. */
  function TwoEntries(a: Item, b: Item): PassInput {
    PassInput(Config([ImageSca], false, false, false, 0, None, true, true, true), [Some(a), Some(b)],
              (k: nat) => World({Trivy}, {Trivy}, Lives), 0, Lives)
  }

  /**
   The failing side is inhabited: two images with one digest that run in different workloads
   make a declared full scan after which the first one's signature is not stored.
   */
  lemma FullScanLosesSignature(a: Item, b: Item)
    requires Trim(a.image) != "" && Trim(b.image) != ""
    ensures DeclaresFull(EMPTY, TwoEntries(a, b))
    ensures && Key(a) == Key(b) && AllClean(Identities(a)) && AllClean(Identities(b))
            && multiset(Identities(a)) != multiset(Identities(b)) ==>
              && !KeysConsistent(TwoEntries(a, b))
              && !AllStored(AfterPass(EMPTY, TwoEntries(a, b)), TwoEntries(a, b))
  {
    var pass := TwoEntries(a, b);
    var w := World({Trivy}, {Trivy}, Lives);
    AcceptedScan(pass.cfg, w);
    TwoClean(pass, a, b, w);
    if Key(a) == Key(b) && AllClean(Identities(a)) && AllClean(Identities(b))
       && multiset(Identities(a)) != multiset(Identities(b)) {
      SignatureIdentifies(a, pass.cfg.scanTypes, b, pass.cfg.scanTypes);
      TwoDiffer(pass, a, b);
      FullScanStoresAllIffConsistent(EMPTY, pass);
    }
  }

  lemma AcceptedScan(cfg: Config, w: World)
    requires cfg.scanTypes == [ImageSca] && !cfg.dryRun && w == World({Trivy}, {Trivy}, Lives)
    ensures ScanImage(cfg, w) == Completed({Trivy}, 0)
  {
  }

  lemma TwoDiffer(pass: PassInput, a: Item, b: Item)
    requires pass.entries == [Some(a), Some(b)] && Scannable(Some(a)) && Scannable(Some(b)) && Key(a) == Key(b)
    requires Signature(a, pass.cfg.scanTypes) != Signature(b, pass.cfg.scanTypes)
    ensures !KeysConsistent(pass)
  {
    assert pass.entries[0].value == a && pass.entries[1].value == b;
  }

  lemma TwoClean(pass: PassInput, a: Item, b: Item, w: World)
    requires pass.entries == [Some(a), Some(b)] && pass.world(0) == w && pass.world(1) == w && w.fate.Lives?
    requires ScanImage(pass.cfg, w).Completed? && ScanImage(pass.cfg, w).failures == 0 && pass.end.Lives?
    ensures DeclaresFull(EMPTY, pass)
  {
    var due := FullRescanDue(EMPTY, pass.cfg, pass.now);
    var p := After(map[], pass.cfg, due, pass.entries, pass.world, 0);
    var q := After(map[], pass.cfg, due, pass.entries, pass.world, 1);
    assert q == Consider(p, pass.cfg, due, Some(a), w);
    assert !q.stopped && q.failures == 0;
    assert After(map[], pass.cfg, due, pass.entries, pass.world, 2) == Consider(q, pass.cfg, due, Some(b), w);
  }
}
