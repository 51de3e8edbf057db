# VAT: verified models of the scanner's protocols and the dashboard's calculations

VAT collects vulnerability findings. A local scanner pulls container images, scans them and posts
reports to the VAT server; a dashboard groups the findings by asset. This project models the parts
of that system that are hardest to get right by reading alone, and proves what they guarantee.

* **The ScanRequest queue** (`ScanStatus`, `ScanQueue`, `ScanRequestApi`). Any number of workers list
  requests, check phase and backoff on a snapshot that may be stale, claim with a PUT that the server
  accepts only at the current `resourceVersion`, scan, and write `done`, `pending` or `failed`. The
  model is a state machine: requests and responses are separate steps that can be delayed, lost or
  reordered, workers can crash at any point, new workers appear, the operator creates and
  garbage-collects requests, and one clock moves on. `ScanRequestApi` holds the same worker in the
  program's own form, an object with a versioned store and a loop.
* **Incremental inventory scans** (`InventorySignature`, `InventoryScan`). What a pass skips is decided by
  signatures stored by earlier passes. Scanners, the server and the process are adversarial. The
  signature is an exact encoding, and skipping is sound over every sequence of passes.
* **The ingest-key cache** (`IngestKeys`, `KeyCache`). Processes share one file under a lock, against
  a server that mints keys. The steps inside the lock are separate steps of a state machine and
  any process can be killed between any two of them.
* **Digests and image references** (`Digests`, `IndexSearch`, `OciDigest`, `ContainerRef`,
  `RefIdempotence`, `BackendRef`, `GroupKey`). The recursive search of an OCI layout; one TypeScript and
  three Python splitters of `registry/path:tag@sha256:hex`; normalising twice and the backend's own
  normaliser, over all texts; the bounded memo over the canonical key while alias rules change.
* **Rollups and round trips** (`MetricSemantics`, `AssetRollup`, `VersionTags`, `Snapshots`, `Waivers`,
  `ExternalLinks`). Assets derived from findings, saved snapshots, waiver expiry and alerts, and the
  015 migration there and back.

`Wrappers`, `Sorting` and `Text` hold what these share: an option type and mapping over sequences,
a stable sort with its laws, and string operations with the lemmas that invert `Join`.

The statements quantify over every input, every run and every reachable state. Where the code falls
short of what its comments or names suggest, the model follows the code, and a lemma states the exact
condition under which the expected property holds:

* A request whose claim was applied but whose worker is gone is never picked up again.
  `LeavesScanningIffNotOrphaned` gives the exact condition and `LostResponseOrphans` reaches the state.
* A dry run writes checkpoints, so a later real pass, or the same one at a second entry, skips an image
  VAT never heard of. `SkipsUningestedIff` gives the exact condition on the flags.
* Two inventory entries with one key and different signatures overwrite each other's checkpoint, so a
  declared full scan need not have every signature stored (`FullScanStoresAllIffConsistent`).
* The comment in `cli.py` says the server mints a key only when the source has none. The endpoint
  also mints when the source is not registered and a key exists (`RotatesWithoutResetIff`).
* Saving the key cache truncates the file first and a torn file loads as empty, so a process killed while
  rewriting a key it already had erases the cached keys of all sources (`KillMidRewriteLosesAll`,
  `AgreesIffHarmless`), and none of them comes back without a reset (`StrandedForever`).
* Normalisation is not idempotent on texts such as `host/`, a double tag, or an upper-case digest marker in
  a host (`IdempotentIff`).
* The frontend's normaliser says it has the backend's semantics. Keys and tags do agree on every text;
  digests differ when a second `@sha256:` changes the digits (`BackendAgreesIff`).
* `nginx` and `nginx:1.27` name one repository and are two assets: a bare name is not taken for an image
  (`GroupedByRepositoryIff`).
* A waiver whose date cannot be read is reopened at once and raises no alert (`ReopenedIff`). A date is
  over one full day after the instant it names (`DaysLeftMeaning`), so the overdue test and the
  overdue alert differ for a day (`OverdueWithoutAlertIff`).
* The 015 migration loses an empty tracker id and turns an empty or non-text source map into something
  else (`RestoredIffRestorable`).

Assumptions: `max_attempts` is at least 1 and the same for all workers; workers and operator are the
only writers of requests; all timestamps come from one clock that never runs backwards; the API
server never reuses a `resourceVersion`.

## Model

| member | source | states |
|---|---|---|
| `ScanStatus.HistoryAccounted` | vat-local-scanner/vat_scanner/cli.py:2943-2985 | in every history of claims and finishing writes from attempts 0, attempts equals the recorded failures and is at most `max_attempts`; `failed` holds exactly at `max_attempts`; the remaining budget covers every write |
| `ScanStatus.LegalUpTo` | vat-local-scanner/vat_scanner/cli.py:2936-2985 | every prefix of a legal history is legal, so the accounting held at every earlier moment |
| `ScanStatus.WriteSpendsBudget` | vat-local-scanner/vat_scanner/cli.py:2938-2985 | a measure on attempts and phase strictly falls with every write and stays non-negative; nothing is written after `done` or `failed` |
| `ScanStatus.WritesBounded` | vat-local-scanner/vat_scanner/cli.py:2943-2985 | at most `max_attempts` claims and `2 * max_attempts` status writes per request |
| `ScanStatus.ReadyMeans` | vat-local-scanner/vat_scanner/cli.py:2786-2796 | a request may be claimed exactly when it is new or pending and its last failure, if dated, is 30·2^(attempts-1) seconds old |
| `ScanStatus.Windows` | vat-local-scanner/vat_scanner/cli.py:2786-2796 | the window is 30 seconds after the first failure and doubles with each further one |
| `ScanStatus.FailuresBackOff` | vat-local-scanner/vat_scanner/cli.py:2786-2796 | the (k+1)th recorded failure comes at least 30·2^(k-1) seconds after the kth |
| `ScanStatus.BackoffsAddUp` | vat-local-scanner/vat_scanner/cli.py:2786-2796 | the first m waits add up to at least 30·(2^(m-1) − 1) seconds |
| `ScanStatus.ParkedNoEarlierThan` | vat-local-scanner/vat_scanner/cli.py:2786-2796 | a request with m attempts is not parked as `failed` earlier than 30·(2^(m-1) − 1) seconds after its first failure |
| `ScanStatus.ParkingBoundIsTight` | vat-local-scanner/vat_scanner/cli.py:2786-2796 | for every `max_attempts` some legal history attains that bound |
| `ScanQueue.StepKeepsInv` | vat-local-scanner/vat_scanner/cli.py:2924-2989 | every step of every worker, the network, the operator and the clock keeps the protocol invariant: snapshots are stale or exact, writes in flight are legal for their base, a claimed object has one carrier |
| `ScanQueue.RunKeepsInv` | vat-local-scanner/vat_scanner/cli.py:2924-2989 | the invariant holds in every state of every run |
| `ScanQueue.AtMostOneHolder` | vat-local-scanner/vat_scanner/cli.py:2945-2989 | mutual exclusion: no two workers are ever between a claim that the server has applied, read or not, and the finishing write of one request |
| `ScanQueue.FinishNeverConflicts` | vat-local-scanner/vat_scanner/cli.py:2970-2989 | a finishing write that arrives is always applied and becomes the stored status |
| `ScanQueue.WinningClaimWasCurrent` | vat-local-scanner/vat_scanner/cli.py:2938-2950 | a claim wins exactly when its snapshot is current, and then the phase and backoff checked on the snapshot hold of the stored status |
| `ScanQueue.ClaimSays` | vat-local-scanner/vat_scanner/cli.py:2938-2944 | the claim a worker sends, field by field, and the checks its snapshot has passed |
| `ScanQueue.ReportSays` | vat-local-scanner/vat_scanner/cli.py:2972-2987 | in every run the report of a good scan says `done` with the attempts kept and that of a bad one counts an attempt and says `failed` exactly at `max_attempts`; it is what gets stored |
| `ScanQueue.ClaimUndisturbed` | vat-local-scanner/vat_scanner/cli.py:2945-2989 | while a claim is in progress no step other than its own finishing write changes the request |
| `ScanQueue.RequestsAccounted` | vat-local-scanner/vat_scanner/cli.py:2936-2989 | the accounting and the bounds on claims and writes hold of every request in every state of every run, with lost responses, crashes and collection |
| `ScanQueue.RequestsBackOff` | vat-local-scanner/vat_scanner/cli.py:2786-2796 | exponential spacing of failures and the parking time hold of every request in every run |
| `ScanQueue.HistoryOnlyGrows` | vat-local-scanner/vat_scanner/scanrequests.py:82-86 | until it is collected a request's history only grows, and `done` and `failed` are absorbing |
| `ScanQueue.OrphanStuckForever` | vat-local-scanner/vat_scanner/cli.py:2936-2952 | a `scanning` request that nobody holds stays as it is in every continuation |
| `ScanQueue.FinishableLeavesScanning` | vat-local-scanner/vat_scanner/cli.py:2952-2989 | whatever still stands for a claim (a response, a worker, a write in flight) has a continuation that finishes the request |
| `ScanQueue.LeavesScanningIffNotOrphaned` | vat-local-scanner/vat_scanner/cli.py:2936-2989 | a `scanning` request can leave that phase if and only if it is not orphaned |
| `ScanQueue.LostResponseOrphans` | vat-local-scanner/vat_scanner/cli.py:2945-2951 | a claim that is applied and whose response is lost reaches an orphan |
| `ScanRequestApi.Api.List` | vat-local-scanner/vat_scanner/scanrequests.py:78-80 | the list holds every stored request exactly once, as it is stored |
| `ScanRequestApi.Api.UpdateStatus` | vat-local-scanner/vat_scanner/scanrequests.py:82-86 | compare-and-swap: the write is applied exactly when it arrives at the version the caller holds, even if the response is lost; a conflict is reported exactly on a delivered stale version; nothing else changes |
| `ScanRequestApi.TakeTurn` | vat-local-scanner/vat_scanner/cli.py:2936-2989 | one request's turn extends its history by none, the claim, or the claim and the result; the status it leaves is spelled out for every loss, readiness and scan result; no other request changes |
| `ScanRequestApi.DrainQueue` | vat-local-scanner/vat_scanner/cli.py:2924-2992 | one pass gives every request exactly its own turn, with the resulting status spelled out; the counters are the numbers of requests won and scanned, and claimed = done + failed |
| `ScanRequestApi.DrainedOutcome` | vat-local-scanner/vat_scanner/cli.py:2943-2987 | what a turn makes of a status: `done` with attempts kept, one attempt more with `failed` exactly at the maximum, left scanning, or untouched |
| `ScanRequestApi.DrainedStaysLegal` | vat-local-scanner/vat_scanner/cli.py:2936-2989 | such a turn keeps a legal history legal, so the accounting and backoff theorems apply to the loop |
| `InventorySignature.TargetSignatureIdentity` | vat-local-scanner/vat_scanner/cli.py:1352-1364 | a target's signature depends only on its trimmed fields and its sorted non-blank secrets, and equals the comma-joined pieces of that identity |
| `InventorySignature.SignatureRespects` | vat-local-scanner/vat_scanner/cli.py:1367-1373 | target order, secret order and blanks do not change the signature |
| `InventorySignature.ItemSignatureInjective` | vat-local-scanner/vat_scanner/cli.py:1345-1373 | equal item signatures mean equal keys and equal multisets of targets with secrets, although one comma joins both levels |
| `InventorySignature.SignatureSplits` | vat-local-scanner/vat_scanner/cli.py:2194 | the scan types can be read off the end of every signature, whatever the key contains |
| `InventorySignature.SignatureIdentifies` | vat-local-scanner/vat_scanner/cli.py:1345-1373 | signatures are equal if and only if key, target multiset and scan-type list are, for names without slash, comma and pipe |
| `InventorySignature.ChangeShows` | vat-local-scanner/vat_scanner/cli.py:1352-1373 | replacing one workload leaves the signature the same exactly when its four trimmed fields and its set of non-blank secrets are the same |
| `InventorySignature.CommaCollides` | vat-local-scanner/vat_scanner/cli.py:1359-1363 | without that condition a secret containing a comma collides with two secrets, on every target of every image |
| `InventorySignature.SlashCollides` | vat-local-scanner/vat_scanner/cli.py:1352-1364 | a slash in a workload name collides with one in the container name, on every image |
| `InventorySignature.PipeCollides` | vat-local-scanner/vat_scanner/cli.py:1367-1373 | a pipe in a namespace collides with one in the image key |
| `InventoryScan.CleanScanDelivers` | vat-local-scanner/vat_scanner/cli.py:2238-2397 | a scan with no counted failure made its required reports and, unless dry, had them accepted |
| `InventoryScan.CheckpointedIff` | vat-local-scanner/vat_scanner/cli.py:2238-2397 | exactly when a scan is checkpointed, in terms of reports, keys, acceptance and flags |
| `InventoryScan.IngestedIff` | vat-local-scanner/vat_scanner/cli.py:2309-2396 | exactly which reports reach VAT, with the missing keys that end a target |
| `InventoryScan.Scanner.ScanOne` | vat-local-scanner/vat_scanner/cli.py:2213-2396 | one image's scan under any scanner, key and server outcome, with the early exits of `--fail-on-error` |
| `InventoryScan.Scanner.IngestTarget` | vat-local-scanner/vat_scanner/cli.py:2309-2396 | the four ingests in order: a missing key ends the target, a rejected report does not, and either counts |
| `InventoryScan.Scanner.ConsiderEntry` | vat-local-scanner/vat_scanner/cli.py:2187-2406 | one entry is ignored, skipped, or scanned and checkpointed only when clean; `SkippedIff` and `CheckpointedIff` say when |
| `InventoryScan.Scanner.RunPass` | vat-local-scanner/vat_scanner/cli.py:2183-2410 | the state left by a pass and its counters, also by a pass cut short at an image, after the last one, or while the state file is rewritten, which then loads as empty |
| `InventoryScan.Scanner.EndPass` | vat-local-scanner/vat_scanner/cli.py:2408-2410 | a full scan is recorded only by a process that lives through the last save |
| `InventoryScan.SkippedIff` | vat-local-scanner/vat_scanner/cli.py:2187-2212 | an entry is skipped exactly when no rescan is forced or overdue, VAT is not known to have lost its digest, and its present signature is stored under its digest or name |
| `InventoryScan.LostIsRescanned` | vat-local-scanner/vat_scanner/cli.py:2196-2202 | in every run, a skipped image has no digest, or its digest was among those VAT knew in that pass, or VAT could not be asked |
| `InventoryScan.FailuresAddUp` | vat-local-scanner/vat_scanner/cli.py:2397 | the failures a pass reports are those of its scans |
| `InventoryScan.RunsAreBacked` | vat-local-scanner/vat_scanner/cli.py:2397-2406 | after every sequence of passes each stored signature is backed by an earlier clean scan that had that key and signature |
| `InventoryScan.SkipIsSound` | vat-local-scanner/vat_scanner/cli.py:2203-2212 | an image is skipped only if an image with the same key, target multiset and scan types was scanned cleanly before |
| `InventoryScan.SkippedWasIngested` | vat-local-scanner/vat_scanner/cli.py:2203-2212 | without dry runs that scan's Trivy report (if `image-sca`) and CycloneDX report (if `image-sbom`) were ingested |
| `InventoryScan.DryRunPoisons` | vat-local-scanner/vat_scanner/cli.py:2397-2406 | under all flags with a dry pass and the same or a later pass that does not force a rescan, every image can be scanned dry once and skipped afterwards, though nothing was ingested |
| `InventoryScan.UnsoundNeedsDryRun` | vat-local-scanner/vat_scanner/cli.py:2203-2212 | a run that skips an image VAT never got has such a pair of passes |
| `InventoryScan.SkipsUningestedIff` | vat-local-scanner/vat_scanner/cli.py:2183-2406 | a list of configurations admits a run that skips an image whose reports VAT never got if and only if it has such a pair of passes with equal scan types, `image-sca` or `image-sbom` among them |
| `InventoryScan.RunningPass` | vat-local-scanner/vat_scanner/cli.py:2183-2406 | at every point of an uninterrupted pass the counters cover the entries so far, nothing is skipped on a due rescan, and while no failure is counted the last entry of each key has its signature stored |
| `InventoryScan.FullScanStoresEverything` | vat-local-scanner/vat_scanner/cli.py:2408-2410 | when `lastFullScanAt` is written each key holds the signature of its last entry, and a due rescan skipped nothing |
| `InventoryScan.PassCountsEverything` | vat-local-scanner/vat_scanner/cli.py:2183-2214 | scanned + skipped is the number of entries with an image whenever the pass does not exit early |
| `InventoryScan.FullScanStoresAllIffConsistent` | vat-local-scanner/vat_scanner/cli.py:2397-2410 | after a declared full scan every entry's current signature is stored if and only if entries with one key have one signature |
| `InventoryScan.FullScanLosesSignature` | vat-local-scanner/vat_scanner/cli.py:2397-2410 | two images with one key and different workloads make a declared full scan after which the first signature is not stored |
| `Digests.NormalizeIsCanonical` | vat-local-scanner/vat_scanner/container_digest.py:40-48 | whatever is accepted becomes `sha256:` and 12 to 64 lowercase hex digits |
| `Digests.CanonicalIffFixed` | vat-local-scanner/vat_scanner/container_digest.py:40-48 | the canonical digests are exactly the fixed points of normalisation |
| `Digests.DigitsRead` | vat-local-scanner/vat_scanner/container_digest.py:40-48 | digits in either case are read in lower case, up to 64 of them, and fewer than 12 are refused |
| `IndexSearch.SearchIsExact` | vat-local-scanner/vat_scanner/container_digest.py:70-110 | on every acyclic graph the search finds a digest if and only if one is reachable, and it is a reachable one |
| `IndexSearch.DirectImagesYieldLeast` | vat-local-scanner/vat_scanner/container_digest.py:96-97 | an index that lists images yields the least of their digests |
| `IndexSearch.NestedYieldsLeast` | vat-local-scanner/vat_scanner/container_digest.py:99-109 | an index without images answers like the least of its nested indexes that has an answer |
| `IndexSearch.OrderIrrelevant` | vat-local-scanner/vat_scanner/container_digest.py:70-110 | permuting the lists of any number of indexes at any depth leaves the result unchanged |
| `OciDigest.LookupIsGraph` | vat-local-scanner/vat_scanner/container_digest.py:58-67 | looking up a canonical digest in the layout is following an edge of the graph |
| `OciDigest.Collect` | vat-local-scanner/vat_scanner/container_digest.py:70-94 | one loop collects the image and the nested-index digests of an index file, as `ParsedLists` describes them |
| `OciDigest.ParsedLists` | vat-local-scanner/vat_scanner/container_digest.py:26-37 | a digest is collected as an image or as an index exactly when a descriptor with one of the two manifest or the two index media types has it |
| `OciDigest.DigestFromIndex` | vat-local-scanner/vat_scanner/container_digest.py:70-110 | the recursive resolver terminates on every acyclic layout and computes the search |
| `OciDigest.ResolverIsExact` | vat-local-scanner/vat_scanner/container_digest.py:70-128 | it returns None exactly when no image manifest is reachable through readable blobs, else a canonical reachable digest |
| `OciDigest.ResolverReadsFiles` | vat-local-scanner/vat_scanner/container_digest.py:70-128 | the resolver answers exactly when a descriptor of one of the two manifest types is listed in the file or below it through listed index files, with the digest of one, and the least where the file lists any itself |
| `OciDigest.DigestFromLayout` | vat-local-scanner/vat_scanner/container_digest.py:113-128 | the same of the program's own call on a layout |
| `OciDigest.ManifestOrderIrrelevant` | vat-local-scanner/vat_scanner/container_digest.py:70-110 | permuting `manifests` in any number of index files does not change the result |
| `IngestKeys.KeyServer.Ensure` | backend/app/api/settings.py:528-612 | the endpoint creates, rotates or answers nothing, and changes the key of no other source |
| `IngestKeys.KeyFile.CacheKey` | vat-local-scanner/vat_scanner/vat_client.py:347-356 | load, update, save changes one entry and keeps all others; on a read-only file system the file is unchanged and the failure is ignored |
| `IngestKeys.EnsureParserIngestKey` | vat-local-scanner/vat_scanner/cli.py:1587-1615 | the program's call, on server and file, is the call the theorems are about; without a writable file only the server changes |
| `IngestKeys.CallKeepsSynced` | vat-local-scanner/vat_scanner/cli.py:1587-1615 | when cache and server agree, a call returns the server's current key, keeps agreement and other sources' keys, and without reset leaves an existing key alone |
| `IngestKeys.CallAnswersIff` | vat-local-scanner/vat_scanner/cli.py:1604-1615 | in any world a call returns a key if and only if the server mints one or one is cached |
| `IngestKeys.RotatesWithoutResetIff` | backend/app/api/settings.py:528-612 | without reset an existing key is replaced if and only if its source is not registered |
| `KeyCache.StepKeepsInv` | vat-local-scanner/vat_scanner/cli.py:1574-1615 | every step, every kill and every failed request keeps the lock invariant and each call's account of what it has done since it acquired the lock |
| `KeyCache.PathKeepsInv` | vat-local-scanner/vat_scanner/cli.py:1574-1615 | the invariant holds along every run over all steps, whoever is killed and when |
| `KeyCache.MutualExclusion` | vat-local-scanner/vat_scanner/cli.py:1574-1584 | in every run, with arbitrary kills, at most one process is in the locked section |
| `KeyCache.EnteredAt` | vat-local-scanner/vat_scanner/cli.py:1574-1584 | a process in the locked section entered it at a moment when the lock was free and has been alone in it since |
| `KeyCache.CompletedCallIsAtomic` | vat-local-scanner/vat_scanner/cli.py:1574-1615 | in every run, with arbitrary kills, the interleaved read, request and write of a returning call refine one atomic call on the world at the moment its process entered |
| `KeyCache.RunKeepsSync` | vat-local-scanner/vat_scanner/cli.py:1574-1615 | in every run without an unheard mint, a death between mint and write, or a death while the file is being rewritten, cache and server agree whenever the lock is free |
| `KeyCache.ReturnsCurrentKey` | vat-local-scanner/vat_scanner/cli.py:1587-1615 | in every such run each call returns the server's current key of its source |
| `KeyCache.KeysAreKept` | vat-local-scanner/vat_scanner/vat_client.py:342-356 | in every such run, without a reset of a source its key is never rotated and never lost from the cache, whatever other sources do |
| `KeyCache.AgreesIffHarmless` | vat-local-scanner/vat_scanner/vat_client.py:77-84 | a call cut short leaves cache and server agreeing if and only if it is none of those three failures |
| `KeyCache.KillMidRewriteLosesAll` | vat-local-scanner/vat_scanner/vat_client.py:77-84 | a process killed while it rewrites a key it already had loses the cached keys of every source, although the server has not changed |
| `KeyCache.HarmStrands` | vat-local-scanner/vat_scanner/cli.py:1604-1615 | which keys such a failure strands: all of them while the file is open, else the one of its own source, and no other |
| `KeyCache.StrandedOnPath` | vat-local-scanner/vat_scanner/cli.py:1604-1615 | a key the cache does not have stays that way along every continuation in which its source is not reset |
| `KeyCache.StrandedForever` | vat-local-scanner/vat_scanner/cli.py:1604-1615 | after such a failure, in every continuation with any processes, failures and calls, no call for the stranded source without reset ever returns its key |
| `KeyCache.ResetAloneRepairs` | vat-local-scanner/vat_scanner/cli.py:1604-1615 | a call for a stranded source returns the current key and repairs the cache if and only if it resets |
| `KeyCache.WholeCall` | vat-local-scanner/vat_scanner/cli.py:1587-1615 | every atomic call that yields a key is the outcome of some run |
| `KeyCache.LossIsReachable` | vat-local-scanner/vat_scanner/vat_client.py:57-84 | a run from the start reaches a state in which a kill erases the cached key of another source |
| `ContainerRef.NormalizePrinted` | frontend/lib/containerRefNormalization.ts:14-95 | printing any well-formed reference and normalising it recovers the lowercased registry/path with Docker Hub defaults, the tag and the digest |
| `ContainerRef.NormalizeIdempotent` | frontend/lib/containerRefNormalization.ts:67-95 | canonical keys of well-formed references are fixed points, without tag and digest |
| `ContainerRef.KeyIgnoresTagAndDigest` | frontend/lib/containerRefNormalization.ts:67-95 | references differing in tag and digest only share a key |
| `ContainerRef.TrailingSlashNotIdempotent` | frontend/lib/containerRefNormalization.ts:67-95 | a failing family: for every lowercase host, `host/` normalises to `host`, which normalises to something else |
| `ContainerRef.SplittersAgree` | vat-local-scanner/vat_scanner/container_identity.py:13-46 | on every well-formed reference the TypeScript splitter and the three Python ones give the same repository, explicit tag and digest |
| `ContainerRef.ImageRefTagPrinted` | vat-local-scanner/vat_scanner/cli.py:1195-1206 | the explicit tag is recovered; without one, nothing for a digest reference and `latest` otherwise |
| `ContainerRef.RepoWithoutTagPrinted` | vat-local-scanner/vat_scanner/cli.py:2761-2765 | the repository is recovered, registry port included |
| `ContainerRef.PullTargetPrinted` | vat-local-scanner/vat_scanner/cli.py:2768-2783 | the pull reference is the repository at the requested digest, the asset the reference without digest, the tag its own, `latest`, or the first observed one |
| `ContainerRef.PullTargetUndigested` | vat-local-scanner/vat_scanner/cli.py:2768-2783 | without a requested digest the reference itself is pulled, with the tag and asset spelled out |
| `ContainerRef.PullTargetIsSameAsset` | vat-local-scanner/vat_scanner/cli.py:2768-2783 | pull reference and asset share the canonical key, and the pull reference yields the requested digest |
| `RefIdempotence.KeyParts` | frontend/lib/containerRefNormalization.ts:67-95 | the key of every text, blank ones included, is the lowercased host and path that its splitting leaves |
| `RefIdempotence.KeyFixedIff` | frontend/lib/containerRefNormalization.ts:24-95 | a key normalises to itself if and only if its path does not end in a blank, it holds no digest marker and its path does not read as tagged |
| `RefIdempotence.CutChangesKey` | frontend/lib/containerRefNormalization.ts:24-95 | whenever normalisation cuts a blank, digest or tag off a key, the key gets shorter or changes its host |
| `RefIdempotence.HostAloneNotFixed` | frontend/lib/containerRefNormalization.ts:42-95 | a text without a slash never normalises to itself |
| `RefIdempotence.IdempotentIff` | frontend/lib/containerRefNormalization.ts:67-95 | for every text, normalising twice is normalising once if and only if a path is left, it does not end in a blank, lowercasing makes no digest marker and nothing after its last colon reads as a tag |
| `BackendRef.DigestsAgreeIff` | backend/app/services/container_ref_normalization.py:66-71 | frontend and backend read the same digest if and only if there is no second marker, 64 digits come before it, or there are fewer than 12 digits in all |
| `BackendRef.BackendAgreesIff` | backend/app/services/container_ref_normalization.py:106-133 | frontend and backend give every text the same key and tag, and the same answer if and only if no second digest marker changes the digits |
| `BackendRef.DoubledMarkerDiffers` | frontend/lib/containerRefNormalization.ts:24-29 | every reference with 12 to 63 digits between two markers gets different digests |
| `GroupKey.ParseAliases` | frontend/lib/containerRefNormalization.ts:98-114 | the parsing loop keeps exactly the usable segments, in order |
| `GroupKey.SegmentParsed` | frontend/lib/containerRefNormalization.ts:105-112 | a segment with an arrow gives its two sides trimmed and in lower case, or nothing without a left side |
| `GroupKey.SettingParsed` | frontend/lib/containerRefNormalization.ts:98-114 | a setting, however spaced and capitalised, gives one rule per segment with a left side, in order |
| `GroupKey.RulesRoundTrip` | frontend/lib/containerRefNormalization.ts:98-114 | clean rules written to the configuration string are read back unchanged |
| `GroupKey.NoRuleDecides` | frontend/lib/containerRefNormalization.ts:157-168 | when no rule's prefix matches the key stays as it is |
| `GroupKey.FirstRuleDecides` | frontend/lib/containerRefNormalization.ts:157-168 | the first rule whose prefix matches, and no other, rewrites the key |
| `GroupKey.AliasesGiveIff` | frontend/lib/containerRefNormalization.ts:157-168 | the rules turn a key into another text if and only if the first matching rule rewrites it so |
| `GroupKey.ImageIffMarked` | frontend/lib/containerRefNormalization.ts:188-205 | a text is taken for an image or repository exactly when it has a colon, a slash that is not its first character, or `/images/` after a leading slash |
| `GroupKey.GroupKeyPrinted` | frontend/lib/assetUtils.ts:61-88 | every well-formed reference is grouped under its canonical key and the rules, except cluster resources and bare names |
| `GroupKey.GroupedByRepositoryIff` | frontend/lib/assetUtils.ts:61-88 | under any rules a reference is grouped with its canonical key if and only if it is not a bare name or the first matching rule rewrites the key to that name |
| `GroupKey.TagAndDigestIrrelevant` | frontend/lib/assetUtils.ts:61-88 | references to one repository that differ in tag and digest are grouped together under any rules, bare names apart |
| `GroupKey.Memo.constructor` | frontend/lib/containerRefNormalization.ts:124-130 | the rules parsed from the build-time setting and an empty memo |
| `GroupKey.Memo.Evict` | frontend/lib/assetUtils.ts:79-85 | the oldest entry goes and no other |
| `GroupKey.Memo.Insert` | frontend/lib/assetUtils.ts:86 | one entry is added as the newest |
| `GroupKey.Memo.Lookup` | frontend/lib/assetUtils.ts:61-88 | the answer is always the unmemoised one under the current rules; at most 4096 entries, oldest out first |
| `GroupKey.Memo.SetAliases` | frontend/lib/containerRefNormalization.ts:142-151 | new rules and an empty memo |
| `GroupKey.Memo.Perform` | frontend/lib/assetUtils.ts:54-88 | one operation answers and changes the rules as if nothing were remembered |
| `GroupKey.Memo.Replay` | frontend/lib/assetUtils.ts:51-88 | over any interleaving of lookups and rule changes the answers are those of the unmemoised function |
| `MetricSemantics.ExactlyOneReading` | frontend/lib/metricSemantics.ts:16-44 | every status is exactly one of blank, closed, risk-accepted and open |
| `MetricSemantics.ClosedTexts` | frontend/lib/metricSemantics.ts:1-12 | the nine closed statuses |
| `MetricSemantics.OneWordStatus` | frontend/lib/metricSemantics.ts:16-44 | which one-word statuses are closed, in any case; all others are open |
| `MetricSemantics.TwoWordStatus` | frontend/lib/metricSemantics.ts:16-44 | which two-word statuses are closed or an accepted risk, joined by a blank, underscore or hyphen |
| `MetricSemantics.RunTogetherStatus` | frontend/lib/metricSemantics.ts:16-23 | two words run together with a capital read as if parted |
| `AssetRollup.IdsFacts` | frontend/lib/assetUtils.ts:549-560 | asset ids are distinct and are exactly the keys of the visible findings |
| `AssetRollup.Conservation` | frontend/lib/assetUtils.ts:549-611 | for every property, the assets together hold as many findings with it as the visible input |
| `AssetRollup.Group` | frontend/lib/assetUtils.ts:549-560 | the grouping loop lists the keys in first-seen order, each with its findings in input order |
| `AssetRollup.MembersConcat` | frontend/lib/assetUtils.ts:554-559 | findings keep their input order inside an asset |
| `AssetRollup.IdsPrefix` | frontend/lib/assetUtils.ts:554-560 | assets keep first-seen order: more findings only add assets behind |
| `AssetRollup.RollUp` | frontend/lib/assetUtils.ts:561-610 | one loop counts open, in-review, overdue and verified findings, the breakdown and the worst severity |
| `AssetRollup.CountersMean` | frontend/lib/assetUtils.ts:561-576 | the four counters are the numbers of positions with an open, closed, in-review, or open and past-due finding |
| `AssetRollup.WorstSeverityMeans` | frontend/lib/assetUtils.ts:574-605 | the severity shown is the first of the order that a finding has, or `Informational` |
| `AssetRollup.DeriveAssets` | frontend/lib/assetUtils.ts:549-611 | one asset per distinct key, in first-seen order, holding exactly its findings in input order |
| `AssetRollup.ReadingsAddUp` | frontend/lib/metricSemantics.ts:16-44 | open + verified + risk-accepted + blank is the number of findings |
| `AssetRollup.WorstIsLeast` | frontend/lib/assetUtils.ts:561-610 | the worst severity is the least index present, or none is present |
| `AssetRollup.BreakdownSums` | frontend/lib/assetUtils.ts:561-610 | the breakdown lists each status present once and sums to the asset's size |
| `AssetRollup.OpenCountsAddUp` | frontend/lib/assetUtils.ts:549-611 | the assets' open counts sum to the open findings of the visible input |
| `AssetRollup.DeriveDashboard` | frontend/lib/assetUtils.ts:100-109 | distinct ids in first-seen order, exact membership and rollup, conserved open counts, and where each finding is shown: under its image's canonical key, else its component, else an id of its own, and nowhere when that is a cluster resource |
| `AssetRollup.ImageKey` | frontend/lib/assetUtils.ts:100-109 | a finding with a well-formed image is keyed by it, whatever its component, and hidden exactly when the key is blank or a cluster resource |
| `AssetRollup.ComponentKey` | frontend/lib/assetUtils.ts:100-109 | without an image the component is the key; without both the finding gets its own |
| `VersionTags.CompareSemverDesc` | frontend/lib/assetUtils.ts:694-703 | the loop over the longer part list computes the descending lexicographic order with missing parts read as 0 |
| `VersionTags.ThreeNumbers` | frontend/lib/assetUtils.ts:681-692 | a tag of three dotted numbers, with or without `v`, reads as these numbers in their order |
| `VersionTags.TwoNumbers` | frontend/lib/assetUtils.ts:681-692 | a tag of two numbers reads as these and zero |
| `VersionTags.ReadInBaseTen` | frontend/lib/assetUtils.ts:681-692 | numbers are read in base ten |
| `VersionTags.HigherLeads` | frontend/lib/assetUtils.ts:694-703 | of two versions the higher one leads, by first, second, third number |
| `VersionTags.NoNumberNoVersion` | frontend/lib/assetUtils.ts:681-703 | a tag that does not start with a number ranks below every version |
| `VersionTags.ComparatorIsOrder` | frontend/lib/assetUtils.ts:681-703 | the comparator is total and transitive whenever the string comparison is |
| `VersionTags.PickIsMaximal` | frontend/lib/assetUtils.ts:666-679 | the pick is a tag no candidate outranks; versions beat non-versions; `latest` only when all tags are; the rest count is one less than the tags |
| `Snapshots.LoadAfterSave` | frontend/hooks/useVATData.ts:217-241 | with unique ids and assets drawn from the list, a loaded snapshot gives every asset its findings in order, each slim |
| `Snapshots.AssetRestoredIffCovered` | frontend/hooks/useVATData.ts:217-241 | for any list, an asset comes back whole if and only if the list covers its findings |
| `Snapshots.LookupLast` | frontend/hooks/useVATData.ts:228 | of several findings with one id the last is used |
| `Snapshots.SlimKeeps` | frontend/hooks/useVATData.ts:281-302 | a slim finding keeps id, core fields and the name and date of each source, and drops the rest |
| `Snapshots.HydratedUnchanged` | frontend/hooks/useVATData.ts:224-241 | assets that carry findings come back unchanged against any list, with or without ids beside them |
| `Snapshots.NestedWinsIff` | frontend/hooks/useVATData.ts:230-239 | a saved asset with both findings and ids comes back with its findings if and only if there are some, or the ids name nothing in the list |
| `Snapshots.SlimIdempotent` | frontend/hooks/useVATData.ts:281-302 | slimming a slim finding changes nothing |
| `Snapshots.SaveIsStable` | frontend/hooks/useVATData.ts:304-313 | saving what was loaded saves the same snapshot |
| `Waivers.DaysLeftMeaning` | frontend/lib/utils.ts:62-65 | at most k days are left if and only if the date is at most k days ahead; a negative count means a full day has passed |
| `Waivers.ReopenKeepsRecord` | frontend/hooks/useVATData.ts:167-185 | reopening turns an accepted risk into an open one, records acceptance and instant, adds one audit entry and changes nothing else |
| `Waivers.LapseIsPermanent` | frontend/hooks/useVATData.ts:158-165 | a waiver found lapsed is lapsed at every later instant |
| `Waivers.LoadsCollapse` | frontend/hooks/useVATData.ts:158-187 | any series of loads is one load, at the first instant that finds the waiver lapsed |
| `Waivers.LoadsAreLastLoad` | frontend/hooks/useVATData.ts:158-187 | a series of loads gives the verdict of its latest instant alone: same status, previous status and audit entries up to their time |
| `Waivers.ExpireTwice` | frontend/hooks/useVATData.ts:158-187 | expiry at t1 then t2 >= t1 is expiry at t2, and repeating it at t1 changes nothing, for every date |
| `Waivers.RaisedWindows` | frontend/lib/utils.ts:144-210 | each dated alert is raised exactly in its window of instants around the date |
| `Waivers.ExpiringSeverity` | frontend/lib/utils.ts:160-176 | an expiring-waiver alert is High exactly in the last week |
| `Waivers.DatedAlertsExclusive` | frontend/lib/utils.ts:144-210 | a finding raises at most one of the four alerts that depend on a date |
| `Waivers.OverdueWithoutAlertIff` | frontend/lib/metricSemantics.ts:46-54 | an overdue open risk has no overdue alert exactly during the first day |
| `Waivers.ReopenedIff` | frontend/hooks/useVATData.ts:158-165 | loading changes a finding if and only if it raised an expired-waiver alert, its date is unreadable, or it is archived and lapsed |
| `Waivers.RaisedIff` | frontend/lib/utils.ts:142-236 | a finding raises an alert if and only if it calls for it, with population, window, severity and content spelled out for all six kinds, and at most one of each |
| `Waivers.PassAfterExpire` | frontend/lib/utils.ts:142-236 | after loading no expired-waiver alert is left, expiring-waiver alerts are the same, no other alert is lost |
| `Waivers.SortIsBySeverity` | frontend/lib/utils.ts:238-244 | the sort is the severities in turn, each in the order raised |
| `Waivers.AlertMembers` | frontend/lib/utils.ts:122-245 | an alert is on the sorted list if and only if some finding raises it in the pass of its kind |
| `Waivers.ListedIff` | frontend/lib/utils.ts:122-245 | an alert is on the sorted list if and only if some finding calls for it |
| `Waivers.RunPass` | frontend/lib/utils.ts:144-178 | one pass pushes the alerts of its kind, as `RaisedIff` describes them, in the order of the findings |
| `Waivers.PassConcat` | frontend/lib/utils.ts:144-236 | a pass keeps the order of the findings |
| `Waivers.PassesInOrder` | frontend/lib/utils.ts:144-236 | the order of the six passes |
| `Waivers.ComputeAlerts` | frontend/lib/utils.ts:122-245 | the six passes and the stable sort: exactly the alerts the findings call for, sorted, a permutation of what was raised, grouped by severity |
| `Waivers.LoadAndAlert` | frontend/hooks/useVATData.ts:158-187 | findings loaded and alerts computed at one instant contain no expired-waiver alert and keep all others |
| `ExternalLinks.Findings.Upgrade` | backend/alembic/versions/015_external_links.py:48-77 | every row's links are its tracker link and one link per source entry, in some key order |
| `ExternalLinks.Findings.Downgrade` | backend/alembic/versions/015_external_links.py:104-129 | every row's old columns are rebuilt from its links and the links are untouched |
| `ExternalLinks.BuildLinks` | backend/alembic/versions/015_external_links.py:50-72 | the links of one row |
| `ExternalLinks.LinksAre` | backend/alembic/versions/015_external_links.py:50-72 | the links of a row: the tracker first under its own adapter, one per source under its name, nothing else |
| `ExternalLinks.DownAfterUp` | backend/alembic/versions/015_external_links.py:43-129 | what survives the round trip, for every row |
| `ExternalLinks.FirstTrackerWins` | backend/alembic/versions/015_external_links.py:117-123 | on any links the downgrade takes the first tracker that has an issue id |
| `ExternalLinks.LastSourceWins` | backend/alembic/versions/015_external_links.py:117-123 | and the last link of each source |
| `ExternalLinks.RestoredIffRestorable` | backend/alembic/versions/015_external_links.py:43-129 | both columns are restored if and only if the tracker id is not empty text and the source ids are NULL or a non-empty object of texts and nulls |
| `ExternalLinks.RoundTrip` | backend/alembic/versions/015_external_links.py:43-129 | the whole table there and back, with that condition row by row |

## Left out

- Scanner subprocesses, HTTP, TLS, Kubernetes transport: every call is an outcome chosen by an adversary.
- Liveness of the queue: nothing in the code reclaims an orphaned request, so only the possibility of finishing is characterised.
- Clock skew between workers, differing `max_attempts`, and `max_attempts` below 1.
- Garbage collection is one atomic step on a `done` or `failed` request; its age test by `ttl` and its counters are not modelled.
- A ScanRequest's spec inside the queue model: pull targets are treated in `ContainerRef`, scan types only in the inventory model.
- `cmd_scan_runtime`, `cmd_scan_k8s_inventory`, `cmd_scan_node`, `cmd_scan` and the command line: they repeat the inventory pattern with weaker guarantees or are plumbing.
- Inventory entries whose secret list is not a list, and scalar fields that are not text.
- A read-only key cache under concurrency, and a lock file that cannot be opened: `KeyCache` has a writable file.
- Hashing and expiry of ingest keys, and the server's own concurrency: its endpoint is one atomic step.
- Non-ASCII whitespace and letters in trimming and lowercasing.
- `localeCompare` is any consistent comparison of strings; version numbers are unbounded integers, so the loss of precision beyond 2^53 does not appear.
- Asset fields that only format or copy (name, type, tags, percentages), alert texts, `created_at` of links.
- The size limits under which a snapshot is saved at all, and its JSON text.
- Date parsing: any function from texts to instants.
- OCI layouts with cyclic indexes, on which the recursion does not end; `index.json` and blobs are given as parsed files.
- DrainQueue: has no other writer during the pass; interleaving of workers is the subject of `ScanQueue`.
- SkipIsSound: needs names without slash, comma and pipe, as Kubernetes guarantees; `CommaCollides`, `SlashCollides` and `PipeCollides` show why.
- NormalizePrinted: covers well-formed references, for which alone "the" registry, path and tag are defined; `RefIdempotence` and `BackendRef` treat all texts.
- SARIF conversion, gating, snippets, enrichment, Trivy batching, title heuristics: field copying and tables of special cases.
- React components, effects, local storage plumbing, the API client, and the remaining backend services and migrations.
