/**
 The ScanRequest work queue as a transition system: one API server, one operator, any
 number of `scan-queue` workers and an unreliable network.

 A status PUT travels as a message of its own. It may be delivered at any later moment,
 even after its sender has timed out or died, or it may be lost; so may its response. The
 server applies it only when the object still has the version the sender had read.
 */
module ScanQueue {
  import opened Wrappers
  import opened ScanStatus

  type Name = string
  type WorkerId = nat

  /** A ScanRequest as a client holds it: possibly stale. */
  datatype Snapshot = Snapshot(name: Name, version: nat, status: Status)

  /**
   A ScanRequest on the server. `uid` tells apart requests that reuse a name after garbage
   collection; `history` lists every status the request has had, the current one last.
   */
  datatype Stored = Stored(uid: nat, version: nat, status: Status, history: seq<Status>)

  /** A status PUT: `base` is the object it was computed from, `status` the new value. */
  datatype Put = Put(id: nat, claim: bool, base: Snapshot, status: Status)

  datatype Reply = Updated(obj: Snapshot) | Conflict | Missing

  /** Where a worker is in its pass; `items` is what it has yet to consider. */
  datatype Worker =
    | Idle
    | Listed(items: seq<Snapshot>)
    | Draining(now: real, items: seq<Snapshot>)
    | Claiming(now: real, items: seq<Snapshot>, id: nat, prevAttempts: int)
    | Working(now: real, items: seq<Snapshot>, obj: Snapshot, prevAttempts: int)
    | Finishing(now: real, items: seq<Snapshot>, id: nat)

  datatype State = State(
    server: map<Name, Stored>,
    nextVersion: nat,
    workers: map<WorkerId, Worker>,
    inFlight: set<Put>,
    replies: map<nat, Reply>,
    nextId: nat,
    clock: real
  )

  datatype Step =
    | Tick(to: real)
    | Create(name: Name)
    | Collect(name: Name)
    | Spawn(w: WorkerId)
    | ListAll(w: WorkerId, listing: seq<Snapshot>)
    | ReadClock(w: WorkerId)
    | SkipItem(w: WorkerId)
    | SendClaim(w: WorkerId)
    | ReceiveClaim(w: WorkerId)
    | SendFinish(w: WorkerId, ok: bool)
    | ReceiveFinish(w: WorkerId)
    | GiveUp(w: WorkerId)
    | EndPass(w: WorkerId)
    | Crash(w: WorkerId)
    | Deliver(put: Put)
    | Lose(put: Put)

  predicate Current(s: State, snap: Snapshot) {
    && snap.name in s.server
    && s.server[snap.name].version == snap.version
    && s.server[snap.name].status == snap.status
  }

  /** A LIST response: every request exactly once, as it is now. */
  predicate IsListing(s: State, listing: seq<Snapshot>) {
    && (forall i :: 0 <= i < |listing| ==> Current(s, listing[i]))
    && (forall i, j :: 0 <= i < j < |listing| ==> listing[i].name != listing[j].name)
    && (forall n :: n in s.server ==> exists i :: 0 <= i < |listing| && listing[i].name == n)
  }

  ghost predicate Enabled(s: State, step: Step) {
    match step
    case Tick(to) => to >= s.clock
    case Create(name) => name !in s.server
    case Collect(name) => name in s.server && Terminal(s.server[name].status.phase)
    case Spawn(w) => w !in s.workers
    case ListAll(w, listing) => w in s.workers && s.workers[w].Idle? && IsListing(s, listing)
    case ReadClock(w) => w in s.workers && s.workers[w].Listed?
    case SkipItem(w) =>
      && w in s.workers && s.workers[w].Draining? && |s.workers[w].items| > 0
      && !Ready(s.workers[w].items[0].status, s.workers[w].now)
    case SendClaim(w) =>
      && w in s.workers && s.workers[w].Draining? && |s.workers[w].items| > 0
      && Ready(s.workers[w].items[0].status, s.workers[w].now)
    case ReceiveClaim(w) => w in s.workers && s.workers[w].Claiming? && s.workers[w].id in s.replies
    case SendFinish(w, _) => w in s.workers && s.workers[w].Working?
    case ReceiveFinish(w) => w in s.workers && s.workers[w].Finishing? && s.workers[w].id in s.replies
    case GiveUp(w) => w in s.workers && (s.workers[w].Claiming? || s.workers[w].Finishing?)
    case EndPass(w) => w in s.workers && s.workers[w].Draining? && s.workers[w].items == []
    case Crash(w) => w in s.workers
    case Deliver(put) => put in s.inFlight
    case Lose(put) => put in s.inFlight
  }

  function SetWorker(s: State, w: WorkerId, to: Worker): State {
    s.(workers := s.workers[w := to])
  }

  function SendPut(s: State, w: WorkerId, to: Worker, put: Put): State {
    s.(workers := s.workers[w := to], inFlight := s.inFlight + {put}, nextId := s.nextId + 1)
  }

  /** The server's side of `update_status`: compare the version, then swap the status. */
  function Serve(s: State, put: Put): State {
    var n := put.base.name;
    var arrived := s.(inFlight := s.inFlight - {put});
    if n !in s.server then
      arrived.(replies := s.replies[put.id := Missing])
    else if s.server[n].version != put.base.version then
      arrived.(replies := s.replies[put.id := Conflict])
    else
      var old' := s.server[n];
      arrived.(
        server := s.server[n := Stored(old'.uid, s.nextVersion, put.status, old'.history + [put.status])],
        nextVersion := s.nextVersion + 1,
        replies := s.replies[put.id := Updated(Snapshot(n, s.nextVersion, put.status))])
  }

  ghost function Do(s: State, step: Step, maxAttempts: int): State
    requires Enabled(s, step)
  {
    match step
    case Tick(to) => s.(clock := to)
    case Create(name) =>
      s.(server := s.server[name := Stored(s.nextVersion, s.nextVersion, FRESH, [FRESH])],
         nextVersion := s.nextVersion + 1)
    case Collect(name) => s.(server := s.server - {name})
    case Spawn(w) => SetWorker(s, w, Idle)
    case ListAll(w, listing) => SetWorker(s, w, Listed(listing))
    case ReadClock(w) => SetWorker(s, w, Draining(s.clock, s.workers[w].items))
    case SkipItem(w) =>
      SetWorker(s, w, Draining(s.workers[w].now, s.workers[w].items[1..]))
    case SendClaim(w) =>
      var Draining(now, items) := s.workers[w];
      SendPut(s, w, Claiming(now, items[1..], s.nextId, items[0].status.attempts),
              Put(s.nextId, true, items[0], Claimed(items[0].status, s.clock)))
    case ReceiveClaim(w) =>
      var Claiming(now, items, id, prevAttempts) := s.workers[w];
      var next := if s.replies[id].Updated?
                  then Working(now, items, s.replies[id].obj, prevAttempts)
                  else Draining(now, items);
      SetWorker(s, w, next).(replies := s.replies - {id})
    case SendFinish(w, ok) =>
      var Working(now, items, obj, prevAttempts) := s.workers[w];
      SendPut(s, w, Finishing(now, items, s.nextId),
              Put(s.nextId, false, obj, Finished(obj.status, prevAttempts, ok, maxAttempts, s.clock)))
    case ReceiveFinish(w) =>
      var Finishing(now, items, id) := s.workers[w];
      SetWorker(s, w, Draining(now, items)).(replies := s.replies - {id})
    case GiveUp(w) => SetWorker(s, w, Draining(s.workers[w].now, s.workers[w].items))
    case EndPass(w) => SetWorker(s, w, Idle)
    case Crash(w) => SetWorker(s, w, Idle)
    case Deliver(put) => Serve(s, put)
    case Lose(put) => s.(inFlight := s.inFlight - {put})
  }

  ghost predicate Init(s: State) {
    s.server == map[] && s.workers == map[] && s.inFlight == {} && s.replies == map[]
  }

  ghost predicate Next(s: State, s': State, maxAttempts: int) {
    exists step :: Enabled(s, step) && s' == Do(s, step, maxAttempts)
  }

  /** A run: any finite interleaving of steps from an initial state. */
  ghost predicate Run(trace: seq<State>, maxAttempts: int) {
    && |trace| > 0
    && Init(trace[0])
    && forall i :: 0 <= i < |trace| - 1 ==> Next(trace[i], trace[i + 1], maxAttempts)
  }

  // ---------------------------------------------------------------------------
  // The invariant
  // ---------------------------------------------------------------------------

  /** A version names one status for ever: a snapshot is stale or exact. */
  predicate Faithful(s: State, snap: Snapshot) {
    && snap.version < s.nextVersion
    && (snap.name in s.server && s.server[snap.name].version == snap.version ==>
          s.server[snap.name].status == snap.status)
  }

  predicate AllFaithful(s: State, items: seq<Snapshot>) {
    forall i :: 0 <= i < |items| ==> Faithful(s, items[i])
  }

  ghost predicate StoredOk(s: State, r: Stored, maxAttempts: int) {
    && r.uid < s.nextVersion
    && r.version < s.nextVersion
    && LegalHistory(r.history, maxAttempts)
    && r.history[|r.history| - 1] == r.status
    && (r.status.phase == Scanning ==> r.status.startedAt.Some? && r.status.startedAt.value <= s.clock)
  }

  predicate PutOk(s: State, p: Put, maxAttempts: int) {
    && p.id < s.nextId
    && p.id !in s.replies
    && Faithful(s, p.base)
    && (p.claim ==> ClaimWrite(p.base.status, p.status) && p.status.startedAt.value <= s.clock)
    && (!p.claim ==> FinishWrite(p.base.status, p.status, maxAttempts))
  }

  /** Whatever answers PUT `id` answers a claim that recorded `attempts` attempts. */
  predicate AnswersClaim(s: State, id: nat, attempts: int) {
    && id < s.nextId
    && (forall p :: p in s.inFlight && p.id == id ==> p.claim && p.status.attempts == attempts)
    && (id in s.replies && s.replies[id].Updated? ==>
          s.replies[id].obj.status.phase == Scanning && s.replies[id].obj.status.attempts == attempts)
  }

  predicate WorkerOk(s: State, w: Worker) {
    match w
    case Idle => true
    case Listed(items) => AllFaithful(s, items)
    case Draining(now, items) => now <= s.clock && AllFaithful(s, items)
    case Claiming(now, items, id, prevAttempts) =>
      now <= s.clock && AllFaithful(s, items) && AnswersClaim(s, id, prevAttempts)
    case Working(now, items, obj, prevAttempts) =>
      now <= s.clock && AllFaithful(s, items) && obj.status.attempts == prevAttempts
    case Finishing(now, items, id) => now <= s.clock && AllFaithful(s, items) && id < s.nextId
  }

  /** The worker waits for the response to PUT `id`. */
  predicate Awaits(w: Worker, id: nat) {
    (w.Claiming? || w.Finishing?) && w.id == id
  }

  ghost predicate AwaitedOnce(s: State) {
    forall v, w, id :: v in s.workers && w in s.workers && Awaits(s.workers[v], id) && Awaits(s.workers[w], id) ==> v == w
  }

  /** Something that stands for a claim won and not yet finished. */
  datatype Carrier = AsReply(id: nat) | AsWorker(w: WorkerId) | AsPut(put: Put)

  /** The claimed object a carrier stands for, if it stands for one. */
  function Carried(s: State, c: Carrier): Option<Snapshot> {
    match c
    case AsReply(id) =>
      if id in s.replies && s.replies[id].Updated? && s.replies[id].obj.status.phase == Scanning
      then Some(s.replies[id].obj) else None
    case AsWorker(w) =>
      if w in s.workers && s.workers[w].Working? then Some(s.workers[w].obj) else None
    case AsPut(put) =>
      if put in s.inFlight && !put.claim then Some(put.base) else None
  }

  ghost predicate CarriersOk(s: State) {
    && (forall c :: Carried(s, c).Some? ==>
          Current(s, Carried(s, c).value) && Carried(s, c).value.status.phase == Scanning)
    && (forall c, d ::
          Carried(s, c).Some? && Carried(s, d).Some? && Carried(s, c).value.name == Carried(s, d).value.name
          ==> c == d)
  }

  ghost predicate PutsOk(s: State, maxAttempts: int) {
    && (forall p :: p in s.inFlight ==> PutOk(s, p, maxAttempts))
    && (forall p, q :: p in s.inFlight && q in s.inFlight && p.id == q.id ==> p == q)
    && (forall id :: id in s.replies ==> id < s.nextId)
  }

  ghost predicate Inv(s: State, maxAttempts: int) {
    && (forall n :: n in s.server ==> StoredOk(s, s.server[n], maxAttempts))
    && PutsOk(s, maxAttempts)
    && (forall w :: w in s.workers ==> WorkerOk(s, s.workers[w]))
    && AwaitedOnce(s)
    && CarriersOk(s)
  }

  lemma {:induction false} StepKeepsStored(s: State, step: Step, maxAttempts: int)
    requires Inv(s, maxAttempts) && Enabled(s, step)
    ensures forall n :: n in Do(s, step, maxAttempts).server ==>
              StoredOk(Do(s, step, maxAttempts), Do(s, step, maxAttempts).server[n], maxAttempts)
  {
  }

  lemma ReadyLater(status: Status, now: real, later: real)
    requires Ready(status, now) && now <= later
    ensures Ready(status, later)
  {
  }

  lemma FaithfulKept(s: State, step: Step, maxAttempts: int, snap: Snapshot)
    requires Enabled(s, step) && Faithful(s, snap)
    ensures Faithful(Do(s, step, maxAttempts), snap)
  {
  }

  /** A message that was already travelling stays well formed. */
  lemma PutKept(s: State, step: Step, maxAttempts: int, p: Put)
    requires Inv(s, maxAttempts) && Enabled(s, step)
    requires p in s.inFlight && p in Do(s, step, maxAttempts).inFlight
    ensures PutOk(Do(s, step, maxAttempts), p, maxAttempts)
  {
    FaithfulKept(s, step, maxAttempts, p.base);
  }

  lemma SentClaimOk(s: State, step: Step, maxAttempts: int, p: Put)
    requires Inv(s, maxAttempts) && Enabled(s, step) && step.SendClaim?
    requires p in Do(s, step, maxAttempts).inFlight && p !in s.inFlight
    ensures PutOk(Do(s, step, maxAttempts), p, maxAttempts)
  {
    var Draining(now, items) := s.workers[step.w];
    assert WorkerOk(s, s.workers[step.w]);
    ReadyLater(items[0].status, now, s.clock);
    FaithfulKept(s, step, maxAttempts, items[0]);
  }

  lemma SentFinishOk(s: State, step: Step, maxAttempts: int, p: Put)
    requires Inv(s, maxAttempts) && Enabled(s, step) && step.SendFinish?
    requires p in Do(s, step, maxAttempts).inFlight && p !in s.inFlight
    ensures PutOk(Do(s, step, maxAttempts), p, maxAttempts)
  {
    assert Carried(s, AsWorker(step.w)) == Some(p.base);
    assert StoredOk(s, s.server[p.base.name], maxAttempts);
    assert WorkerOk(s, s.workers[step.w]);
  }

  lemma StepKeepsPutIds(s: State, step: Step, maxAttempts: int)
    requires PutsOk(s, maxAttempts) && Enabled(s, step)
    ensures var s' := Do(s, step, maxAttempts);
            && (forall p, q :: p in s'.inFlight && q in s'.inFlight && p.id == q.id ==> p == q)
            && (forall id :: id in s'.replies ==> id < s'.nextId)
  {
    var s' := Do(s, step, maxAttempts);
    forall p, q | p in s'.inFlight && q in s'.inFlight && p.id == q.id
      ensures p == q
    {
      assert p in s.inFlight ==> PutOk(s, p, maxAttempts);
      assert q in s.inFlight ==> PutOk(s, q, maxAttempts);
    }
    assert step.Deliver? ==> PutOk(s, step.put, maxAttempts);
  }

  lemma {:induction false} StepKeepsPuts(s: State, step: Step, maxAttempts: int)
    requires Inv(s, maxAttempts) && Enabled(s, step)
    ensures PutsOk(Do(s, step, maxAttempts), maxAttempts)
  {
    StepKeepsPutIds(s, step, maxAttempts);
    forall p | p in Do(s, step, maxAttempts).inFlight
      ensures PutOk(Do(s, step, maxAttempts), p, maxAttempts)
    {
      if p in s.inFlight {
        PutKept(s, step, maxAttempts, p);
      } else if step.SendClaim? {
        SentClaimOk(s, step, maxAttempts, p);
      } else {
        SentFinishOk(s, step, maxAttempts, p);
      }
    }
  }

  lemma AllFaithfulKept(s: State, step: Step, maxAttempts: int, items: seq<Snapshot>)
    requires Enabled(s, step) && AllFaithful(s, items)
    ensures AllFaithful(Do(s, step, maxAttempts), items)
  {
    forall i | 0 <= i < |items|
      ensures Faithful(Do(s, step, maxAttempts), items[i])
    {
      FaithfulKept(s, step, maxAttempts, items[i]);
    }
  }

  lemma AnswersClaimKept(s: State, step: Step, maxAttempts: int, id: nat, attempts: int)
    requires Inv(s, maxAttempts) && Enabled(s, step)
    requires AnswersClaim(s, id, attempts)
    ensures AnswersClaim(Do(s, step, maxAttempts), id, attempts)
  {
    if step.Deliver? {
      assert PutOk(s, step.put, maxAttempts);
    }
  }

  /** A worker that the step does not move stays well formed. */
  lemma WorkerKept(s: State, step: Step, maxAttempts: int, w: Worker)
    requires Inv(s, maxAttempts) && Enabled(s, step) && WorkerOk(s, w)
    ensures WorkerOk(Do(s, step, maxAttempts), w)
  {
    match w
    case Idle =>
    case Claiming(_, items, id, prevAttempts) =>
      AllFaithfulKept(s, step, maxAttempts, items);
      AnswersClaimKept(s, step, maxAttempts, id, prevAttempts);
    case _ =>
      AllFaithfulKept(s, step, maxAttempts, w.items);
  }

  /** The worker that takes the step ends well formed. */
  lemma ActingWorkerOk(s: State, step: Step, maxAttempts: int, w: WorkerId)
    requires Inv(s, maxAttempts) && Enabled(s, step)
    requires w in Do(s, step, maxAttempts).workers
    requires w !in s.workers || Do(s, step, maxAttempts).workers[w] != s.workers[w]
    ensures WorkerOk(Do(s, step, maxAttempts), Do(s, step, maxAttempts).workers[w])
  {
    if w in s.workers {
      assert WorkerOk(s, s.workers[w]);
      if !s.workers[w].Idle? {
        AllFaithfulKept(s, step, maxAttempts, s.workers[w].items);
      }
    }
  }

  lemma {:induction false} StepKeepsWorkers(s: State, step: Step, maxAttempts: int)
    requires Inv(s, maxAttempts) && Enabled(s, step)
    ensures var s' := Do(s, step, maxAttempts);
            forall w :: w in s'.workers ==> WorkerOk(s', s'.workers[w])
  {
    var s' := Do(s, step, maxAttempts);
    forall w | w in s'.workers
      ensures WorkerOk(s', s'.workers[w])
    {
      if w in s.workers && s'.workers[w] == s.workers[w] {
        WorkerKept(s, step, maxAttempts, s.workers[w]);
      } else {
        ActingWorkerOk(s, step, maxAttempts, w);
      }
    }
  }

  /** Where the claim a carrier stands for was held before the step. */
  function Before(s: State, step: Step, c: Carrier): Carrier {
    match c
    case AsWorker(w) =>
      if step == ReceiveClaim(w) && w in s.workers && s.workers[w].Claiming?
      then AsReply(s.workers[w].id) else c
    case AsPut(put) =>
      if step.SendFinish? && put.id == s.nextId then AsWorker(step.w) else c
    case AsReply(_) => c
  }

  /** What a carrier carries was carried before the step, or is the claim that the step applied. */
  ghost predicate CameFrom(s: State, step: Step, maxAttempts: int, c: Carrier, obj: Snapshot)
    requires Enabled(s, step)
  {
    || Carried(s, Before(s, step, c)) == Some(obj)
    || (step.Deliver? && step.put.claim && c == AsReply(step.put.id) && obj.name == step.put.base.name
        && Current(Do(s, step, maxAttempts), obj) && Current(s, step.put.base) && Claimable(step.put.base.status.phase))
  }

  lemma ReplyCameFrom(s: State, step: Step, maxAttempts: int, id: nat)
    requires PutsOk(s, maxAttempts) && Enabled(s, step)
    requires Carried(Do(s, step, maxAttempts), AsReply(id)).Some?
    ensures CameFrom(s, step, maxAttempts, AsReply(id), Carried(Do(s, step, maxAttempts), AsReply(id)).value)
  {
    if step.Deliver? {
      assert PutOk(s, step.put, maxAttempts);
    }
  }

  lemma HolderCameFrom(s: State, step: Step, maxAttempts: int, c: Carrier)
    requires Inv(s, maxAttempts) && Enabled(s, step) && !c.AsReply?
    requires Carried(Do(s, step, maxAttempts), c).Some?
    ensures CameFrom(s, step, maxAttempts, c, Carried(Do(s, step, maxAttempts), c).value)
  {
    if step.ReceiveClaim? {
      assert WorkerOk(s, s.workers[step.w]);
    }
    if c.AsPut? && c.put in s.inFlight {
      assert PutOk(s, c.put, maxAttempts);
    }
  }

  lemma CarrierCameFrom(s: State, step: Step, maxAttempts: int, c: Carrier)
    requires Inv(s, maxAttempts) && Enabled(s, step)
    requires Carried(Do(s, step, maxAttempts), c).Some?
    ensures CameFrom(s, step, maxAttempts, c, Carried(Do(s, step, maxAttempts), c).value)
  {
    if c.AsReply? {
      ReplyCameFrom(s, step, maxAttempts, c.id);
    } else {
      HolderCameFrom(s, step, maxAttempts, c);
    }
  }

  /** No two carriers come from the same one. */
  lemma BeforeInjective(s: State, step: Step, maxAttempts: int, c: Carrier, d: Carrier)
    requires Inv(s, maxAttempts) && Enabled(s, step)
    requires Carried(Do(s, step, maxAttempts), c).Some? && Carried(Do(s, step, maxAttempts), d).Some?
    requires Before(s, step, c) == Before(s, step, d)
    ensures c == d
  {
    assert c.AsPut? && c.put in s.inFlight ==> PutOk(s, c.put, maxAttempts);
    assert d.AsPut? && d.put in s.inFlight ==> PutOk(s, d.put, maxAttempts);
  }

  /** A claim in progress is out of reach of every step but its own finishing write. */
  lemma ClaimUndisturbed(s: State, step: Step, maxAttempts: int, c: Carrier)
    requires Inv(s, maxAttempts) && Enabled(s, step)
    requires Carried(s, c).Some?
    requires step.Deliver? ==> c != AsPut(step.put)
    ensures Current(Do(s, step, maxAttempts), Carried(s, c).value)
  {
    var obj := Carried(s, c).value;
    assert Current(s, obj) && obj.status.phase == Scanning;
    if step.Deliver? {
      assert PutOk(s, step.put, maxAttempts);
      assert Carried(s, AsPut(step.put)).Some? ==> step.put.base.name != obj.name;
    }
  }

  lemma CarrierHolds(s: State, step: Step, maxAttempts: int, c: Carrier)
    requires Inv(s, maxAttempts) && Enabled(s, step)
    requires Carried(Do(s, step, maxAttempts), c).Some?
    ensures
      var obj := Carried(Do(s, step, maxAttempts), c).value;
      Current(Do(s, step, maxAttempts), obj) && obj.status.phase == Scanning
  {
    CarrierCameFrom(s, step, maxAttempts, c);
    var obj := Carried(Do(s, step, maxAttempts), c).value;
    var b := Before(s, step, c);
    if Carried(s, b) == Some(obj) {
      ClaimUndisturbed(s, step, maxAttempts, b);
    } else {
      assert PutOk(s, step.put, maxAttempts);
    }
  }

  lemma CarrierUnique(s: State, step: Step, maxAttempts: int, c: Carrier, d: Carrier)
    requires Inv(s, maxAttempts) && Enabled(s, step)
    requires Carried(Do(s, step, maxAttempts), c).Some? && Carried(Do(s, step, maxAttempts), d).Some?
    requires Carried(Do(s, step, maxAttempts), c).value.name == Carried(Do(s, step, maxAttempts), d).value.name
    ensures c == d
  {
    CarrierCameFrom(s, step, maxAttempts, c);
    CarrierCameFrom(s, step, maxAttempts, d);
    var b, e := Before(s, step, c), Before(s, step, d);
    if Carried(s, b).Some? && Carried(s, e).Some? && Carried(s, b).value.name == Carried(s, e).value.name {
      assert b == e;
      BeforeInjective(s, step, maxAttempts, c, d);
    }
  }

  lemma {:induction false} StepKeepsCarriers(s: State, step: Step, maxAttempts: int)
    requires Inv(s, maxAttempts) && Enabled(s, step)
    ensures CarriersOk(Do(s, step, maxAttempts))
  {
    var s' := Do(s, step, maxAttempts);
    forall c | Carried(s', c).Some?
      ensures Current(s', Carried(s', c).value) && Carried(s', c).value.status.phase == Scanning
    {
      CarrierHolds(s, step, maxAttempts, c);
    }
    forall c, d | Carried(s', c).Some? && Carried(s', d).Some? && Carried(s', c).value.name == Carried(s', d).value.name
      ensures c == d
    {
      CarrierUnique(s, step, maxAttempts, c, d);
    }
  }

  lemma StepKeepsAwaitedOnce(s: State, step: Step, maxAttempts: int)
    requires Inv(s, maxAttempts) && Enabled(s, step)
    ensures AwaitedOnce(Do(s, step, maxAttempts))
  {
    var s' := Do(s, step, maxAttempts);
    forall v, w, id | v in s'.workers && w in s'.workers && Awaits(s'.workers[v], id) && Awaits(s'.workers[w], id)
      ensures v == w
    {
      assert v in s.workers ==> WorkerOk(s, s.workers[v]);
      assert w in s.workers ==> WorkerOk(s, s.workers[w]);
    }
  }

  lemma StepKeepsInv(s: State, step: Step, maxAttempts: int)
    requires Inv(s, maxAttempts) && Enabled(s, step)
    ensures Inv(Do(s, step, maxAttempts), maxAttempts)
  {
    StepKeepsStored(s, step, maxAttempts);
    StepKeepsPuts(s, step, maxAttempts);
    StepKeepsWorkers(s, step, maxAttempts);
    StepKeepsAwaitedOnce(s, step, maxAttempts);
    StepKeepsCarriers(s, step, maxAttempts);
  }

  lemma {:induction false} RunKeepsInv(trace: seq<State>, maxAttempts: int, i: nat)
    requires Run(trace, maxAttempts) && i < |trace|
    ensures Inv(trace[i], maxAttempts)
  {
    if i > 0 {
      RunKeepsInv(trace, maxAttempts, i - 1);
      assert Next(trace[i - 1], trace[i - 1 + 1], maxAttempts);
      var step :| Enabled(trace[i - 1], step) && trace[i] == Do(trace[i - 1], step, maxAttempts);
      StepKeepsInv(trace[i - 1], step, maxAttempts);
    }
  }

  // ---------------------------------------------------------------------------
  // Main results over every run
  // ---------------------------------------------------------------------------

  /**
   Worker `w` has won the claim on `name` and its finishing write has not landed. It has won
   from the moment the server applied its claim, before it reads the response.
   */
  ghost predicate Holds(s: State, w: WorkerId, name: Name) {
    && w in s.workers
    && ((s.workers[w].Claiming? && s.workers[w].id in s.replies && s.replies[s.workers[w].id].Updated?
         && s.replies[s.workers[w].id].obj.name == name)
        || (s.workers[w].Working? && s.workers[w].obj.name == name)
        || (s.workers[w].Finishing?
            && exists p :: p in s.inFlight && p.id == s.workers[w].id && !p.claim && p.base.name == name))
  }

  /** Mutual exclusion: no two workers ever hold the same request. */
  lemma AtMostOneHolder(trace: seq<State>, maxAttempts: int, i: nat, v: WorkerId, w: WorkerId, name: Name)
    requires Run(trace, maxAttempts) && i < |trace|
    requires Holds(trace[i], v, name) && Holds(trace[i], w, name)
    ensures v == w
  {
    RunKeepsInv(trace, maxAttempts, i);
    var s := trace[i];
    var c := HolderCarrier(s, v, name, maxAttempts);
    var d := HolderCarrier(s, w, name, maxAttempts);
    assert c == d;
    if !s.workers[v].Working? {
      assert Awaits(s.workers[v], s.workers[v].id) && Awaits(s.workers[w], s.workers[v].id);
    }
  }

  lemma HolderCarrier(s: State, w: WorkerId, name: Name, maxAttempts: int) returns (c: Carrier)
    requires Inv(s, maxAttempts) && Holds(s, w, name)
    ensures Carried(s, c).Some? && Carried(s, c).value.name == name
    ensures s.workers[w].Claiming? ==> c == AsReply(s.workers[w].id)
    ensures s.workers[w].Working? ==> c == AsWorker(w)
    ensures s.workers[w].Finishing? ==> c.AsPut? && c.put.id == s.workers[w].id
  {
    if s.workers[w].Claiming? {
      assert WorkerOk(s, s.workers[w]);
      c := AsReply(s.workers[w].id);
    } else if s.workers[w].Working? {
      c := AsWorker(w);
    } else {
      var p :| p in s.inFlight && p.id == s.workers[w].id && !p.claim && p.base.name == name;
      c := AsPut(p);
    }
  }

  /** A finishing write that reaches the server is always applied: it never conflicts. */
  lemma FinishNeverConflicts(trace: seq<State>, maxAttempts: int, i: nat, put: Put)
    requires Run(trace, maxAttempts) && i < |trace|
    requires put in trace[i].inFlight && !put.claim
    ensures Current(trace[i], put.base)
    ensures Serve(trace[i], put).replies[put.id].Updated?
    ensures Serve(trace[i], put).server[put.base.name].status == put.status
  {
    RunKeepsInv(trace, maxAttempts, i);
    assert Carried(trace[i], AsPut(put)) == Some(put.base);
  }

  /** A claim that wins proves that the status the worker had checked was still current. */
  lemma WinningClaimWasCurrent(trace: seq<State>, maxAttempts: int, i: nat, put: Put)
    requires Run(trace, maxAttempts) && i < |trace|
    requires put in trace[i].inFlight && put.claim
    ensures Serve(trace[i], put).replies[put.id].Updated? <==> Current(trace[i], put.base)
    ensures Current(trace[i], put.base) ==> ClaimWrite(trace[i].server[put.base.name].status, put.status)
  {
    RunKeepsInv(trace, maxAttempts, i);
    assert PutOk(trace[i], put, maxAttempts);
  }

  /**
   What a worker reports, in every run: a good scan makes the request `Done` and keeps its
   attempts, a bad one counts an attempt and parks the request exactly when that was the last.
   */
  lemma ReportSays(trace: seq<State>, maxAttempts: int, i: nat, w: WorkerId, ok: bool)
    requires Run(trace, maxAttempts) && i < |trace| && Enabled(trace[i], SendFinish(w, ok))
    ensures var s := trace[i]; var obj := s.workers[w].obj; var was := obj.status;
            var attempts := was.attempts + if ok then 0 else 1;
            var report := Status(if ok then Done else if attempts >= maxAttempts then Failed else Pending,
                                 attempts, was.startedAt, Some(s.clock),
                                 if ok then "" else SCAN_ERROR);
            var put := Put(s.nextId, false, obj, report);
            && (!ok ==> IsScanError(report.lastError))
            && (forall p :: p in Do(s, SendFinish(w, ok), maxAttempts).inFlight <==> p in s.inFlight || p == put)
            && Do(s, SendFinish(w, ok), maxAttempts).server == s.server
            && obj.name in s.server && s.server[obj.name].version == obj.version && s.server[obj.name].status == was
            && Serve(s, put).server[obj.name].status == report
  {
    RunKeepsInv(trace, maxAttempts, i);
    var s := trace[i];
    assert WorkerOk(s, s.workers[w]);
    assert Carried(s, AsWorker(w)) == Some(s.workers[w].obj);
  }

  /** What a worker claims with: the status it read, now scanning and started at this moment. */
  lemma ClaimSays(s: State, maxAttempts: int, w: WorkerId)
    requires Enabled(s, SendClaim(w))
    ensures var item := s.workers[w].items[0]; var was := item.status;
            var claim := Status(Scanning, was.attempts, Some(s.clock), was.finishedAt, was.lastError);
            && (forall p :: p in Do(s, SendClaim(w), maxAttempts).inFlight
                            <==> p in s.inFlight || p == Put(s.nextId, true, item, claim))
            && (was.phase == Unset || was.phase == Pending)
            && (was.attempts >= 1 && was.finishedAt.Some? ==>
                  s.workers[w].now - was.finishedAt.value >= 30.0 * (Pow2(was.attempts - 1) as real))
  {
    ReadyMeans(s.workers[w].items[0].status, s.workers[w].now);
  }

  /**
   In every reachable state every request satisfies the retry accounting: attempts is the
   number of recorded failures, at most `maxAttempts`, `Failed` holds exactly when they are
   used up, and claims and writes are bounded.
   */
  lemma RequestsAccounted(trace: seq<State>, maxAttempts: int, i: nat, name: Name)
    requires maxAttempts >= 1
    requires Run(trace, maxAttempts) && i < |trace| && name in trace[i].server
    ensures var r := trace[i].server[name];
            && LegalHistory(r.history, maxAttempts)
            && r.history[|r.history| - 1] == r.status
            && r.status.attempts == |FailureTimes(r.history)| <= maxAttempts
            && (r.status.phase == Failed <==> r.status.attempts == maxAttempts)
            && Claims(r.history) <= maxAttempts
            && |r.history| - 1 <= 2 * maxAttempts
  {
    RunKeepsInv(trace, maxAttempts, i);
    assert StoredOk(trace[i], trace[i].server[name], maxAttempts);
    HistoryAccounted(trace[i].server[name].history, maxAttempts);
    WritesBounded(trace[i].server[name].history, maxAttempts);
  }

  /** Recorded failures back off exponentially in every run, and so does the parking time. */
  lemma RequestsBackOff(trace: seq<State>, maxAttempts: int, i: nat, name: Name)
    requires maxAttempts >= 1
    requires Run(trace, maxAttempts) && i < |trace| && name in trace[i].server
    ensures var r := trace[i].server[name];
            var ts := FailureTimes(r.history);
            && (forall k :: 1 <= k < |ts| ==> ts[k] >= ts[k - 1] + Backoff(k))
            && (r.status.phase == Failed ==>
                  && |ts| == maxAttempts
                  && ts[maxAttempts - 1] >= ts[0] + 30.0 * ((Pow2(maxAttempts - 1) - 1) as real))
  {
    RunKeepsInv(trace, maxAttempts, i);
    var r := trace[i].server[name];
    assert StoredOk(trace[i], r, maxAttempts);
    FailuresBackOff(r.history, maxAttempts);
    HistoryAccounted(r.history, maxAttempts);
    if r.status.phase == Failed {
      BackoffsAddUp(FailureTimes(r.history), maxAttempts);
    }
  }

  lemma StepExtendsHistory(s: State, step: Step, maxAttempts: int, name: Name)
    requires Inv(s, maxAttempts) && Enabled(s, step)
    requires name in Do(s, step, maxAttempts).server
    ensures s.nextVersion <= Do(s, step, maxAttempts).nextVersion
    ensures var r := Do(s, step, maxAttempts).server[name];
            || r.uid == s.nextVersion
            || (&& name in s.server && s.server[name].uid == r.uid
                && s.server[name].history <= r.history
                && (Terminal(s.server[name].status.phase) ==> r == s.server[name]))
  {
    if step.Deliver? {
      assert PutOk(s, step.put, maxAttempts);
    }
  }

  /** How request `name` differs between two neighbouring states of a run. */
  lemma NeighbourHistory(trace: seq<State>, maxAttempts: int, i: nat, name: Name)
    requires Run(trace, maxAttempts) && i + 1 < |trace|
    requires name in trace[i + 1].server
    ensures trace[i].nextVersion <= trace[i + 1].nextVersion
    ensures var r := trace[i + 1].server[name];
            || r.uid == trace[i].nextVersion
            || (&& name in trace[i].server && trace[i].server[name].uid == r.uid
                && trace[i].server[name].history <= r.history
                && (Terminal(trace[i].server[name].status.phase) ==> r == trace[i].server[name]))
  {
    RunKeepsInv(trace, maxAttempts, i);
    assert Next(trace[i], trace[i + 1], maxAttempts);
    var step :| Enabled(trace[i], step) && trace[i + 1] == Do(trace[i], step, maxAttempts);
    StepExtendsHistory(trace[i], step, maxAttempts, name);
  }

  lemma UidIsOld(trace: seq<State>, maxAttempts: int, i: nat, j: nat, name: Name)
    requires Run(trace, maxAttempts) && i <= j < |trace| && name in trace[i].server
    ensures trace[i].server[name].uid < trace[j].nextVersion
  {
    RunKeepsInv(trace, maxAttempts, i);
    assert StoredOk(trace[i], trace[i].server[name], maxAttempts);
    VersionsGrow(trace, maxAttempts, i, j);
  }

  /**
   As long as a request has not been garbage-collected its history only grows, and once it
   is `Done` or `Failed` it never changes again.
   */
  lemma {:induction false} HistoryOnlyGrows(trace: seq<State>, maxAttempts: int, i: nat, j: nat, name: Name)
    requires Run(trace, maxAttempts) && i <= j < |trace|
    requires name in trace[i].server && name in trace[j].server
    requires trace[i].server[name].uid == trace[j].server[name].uid
    ensures trace[i].server[name].history <= trace[j].server[name].history
    ensures Terminal(trace[i].server[name].status.phase) ==> trace[j].server[name] == trace[i].server[name]
  {
    if i < j {
      UidIsOld(trace, maxAttempts, i, j - 1, name);
      NeighbourHistory(trace, maxAttempts, j - 1, name);
      HistoryOnlyGrows(trace, maxAttempts, i, j - 1, name);
    }
  }

  lemma {:induction false} VersionsGrow(trace: seq<State>, maxAttempts: int, i: nat, j: nat)
    requires Run(trace, maxAttempts) && i <= j < |trace|
    ensures trace[i].nextVersion <= trace[j].nextVersion
  {
    if i < j {
      VersionsGrow(trace, maxAttempts, i, j - 1);
      assert Next(trace[j - 1], trace[j - 1 + 1], maxAttempts);
    }
  }

  // ---------------------------------------------------------------------------
  // Requests orphaned in `Scanning`
  // ---------------------------------------------------------------------------

  /** Some worker can still come to finish the claim on `name`. */
  ghost predicate CanBeFinished(s: State, c: Carrier, name: Name) {
    && Carried(s, c).Some? && Carried(s, c).value.name == name
    && (c.AsReply? ==> exists w :: w in s.workers && s.workers[w].Claiming? && s.workers[w].id == c.id)
  }

  ghost predicate Orphan(s: State, name: Name) {
    && name in s.server && s.server[name].status.phase == Scanning
    && forall c :: !CanBeFinished(s, c, name)
  }

  /** A claim on a request that was already `Scanning` can be finished only if it could before. */
  lemma FinishableBefore(s: State, step: Step, maxAttempts: int, c: Carrier, name: Name)
    requires Inv(s, maxAttempts) && Enabled(s, step)
    requires name in s.server && s.server[name].status.phase == Scanning
    requires CanBeFinished(Do(s, step, maxAttempts), c, name)
    ensures CanBeFinished(s, Before(s, step, c), name)
  {
    CarrierCameFrom(s, step, maxAttempts, c);
  }

  lemma StepKeepsOrphan(s: State, step: Step, maxAttempts: int, name: Name)
    requires Inv(s, maxAttempts) && Enabled(s, step) && Orphan(s, name)
    ensures Orphan(Do(s, step, maxAttempts), name)
    ensures Do(s, step, maxAttempts).server[name] == s.server[name]
  {
    var s' := Do(s, step, maxAttempts);
    if step.Deliver? {
      assert PutOk(s, step.put, maxAttempts);
      assert !CanBeFinished(s, AsPut(step.put), name);
    }
    forall c
      ensures !CanBeFinished(s', c, name)
    {
      if CanBeFinished(s', c, name) {
        FinishableBefore(s, step, maxAttempts, c, name);
      }
    }
  }

  /** A finite continuation from any state. */
  ghost predicate Path(t: seq<State>, maxAttempts: int) {
    |t| > 0 && forall i :: 0 <= i < |t| - 1 ==> Next(t[i], t[i + 1], maxAttempts)
  }

  /** An orphaned request stays exactly as it is in every continuation. */
  lemma {:induction false} OrphanStuckForever(t: seq<State>, maxAttempts: int, i: nat, name: Name)
    requires Path(t, maxAttempts) && i < |t|
    requires Inv(t[0], maxAttempts) && Orphan(t[0], name)
    ensures Inv(t[i], maxAttempts) && Orphan(t[i], name)
    ensures t[i].server[name] == t[0].server[name]
  {
    if i > 0 {
      OrphanStuckForever(t, maxAttempts, i - 1, name);
      assert Next(t[i - 1], t[i - 1 + 1], maxAttempts);
      var step :| Enabled(t[i - 1], step) && t[i] == Do(t[i - 1], step, maxAttempts);
      StepKeepsInv(t[i - 1], step, maxAttempts);
      StepKeepsOrphan(t[i - 1], step, maxAttempts, name);
    }
  }

  lemma FinishByPut(s: State, maxAttempts: int, put: Put) returns (t: seq<State>)
    requires Inv(s, maxAttempts) && put in s.inFlight && !put.claim
    ensures Path(t, maxAttempts) && t[0] == s
    ensures var r := t[|t| - 1].server; put.base.name in r && r[put.base.name].status.phase != Scanning
  {
    assert Carried(s, AsPut(put)) == Some(put.base);
    assert PutOk(s, put, maxAttempts);
    var s' := Do(s, Deliver(put), maxAttempts);
    t := [s, s'];
    assert Enabled(s, Deliver(put));
    assert Next(s, s', maxAttempts);
  }

  lemma FinishByWorker(s: State, maxAttempts: int, w: WorkerId) returns (t: seq<State>)
    requires Inv(s, maxAttempts) && w in s.workers && s.workers[w].Working?
    ensures Path(t, maxAttempts) && t[0] == s
    ensures var r := t[|t| - 1].server; var n := s.workers[w].obj.name;
            n in r && r[n].status.phase != Scanning
  {
    var step := SendFinish(w, true);
    assert Enabled(s, step);
    var s' := Do(s, step, maxAttempts);
    assert Next(s, s', maxAttempts);
    StepKeepsInv(s, step, maxAttempts);
    var put := Put(s.nextId, false, s.workers[w].obj,
                   Finished(s.workers[w].obj.status, s.workers[w].prevAttempts, true, maxAttempts, s.clock));
    var t' := FinishByPut(s', maxAttempts, put);
    t := [s] + t';
    PrependPath(s, t', maxAttempts);
  }

  lemma PrependPath(s: State, t: seq<State>, maxAttempts: int)
    requires Path(t, maxAttempts) && Next(s, t[0], maxAttempts)
    ensures Path([s] + t, maxAttempts)
  {
    var u := [s] + t;
    forall i | 0 <= i < |u| - 1
      ensures Next(u[i], u[i + 1], maxAttempts)
    {
      if i > 0 {
        assert Next(t[i - 1], t[i - 1 + 1], maxAttempts);
      }
    }
  }

  lemma FinishByReply(s: State, maxAttempts: int, w: WorkerId) returns (t: seq<State>)
    requires Inv(s, maxAttempts) && w in s.workers && s.workers[w].Claiming?
    requires s.workers[w].id in s.replies && s.replies[s.workers[w].id].Updated?
    ensures Path(t, maxAttempts) && t[0] == s
    ensures var r := t[|t| - 1].server; var n := s.replies[s.workers[w].id].obj.name;
            n in r && r[n].status.phase != Scanning
  {
    var step := ReceiveClaim(w);
    assert Enabled(s, step);
    var s' := Do(s, step, maxAttempts);
    assert Next(s, s', maxAttempts);
    StepKeepsInv(s, step, maxAttempts);
    var t' := FinishByWorker(s', maxAttempts, w);
    t := [s] + t';
    PrependPath(s, t', maxAttempts);
  }

  ghost predicate LeavesScanning(s: State, maxAttempts: int, name: Name) {
    exists t: seq<State> :: Path(t, maxAttempts) && t[0] == s
             && !(name in t[|t| - 1].server && t[|t| - 1].server[name].status.phase == Scanning)
  }

  lemma FinishableLeavesScanning(s: State, maxAttempts: int, c: Carrier, name: Name)
    requires Inv(s, maxAttempts) && CanBeFinished(s, c, name)
    ensures LeavesScanning(s, maxAttempts, name)
  {
    match c
    case AsPut(put) =>
      var t := FinishByPut(s, maxAttempts, put);
      assert Path(t, maxAttempts);
    case AsWorker(w) =>
      var t := FinishByWorker(s, maxAttempts, w);
      assert Path(t, maxAttempts);
    case AsReply(id) =>
      var w :| w in s.workers && s.workers[w].Claiming? && s.workers[w].id == id;
      var t := FinishByReply(s, maxAttempts, w);
      assert Path(t, maxAttempts);
  }

  /**
   The exact condition for a scanning request to have a future: some continuation takes it
   out of `Scanning` if and only if it is not orphaned. No timeout reclaims it.
   */
  lemma LeavesScanningIffNotOrphaned(s: State, maxAttempts: int, name: Name)
    requires Inv(s, maxAttempts)
    requires name in s.server && s.server[name].status.phase == Scanning
    ensures LeavesScanning(s, maxAttempts, name) <==> !Orphan(s, name)
  {
    if Orphan(s, name) {
      forall t: seq<State> | Path(t, maxAttempts) && t[0] == s
        ensures name in t[|t| - 1].server && t[|t| - 1].server[name].status.phase == Scanning
      {
        OrphanStuckForever(t, maxAttempts, |t| - 1, name);
      }
    } else {
      var c :| CanBeFinished(s, c, name);
      FinishableLeavesScanning(s, maxAttempts, c, name);
    }
  }

  /** The moment after the server applied the first claim ever made, its response under way. */
  function ClaimApplied(worker: Worker): State {
    var claimed := Claimed(FRESH, 0.0);
    State(map["sr-1" := Stored(0, 1, claimed, [FRESH, claimed])], 2, map[0 := worker], {},
          map[0 := Updated(Snapshot("sr-1", 1, claimed))], 1, 0.0)
  }

  /** The states that lead there, one step each. */
  function Stage(k: nat): State {
    var snap := Snapshot("sr-1", 0, FRESH);
    var server := map["sr-1" := Stored(0, 0, FRESH, [FRESH])];
    match k
    case 0 => State(map[], 0, map[], {}, map[], 0, 0.0)
    case 1 => State(server, 1, map[], {}, map[], 0, 0.0)
    case 2 => State(server, 1, map[0 := Idle], {}, map[], 0, 0.0)
    case 3 => State(server, 1, map[0 := Listed([snap])], {}, map[], 0, 0.0)
    case 4 => State(server, 1, map[0 := Draining(0.0, [snap])], {}, map[], 0, 0.0)
    case 5 => State(server, 1, map[0 := Claiming(0.0, [], 0, 0)],
                    {Put(0, true, snap, Claimed(FRESH, 0.0))}, map[], 1, 0.0)
    case _ => ClaimApplied(Claiming(0.0, [], 0, 0))
  }

  function StageStep(k: nat): Step {
    match k
    case 0 => Create("sr-1")
    case 1 => Spawn(0)
    case 2 => ListAll(0, [Snapshot("sr-1", 0, FRESH)])
    case 3 => ReadClock(0)
    case 4 => SendClaim(0)
    case _ => Deliver(Put(0, true, Snapshot("sr-1", 0, FRESH), Claimed(FRESH, 0.0)))
  }

  lemma StageNext(k: nat, maxAttempts: int)
    requires k < 6
    ensures Next(Stage(k), Stage(k + 1), maxAttempts)
  {
    var s, step := Stage(k), StageStep(k);
    var snap, claimed := Snapshot("sr-1", 0, FRESH), Claimed(FRESH, 0.0);
    if k == 2 {
      assert [snap][0].name == "sr-1";
    } else if k == 4 {
      assert [snap][1..] == [];
    } else if k == 5 {
      assert [FRESH] + [claimed] == [FRESH, claimed];
      assert s.inFlight - {step.put} == {};
    }
    assert Enabled(s, step) && Stage(k + 1) == Do(s, step, maxAttempts);
  }

  lemma ClaimAppliedReachable(maxAttempts: int) returns (trace: seq<State>)
    ensures Run(trace, maxAttempts)
    ensures trace[|trace| - 1] == ClaimApplied(Claiming(0.0, [], 0, 0))
  {
    trace := seq(7, (k: nat) => Stage(k));
    forall i | 0 <= i < |trace| - 1
      ensures Next(trace[i], trace[i + 1], maxAttempts)
    {
      StageNext(i, maxAttempts);
    }
  }

  /**
   Orphans are reachable: a claim that the server applied and whose response the worker
   never saw leaves one.
   */
  lemma LostResponseOrphans(maxAttempts: int) returns (trace: seq<State>)
    ensures Run(trace, maxAttempts)
    ensures Orphan(trace[|trace| - 1], "sr-1")
  {
    var t := ClaimAppliedReachable(maxAttempts);
    var s, s' := t[|t| - 1], ClaimApplied(Draining(0.0, []));
    assert Enabled(s, GiveUp(0)) && s' == Do(s, GiveUp(0), maxAttempts);
    assert Next(s, s', maxAttempts);
    trace := t + [s'];
    forall i | 0 <= i < |trace| - 1
      ensures Next(trace[i], trace[i + 1], maxAttempts)
    {
      if i < |t| - 1 {
        assert trace[i] == t[i] && trace[i + 1] == t[i + 1];
      }
    }
  }
}
