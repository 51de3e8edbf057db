/**
 Any number of scanner processes calling for ingest keys at once. The file lock serialises
 them, but nothing else does: every read, mint, truncation and write is a step of its own,
 and a process may die at any of them.
 */
module KeyCache {
  import opened Wrappers
  import opened IngestKeys

  type WorkerId = nat

  /** The JSON file; while it is being rewritten it does not parse. */
  datatype File = Json(content: Cache) | Torn

  /**
   Where a process is. From `Locked` on it holds the lock; `entry` records the world at the
   moment it acquired it.
   */
  datatype Pc =
    | Idle
    | Waiting(source: Source, reset: bool)
    | Locked(source: Source, reset: bool, entry: World)
    | Ensured(source: Source, reset: bool, entry: World, minted: Option<Key>)
    | Chosen(source: Source, reset: bool, entry: World, key: Option<Key>)
    | Writing(source: Source, reset: bool, entry: World, key: Option<Key>, content: Cache)
    | Written(source: Source, reset: bool, entry: World, key: Option<Key>)
    | Returned(source: Source, reset: bool, entry: World, key: Option<Key>)

  datatype State = State(server: Server, file: File, lock: Option<WorkerId>, workers: map<WorkerId, Pc>)

  datatype Step =
    | Begin(w: WorkerId, source: Source, reset: bool)
    | Acquire(w: WorkerId)
    | Ensure(w: WorkerId)
    | EnsureFails(w: WorkerId, applied: bool)
    | Choose(w: WorkerId)
    | Truncate(w: WorkerId)
    | Write(w: WorkerId)
    | Release(w: WorkerId)
    | Finish(w: WorkerId)
    | Kill(w: WorkerId)

  /** A file that does not parse loads as an empty cache. */
  function Load(file: File): Cache {
    if file.Json? then file.content else map[]
  }

  function WorldOf(s: State): World {
    World(s.server, Load(s.file))
  }

  predicate Critical(pc: Pc) {
    pc.Locked? || pc.Ensured? || pc.Chosen? || pc.Writing? || pc.Written?
  }

  predicate Enabled(s: State, step: Step) {
    match step
    case Begin(w, _, _) => w !in s.workers || s.workers[w].Idle?
    case Acquire(w) => w in s.workers && s.workers[w].Waiting? && s.lock.None?
    case Ensure(w) => w in s.workers && s.workers[w].Locked?
    case EnsureFails(w, _) => w in s.workers && s.workers[w].Locked?
    case Choose(w) => w in s.workers && s.workers[w].Ensured?
    case Truncate(w) => w in s.workers && s.workers[w].Chosen?
    case Write(w) => w in s.workers && s.workers[w].Writing?
    case Release(w) => w in s.workers && s.workers[w].Written?
    case Finish(w) => w in s.workers && s.workers[w].Returned?
    case Kill(w) => w in s.workers
  }

  function Goto(s: State, w: WorkerId, pc: Pc): State {
    s.(workers := s.workers[w := pc])
  }

  function Unlocked(s: State, w: WorkerId, pc: Pc): State {
    s.(workers := s.workers[w := pc], lock := if s.lock == Some(w) then None else s.lock)
  }

  function Do(s: State, step: Step): State
    requires Enabled(s, step)
  {
    match step
    case Begin(w, source, reset) => Goto(s, w, Waiting(source, reset))
    case Acquire(w) =>
      Goto(s, w, Locked(s.workers[w].source, s.workers[w].reset, WorldOf(s))).(lock := Some(w))
    case Ensure(w) =>
      var Locked(source, reset, entry) := s.workers[w];
      var (server, minted) := EnsureSource(s.server, source, reset);
      Goto(s, w, Ensured(source, reset, entry, minted)).(server := server)
    case EnsureFails(w, applied) =>
      var Locked(source, reset, entry) := s.workers[w];
      Unlocked(s, w, Idle).(server := if applied then EnsureSource(s.server, source, reset).0 else s.server)
    case Choose(w) =>
      var Ensured(source, reset, entry, minted) := s.workers[w];
      var cached := if source in Load(s.file) then Some(Load(s.file)[source]) else None;
      Goto(s, w, Chosen(source, reset, entry, if minted.Some? then minted else cached))
    case Truncate(w) =>
      var Chosen(source, reset, entry, key) := s.workers[w];
      if key.None? then Goto(s, w, Written(source, reset, entry, key))
      else Goto(s, w, Writing(source, reset, entry, key, Load(s.file)[source := key.value])).(file := Torn)
    case Write(w) =>
      var Writing(source, reset, entry, key, content) := s.workers[w];
      Goto(s, w, Written(source, reset, entry, key)).(file := Json(content))
    case Release(w) =>
      var Written(source, reset, entry, key) := s.workers[w];
      Unlocked(s, w, Returned(source, reset, entry, key))
    case Finish(w) => Goto(s, w, Idle)
    case Kill(w) => Unlocked(s, w, Idle)
  }

  // ---------------------------------------------------------------------------
  // Every completed call is atomic
  // ---------------------------------------------------------------------------

  /** What the lock holder has done so far of the one atomic call it will amount to. */
  ghost predicate OnTrack(s: State, pc: Pc)
    requires Critical(pc)
  {
    var (server, minted) := EnsureSource(pc.entry.server, pc.source, pc.reset);
    var (after, key) := Call(pc.entry, pc.source, pc.reset);
    match pc
    case Locked(_, _, entry) => WorldOf(s) == entry
    case Ensured(_, _, entry, m) => s.server == server && Load(s.file) == entry.cache && m == minted
    case Chosen(_, _, entry, k) => s.server == server && Load(s.file) == entry.cache && k == key
    case Writing(_, _, entry, k, content) =>
      s.server == server && content == after.cache && k == key && k.Some? && s.file.Torn?
    case Written(_, _, entry, k) => WorldOf(s) == after && k == key
  }

  ghost predicate Inv(s: State) {
    && (s.lock.Some? ==> s.lock.value in s.workers && Critical(s.workers[s.lock.value]))
    && (forall w :: w in s.workers && Critical(s.workers[w]) ==> s.lock == Some(w) && OnTrack(s, s.workers[w]))
  }

  lemma StepKeepsInv(s: State, step: Step)
    requires Inv(s) && Enabled(s, step)
    ensures Inv(Do(s, step))
  {
  }

  // ---------------------------------------------------------------------------
  // Every run, whatever fails
  // ---------------------------------------------------------------------------

  ghost predicate AnyNext(s: State, s': State) {
    exists step :: Enabled(s, step) && s' == Do(s, step)
  }

  /** Any continuation: all interleavings, every failure at every moment. */
  ghost predicate Path(trace: seq<State>) {
    |trace| > 0 && forall i :: 0 <= i < |trace| - 1 ==> AnyNext(trace[i], trace[i + 1])
  }

  ghost predicate Init(s: State) {
    s == State(Server({}, map[], 0), Json(map[]), None, map[])
  }

  ghost predicate AnyRun(trace: seq<State>) {
    Path(trace) && Init(trace[0])
  }

  lemma {:induction false} PathKeepsInv(trace: seq<State>, i: nat)
    requires Path(trace) && Inv(trace[0]) && i < |trace|
    ensures Inv(trace[i])
  {
    if i > 0 {
      PathKeepsInv(trace, i - 1);
      assert AnyNext(trace[i - 1], trace[i - 1 + 1]);
      var step :| Enabled(trace[i - 1], step) && trace[i] == Do(trace[i - 1], step);
      StepKeepsInv(trace[i - 1], step);
    }
  }

  /** At most one process is ever inside the locked section, whoever is killed and when. */
  lemma MutualExclusion(trace: seq<State>, i: nat, v: WorkerId, w: WorkerId)
    requires AnyRun(trace) && i < |trace|
    requires v in trace[i].workers && Critical(trace[i].workers[v])
    requires w in trace[i].workers && Critical(trace[i].workers[w])
    ensures v == w
  {
    PathKeepsInv(trace, i);
    assert trace[i].lock == Some(v) && trace[i].lock == Some(w);
  }

  /** From moment `j` on, up to `i`, `w` has been in the locked section that it entered at `j`. */
  ghost predicate InSince(trace: seq<State>, j: nat, i: nat, w: WorkerId) {
    && j < i < |trace|
    && trace[j].lock.None?
    && (forall k :: j < k <= i ==> trace[k].lock == Some(w))
    && w in trace[i].workers && Critical(trace[i].workers[w])
    && trace[i].workers[w].entry == WorldOf(trace[j])
  }

  lemma EnteredOrStayed(s: State, s': State, w: WorkerId)
    requires Inv(s) && AnyNext(s, s') && w in s'.workers && Critical(s'.workers[w])
    ensures s'.lock == Some(w)
    ensures if w in s.workers && Critical(s.workers[w])
            then s.lock == Some(w) && s.workers[w].entry == s'.workers[w].entry
            else s.lock.None? && s'.workers[w].entry == WorldOf(s)
  {
    var step :| Enabled(s, step) && s' == Do(s, step);
  }

  lemma LastStep(trace: seq<State>, i: nat, w: WorkerId)
    requires AnyRun(trace) && i < |trace|
    requires w in trace[i].workers && Critical(trace[i].workers[w])
    ensures i > 0 && trace[i].lock == Some(w)
    ensures if w in trace[i - 1].workers && Critical(trace[i - 1].workers[w])
            then trace[i - 1].workers[w].entry == trace[i].workers[w].entry
            else trace[i - 1].lock.None? && trace[i].workers[w].entry == WorldOf(trace[i - 1])
  {
    assert i > 0;
    PathKeepsInv(trace, i - 1);
    assert AnyNext(trace[i - 1], trace[i - 1 + 1]);
    EnteredOrStayed(trace[i - 1], trace[i], w);
  }

  /** A process in the locked section entered it at a moment when the lock was free. */
  lemma {:induction false} EnteredAt(trace: seq<State>, i: nat, w: WorkerId) returns (j: nat)
    requires AnyRun(trace) && i < |trace|
    requires w in trace[i].workers && Critical(trace[i].workers[w])
    ensures InSince(trace, j, i, w)
  {
    LastStep(trace, i, w);
    if w in trace[i - 1].workers && Critical(trace[i - 1].workers[w]) {
      j := EnteredAt(trace, i - 1, w);
    } else {
      j := i - 1;
    }
  }

  /**
   A call that returns has done, between the moment its process entered the locked section
   and the moment it leaves it, exactly what one atomic call does to the world at entry; and
   all that time nobody else was inside.
   */
  lemma CompletedCallIsAtomic(trace: seq<State>, i: nat, w: WorkerId)
    requires AnyRun(trace) && i < |trace| && Enabled(trace[i], Release(w))
    ensures exists j: nat :: && InSince(trace, j, i, w)
                             && var s' := Do(trace[i], Release(w)); var pc := s'.workers[w];
                                && pc.Returned? && s'.lock.None?
                                && (WorldOf(s'), pc.key) == Call(WorldOf(trace[j]), pc.source, pc.reset)
  {
    PathKeepsInv(trace, i);
    var j := EnteredAt(trace, i, w);
    assert OnTrack(trace[i], trace[i].workers[w]);
  }

  // ---------------------------------------------------------------------------
  // Runs without a failure between mint and cache
  // ---------------------------------------------------------------------------

  /**
   The failures that do harm: a mint of which the process does not hear, a death between a
   mint and the write, and a death while the file is being rewritten, minted or not.
   */
  predicate Harmful(s: State, step: Step)
    requires Enabled(s, step)
  {
    match step
    case Kill(w) =>
      var pc := s.workers[w];
      pc.Writing? || ((pc.Ensured? || pc.Chosen?) && Mints(pc.entry.server, pc.source, pc.reset))
    case EnsureFails(w, applied) => applied && Mints(s.server, s.workers[w].source, s.workers[w].reset)
    case _ => false
  }

  ghost predicate Next(s: State, s': State) {
    exists step :: Enabled(s, step) && !Harmful(s, step) && s' == Do(s, step)
  }

  /** A run: any interleaving of any number of processes, any number of harmless failures. */
  ghost predicate Run(trace: seq<State>) {
    && |trace| > 0 && Init(trace[0])
    && forall i :: 0 <= i < |trace| - 1 ==> Next(trace[i], trace[i + 1])
  }

  /** Whenever the lock is free, and whenever it was last acquired, cache and server agreed. */
  ghost predicate SyncInv(s: State) {
    && Inv(s)
    && (s.lock.None? ==> Synced(WorldOf(s)))
    && (s.lock.Some? ==> Synced(s.workers[s.lock.value].entry))
  }

  lemma StepKeepsSync(s: State, step: Step)
    requires SyncInv(s) && Enabled(s, step) && !Harmful(s, step)
    ensures SyncInv(Do(s, step))
  {
    StepKeepsInv(s, step);
    if step.Release? || step.Kill? || step.EnsureFails? {
      var pc := s.workers[step.w];
      if Critical(pc) {
        assert OnTrack(s, pc);
        CallKeepsSynced(pc.entry, pc.source, pc.reset);
      }
    }
  }

  lemma {:induction false} RunKeepsSync(trace: seq<State>, i: nat)
    requires Run(trace) && i < |trace|
    ensures SyncInv(trace[i])
  {
    if i > 0 {
      RunKeepsSync(trace, i - 1);
      assert Next(trace[i - 1], trace[i - 1 + 1]);
      var step :| Enabled(trace[i - 1], step) && !Harmful(trace[i - 1], step) && trace[i] == Do(trace[i - 1], step);
      StepKeepsSync(trace[i - 1], step);
    }
  }

  /** Every call that returns, returns the key that is the server's current one at that moment. */
  lemma ReturnsCurrentKey(trace: seq<State>, i: nat, w: WorkerId)
    requires Run(trace) && i < |trace|
    requires Enabled(trace[i], Release(w))
    ensures var s' := Do(trace[i], Release(w)); var pc := s'.workers[w];
            && pc.source in s'.server.keys
            && pc.key == Some(s'.server.keys[pc.source])
            && Load(s'.file) == s'.server.keys
  {
    RunKeepsSync(trace, i);
    var pc := trace[i].workers[w];
    assert OnTrack(trace[i], pc);
    CallKeepsSynced(pc.entry, pc.source, pc.reset);
  }

  /** Nobody is asking to reset the key of `source`. */
  ghost predicate NoReset(s: State, source: Source) {
    forall w :: w in s.workers && !s.workers[w].Idle? && s.workers[w].source == source ==> !s.workers[w].reset
  }

  lemma StepKeepsKey(s: State, step: Step, source: Source)
    requires SyncInv(s) && Enabled(s, step) && !Harmful(s, step)
    requires NoReset(s, source) && source in s.server.keys
    ensures source in Do(s, step).server.keys
    ensures Do(s, step).server.keys[source] == s.server.keys[source]
  {
    if step.Ensure? || step.EnsureFails? {
      assert OnTrack(s, s.workers[step.w]);
    }
  }

  /**
   As long as nobody resets a source, its key is never rotated, and whatever other sources
   do, whenever the lock is free the cache still holds it.
   */
  lemma {:induction false} KeysAreKept(trace: seq<State>, i: nat, j: nat, source: Source)
    requires Run(trace) && i <= j < |trace|
    requires forall k :: i <= k < j ==> NoReset(trace[k], source)
    requires source in trace[i].server.keys
    ensures source in trace[j].server.keys
    ensures trace[j].server.keys[source] == trace[i].server.keys[source]
    ensures trace[j].lock.None? ==>
              source in Load(trace[j].file) && Load(trace[j].file)[source] == trace[i].server.keys[source]
  {
    RunKeepsSync(trace, j);
    if i < j {
      KeysAreKept(trace, i, j - 1, source);
      RunKeepsSync(trace, j - 1);
      assert NoReset(trace[j - 1], source);
      assert Next(trace[j - 1], trace[j - 1 + 1]);
      var step :| Enabled(trace[j - 1], step) && !Harmful(trace[j - 1], step) && trace[j] == Do(trace[j - 1], step);
      StepKeepsKey(trace[j - 1], step, source);
    }
  }

  // ---------------------------------------------------------------------------
  // What the harmful failures do
  // ---------------------------------------------------------------------------

  /** The step ends a call in the locked section before it is done. */
  predicate CutsShort(s: State, step: Step)
    requires Enabled(s, step)
  {
    step.EnsureFails? || (step.Kill? && Critical(s.workers[step.w]))
  }

  /** The exact condition: a call cut short leaves cache and server agreeing unless it is harmful. */
  lemma AgreesIffHarmless(s: State, step: Step)
    requires SyncInv(s) && Enabled(s, step) && CutsShort(s, step)
    ensures Synced(WorldOf(Do(s, step))) <==> !Harmful(s, step)
  {
    var pc := s.workers[step.w];
    assert OnTrack(s, pc);
    CallKeepsSynced(pc.entry, pc.source, pc.reset);
  }

  /**
   A process killed while it rewrites a key it already had loses the cached keys of every
   source, its own and all others, although the server has not changed.
   */
  lemma KillMidRewriteLosesAll(s: State, w: WorkerId)
    requires SyncInv(s) && w in s.workers && s.workers[w].Writing?
    requires !Mints(s.workers[w].entry.server, s.workers[w].source, s.workers[w].reset)
    ensures var s' := Do(s, Kill(w)); var entry := s.workers[w].entry;
            && s'.server == entry.server && entry.cache == entry.server.keys && s.workers[w].source in entry.cache
            && (forall other :: other in s'.server.keys ==> other !in Load(s'.file))
  {
    assert OnTrack(s, s.workers[w]);
  }

  /** The server has a key for `source` that the cache does not. */
  predicate Stranded(w: World, source: Source) {
    && source in w.server.registered && source in w.server.keys
    && !(source in w.cache && w.cache[source] == w.server.keys[source])
  }

  /** Whose keys a harmful failure strands: everybody's when the file was open, else its own. */
  lemma HarmStrands(s: State, step: Step, source: Source)
    requires SyncInv(s) && Enabled(s, step) && Harmful(s, step)
    requires source in Do(s, step).server.keys
    ensures Stranded(WorldOf(Do(s, step)), source)
            <==> (step.Kill? && s.workers[step.w].Writing?) || source == s.workers[step.w].source
  {
    var pc := s.workers[step.w];
    assert OnTrack(s, pc);
    CallKeepsSynced(pc.entry, pc.source, pc.reset);
  }

  /** The key of `source` is `key`, and nobody who holds or will write the cache knows. */
  ghost predicate StrandedInv(s: State, source: Source, key: Key) {
    && Inv(s)
    && Stranded(WorldOf(s), source) && s.server.keys[source] == key
    && (s.lock.Some? ==> var entry := s.workers[s.lock.value].entry;
                         Stranded(entry, source) && entry.server.keys[source] == key)
  }

  lemma StepKeepsStranded(s: State, step: Step, source: Source, key: Key)
    requires StrandedInv(s, source, key) && NoReset(s, source) && Enabled(s, step)
    ensures StrandedInv(Do(s, step), source, key)
  {
    StepKeepsInv(s, step);
    if !step.Begin? && s.lock == Some(step.w) {
      assert OnTrack(s, s.workers[step.w]);
    }
  }

  lemma {:induction false} StrandedOnPath(trace: seq<State>, i: nat, source: Source, key: Key)
    requires Path(trace) && i < |trace| && StrandedInv(trace[0], source, key)
    requires forall k :: 0 <= k < i ==> NoReset(trace[k], source)
    ensures StrandedInv(trace[i], source, key)
  {
    if i > 0 {
      StrandedOnPath(trace, i - 1, source, key);
      assert AnyNext(trace[i - 1], trace[i - 1 + 1]);
      var step :| Enabled(trace[i - 1], step) && trace[i] == Do(trace[i - 1], step);
      StepKeepsStranded(trace[i - 1], step, source, key);
    }
  }

  /**
   A stranded key stays stranded: in every continuation, with any processes, failures and
   calls for other sources, as long as nobody resets the source its key stays the server's
   and no call for it ever returns that key.
   */
  lemma StrandedForever(s: State, step: Step, source: Source, trace: seq<State>, i: nat, w: WorkerId)
    requires SyncInv(s) && Enabled(s, step) && Harmful(s, step)
    requires source in Do(s, step).server.keys && Stranded(WorldOf(Do(s, step)), source)
    requires Path(trace) && trace[0] == Do(s, step) && i < |trace|
    requires forall k :: 0 <= k <= i ==> NoReset(trace[k], source)
    ensures Stranded(WorldOf(trace[i]), source)
    ensures trace[i].server.keys[source] == trace[0].server.keys[source]
    ensures Enabled(trace[i], Release(w)) && trace[i].workers[w].source == source ==>
              Do(trace[i], Release(w)).workers[w].key != Some(trace[0].server.keys[source])
  {
    StepKeepsInv(s, step);
    StrandedOnPath(trace, i, source, trace[0].server.keys[source]);
    if Enabled(trace[i], Release(w)) && trace[i].workers[w].source == source {
      assert OnTrack(trace[i], trace[i].workers[w]);
    }
  }

  /** Only a reset brings the source back: a call for it returns its current key if and only if it resets. */
  lemma ResetAloneRepairs(world: World, source: Source, reset: bool)
    requires Stranded(world, source)
    ensures var (after, key) := Call(world, source, reset);
            && (source in after.server.keys && key == Some(after.server.keys[source]) <==> reset)
            && (Stranded(after, source) <==> !reset)
  {
  }

  // ---------------------------------------------------------------------------
  // The failures are reachable
  // ---------------------------------------------------------------------------

  function Last(trace: seq<State>): State
    requires |trace| > 0
  {
    trace[|trace| - 1]
  }

  lemma Extend(trace: seq<State>, step: Step) returns (t: seq<State>)
    requires Run(trace) && Enabled(Last(trace), step) && !Harmful(Last(trace), step)
    ensures Run(t) && Last(t) == Do(Last(trace), step)
  {
    t := trace + [Do(Last(trace), step)];
    forall i | 0 <= i < |t| - 1
      ensures Next(t[i], t[i + 1])
    {
      if i < |trace| - 1 {
        assert t[i] == trace[i] && t[i + 1] == trace[i + 1];
        assert Next(trace[i], trace[i + 1]);
      } else {
        assert t[i] == Last(trace) && t[i + 1] == Do(Last(trace), step);
      }
    }
  }

  ghost predicate Free(s: State, w: WorkerId) {
    s.lock.None? && (w !in s.workers || s.workers[w].Idle?)
  }

  /** A call up to the moment its process has the file open for writing. */
  lemma ReachWriting(trace: seq<State>, w: WorkerId, source: Source, reset: bool) returns (t: seq<State>)
    requires Run(trace) && Free(Last(trace), w)
    requires Mints(Last(trace).server, source, reset) || source in Load(Last(trace).file)
    ensures Run(t) && w in Last(t).workers
    ensures var world := WorldOf(Last(trace)); var (after, key) := Call(world, source, reset);
            && Last(t).workers[w] == Writing(source, reset, world, key, after.cache)
            && Last(t).server == after.server && Last(t).lock == Some(w)
  {
    t := Extend(trace, Begin(w, source, reset));
    t := Extend(t, Acquire(w));
    t := Extend(t, Ensure(w));
    t := Extend(t, Choose(w));
    t := Extend(t, Truncate(w));
  }

  /** Every atomic call is the outcome of some run. */
  lemma WholeCall(trace: seq<State>, w: WorkerId, source: Source, reset: bool) returns (t: seq<State>)
    requires Run(trace) && Free(Last(trace), w)
    requires Mints(Last(trace).server, source, reset) || source in Load(Last(trace).file)
    ensures Run(t) && Free(Last(t), w)
    ensures WorldOf(Last(t)) == Call(WorldOf(Last(trace)), source, reset).0
  {
    t := ReachWriting(trace, w, source, reset);
    t := Extend(t, Write(w));
    t := Extend(t, Release(w));
    t := Extend(t, Finish(w));
  }

  /**
   The loss is reachable: once two sources have their keys, a second call for one of them can
   be killed so that the key of the other is gone from the cache.
   */
  lemma LossIsReachable(mine: Source, other: Source) returns (trace: seq<State>, w: WorkerId)
    requires mine != other
    ensures Run(trace) && w in Last(trace).workers && Last(trace).workers[w].Writing?
    ensures var pc := Last(trace).workers[w]; !Mints(pc.entry.server, pc.source, pc.reset) && other in pc.entry.cache
    ensures other in Last(trace).server.keys && other !in Load(Do(Last(trace), Kill(w)).file)
  {
    var start := State(Server({}, map[], 0), Json(map[]), None, map[]);
    w := 0;
    trace := [start];
    trace := WholeCall(trace, w, other, false);
    trace := WholeCall(trace, w, mine, false);
    trace := ReachWriting(trace, w, mine, false);
    RunKeepsSync(trace, |trace| - 1);
    KillMidRewriteLosesAll(Last(trace), w);
  }
}
