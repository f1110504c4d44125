/**
The whole lookup: the pool, the fetches of all its threads and the outputs in one system
(`Pool::run` over `serve` and `fetch_row`). Several stores share one pool; each run works
on one of them. A thread that holds a ticket goes through the ids of its chunk one by one,
and an owned id takes the steps of a fetch, in between those of all other threads.
*/
module EngramLookup {
  import opened Prelude
  import opened Threads
  import opened EngramTable
  import opened PackedLayout
  import opened RowStore
  import Pool = EngramPool
  import Fetch = RowCache

  /** What a store serves: its table and the range of rows it owns. */
  datatype Source = Source(table: Table, lo: nat, hi: nat) {
    ghost predicate Valid() {
      table.Valid() && lo <= hi <= table.rows
    }
  }

  datatype Work = Work(store: nat, ids: seq<int>)

  /** The outputs for one id. */
  datatype Cell = Cell(weight: seq<Byte>, scale: seq<Byte>)

  /**
  `work` is the latest run, `cells` what has been written of its outputs, `at` the next
  index of each thread, and `begun` the store's hits plus misses when the run began.
  */
  datatype State = State(
    pool: Pool.State, stores: seq<Fetch.State>, work: Work, at: seq<nat>, cells: map<nat, Cell>, begun: nat)

  datatype Step =
    | Run(store: nat, ids: seq<int>)
    | PoolStep(step: Pool.Step)
    | Blank(who: Thread)     // an id that this store does not own: zeros
    | Begin(who: Thread)     // an owned id: the fetch starts
    | Advance(who: Thread)   // one step of the fetch
    | Copy(who: Thread)      // the fetched row is copied to the outputs

  /** The caller is thread 0 of a store's fetches, worker w is thread w + 1. */
  function Index(who: Thread): nat {
    if who.TheCaller? then 0 else who.w + 1
  }

  function ThreadAt(n: nat): Thread {
    if n == 0 then TheCaller else TheWorker(n - 1)
  }

  function First(t: nat): nat {
    t * Pool.CHUNK
  }

  function End(t: nat, count: nat): nat {
    if First(t) + Pool.CHUNK < count then First(t) + Pool.CHUNK else count
  }

  /** `who` serves chunk t and has not reached its end. */
  predicate AtItem(s: State, who: Thread, t: nat) {
    && Holding(s.pool, who) == Some(t)
    && Index(who) < |s.at| && s.at[Index(who)] < End(t, |s.work.ids|)
  }

  /** The id `who` is at. */
  function Item(s: State, who: Thread): int
    requires Index(who) < |s.at| && s.at[Index(who)] < |s.work.ids|
  {
    s.work.ids[s.at[Index(who)]]
  }

  /** The ticket that `who` serves. */
  function Holding(pool: Pool.State, who: Thread): Option<nat> {
    var position := Pool.Position(pool, who);
    if position.Some? && position.value.Serving? then Some(position.value.t) else None
  }

  /** The thread that a pool step moves. */
  function Actor(step: Pool.Step): Option<Thread> {
    match step
    case CallerStep => Some(TheCaller)
    case WorkerStep(w) => Some(TheWorker(w))
    case _ => None
  }

  /** serve has returned, if the step is the one that ends it. */
  predicate ChunkFinished(s: State, step: Pool.Step) {
    Actor(step).Some? && Holding(s.pool, Actor(step).value).Some? ==>
      !AtItem(s, Actor(step).value, Holding(s.pool, Actor(step).value).value)
  }

  // -------------------------------------------------------------- invariant

  predicate Quiet(store: Fetch.State) {
    forall n :: 0 <= n < |store.threads| ==> store.threads[n].Idle?
  }

  ghost predicate StoreInv(store: Fetch.State, source: Source, threads: nat) {
    source.Valid() && Fetch.Inv(store, source.table) && |store.threads| == threads
  }

  /** A thread with a fetch under way is at the owned id that it fetches. */
  predicate FetchesItem(s: State, pc: Fetch.Pc, source: Source, who: Thread) {
    !pc.Idle? ==>
      && Holding(s.pool, who).Some? && AtItem(s, who, Holding(s.pool, who).value)
      && Item(s, who) == pc.id && Owned(source.lo, source.hi, pc.id)
  }

  ghost predicate FetchInv(s: State, store: Fetch.State, source: Source) {
    forall n :: 0 <= n < |store.threads| ==> FetchesItem(s, store.threads[n], source, ThreadAt(n))
  }

  /** The position of `who` lies inside its chunk. */
  predicate InChunk(s: State, who: Thread) {
    Holding(s.pool, who).Some? ==>
      && Index(who) < |s.at|
      && First(Holding(s.pool, who).value) <= s.at[Index(who)] <= End(Holding(s.pool, who).value, |s.work.ids|)
  }

  predicate Passed(s: State, who: Thread, i: nat) {
    Holding(s.pool, who) == Some(i / Pool.CHUNK) && Index(who) < |s.at| && i < s.at[Index(who)]
  }

  /** The chunk of index i has been served, or its holder has passed i. */
  ghost predicate Written(s: State, i: nat)
    requires |s.pool.runs| > 0
  {
    || s.pool.served[Service(|s.pool.runs| - 1, i / Pool.CHUNK)] > 0
    || exists who :: Passed(s, who, i)
  }

  ghost predicate CellInv(s: State) {
    |s.pool.runs| > 0 ==>
      && s.pool.runs[|s.pool.runs| - 1] == Pool.Chunks(|s.work.ids|)
      && forall i: nat :: i in s.cells <==> i < |s.work.ids| && Written(s, i)
  }

  predicate CellDelivers(s: State, source: Source, i: nat)
    requires source.table.Valid() && source.lo <= source.hi <= source.table.rows && i in s.cells
  {
    i < |s.work.ids|
    && Delivers(source.table, source.lo, source.hi, s.work.ids[i], s.cells[i].weight, s.cells[i].scale)
  }

  function OwnedIndices(ids: seq<int>, lo: nat, hi: nat): set<nat> {
    set i: nat | i < |ids| && Owned(lo, hi, ids[i])
  }

  /** The threads that have fetched a row and not yet copied it. */
  function Fetched(store: Fetch.State): set<nat> {
    set n: nat | n < |store.threads| && store.threads[n].Done?
  }

  /** Every fetch since the run began belongs to a written cell or to a row not yet copied. */
  ghost predicate CountInv(s: State, store: Fetch.State, source: Source) {
    store.completed
    == s.begun + |s.cells.Keys * OwnedIndices(s.work.ids, source.lo, source.hi)| + |Fetched(store)|
  }

  ghost predicate RunInv(s: State, store: Fetch.State, source: Source)
    requires source.table.Valid() && source.lo <= source.hi <= source.table.rows
  {
    && (forall who :: InChunk(s, who))
    && FetchInv(s, store, source)
    && CellInv(s)
    && (forall i :: i in s.cells ==> CellDelivers(s, source, i))
    && CountInv(s, store, source)
  }

  ghost predicate SystemInv(s: State, sources: seq<Source>) {
    && Pool.Inv(s.pool)
    && |s.at| == |s.pool.workers| + 1
    && |s.stores| == |sources| && s.work.store < |sources|
    && (forall k :: 0 <= k < |sources| ==> StoreInv(s.stores[k], sources[k], |s.at|))
    && (forall k :: 0 <= k < |sources| && k != s.work.store ==> Quiet(s.stores[k]))
  }

  ghost predicate Inv(s: State, sources: seq<Source>) {
    SystemInv(s, sources) && RunInv(s, s.stores[s.work.store], sources[s.work.store])
  }

  // ------------------------------------------------------------------ steps

  predicate Enabled(s: State, sources: seq<Source>, step: Step)
    requires |s.stores| == |sources| && s.work.store < |sources|
  {
    var k := s.work.store;
    match step
    case Run(store, ids) => Pool.Enabled(s.pool, Pool.Acquire(|ids|)) && store < |sources|
    case PoolStep(p) => Pool.Enabled(s.pool, p) && !p.Acquire? && ChunkFinished(s, p)
    case _ =>
      && Holding(s.pool, step.who).Some? && AtItem(s, step.who, Holding(s.pool, step.who).value)
      && Index(step.who) < |s.stores[k].threads|
      && var id, pc := Item(s, step.who), s.stores[k].threads[Index(step.who)];
      match step
      case Blank(_) => pc.Idle? && id < sources[k].table.rows && !Owned(sources[k].lo, sources[k].hi, id)
      case Begin(_) => pc.Idle? && Owned(sources[k].lo, sources[k].hi, id)
      case Advance(who) => !pc.Idle? && !pc.Done?
      case _ => pc.Done?
  }

  /** The cell of the current id is written and the thread moves on. */
  function Write(s: State, who: Thread, cell: Cell): State
    requires Index(who) < |s.at|
  {
    var i := s.at[Index(who)];
    s.(cells := s.cells[i := cell], at := s.at[Index(who) := i + 1])
  }

  /** The thread is free for its next fetch. */
  function Released(store: Fetch.State, n: nat): Fetch.State
    requires n < |store.threads|
  {
    store.(threads := store.threads[n := Fetch.Idle])
  }

  /** A claimed ticket takes the thread to the beginning of its chunk. */
  function Restart(at: seq<nat>, pool: Pool.State, actor: Option<Thread>): (r: seq<nat>)
    ensures |r| == |at|
  {
    if actor.Some? && Index(actor.value) < |at| && Holding(pool, actor.value).Some?
    then at[Index(actor.value) := First(Holding(pool, actor.value).value)]
    else at
  }

  /** The system after a pool step. */
  function AfterPool(s: State, p: Pool.Step): State
    requires Pool.Enabled(s.pool, p)
  {
    var pool := Pool.Apply(s.pool, p);
    s.(pool := pool, at := Restart(s.at, pool, Actor(p)))
  }

  function Apply(s: State, sources: seq<Source>, step: Step): State
    requires Inv(s, sources) && Enabled(s, sources, step)
  {
    var k := s.work.store;
    var store := s.stores[k];
    match step
    case Run(target, ids) =>
      s.(pool := Pool.Apply(s.pool, Pool.Acquire(|ids|)), work := Work(target, ids), cells := map[],
         begun := s.stores[target].hits + s.stores[target].misses)
    case PoolStep(p) => AfterPool(s, p)
    case Blank(who) => Write(s, who, Cell(Zeros(256), Zeros(8)))
    case Begin(who) =>
      assert StoreInv(store, sources[k], |s.at|);
      var fetch := Fetch.Begin(Index(who), Item(s, who));
      s.(stores := s.stores[k := Fetch.Apply(store, sources[k].table, fetch)])
    case Advance(who) =>
      assert StoreInv(store, sources[k], |s.at|) && Fetch.Carries(store.threads[Index(who)], sources[k].table);
      s.(stores := s.stores[k := Fetch.Apply(store, sources[k].table, Fetch.Advance(Index(who)))])
    case Copy(who) =>
      var row := store.threads[Index(who)].row;
      var s' := Write(s, who, Cell(row[..256], row[256..]));
      s'.(stores := s.stores[k := Released(store, Index(who))])
  }

  // ------------------------------------------------------ effects on the pool

  /** A pool step moves nobody but its actor, and keeps the runs and the threads. */
  ghost predicate MovesOnly(p: Pool.State, p': Pool.State, actor: Option<Thread>) {
    && p'.runs == p.runs && |p'.workers| == |p.workers|
    && forall who :: actor != Some(who) ==> Holding(p', who) == Holding(p, who)
  }

  lemma CallerEffect(p: Pool.State)
    requires Pool.Enabled(p, Pool.CallerStep)
    ensures MovesOnly(p, Pool.CallerApply(p), Some(TheCaller))
  {
    var p' := Pool.CallerApply(p);
    assert p'.workers == p.workers || p'.workers == Pool.WakeAll(p.workers);
  }

  lemma WorkerEffect(p: Pool.State, w: nat)
    requires Pool.Enabled(p, Pool.WorkerStep(w))
    ensures MovesOnly(p, Pool.WorkerApply(p, w), Some(TheWorker(w)))
  {
    var p' := Pool.WorkerApply(p, w);
    assert p'.workers == p.workers[w := p'.workers[w]];
    assert p'.pc == p.pc || (p.pc.CallerAsleep? && p'.pc.WaitLock?);
  }

  lemma PoolEffect(p: Pool.State, step: Pool.Step)
    requires Pool.Enabled(p, step) && !step.Acquire?
    ensures MovesOnly(p, Pool.Apply(p, step), Actor(step))
  {
    match step
    case CallerStep => CallerEffect(p);
    case WorkerStep(w) => WorkerEffect(p, w);
    case _ =>
  }

  lemma HoldingIsPublished(p: Pool.State, who: Thread)
    requires Pool.Inv(p) && Holding(p, who).Some?
    ensures Pool.Published(p.pc) && |p.runs| > 0
  {
    if who.TheWorker? {
      assert Pool.Inside(p.workers[who.w]);
    }
  }

  /** A held ticket is one of the run, has not been served, and has one holder. */
  lemma HeldTicket(p: Pool.State, who: Thread, t: nat)
    requires Pool.Inv(p) && Holding(p, who) == Some(t)
    ensures |p.runs| > 0 && t < p.runs[|p.runs| - 1]
    ensures p.served[Service(|p.runs| - 1, t)] == 0
    ensures forall other :: Holding(p, other) == Some(t) ==> other == who
  {
    HoldingIsPublished(p, who);
    var run := |p.runs| - 1;
    assert Pool.Holds(p, who, t);
    assert p.served[Service(run, t)] == Pool.Expected(p, run, t);
    forall other | Holding(p, other) == Some(t) ensures other == who {
      assert Pool.Holds(p, other, t);
    }
  }

  /** Only the step that ends the service of a ticket records it. */
  ghost predicate Records(p: Pool.State, p': Pool.State, actor: Option<Thread>) {
    if actor.Some? && Holding(p, actor.value).Some? then
      && |p.runs| > 0
      && Holding(p', actor.value) == None
      && p'.served == p.served + multiset{Service(|p.runs| - 1, Holding(p, actor.value).value)}
    else p'.served == p.served
  }

  lemma CallerRecords(p: Pool.State)
    requires Pool.Enabled(p, Pool.CallerStep)
    ensures Records(p, Pool.CallerApply(p), Some(TheCaller))
  {
  }

  lemma WorkerRecords(p: Pool.State, w: nat)
    requires Pool.Inv(p) && Pool.Enabled(p, Pool.WorkerStep(w))
    ensures Records(p, Pool.WorkerApply(p, w), Some(TheWorker(w)))
  {
    if Holding(p, TheWorker(w)).Some? {
      HoldingIsPublished(p, TheWorker(w));
    }
  }

  lemma ServeEffect(p: Pool.State, step: Pool.Step)
    requires Pool.Inv(p) && Pool.Enabled(p, step) && !step.Acquire?
    ensures Records(p, Pool.Apply(p, step), Actor(step))
  {
    match step
    case CallerStep => CallerRecords(p);
    case WorkerStep(w) => WorkerRecords(p, w);
    case _ =>
  }

  /** Outside a run nobody holds a ticket. */
  lemma NobodyHolds(p: Pool.State, who: Thread)
    requires Pool.Inv(p) && !Pool.Published(p.pc)
    ensures Holding(p, who) == None
  {
    if Holding(p, who).Some? {
      HoldingIsPublished(p, who);
    }
  }

  lemma ItemOfChunk(i: nat, t: nat, count: nat)
    requires i < count
    ensures First(t) <= i < End(t, count) <==> i / Pool.CHUNK == t
  {
    Pool.ChunksTile(count, Pool.CHUNK, i, t);
  }

  // -------------------------------------------------------------- pool steps

  ghost predicate PoolReady(s: State, p: Pool.Step) {
    && Pool.Inv(s.pool) && Pool.Enabled(s.pool, p) && !p.Acquire? && ChunkFinished(s, p)
    && |s.at| == |s.pool.workers| + 1
    && (forall who :: InChunk(s, who)) && CellInv(s)
  }

  lemma OthersPass(s: State, p: Pool.Step, who: Thread, i: nat)
    requires PoolReady(s, p) && Actor(p) != Some(who)
    ensures Holding(AfterPool(s, p).pool, who) == Holding(s.pool, who)
    ensures Index(who) < |s.at| ==> AfterPool(s, p).at[Index(who)] == s.at[Index(who)]
    ensures Passed(AfterPool(s, p), who, i) == Passed(s, who, i)
  {
    PoolEffect(s.pool, p);
  }

  /** A thread that does not end a chunk has passed nothing, before and after. */
  lemma ActorPasses(s: State, p: Pool.Step, who: Thread, i: nat)
    requires PoolReady(s, p) && Actor(p) == Some(who) && Holding(s.pool, who) == None
    ensures !Passed(s, who, i) && !Passed(AfterPool(s, p), who, i)
  {
    var pool := Pool.Apply(s.pool, p);
    if Holding(pool, who) == Some(i / Pool.CHUNK) {
      Pool.DivideBetween(i, Pool.CHUNK, i / Pool.CHUNK);
    }
  }

  /** Serving the last id of a chunk and recording the chunk leave the written indices alone. */
  lemma EndOfChunk(s: State, p: Pool.Step, who: Thread, i: nat)
    requires PoolReady(s, p) && Actor(p) == Some(who) && Holding(s.pool, who).Some?
    requires i < |s.work.ids| && |s.pool.runs| > 0
    ensures AfterPool(s, p).pool.runs == s.pool.runs && Written(AfterPool(s, p), i) == Written(s, i)
  {
    var t, s' := Holding(s.pool, who).value, AfterPool(s, p);
    PoolEffect(s.pool, p);
    ServeEffect(s.pool, p);
    ItemOfChunk(i, t, |s.work.ids|);
    assert InChunk(s, who) && !AtItem(s, who, t);
    if i / Pool.CHUNK == t {
      assert Passed(s, who, i);
      assert s'.pool.served[Service(|s.pool.runs| - 1, t)] > 0;
    } else {
      forall other ensures Passed(s', other, i) == Passed(s, other, i) {
        if other != who {
          OthersPass(s, p, other, i);
        }
      }
      WrittenStays(s, s', i);
    }
  }

  lemma WrittenStays(s: State, s': State, i: nat)
    requires |s.pool.runs| > 0 && s'.pool.runs == s.pool.runs
    requires forall who :: Passed(s', who, i) == Passed(s, who, i)
    requires var service := Service(|s.pool.runs| - 1, i / Pool.CHUNK);
      s'.pool.served[service] == s.pool.served[service]
    ensures Written(s', i) == Written(s, i)
  {
    if who :| Passed(s, who, i) {
      assert Passed(s', who, i);
    }
    if who :| Passed(s', who, i) {
      assert Passed(s, who, i);
    }
  }

  lemma PoolStepWritten(s: State, p: Pool.Step, i: nat)
    requires PoolReady(s, p) && i < |s.work.ids| && |s.pool.runs| > 0
    ensures AfterPool(s, p).pool.runs == s.pool.runs
    ensures Written(AfterPool(s, p), i) == Written(s, i)
  {
    PoolEffect(s.pool, p);
    ServeEffect(s.pool, p);
    if Actor(p).Some? && Holding(s.pool, Actor(p).value).Some? {
      EndOfChunk(s, p, Actor(p).value, i);
    } else {
      var s' := AfterPool(s, p);
      forall who ensures Passed(s', who, i) == Passed(s, who, i) {
        if Actor(p) == Some(who) {
          ActorPasses(s, p, who, i);
        } else {
          OthersPass(s, p, who, i);
        }
      }
      WrittenStays(s, s', i);
    }
  }

  /** A ticket of the run begins inside the ids. */
  lemma TicketBegins(t: nat, count: nat)
    requires t < Pool.Chunks(count)
    ensures First(t) < count && First(t) <= End(t, count)
  {
  }

  /** A thread that has just claimed a ticket is at its first id. */
  lemma ClaimInChunk(s: State, s': State, who: Thread, t: nat)
    requires Pool.Inv(s'.pool) && Holding(s'.pool, who) == Some(t) && |s'.at| == |s'.pool.workers| + 1
    requires s'.at == Restart(s.at, s'.pool, Some(who)) && CellInv(s)
    requires s'.pool.runs == s.pool.runs && s'.work == s.work
    ensures InChunk(s', who)
  {
    HeldTicket(s'.pool, who, t);
    TicketBegins(t, |s.work.ids|);
    HolderIsThread(s'.pool, who);
  }

  lemma PoolStepInChunk(s: State, p: Pool.Step, who: Thread)
    requires PoolReady(s, p)
    ensures InChunk(AfterPool(s, p), who)
  {
    var s' := AfterPool(s, p);
    PoolEffect(s.pool, p);
    if Actor(p) == Some(who) {
      if Holding(s'.pool, who).Some? {
        Pool.StepKeeps(s.pool, p);
        ClaimInChunk(s, s', who, Holding(s'.pool, who).value);
      }
    } else {
      OthersPass(s, p, who, 0);
      assert InChunk(s, who);
    }
  }

  lemma HolderIsThread(p: Pool.State, who: Thread)
    requires Holding(p, who).Some?
    ensures Index(who) <= |p.workers|
  {
  }

  lemma PoolStepFetches(s: State, p: Pool.Step, pc: Fetch.Pc, source: Source, who: Thread)
    requires PoolReady(s, p) && FetchesItem(s, pc, source, who)
    ensures FetchesItem(AfterPool(s, p), pc, source, who)
  {
    if !pc.Idle? && Actor(p) != Some(who) {
      OthersPass(s, p, who, 0);
    }
  }

  lemma PoolStepSystem(s: State, sources: seq<Source>, p: Pool.Step)
    requires SystemInv(s, sources) && Pool.Enabled(s.pool, p) && !p.Acquire?
    ensures SystemInv(AfterPool(s, p), sources)
  {
    Pool.StepKeeps(s.pool, p);
    PoolEffect(s.pool, p);
  }

  lemma PoolStepCells(s: State, p: Pool.Step)
    requires PoolReady(s, p)
    ensures CellInv(AfterPool(s, p))
  {
    var s' := AfterPool(s, p);
    PoolEffect(s.pool, p);
    forall i: nat ensures |s.pool.runs| > 0 ==> (i in s'.cells <==> i < |s.work.ids| && Written(s', i)) {
      if i < |s.work.ids| && |s.pool.runs| > 0 {
        PoolStepWritten(s, p, i);
      }
    }
  }

  lemma PoolStepRun(s: State, p: Pool.Step, store: Fetch.State, source: Source)
    requires PoolReady(s, p) && source.Valid() && RunInv(s, store, source)
    ensures RunInv(AfterPool(s, p), store, source)
  {
    var s' := AfterPool(s, p);
    forall who ensures InChunk(s', who) {
      PoolStepInChunk(s, p, who);
    }
    forall n | 0 <= n < |store.threads| ensures FetchesItem(s', store.threads[n], source, ThreadAt(n)) {
      PoolStepFetches(s, p, store.threads[n], source, ThreadAt(n));
    }
    PoolStepCells(s, p);
    forall i | i in s'.cells ensures CellDelivers(s', source, i) {
      assert CellDelivers(s, source, i);
    }
    assert CountInv(s', store, source);
  }

  lemma PoolStepKeeps(s: State, sources: seq<Source>, p: Pool.Step)
    requires Inv(s, sources) && Enabled(s, sources, PoolStep(p))
    ensures Inv(AfterPool(s, p), sources)
  {
    PoolStepSystem(s, sources, p);
    assert PoolReady(s, p);
    assert StoreInv(s.stores[s.work.store], sources[s.work.store], |s.at|);
    PoolStepRun(s, p, s.stores[s.work.store], sources[s.work.store]);
  }

  // --------------------------------------------------------- a run begins

  lemma QuietCounts(store: Fetch.State)
    requires Quiet(store)
    ensures Fetch.Inserting(store.threads) == {} && Fetched(store) == {}
  {
  }

  /** Between two runs no fetch is under way. */
  lemma QuietBetweenRuns(s: State, sources: seq<Source>, k: nat)
    requires Inv(s, sources) && !Pool.Published(s.pool.pc) && k < |sources|
    ensures Quiet(s.stores[k])
  {
    var store, source := s.stores[k], sources[k];
    if k == s.work.store {
      forall n | 0 <= n < |store.threads| ensures store.threads[n].Idle? {
        assert FetchesItem(s, store.threads[n], source, ThreadAt(n));
        NobodyHolds(s.pool, ThreadAt(n));
      }
    }
  }

  lemma NothingServed(p: Pool.State, i: nat)
    requires Pool.Inv(p) && p.pc == Pool.Publish(0)
    ensures |p.runs| > 0 && p.served[Service(|p.runs| - 1, i)] == 0
  {
    assert p.served[Service(|p.runs| - 1, i)] == Pool.Expected(p, |p.runs| - 1, i);
  }

  lemma RunKeeps(s: State, sources: seq<Source>, target: nat, ids: seq<int>)
    requires Inv(s, sources) && Enabled(s, sources, Run(target, ids))
    ensures Inv(Apply(s, sources, Run(target, ids)), sources)
  {
    var s' := Apply(s, sources, Run(target, ids));
    Pool.StepKeeps(s.pool, Pool.Acquire(|ids|));
    forall k | 0 <= k < |sources| ensures Quiet(s.stores[k]) {
      QuietBetweenRuns(s, sources, k);
    }
    forall who ensures Holding(s'.pool, who) == None {
      NobodyHolds(s'.pool, who);
    }
    forall i: nat ensures !Written(s', i) {
      NothingServed(s'.pool, i / Pool.CHUNK);
    }
    QuietCounts(s.stores[target]);
    assert StoreInv(s.stores[target], sources[target], |s.at|);
    assert s'.cells.Keys * OwnedIndices(ids, sources[target].lo, sources[target].hi) == {};
  }

  // -------------------------------------------------------------- item steps

  lemma {:induction false} DistinctIndex(a: Thread, b: Thread)
    ensures Index(a) == Index(b) ==> a == b
    ensures ThreadAt(Index(a)) == a
  {
  }

  /** Writing the current cell adds exactly its index to the written ones. */
  lemma WriteWritten(s: State, who: Thread, t: nat, cell: Cell, j: nat)
    requires Pool.Inv(s.pool) && |s.pool.runs| > 0 && AtItem(s, who, t) && InChunk(s, who)
    ensures Written(Write(s, who, cell), j) <==> Written(s, j) || j == s.at[Index(who)]
  {
    var s', i := Write(s, who, cell), s.at[Index(who)];
    ItemOfChunk(i, t, |s.work.ids|);
    forall other | other != who ensures Passed(s', other, j) == Passed(s, other, j) {
      DistinctIndex(other, who);
    }
    assert Passed(s', who, j) <==> Passed(s, who, j) || j == i by {
      assert Passed(s', who, j) <==> t == j / Pool.CHUNK && j < i + 1;
      assert Passed(s, who, j) <==> t == j / Pool.CHUNK && j < i;
    }
    if x :| Passed(s, x, j) {
      assert Passed(s', x, j);
    }
    if x :| Passed(s', x, j) {
      assert x == who || Passed(s, x, j);
    }
  }

  /** The current cell has not been written before. */
  lemma ItemIsNew(s: State, who: Thread, t: nat)
    requires Pool.Inv(s.pool) && AtItem(s, who, t) && InChunk(s, who) && CellInv(s)
    ensures |s.pool.runs| > 0 && s.at[Index(who)] !in s.cells
  {
    var i := s.at[Index(who)];
    HeldTicket(s.pool, who, t);
    ItemOfChunk(i, t, |s.work.ids|);
    if x :| Passed(s, x, i) {
      assert x == who;
    }
  }

  lemma WriteKeepsCells(s: State, who: Thread, t: nat, cell: Cell)
    requires Pool.Inv(s.pool) && AtItem(s, who, t) && InChunk(s, who) && CellInv(s)
    ensures CellInv(Write(s, who, cell))
  {
    var s', i := Write(s, who, cell), s.at[Index(who)];
    HeldTicket(s.pool, who, t);
    forall j: nat ensures j in s'.cells <==> j < |s.work.ids| && Written(s', j) {
      WriteWritten(s, who, t, cell, j);
    }
  }

  lemma WriteKeepsChunks(s: State, who: Thread, t: nat, cell: Cell, other: Thread)
    requires AtItem(s, who, t) && InChunk(s, who) && InChunk(s, other)
    ensures InChunk(Write(s, who, cell), other)
  {
    DistinctIndex(who, other);
  }

  lemma WriteKeepsFetches(s: State, who: Thread, cell: Cell, pc: Fetch.Pc, source: Source, other: Thread)
    requires Index(who) < |s.at| && other != who && FetchesItem(s, pc, source, other)
    ensures FetchesItem(Write(s, who, cell), pc, source, other)
  {
    DistinctIndex(who, other);
  }

  lemma WriteKeepsDelivered(s: State, who: Thread, cell: Cell, source: Source, j: nat)
    requires Index(who) < |s.at| && s.at[Index(who)] < |s.work.ids| && source.Valid()
    requires j in s.cells ==> CellDelivers(s, source, j)
    requires Delivers(source.table, source.lo, source.hi, Item(s, who), cell.weight, cell.scale)
    ensures j in Write(s, who, cell).cells ==> CellDelivers(Write(s, who, cell), source, j)
  {
  }

  lemma WriteCounts(s: State, who: Thread, cell: Cell, lo: nat, hi: nat)
    requires Index(who) < |s.at| && s.at[Index(who)] < |s.work.ids| && s.at[Index(who)] !in s.cells
    ensures |Write(s, who, cell).cells.Keys * OwnedIndices(s.work.ids, lo, hi)|
         == |s.cells.Keys * OwnedIndices(s.work.ids, lo, hi)| + if Owned(lo, hi, Item(s, who)) then 1 else 0
  {
    var i, owned := s.at[Index(who)], OwnedIndices(s.work.ids, lo, hi);
    var before, after := s.cells.Keys * owned, Write(s, who, cell).cells.Keys * owned;
    assert after == if i in owned then before + {i} else before;
  }

  lemma FetchedUpdate(store: Fetch.State, n: nat, pc: Fetch.Pc)
    requires n < |store.threads|
    ensures Fetched(store.(threads := store.threads[n := pc]))
         == if pc.Done? then Fetched(store) + {n} else Fetched(store) - {n}
  {
  }

  /** What the item steps need of the invariant, for the store of the run. */
  ghost predicate ItemReady(s: State, store: Fetch.State, source: Source, who: Thread, t: nat) {
    && Pool.Inv(s.pool) && |s.at| == |s.pool.workers| + 1
    && StoreInv(store, source, |s.at|) && RunInv(s, store, source)
    && AtItem(s, who, t)
  }

  /** Writing a right cell by a thread whose fetch is over keeps everything but the count. */
  lemma WriteKeeps(s: State, store: Fetch.State, store': Fetch.State, source: Source, who: Thread, t: nat, cell: Cell)
    requires ItemReady(s, store, source, who, t)
    requires Delivers(source.table, source.lo, source.hi, Item(s, who), cell.weight, cell.scale)
    requires store'.threads == store.threads[Index(who) := Fetch.Idle]
    ensures var s' := Write(s, who, cell);
      && (forall x :: InChunk(s', x)) && FetchInv(s', store', source) && CellInv(s')
      && (forall i :: i in s'.cells ==> CellDelivers(s', source, i))
  {
    var s' := Write(s, who, cell);
    WriteKeepsCells(s, who, t, cell);
    forall x ensures InChunk(s', x) {
      WriteKeepsChunks(s, who, t, cell, x);
    }
    forall n | 0 <= n < |store.threads| ensures FetchesItem(s', store'.threads[n], source, ThreadAt(n)) {
      DistinctIndex(who, ThreadAt(n));
      if n != Index(who) {
        WriteKeepsFetches(s, who, cell, store.threads[n], source, ThreadAt(n));
      }
    }
    forall i | i in s'.cells ensures CellDelivers(s', source, i) {
      WriteKeepsDelivered(s, who, cell, source, i);
    }
  }

  lemma BlankKeeps(s: State, store: Fetch.State, source: Source, who: Thread, t: nat)
    requires ItemReady(s, store, source, who, t) && store.threads[Index(who)].Idle?
    requires Item(s, who) < source.table.rows && !Owned(source.lo, source.hi, Item(s, who))
    ensures RunInv(Write(s, who, Cell(Zeros(256), Zeros(8))), store, source)
  {
    var cell := Cell(Zeros(256), Zeros(8));
    ZerosSplit();
    WriteKeeps(s, store, store, source, who, t, cell);
    ItemIsNew(s, who, t);
    WriteCounts(s, who, cell, source.lo, source.hi);
  }

  lemma ZerosSplit()
    ensures Zeros(264)[..256] == Zeros(256) && Zeros(264)[256..] == Zeros(8)
  {
  }

  lemma ReleaseKeeps(store: Fetch.State, source: Source, n: nat, threads: nat)
    requires StoreInv(store, source, threads) && n < threads && store.threads[n].Done?
    ensures StoreInv(Released(store, n), source, threads)
  {
    Fetch.InsertingUpdate(store.threads, n, Fetch.Idle);
    assert n !in Fetch.Inserting(store.threads);
  }

  lemma CopyKeeps(s: State, store: Fetch.State, source: Source, who: Thread, t: nat)
    requires ItemReady(s, store, source, who, t) && store.threads[Index(who)].Done?
    ensures var row := store.threads[Index(who)].row;
      RunInv(Write(s, who, Cell(row[..256], row[256..])), Released(store, Index(who)), source)
  {
    var n := Index(who);
    var pc := store.threads[n];
    var cell := Cell(pc.row[..256], pc.row[256..]);
    DistinctIndex(who, who);
    assert Fetch.Carries(pc, source.table) && FetchesItem(s, pc, source, ThreadAt(n));
    WriteKeeps(s, store, Released(store, n), source, who, t, cell);
    CopyCounts(s, store, source, who, t, cell);
  }

  /** The copied row was counted as fetched and is now counted as written. */
  lemma CopyCounts(s: State, store: Fetch.State, source: Source, who: Thread, t: nat, cell: Cell)
    requires Pool.Inv(s.pool) && AtItem(s, who, t) && InChunk(s, who) && CellInv(s)
    requires Index(who) < |store.threads| && store.threads[Index(who)].Done?
    requires Owned(source.lo, source.hi, Item(s, who)) && CountInv(s, store, source)
    ensures CountInv(Write(s, who, cell), Released(store, Index(who)), source)
  {
    ItemIsNew(s, who, t);
    WriteCounts(s, who, cell, source.lo, source.hi);
    FetchedUpdate(store, Index(who), Fetch.Idle);
    assert Index(who) in Fetched(store);
  }

  /** One step of a fetch: only its thread moves, and returning is counted. */
  lemma FetchEffect(store: Fetch.State, source: Source, step: Fetch.Step)
    requires source.table.Valid() && Fetch.Inv(store, source.table) && Fetch.Enabled(store, source.table, step)
    requires step.Begin? ==> store.threads[step.t].Idle?
    ensures Fetch.Carries(store.threads[step.t], source.table)
    ensures var store' := Fetch.Apply(store, source.table, step);
      && |store'.threads| == |store.threads|
      && store'.threads == store.threads[step.t := store'.threads[step.t]]
      && !store'.threads[step.t].Idle?
      && store'.threads[step.t].id == (if step.Begin? then step.id else store.threads[step.t].id)
      && store'.completed == store.completed + if store'.threads[step.t].Done? then 1 else 0
  {
    assert Fetch.Carries(store.threads[step.t], source.table);
  }

  lemma FetchKeeps(s: State, store: Fetch.State, source: Source, who: Thread, t: nat, step: Fetch.Step)
    requires ItemReady(s, store, source, who, t)
    requires Fetch.Enabled(store, source.table, step) && step.t == Index(who)
    requires step.Begin? ==> store.threads[step.t].Idle? && step.id == Item(s, who)
    requires step.Begin? ==> Owned(source.lo, source.hi, step.id)
    ensures Fetch.Carries(store.threads[step.t], source.table)
    ensures StoreInv(Fetch.Apply(store, source.table, step), source, |s.at|)
    ensures RunInv(s, Fetch.Apply(store, source.table, step), source)
  {
    Fetch.StepKeeps(store, source.table, step);
    FetchEffect(store, source, step);
    var store' := Fetch.Apply(store, source.table, step);
    DistinctIndex(who, who);
    assert FetchesItem(s, store.threads[step.t], source, ThreadAt(step.t));
    forall n | 0 <= n < |store'.threads| ensures FetchesItem(s, store'.threads[n], source, ThreadAt(n)) {
      assert FetchesItem(s, store.threads[n], source, ThreadAt(n));
    }
    FetchedUpdate(store, step.t, store'.threads[step.t]);
    assert Fetched(store') == Fetched(store.(threads := store.threads[step.t := store'.threads[step.t]]));
  }

  // ------------------------------------------------------------- every step

  /** The invariant of a run does not speak of the list of stores. */
  lemma StoresApart(s: State, stores: seq<Fetch.State>, store: Fetch.State, source: Source)
    requires source.Valid() && RunInv(s, store, source)
    ensures RunInv(s.(stores := stores), store, source)
  {
    var s' := s.(stores := stores);
    forall who ensures InChunk(s', who) {
      assert InChunk(s, who);
    }
    forall n | 0 <= n < |store.threads| ensures FetchesItem(s', store.threads[n], source, ThreadAt(n)) {
      assert FetchesItem(s, store.threads[n], source, ThreadAt(n));
    }
    forall i: nat | |s.pool.runs| > 0 ensures Written(s', i) == Written(s, i) {
      WrittenStays(s, s', i);
    }
    forall i | i in s.cells ensures CellDelivers(s', source, i) {
      assert CellDelivers(s, source, i);
    }
  }

  lemma InstallSystem(s: State, sources: seq<Source>, s1: State, store: Fetch.State)
    requires SystemInv(s, sources) && StoreInv(store, sources[s.work.store], |s.at|)
    requires s1.pool == s.pool && s1.work == s.work && s1.stores == s.stores && |s1.at| == |s.at|
    ensures SystemInv(s1.(stores := s.stores[s.work.store := store]), sources)
  {
  }

  lemma Install(s: State, sources: seq<Source>, s1: State, store: Fetch.State)
    requires Inv(s, sources) && s1.pool == s.pool && s1.work == s.work && s1.stores == s.stores && |s1.at| == |s.at|
    requires StoreInv(store, sources[s.work.store], |s.at|) && RunInv(s1, store, sources[s.work.store])
    ensures Inv(s1.(stores := s.stores[s.work.store := store]), sources)
  {
    InstallSystem(s, sources, s1, store);
    StoresApart(s1, s.stores[s.work.store := store], store, sources[s.work.store]);
  }

  lemma ReadyForItem(s: State, sources: seq<Source>, step: Step)
    requires Inv(s, sources) && Enabled(s, sources, step) && !step.Run? && !step.PoolStep?
    ensures Holding(s.pool, step.who).Some?
    ensures var k := s.work.store;
      ItemReady(s, s.stores[k], sources[k], step.who, Holding(s.pool, step.who).value)
  {
    assert StoreInv(s.stores[s.work.store], sources[s.work.store], |s.at|);
  }

  lemma BlankStepKeeps(s: State, sources: seq<Source>, who: Thread)
    requires Inv(s, sources) && Enabled(s, sources, Blank(who))
    ensures Inv(Apply(s, sources, Blank(who)), sources)
  {
    var k := s.work.store;
    ReadyForItem(s, sources, Blank(who));
    BlankKeeps(s, s.stores[k], sources[k], who, Holding(s.pool, who).value);
    Install(s, sources, Write(s, who, Cell(Zeros(256), Zeros(8))), s.stores[k]);
    assert s.stores[k := s.stores[k]] == s.stores;
  }

  lemma BeginStepKeeps(s: State, sources: seq<Source>, who: Thread)
    requires Inv(s, sources) && Enabled(s, sources, Begin(who))
    ensures Inv(Apply(s, sources, Begin(who)), sources)
  {
    var k, step := s.work.store, Fetch.Begin(Index(who), Item(s, who));
    ReadyForItem(s, sources, Begin(who));
    FetchKeeps(s, s.stores[k], sources[k], who, Holding(s.pool, who).value, step);
    Install(s, sources, s, Fetch.Apply(s.stores[k], sources[k].table, step));
  }

  lemma AdvanceStepKeeps(s: State, sources: seq<Source>, who: Thread)
    requires Inv(s, sources) && Enabled(s, sources, Advance(who))
    ensures Inv(Apply(s, sources, Advance(who)), sources)
  {
    var k, step := s.work.store, Fetch.Advance(Index(who));
    ReadyForItem(s, sources, Advance(who));
    FetchKeeps(s, s.stores[k], sources[k], who, Holding(s.pool, who).value, step);
    Install(s, sources, s, Fetch.Apply(s.stores[k], sources[k].table, step));
  }

  lemma CopyStepKeeps(s: State, sources: seq<Source>, who: Thread)
    requires Inv(s, sources) && Enabled(s, sources, Copy(who))
    ensures Inv(Apply(s, sources, Copy(who)), sources)
  {
    var k := s.work.store;
    var row := s.stores[k].threads[Index(who)].row;
    ReadyForItem(s, sources, Copy(who));
    CopyKeeps(s, s.stores[k], sources[k], who, Holding(s.pool, who).value);
    ReleaseKeeps(s.stores[k], sources[k], Index(who), |s.at|);
    Install(s, sources, Write(s, who, Cell(row[..256], row[256..])), Released(s.stores[k], Index(who)));
  }

  lemma StepKeeps(s: State, sources: seq<Source>, step: Step)
    requires Inv(s, sources) && Enabled(s, sources, step)
    ensures Inv(Apply(s, sources, step), sources)
  {
    match step
    case Run(target, ids) => RunKeeps(s, sources, target, ids);
    case PoolStep(p) => PoolStepKeeps(s, sources, p);
    case Blank(who) => BlankStepKeeps(s, sources, who);
    case Begin(who) => BeginStepKeeps(s, sources, who);
    case Advance(who) => AdvanceStepKeeps(s, sources, who);
    case Copy(who) => CopyStepKeeps(s, sources, who);
  }

  ghost predicate Executes(s: State, sources: seq<Source>, steps: seq<Step>, s': State)
    requires Inv(s, sources)
    decreases |steps|
  {
    if steps == [] then s' == s
    else if !Enabled(s, sources, steps[0]) then false
    else
      StepKeeps(s, sources, steps[0]);
      Executes(Apply(s, sources, steps[0]), sources, steps[1..], s')
  }

  /** A pool and stores before their first lookup. */
  ghost predicate Init(s: State, sources: seq<Source>) {
    && Pool.Init(s.pool)
    && s.work == Work(0, []) && s.cells == map[]
    && |s.at| == |s.pool.workers| + 1
    && |s.stores| == |sources| && |sources| > 0
    && (forall k :: 0 <= k < |sources| ==> sources[k].Valid() && EmptyStore(s.stores[k], sources[k], |s.at|))
    && s.begun == 0
  }

  ghost predicate EmptyStore(store: Fetch.State, source: Source, threads: nat)
    requires source.Valid()
  {
    && store.cache.Valid(source.table) && |store.threads| == threads && Quiet(store)
    && store.hits == 0 && store.misses == 0 && store.completed == 0
  }

  lemma InitInv(s: State, sources: seq<Source>)
    requires Init(s, sources)
    ensures Inv(s, sources)
  {
    Pool.InitInv(s.pool);
    forall k | 0 <= k < |sources| ensures StoreInv(s.stores[k], sources[k], |s.at|) && Quiet(s.stores[k]) {
      assert EmptyStore(s.stores[k], sources[k], |s.at|);
      QuietCounts(s.stores[k]);
    }
    assert EmptyStore(s.stores[0], sources[0], |s.at|);
    QuietCounts(s.stores[0]);
    assert s.cells.Keys * OwnedIndices(s.work.ids, sources[0].lo, sources[0].hi) == {};
    forall who ensures Holding(s.pool, who) == None {
      NobodyHolds(s.pool, who);
    }
  }

  /** An execution from before the first lookup. */
  ghost predicate Reaches(s0: State, sources: seq<Source>, steps: seq<Step>, s: State) {
    Init(s0, sources) && (InitInv(s0, sources); Executes(s0, sources, steps, s))
  }

  lemma {:induction false} ExecutionKeeps(s: State, sources: seq<Source>, steps: seq<Step>, s': State)
    requires Inv(s, sources) && Executes(s, sources, steps, s')
    ensures Inv(s', sources)
    decreases |steps|
  {
    if steps != [] {
      StepKeeps(s, sources, steps[0]);
      ExecutionKeeps(Apply(s, sources, steps[0]), sources, steps[1..], s');
    }
  }

  // ----------------------------------------------------------- main results

  lemma {:induction false} OwnedCount(ids: seq<int>, lo: nat, hi: nat)
    ensures |OwnedIndices(ids, lo, hi)| == CountOwned(lo, hi, ids)
  {
    if ids == [] {
      assert OwnedIndices(ids, lo, hi) == {};
    } else {
      var n := |ids| - 1;
      OwnedCount(ids[..n], lo, hi);
      var before := OwnedIndices(ids[..n], lo, hi);
      assert OwnedIndices(ids, lo, hi) == if Owned(lo, hi, ids[n]) then before + {n} else before;
    }
  }

  /** After the return of a run all its cells are written. */
  lemma AllWritten(s: State, i: nat)
    requires Pool.Inv(s.pool) && CellInv(s) && |s.pool.runs| > 0 && s.pool.pc.Idle?
    ensures i in s.cells <==> i < |s.work.ids|
  {
    var t := i / Pool.CHUNK;
    assert s.pool.served[Service(|s.pool.runs| - 1, t)] == Pool.Expected(s.pool, |s.pool.runs| - 1, t);
    if i < |s.work.ids| {
      Pool.ChunksTile(|s.work.ids|, Pool.CHUNK, i, t);
    }
  }

  /** After the return of a run every fetch since its beginning belongs to a written cell. */
  lemma AllCounted(s: State, sources: seq<Source>)
    requires Inv(s, sources) && |s.pool.runs| > 0 && s.pool.pc.Idle?
    requires forall i: nat :: i in s.cells <==> i < |s.work.ids|
    ensures var source, store := sources[s.work.store], s.stores[s.work.store];
      store.hits + store.misses == s.begun + CountOwned(source.lo, source.hi, s.work.ids)
  {
    var source, store := sources[s.work.store], s.stores[s.work.store];
    assert StoreInv(store, source, |s.at|);
    QuietBetweenRuns(s, sources, s.work.store);
    QuietCounts(store);
    var owned := OwnedIndices(s.work.ids, source.lo, source.hi);
    assert s.cells.Keys * owned == owned;
    OwnedCount(s.work.ids, source.lo, source.hi);
  }

  /** The outputs of the run are exactly those of its ids, and right; the fetches are counted. */
  ghost predicate Complete(s: State, source: Source, store: Fetch.State) {
    && source.Valid() && store.cache.Valid(source.table)
    && (forall i: nat :: i in s.cells <==> i < |s.work.ids|)
    && (forall i :: 0 <= i < |s.work.ids| ==> s.work.ids[i] < source.table.rows)
    && (forall i :: i in s.cells ==> CellDelivers(s, source, i))
    && store.hits + store.misses == s.begun + CountOwned(source.lo, source.hi, s.work.ids)
  }

  lemma DeliveredInBounds(s: State, source: Source, i: nat)
    requires source.Valid() && i in s.cells && CellDelivers(s, source, i)
    ensures i < |s.work.ids| && s.work.ids[i] < source.table.rows
  {
  }

  lemma ReturnIsRight(s: State, store: Fetch.State, source: Source)
    requires Pool.Inv(s.pool) && |s.pool.runs| > 0 && s.pool.pc.Idle?
    requires source.Valid() && RunInv(s, store, source)
    ensures forall i: nat :: i in s.cells <==> i < |s.work.ids|
    ensures forall i :: 0 <= i < |s.work.ids| ==> s.work.ids[i] < source.table.rows
  {
    forall i: nat ensures i in s.cells <==> i < |s.work.ids| {
      AllWritten(s, i);
    }
    forall i: nat | i < |s.work.ids| ensures s.work.ids[i] < source.table.rows {
      DeliveredInBounds(s, source, i);
    }
  }

  lemma ReturnIsComplete(s: State, sources: seq<Source>)
    requires Inv(s, sources) && |s.pool.runs| > 0 && s.pool.pc.Idle?
    ensures Complete(s, sources[s.work.store], s.stores[s.work.store])
  {
    var source, store := sources[s.work.store], s.stores[s.work.store];
    assert StoreInv(store, source, |s.at|);
    ReturnIsRight(s, store, source);
    AllCounted(s, sources);
  }

  /**
  Over every interleaving of the pool's threads and of the steps of their fetches: whenever
  run returns, exactly the outputs of its ids are written, each holds what its id demands
  (so no id lies past the table), and the store's hits and misses together have grown by
  the number of owned ids.
  */
  lemma EveryLookupDelivers(s0: State, sources: seq<Source>, steps: seq<Step>, s: State)
    requires Reaches(s0, sources, steps, s)
    requires |s.pool.runs| > 0 && s.pool.pc.Idle?
    ensures s.work.store < |sources| == |s.stores|
    ensures Complete(s, sources[s.work.store], s.stores[s.work.store])
  {
    InitInv(s0, sources);
    ExecutionKeeps(s0, sources, steps, s);
    ReturnIsComplete(s, sources);
  }

  // --------------------------------------------------------------- progress

  predicate Proper(step: Step) {
    !step.Run? && (step.PoolStep? ==> Pool.Proper(step.step))
  }

  predicate Wakeup(step: Step) {
    step.PoolStep? && Pool.Wakeup(step.step)
  }

  function Wakeups(steps: seq<Step>): nat {
    if steps == [] then 0 else (if Wakeup(steps[0]) then 1 else 0) + Wakeups(steps[1..])
  }

  ghost predicate InBounds(s: State, sources: seq<Source>) {
    s.work.store < |sources| && forall i :: 0 <= i < |s.work.ids| ==> s.work.ids[i] < sources[s.work.store].table.rows
  }

  /** The next step of a thread that is at an id. */
  function NextOf(s: State, pc: Fetch.Pc, source: Source, who: Thread): Step
    requires Index(who) < |s.at| && s.at[Index(who)] < |s.work.ids|
  {
    match pc
    case Idle => if Owned(source.lo, source.hi, Item(s, who)) then Begin(who) else Blank(who)
    case Done(_, _) => Copy(who)
    case _ => Advance(who)
  }

  lemma NextEnabled(s: State, sources: seq<Source>, who: Thread, t: nat)
    requires SystemInv(s, sources) && InBounds(s, sources) && AtItem(s, who, t)
    ensures Index(who) < |s.stores[s.work.store].threads|
    ensures Enabled(s, sources, NextOf(s, s.stores[s.work.store].threads[Index(who)], sources[s.work.store], who))
  {
    assert StoreInv(s.stores[s.work.store], sources[s.work.store], |s.at|);
  }

  lemma ItemStep(s: State, sources: seq<Source>, who: Thread) returns (step: Step)
    requires SystemInv(s, sources) && InBounds(s, sources)
    requires Holding(s.pool, who).Some? && AtItem(s, who, Holding(s.pool, who).value)
    ensures Proper(step) && Enabled(s, sources, step)
  {
    var k := s.work.store;
    NextEnabled(s, sources, who, Holding(s.pool, who).value);
    step := NextOf(s, s.stores[k].threads[Index(who)], sources[k], who);
  }

  /** While a run is in progress and no id lies past the table, some thread can move. */
  lemma Progress(s: State, sources: seq<Source>) returns (step: Step)
    requires Inv(s, sources) && !s.pool.pc.Idle? && InBounds(s, sources)
    ensures Proper(step) && Enabled(s, sources, step)
  {
    var p := Pool.Progress(s.pool);
    step := PoolStep(p);
    if !ChunkFinished(s, p) {
      step := ItemStep(s, sources, Actor(p).value);
    }
  }

  /** The steps a fetch may still take. */
  function Left(pc: Fetch.Pc): nat {
    match pc
    case Idle => 5
    case Probe(_) => 4
    case Read(_) => 3
    case Count(_, _) => 2
    case Insert(_, _) => 1
    case Done(_, _) => 0
  }

  function AllLeft(threads: seq<Fetch.Pc>): nat {
    if threads == [] then 0 else Left(threads[0]) + AllLeft(threads[1..])
  }

  lemma {:induction false} LeftUpdate(threads: seq<Fetch.Pc>, n: nat, pc: Fetch.Pc)
    requires n < |threads|
    ensures AllLeft(threads[n := pc]) == AllLeft(threads) - Left(threads[n]) + Left(pc)
  {
    if n > 0 {
      assert threads[n := pc][1..] == threads[1..][n - 1 := pc];
      LeftUpdate(threads[1..], n - 1, pc);
    } else {
      assert threads[n := pc][1..] == threads[1..];
    }
  }

  function ItemMeasure(s: State, threads: seq<Fetch.Pc>): int {
    7 * (|s.work.ids| - |s.cells|) + AllLeft(threads)
  }

  function Measure(s: State): int
    requires s.work.store < |s.stores| && (!s.pool.pc.Idle? ==> |s.pool.runs| > 0)
  {
    Pool.Measure(s.pool) + ItemMeasure(s, s.stores[s.work.store].threads)
  }

  lemma MeasureBounded(s: State, sources: seq<Source>)
    requires Inv(s, sources) && |s.pool.runs| > 0
    ensures Measure(s) >= Pool.Measure(s.pool)
  {
    var all := Pool.Below(|s.work.ids|);
    assert s.cells.Keys <= all;
    SubsetSize(s.cells.Keys, all);
  }

  lemma WriteBound(s: State, who: Thread, t: nat, cell: Cell, threads: seq<Fetch.Pc>)
    requires Pool.Inv(s.pool) && AtItem(s, who, t) && InChunk(s, who) && CellInv(s) && Index(who) < |threads|
    ensures |s.pool.runs| > 0
    ensures ItemMeasure(Write(s, who, cell), threads) == ItemMeasure(s, threads) - 7
    ensures ItemMeasure(Write(s, who, cell), threads[Index(who) := Fetch.Idle]) < ItemMeasure(s, threads)
  {
    ItemIsNew(s, who, t);
    LeftUpdate(threads, Index(who), Fetch.Idle);
  }

  lemma FetchBound(store: Fetch.State, source: Source, step: Fetch.Step)
    requires source.table.Valid() && Fetch.Inv(store, source.table) && Fetch.Enabled(store, source.table, step)
    requires step.Begin? ==> store.threads[step.t].Idle?
    ensures Fetch.Carries(store.threads[step.t], source.table)
    ensures AllLeft(Fetch.Apply(store, source.table, step).threads) < AllLeft(store.threads)
  {
    FetchEffect(store, source, step);
    LeftUpdate(store.threads, step.t, Fetch.Apply(store, source.table, step).threads[step.t]);
  }

  /** What a step of an id leaves alone, and that it makes progress. */
  ghost predicate ItemProgress(s: State, s': State) {
    && s'.pool == s.pool && s'.work == s.work && |s'.stores| == |s.stores| && |s.pool.runs| > 0
    && s.work.store < |s.stores|
    && ItemMeasure(s', s'.stores[s.work.store].threads) < ItemMeasure(s, s.stores[s.work.store].threads)
  }

  lemma FetchStepBound(s: State, sources: seq<Source>, step: Step)
    requires Inv(s, sources) && Enabled(s, sources, step) && (step.Begin? || step.Advance?)
    ensures ItemProgress(s, Apply(s, sources, step))
  {
    var k, n := s.work.store, Index(step.who);
    ReadyForItem(s, sources, step);
    HeldTicket(s.pool, step.who, Holding(s.pool, step.who).value);
    FetchBound(s.stores[k], sources[k], if step.Begin? then Fetch.Begin(n, Item(s, step.who)) else Fetch.Advance(n));
  }

  lemma WriteStepBound(s: State, sources: seq<Source>, step: Step)
    requires Inv(s, sources) && Enabled(s, sources, step) && (step.Blank? || step.Copy?)
    ensures ItemProgress(s, Apply(s, sources, step))
  {
    var threads, who := s.stores[s.work.store].threads, step.who;
    ReadyForItem(s, sources, step);
    var cell :=
      if step.Blank? then Cell(Zeros(256), Zeros(8))
      else Cell(threads[Index(who)].row[..256], threads[Index(who)].row[256..]);
    WriteBound(s, who, Holding(s.pool, who).value, cell, threads);
  }

  lemma StepBound(s: State, sources: seq<Source>, step: Step)
    requires Inv(s, sources) && Enabled(s, sources, step) && |s.pool.runs| > 0
    requires Proper(step) || Wakeup(step)
    ensures var s' := Apply(s, sources, step);
      && s'.work == s.work && s'.pool.runs == s.pool.runs && |s'.stores| == |s.stores|
      && (!s'.pool.pc.Idle? ==> |s'.pool.runs| > 0)
      && Measure(s') < Measure(s) + 10 * Wakeups([step])
  {
    if step.PoolStep? {
      Pool.StepBound(s.pool, step.step);
      assert Pool.Wakeups([step.step]) == Wakeups([step]);
    } else if step.Blank? || step.Copy? {
      WriteStepBound(s, sources, step);
    } else {
      FetchStepBound(s, sources, step);
    }
  }

  /** No thread can move without a spurious wakeup. */
  ghost predicate Stopped(s: State, sources: seq<Source>)
    requires |s.stores| == |sources| && s.work.store < |sources|
  {
    forall step :: Proper(step) ==> !Enabled(s, sources, step)
  }

  lemma OnlyIdleStops(s: State, sources: seq<Source>)
    requires Inv(s, sources) && InBounds(s, sources)
    ensures Stopped(s, sources) ==> s.pool.pc.Idle?
  {
    if !s.pool.pc.Idle? {
      var step := Progress(s, sources);
    }
  }

  lemma StepMakesProgress(s: State, sources: seq<Source>, step: Step)
    requires Inv(s, sources) && Enabled(s, sources, step) && |s.pool.runs| > 0 && InBounds(s, sources)
    requires Proper(step) || Wakeup(step)
    ensures var s' := Apply(s, sources, step);
      && Inv(s', sources) && |s'.pool.runs| > 0 && InBounds(s', sources)
      && Measure(s') < Measure(s) + if Wakeup(step) then 10 else 0
  {
    StepKeeps(s, sources, step);
    StepBound(s, sources, step);
  }

  /**
  A lookup whose ids lie in the table ends: an execution with n spurious wakeups has at
  most Measure + 10n steps, and it can only stop once run has returned.
  */
  lemma {:induction false} EveryLookupReturns(s: State, sources: seq<Source>, steps: seq<Step>, s': State)
    requires Inv(s, sources) && Executes(s, sources, steps, s') && |s.pool.runs| > 0 && InBounds(s, sources)
    requires forall i :: 0 <= i < |steps| ==> Proper(steps[i]) || Wakeup(steps[i])
    ensures |steps| <= Measure(s) + 10 * Wakeups(steps)
    ensures Inv(s', sources)
    ensures Stopped(s', sources) ==> s'.pool.pc.Idle?
    decreases |steps|
  {
    if steps != [] {
      StepMakesProgress(s, sources, steps[0]);
      EveryLookupReturns(Apply(s, sources, steps[0]), sources, steps[1..], s');
    } else {
      MeasureBounded(s, sources);
      OnlyIdleStops(s, sources);
    }
  }
}
