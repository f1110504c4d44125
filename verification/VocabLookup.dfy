/**
The whole vocabulary lookup: the pool, the reads of all its threads, the failure bits and
the outputs in one system (`Store::run` over `drain` and `row`). A thread that holds a queue
entry looks at the failure bits and then, in a later step, settles the row: it writes the
output, or sets the failure bit after a short read.
*/
module VocabLookup {
  import opened Prelude
  import opened Threads
  import opened VocabStore
  import Pool = VocabPool

  /** Where a thread is inside `row`. */
  datatype Phase =
    | Fresh      // before it looks at the failure bits
    | Reading    // it has seen none
    | Settled    // the row has been read, has failed, or is skipped

  /** `at` is the index of the first pass; rows[0] is the phase of the caller, rows[w + 1] of worker w. */
  datatype State = State(
    pool: Pool.State, ids: seq<int>, devices: seq<DeviceRead>, at: nat, rows: seq<Phase>,
    output: seq<Cell>, cache: seq<Cell>, tags: seq<int>, failure: Failure)

  datatype Step =
    | Refuse(before: bool)                              // a failed store, or a changed file
    | Begin(ids: seq<int>, devices: seq<DeviceRead>)
    | First                                             // one id of the first pass
    | Start                                             // the queue is complete
    | PoolStep(step: Pool.Step)
    | Look(who: Thread)
    | Settle(who: Thread)
    | Finish(after: bool)                               // the second identity check, and the cache

  function Index(who: Thread): nat {
    if who.TheCaller? then 0 else who.w + 1
  }

  /** The queue entry a thread is reading. */
  function Holding(p: Pool.State, who: Thread): Option<nat> {
    match who
    case TheCaller =>
      if p.pc.Serial? && p.pc.k < |p.order| then Some(p.pc.k)
      else if p.pc.CallerDrain? && p.pc.d.Serving? then Some(p.pc.d.t)
      else None
    case TheWorker(w) =>
      if w < |p.workers| && p.workers[w].pc.WorkerDrain? && p.workers[w].pc.d.Serving?
      then Some(p.workers[w].pc.d.t) else None
  }

  function Actor(step: Pool.Step): Option<Thread> {
    match step
    case CallerStep => Some(TheCaller)
    case WorkerStep(w) => Some(TheWorker(w))
    case _ => None
  }

  /** What the first pass copies for an id that is not missing. */
  function Cached(store: Store, cache: seq<Cell>, id: int): Cell
    requires |cache| == 4096
  {
    if store.Owned(id) then cache[id % 4096] else ZeroCell()
  }

  predicate Sized(store: Store, s: State) {
    && store.Sized() && |s.cache| == 4096 && |s.tags| == 4096
    && |s.output| == |s.ids| == |s.devices| && |s.rows| == |s.pool.workers| + 1
  }

  predicate MissingAt(store: Store, s: State, i: nat)
    requires |s.tags| == 4096 && i < |s.ids|
  {
    Missing(store.lo, store.hi, s.tags, s.ids[i])
  }

  /** A device can perform every read that may be asked of it. */
  predicate PossibleReads(store: Store, ids: seq<int>, devices: seq<DeviceRead>) {
    |devices| == |ids| && forall i :: 0 <= i < |ids| && store.Owned(ids[i]) ==> store.PossibleRead(devices[i], ids[i])
  }

  /** A tagged slot belongs to an owned row and holds its bytes. */
  predicate CacheValid(store: Store, cache: seq<Cell>, tags: seq<int>)
    requires store.Sized() && |cache| == |tags| == 4096
  {
    forall slot :: 0 <= slot < 4096 && tags[slot] != -1 ==>
      store.Owned(tags[slot]) && tags[slot] % 4096 == slot && cache[slot] == store.FileRow(tags[slot])
  }

  // -------------------------------------------------------------- invariant

  /** A run is being prepared or served. */
  predicate Busy(p: Pool.State) {
    p.pc.Filling? || Pool.InRun(p.pc)
  }

  predicate FirstPassed(store: Store, s: State, k: nat)
    requires Sized(store, s) && k < |s.ids|
  {
    !MissingAt(store, s, k) ==> s.output[k] == Cached(store, s.cache, s.ids[k])
  }

  ghost predicate FirstInv(store: Store, s: State)
    requires Sized(store, s)
  {
    Busy(s.pool) ==>
      && s.at <= |s.ids| && (Pool.InRun(s.pool.pc) ==> s.at == |s.ids|)
      && PossibleReads(store, s.ids, s.devices) && !s.failure.changed
      && s.pool.order == Queue(s.ids, store.lo, store.hi, s.tags, s.at)
      && (forall k: nat :: k < s.at ==> FirstPassed(store, s, k))
      && (s.pool.pc.Filling? ==> forall k :: s.at <= k < |s.ids| ==> s.output[k] == ZeroCell())
  }

  ghost predicate RowInv(s: State) {
    forall who :: Index(who) < |s.rows| && s.rows[Index(who)] != Fresh ==> Holding(s.pool, who).Some?
  }

  predicate SettledAt(s: State, who: Thread, t: nat) {
    Holding(s.pool, who) == Some(t) && Index(who) < |s.rows| && s.rows[Index(who)] == Settled
  }

  ghost predicate RowDone(s: State, t: nat)
    requires |s.pool.runs| > 0
  {
    s.pool.served[Service(|s.pool.runs| - 1, t)] > 0 || exists who :: SettledAt(s, who, t)
  }

  /** Queue entry t is the index of an owned id. */
  predicate EntryOwned(store: Store, s: State, t: nat) {
    && t < |s.pool.order| && s.pool.order[t] < |s.ids| == |s.devices| == |s.output|
    && store.Owned(s.ids[s.pool.order[t]])
  }

  /** The read of queue entry t is short. */
  predicate ShortAt(store: Store, s: State, t: nat) {
    EntryOwned(store, s, t) && !store.FullRead(s.devices[s.pool.order[t]], s.ids[s.pool.order[t]])
  }

  /** The failure bit of the reads is set only after a short one. */
  ghost predicate IoInv(store: Store, s: State) {
    Busy(s.pool) && s.failure.io ==> exists t: nat :: ShortAt(store, s, t)
  }

  /** The output of queue entry t is what its read found, unless a read has failed. */
  predicate RowRight(store: Store, s: State, t: nat) {
    EntryOwned(store, s, t) &&
    var i := s.pool.order[t];
    s.failure.io ||
    (store.FullRead(s.devices[i], s.ids[i]) && s.output[i] == store.Found(s.devices[i], s.ids[i]))
  }

  ghost predicate DoneInv(store: Store, s: State) {
    Pool.InRun(s.pool.pc) && |s.pool.runs| > 0 ==>
      forall t: nat :: t < |s.pool.order| && RowDone(s, t) ==> RowRight(store, s, t)
  }

  ghost predicate Inv(store: Store, s: State) {
    Pool.Inv(s.pool) && Sized(store, s) && FirstInv(store, s) && RowInv(s) && DoneInv(store, s) && IoInv(store, s)
  }

  // ------------------------------------------------------------------ steps

  /** `row` has returned, if the pool step is the one that follows it. */
  predicate RowFinished(s: State, p: Pool.Step) {
    Actor(p).Some? && Holding(s.pool, Actor(p).value).Some? ==>
      Index(Actor(p).value) < |s.rows| && s.rows[Index(Actor(p).value)] == Settled
  }

  /** The thread is at a queue entry of an owned id. */
  predicate AtRow(store: Store, s: State, who: Thread) {
    Holding(s.pool, who).Some? && Index(who) < |s.rows| && EntryOwned(store, s, Holding(s.pool, who).value)
  }

  predicate Enabled(store: Store, s: State, step: Step)
    requires Sized(store, s)
  {
    match step
    case Refuse(before) => s.pool.pc.Idle? && (s.failure.Any() || !before)
    case Begin(ids, devices) =>
      s.pool.pc.Idle? && !s.failure.Any() && |ids| <= 256 && PossibleReads(store, ids, devices)
    case First => s.pool.pc.Filling? && s.at < |s.ids|
    case Start => s.pool.pc.Filling? && s.at == |s.ids|
    case PoolStep(p) =>
      && (p.CallerStep? || p.WorkerStep? || p.CallerSpurious? || p.WorkerSpurious?)
      && Pool.Enabled(s.pool, p) && RowFinished(s, p) && !(p.CallerStep? && s.pool.pc.After?)
    case Look(who) => AtRow(store, s, who) && s.rows[Index(who)] == Fresh
    case Settle(who) => AtRow(store, s, who) && s.rows[Index(who)] == Reading
    case Finish(_) => s.pool.pc.After? && Pool.Enabled(s.pool, Pool.CallerStep)
  }

  function Zeroed(n: nat): (r: seq<Cell>)
    ensures |r| == n && forall k :: 0 <= k < n ==> r[k] == ZeroCell()
  {
    seq<Cell>(n, _ => ZeroCell())
  }

  function AfterFirst(store: Store, s: State): State
    requires Sized(store, s) && Enabled(store, s, First)
  {
    var i := s.at;
    if MissingAt(store, s, i) then s.(at := i + 1, pool := Pool.Apply(s.pool, Pool.Queue(i)))
    else if store.Owned(s.ids[i]) then s.(at := i + 1, output := s.output[i := s.cache[s.ids[i] % 4096]])
    else s.(at := i + 1)
  }

  function AfterPool(s: State, p: Pool.Step): State
    requires Pool.Enabled(s.pool, p)
  {
    var pool := Pool.Apply(s.pool, p);
    if Actor(p).Some? && Index(Actor(p).value) < |s.rows|
    then s.(pool := pool, rows := s.rows[Index(Actor(p).value) := Fresh])
    else s.(pool := pool)
  }

  function AfterSettle(store: Store, s: State, who: Thread): State
    requires AtRow(store, s, who)
  {
    var i := s.pool.order[Holding(s.pool, who).value];
    var s' := s.(rows := s.rows[Index(who) := Settled]);
    if !store.FullRead(s.devices[i], s.ids[i]) then s'.(failure := s.failure.(io := true))
    else s'.(output := s.output[i := store.Found(s.devices[i], s.ids[i])])
  }

  /** The failure bits after the second identity check, and the cache if there are none. */
  function AfterFinish(store: Store, s: State, after: bool): State
    requires Inv(store, s) && Enabled(store, s, Finish(after))
  {
    var failure := if after then s.failure else s.failure.(changed := true);
    var s' := s.(pool := Pool.Apply(s.pool, Pool.CallerStep), failure := failure);
    if failure.Any() then s'
    else s'.(tags := Retagged(s.tags, s.ids, s.pool.order), cache := Recached(s.cache, s.ids, s.pool.order, s.output))
  }

  function Apply(store: Store, s: State, step: Step): State
    requires Inv(store, s) && Enabled(store, s, step)
  {
    match step
    case Refuse(before) => if s.failure.Any() then s else s.(failure := Failure(true, false))
    case Begin(ids, devices) =>
      s.(pool := Pool.Apply(s.pool, Pool.Acquire), ids := ids, devices := devices, at := 0, output := Zeroed(|ids|))
    case First => AfterFirst(store, s)
    case Start => s.(pool := Pool.Apply(s.pool, Pool.EndFill))
    case PoolStep(p) => AfterPool(s, p)
    case Look(who) => s.(rows := s.rows[Index(who) := if s.failure.Any() then Settled else Reading])
    case Settle(who) => AfterSettle(store, s, who)
    case Finish(after) => AfterFinish(store, s, after)
  }

  // ------------------------------------------------------ effects on the pool

  lemma HoldingIsInRun(p: Pool.State, who: Thread)
    requires Pool.Inv(p) && Holding(p, who).Some?
    ensures Pool.InRun(p.pc) && |p.runs| > 0 && !p.pc.After?
    ensures Holding(p, who).value < |p.order|
  {
    if who.TheWorker? {
      assert Pool.Inside(p.workers[who.w]);
    }
    if !p.pc.Serial? {
      assert Pool.Position(p, who) == Some(Pool.Serving(Holding(p, who).value));
    }
  }

  predicate IsMove(step: Pool.Step) {
    step.CallerStep? || step.WorkerStep? || step.CallerSpurious? || step.WorkerSpurious?
  }

  ghost predicate MovesOnly(p: Pool.State, p': Pool.State, actor: Option<Thread>) {
    && p'.order == p.order && p'.runs == p.runs && |p'.workers| == |p.workers|
    && Pool.InRun(p'.pc) == Pool.InRun(p.pc) && p'.pc.Filling? == p.pc.Filling?
    && forall who :: actor != Some(who) ==> Holding(p', who) == Holding(p, who)
  }

  lemma CallerEffect(p: Pool.State)
    requires Pool.Enabled(p, Pool.CallerStep) && !p.pc.After?
    ensures MovesOnly(p, Pool.CallerApply(p), Some(TheCaller))
  {
  }

  lemma WorkerEffect(p: Pool.State, w: nat)
    requires Pool.Inv(p) && Pool.Enabled(p, Pool.WorkerStep(w))
    ensures MovesOnly(p, Pool.WorkerApply(p, w), Some(TheWorker(w)))
  {
    assert Pool.WorkerApply(p, w).workers == p.workers[w := Pool.WorkerApply(p, w).workers[w]];
  }

  lemma PoolEffect(p: Pool.State, step: Pool.Step)
    requires Pool.Inv(p) && Pool.Enabled(p, step) && IsMove(step) && !(step.CallerStep? && p.pc.After?)
    ensures MovesOnly(p, Pool.Apply(p, step), Actor(step))
  {
    match step
    case CallerStep => CallerEffect(p);
    case WorkerStep(w) => WorkerEffect(p, w);
    case _ =>
  }

  /** Only the step behind `row` records its queue entry as served. */
  ghost predicate Records(p: Pool.State, p': Pool.State, actor: Option<Thread>) {
    if actor.Some? && Holding(p, actor.value).Some? && |p.runs| > 0
    then p'.served == p.served + multiset{Service(|p.runs| - 1, Holding(p, actor.value).value)}
    else p'.served == p.served
  }

  lemma CallerRecords(p: Pool.State)
    requires Pool.Enabled(p, Pool.CallerStep)
    ensures Records(p, Pool.CallerApply(p), Some(TheCaller))
  {
  }

  lemma WorkerRecords(p: Pool.State, w: nat)
    requires Pool.Inv(p) && Pool.Enabled(p, Pool.WorkerStep(w))
    ensures Records(p, Pool.WorkerApply(p, w), Some(TheWorker(w)))
  {
    if Holding(p, TheWorker(w)).Some? {
      HoldingIsInRun(p, TheWorker(w));
    }
  }

  lemma ServeEffect(p: Pool.State, step: Pool.Step)
    requires Pool.Inv(p) && Pool.Enabled(p, step) && IsMove(step)
    ensures Records(p, Pool.Apply(p, step), Actor(step))
  {
    match step
    case CallerStep => CallerRecords(p);
    case WorkerStep(w) => WorkerRecords(p, w);
    case _ =>
  }

  /** What was short stays short. */
  lemma IoStays(store: Store, s: State, s': State)
    requires IoInv(store, s) && (Busy(s'.pool) ==> Busy(s.pool)) && s.pool.order <= s'.pool.order
    requires s'.ids == s.ids && s'.devices == s.devices && |s'.output| == |s.output|
    requires s'.failure.io ==> s.failure.io
    ensures IoInv(store, s')
  {
    if Busy(s'.pool) && s'.failure.io {
      var t: nat :| ShortAt(store, s, t);
      assert ShortAt(store, s', t);
    }
  }

  // -------------------------------------------------------------- pool steps

  ghost predicate MoveReady(s: State, p: Pool.Step) {
    && Pool.Inv(s.pool) && Pool.Enabled(s.pool, p) && IsMove(p) && RowFinished(s, p)
    && !(p.CallerStep? && s.pool.pc.After?) && |s.rows| == |s.pool.workers| + 1
  }

  lemma OthersMove(s: State, p: Pool.Step, who: Thread, t: nat)
    requires MoveReady(s, p) && Actor(p) != Some(who)
    ensures Holding(AfterPool(s, p).pool, who) == Holding(s.pool, who)
    ensures Index(who) < |s.rows| ==> AfterPool(s, p).rows[Index(who)] == s.rows[Index(who)]
    ensures SettledAt(AfterPool(s, p), who, t) == SettledAt(s, who, t)
  {
    PoolEffect(s.pool, p);
  }

  lemma ActorIsFresh(s: State, p: Pool.Step, who: Thread, t: nat)
    requires MoveReady(s, p) && Actor(p) == Some(who)
    ensures !SettledAt(AfterPool(s, p), who, t)
  {
  }

  /** A pool step settles nothing. */
  lemma MoveSettlesNothing(s: State, p: Pool.Step, t: nat)
    requires MoveReady(s, p) && |s.pool.runs| > 0
    ensures |AfterPool(s, p).pool.runs| > 0
    ensures RowDone(AfterPool(s, p), t) ==> RowDone(s, t)
  {
    var s' := AfterPool(s, p);
    PoolEffect(s.pool, p);
    ServeEffect(s.pool, p);
    if who :| SettledAt(s', who, t) {
      if Actor(p) == Some(who) {
        ActorIsFresh(s, p, who, t);
      } else {
        OthersMove(s, p, who, t);
        assert SettledAt(s, who, t);
      }
    } else if RowDone(s', t) && s.pool.served[Service(|s.pool.runs| - 1, t)] == 0 {
      assert SettledAt(s, Actor(p).value, t);
    }
  }

  lemma MoveKeepsRows(s: State, p: Pool.Step)
    requires MoveReady(s, p) && RowInv(s)
    ensures RowInv(AfterPool(s, p))
  {
    var s' := AfterPool(s, p);
    forall who | Index(who) < |s'.rows| && s'.rows[Index(who)] != Fresh ensures Holding(s'.pool, who).Some? {
      if Actor(p) != Some(who) {
        OthersMove(s, p, who, 0);
      }
    }
  }

  lemma MoveKeeps(store: Store, s: State, p: Pool.Step)
    requires Inv(store, s) && MoveReady(s, p)
    ensures Inv(store, AfterPool(s, p))
  {
    var s' := AfterPool(s, p);
    Pool.StepKeeps(s.pool, p);
    PoolEffect(s.pool, p);
    MoveKeepsRows(s, p);
    MoveKeepsFirst(store, s, p);
    IoStays(store, s, s');
    forall t: nat | t < |s'.pool.order| && |s.pool.runs| > 0 && RowDone(s', t) && Pool.InRun(s'.pool.pc)
      ensures RowRight(store, s', t)
    {
      MoveSettlesNothing(s, p, t);
      assert RowRight(store, s, t);
    }
  }

  lemma MoveKeepsFirst(store: Store, s: State, p: Pool.Step)
    requires MoveReady(s, p) && Sized(store, s) && FirstInv(store, s)
    ensures Sized(store, AfterPool(s, p)) && FirstInv(store, AfterPool(s, p))
  {
    var s' := AfterPool(s, p);
    PoolEffect(s.pool, p);
    forall k: nat | Busy(s'.pool) && k < s.at ensures FirstPassed(store, s', k) {
      assert FirstPassed(store, s, k);
    }
  }

  // --------------------------------------------------------------- row steps

  lemma DistinctEntries(store: Store, s: State, t: nat, u: nat)
    requires Sized(store, s) && FirstInv(store, s) && Busy(s.pool) && t < |s.pool.order| && u < |s.pool.order|
    ensures s.pool.order[t] < s.at && MissingAt(store, s, s.pool.order[t])
    ensures t != u ==> s.pool.order[t] != s.pool.order[u]
  {
    if t < u {
      QueueIncreases(s.ids, store.lo, store.hi, s.tags, s.at, t, u);
    } else if u < t {
      QueueIncreases(s.ids, store.lo, store.hi, s.tags, s.at, u, t);
    }
  }

  lemma DistinctThreads(a: Thread, b: Thread)
    ensures Index(a) == Index(b) ==> a == b
  {
  }

  /** Settling a row, in whatever way, is done for that entry only. */
  lemma OneRowSettles(s: State, s': State, who: Thread, t: nat, u: nat)
    requires |s.pool.runs| > 0 && Holding(s.pool, who) == Some(t) && Index(who) < |s.rows|
    requires s'.pool == s.pool && (s'.rows == s.rows[Index(who) := Settled] || s'.rows == s.rows[Index(who) := Reading])
    ensures RowDone(s', u) ==> u == t || RowDone(s, u)
    ensures s'.rows[Index(who)] == Reading && RowDone(s', u) ==> RowDone(s, u)
  {
    if x :| SettledAt(s', x, u) {
      DistinctThreads(x, who);
      assert x == who || SettledAt(s, x, u);
    }
  }

  lemma RowsKeep(s: State, s': State, who: Thread)
    requires RowInv(s) && Holding(s.pool, who).Some? && s'.pool == s.pool && |s'.rows| == |s.rows|
    requires forall x :: Index(x) < |s.rows| && x != who ==> s'.rows[Index(x)] == s.rows[Index(x)]
    ensures RowInv(s')
  {
  }

  lemma LookKeeps(store: Store, s: State, who: Thread)
    requires Inv(store, s) && Enabled(store, s, Look(who))
    ensures Inv(store, Apply(store, s, Look(who)))
  {
    var s' := Apply(store, s, Look(who));
    HoldingIsInRun(s.pool, who);
    forall x | x != who && Index(x) < |s.rows| ensures s'.rows[Index(x)] == s.rows[Index(x)] {
      DistinctThreads(x, who);
    }
    RowsKeep(s, s', who);
    IoStays(store, s, s');
    forall k: nat | k < s.at ensures FirstPassed(store, s', k) {
      assert FirstPassed(store, s, k);
    }
    var t := Holding(s.pool, who).value;
    forall u: nat | u < |s.pool.order| && RowDone(s', u) ensures RowRight(store, s', u) {
      OneRowSettles(s, s', who, t, u);
      assert RowDone(s, u) ==> RowRight(store, s, u);
      if !RowDone(s, u) {
        DistinctEntries(store, s, u, u);
      }
    }
  }

  lemma SettleKeeps(store: Store, s: State, who: Thread)
    requires Inv(store, s) && Enabled(store, s, Settle(who))
    ensures Inv(store, AfterSettle(store, s, who))
  {
    var s', t := AfterSettle(store, s, who), Holding(s.pool, who).value;
    HoldingIsInRun(s.pool, who);
    forall x | x != who && Index(x) < |s.rows| ensures s'.rows[Index(x)] == s.rows[Index(x)] {
      DistinctThreads(x, who);
    }
    RowsKeep(s, s', who);
    DistinctEntries(store, s, t, t);
    if !store.FullRead(s.devices[s.pool.order[t]], s.ids[s.pool.order[t]]) {
      assert ShortAt(store, s', t);
    } else {
      IoStays(store, s, s');
    }
    forall k: nat | k < s.at ensures FirstPassed(store, s', k) {
      assert FirstPassed(store, s, k);
    }
    forall u: nat | u < |s.pool.order| && RowDone(s', u) ensures RowRight(store, s', u) {
      OneRowSettles(s, s', who, t, u);
      DistinctEntries(store, s, u, t);
      assert u != t ==> RowRight(store, s, u);
    }
  }

  // ------------------------------------------------------------ caller steps

  /** Outside a run no thread is inside `row`. */
  lemma AllFresh(s: State, who: Thread)
    requires Pool.Inv(s.pool) && RowInv(s) && (!Pool.InRun(s.pool.pc) || s.pool.pc.After?)
    ensures Holding(s.pool, who) == None
    ensures Index(who) < |s.rows| ==> s.rows[Index(who)] == Fresh
  {
    if Holding(s.pool, who).Some? {
      HoldingIsInRun(s.pool, who);
    }
  }

  lemma FreshRows(s: State, s': State)
    requires Pool.Inv(s.pool) && RowInv(s) && (!Pool.InRun(s.pool.pc) || s.pool.pc.After?)
    requires s'.rows == s.rows
    ensures RowInv(s') && forall who, t :: !SettledAt(s', who, t)
  {
    forall who ensures Index(who) < |s.rows| ==> s.rows[Index(who)] == Fresh {
      AllFresh(s, who);
    }
  }

  lemma BeginKeeps(store: Store, s: State, ids: seq<int>, devices: seq<DeviceRead>)
    requires Inv(store, s) && Enabled(store, s, Begin(ids, devices))
    ensures Inv(store, Apply(store, s, Begin(ids, devices)))
  {
    Pool.StepKeeps(s.pool, Pool.Acquire);
    FreshRows(s, Apply(store, s, Begin(ids, devices)));
  }

  lemma FirstKeeps(store: Store, s: State)
    requires Inv(store, s) && Enabled(store, s, First)
    ensures Inv(store, AfterFirst(store, s))
  {
    var s' := AfterFirst(store, s);
    if MissingAt(store, s, s.at) {
      Pool.StepKeeps(s.pool, Pool.Queue(s.at));
    }
    FreshRows(s, s');
    IoStays(store, s, s');
    FirstGoesOn(store, s);
  }

  lemma FirstGoesOn(store: Store, s: State)
    requires Sized(store, s) && FirstInv(store, s) && Enabled(store, s, First)
    ensures Sized(store, AfterFirst(store, s)) && FirstInv(store, AfterFirst(store, s))
  {
    var s' := AfterFirst(store, s);
    forall k: nat | k < s'.at ensures FirstPassed(store, s', k) {
      assert k < s.at ==> FirstPassed(store, s, k);
    }
  }

  lemma StartKeeps(store: Store, s: State)
    requires Inv(store, s) && Enabled(store, s, Start)
    ensures Inv(store, Apply(store, s, Start))
  {
    var s' := Apply(store, s, Start);
    Pool.StepKeeps(s.pool, Pool.EndFill);
    FreshRows(s, s');
    IoStays(store, s, s');
    forall k: nat | k < s.at ensures FirstPassed(store, s', k) {
      assert FirstPassed(store, s, k);
    }
    forall t: nat ensures !RowDone(s', t) {
      assert s'.pool.served[Service(|s'.pool.runs| - 1, t)] == Pool.Expected(s'.pool, |s'.pool.runs| - 1, t);
    }
  }

  lemma FinishKeeps(store: Store, s: State, after: bool)
    requires Inv(store, s) && Enabled(store, s, Finish(after))
    ensures Inv(store, AfterFinish(store, s, after))
  {
    Pool.StepKeeps(s.pool, Pool.CallerStep);
    FreshRows(s, AfterFinish(store, s, after));
  }

  lemma StepKeeps(store: Store, s: State, step: Step)
    requires Inv(store, s) && Enabled(store, s, step)
    ensures Inv(store, Apply(store, s, step))
  {
    match step
    case Refuse(_) => FreshRows(s, Apply(store, s, step));
    case Begin(ids, devices) => BeginKeeps(store, s, ids, devices);
    case First => FirstKeeps(store, s);
    case Start => StartKeeps(store, s);
    case PoolStep(p) => MoveKeeps(store, s, p);
    case Look(who) => LookKeeps(store, s, who);
    case Settle(who) => SettleKeeps(store, s, who);
    case Finish(after) => FinishKeeps(store, s, after);
  }

  ghost predicate Executes(store: Store, s: State, steps: seq<Step>, s': State)
    requires Inv(store, s)
    decreases |steps|
  {
    if steps == [] then s' == s
    else if !Enabled(store, s, steps[0]) then false
    else
      StepKeeps(store, s, steps[0]);
      Executes(store, Apply(store, s, steps[0]), steps[1..], s')
  }

  /** A store that has just been opened. */
  ghost predicate Init(store: Store, s: State) {
    && Pool.Init(s.pool) && Sized(store, s)
    && s.ids == [] && s.devices == [] && s.at == 0
    && (forall n :: 0 <= n < |s.rows| ==> s.rows[n] == Fresh)
    && s.failure == NO_FAILURE && forall slot :: 0 <= slot < 4096 ==> s.tags[slot] == -1
  }

  lemma InitInv(store: Store, s: State)
    requires Init(store, s)
    ensures Inv(store, s) && CacheValid(store, s.cache, s.tags)
  {
    Pool.InitInv(s.pool);
  }

  /** An execution from a store that has just been opened. */
  ghost predicate Reaches(store: Store, s0: State, steps: seq<Step>, s: State) {
    Init(store, s0) && (InitInv(store, s0); Executes(store, s0, steps, s))
  }

  lemma {:induction false} ExecutionKeeps(store: Store, s: State, steps: seq<Step>, s': State)
    requires Inv(store, s) && Executes(store, s, steps, s')
    ensures Inv(store, s')
    decreases |steps|
  {
    if steps != [] {
      StepKeeps(store, s, steps[0]);
      ExecutionKeeps(store, Apply(store, s, steps[0]), steps[1..], s');
    }
  }

  // ----------------------------------------------------------- main results

  /** What a run without failures puts into the outputs. */
  ghost predicate Filled(store: Store, s: State)
    requires Sized(store, s)
  {
    forall i: nat :: i < |s.ids| ==> FilledAt(store, s, i)
  }

  predicate FilledAt(store: Store, s: State, i: nat)
    requires Sized(store, s) && i < |s.ids|
  {
    s.output[i] ==
      if MissingAt(store, s, i) then store.Found(s.devices[i], s.ids[i]) else Cached(store, s.cache, s.ids[i])
  }

  lemma {:induction false} EntryOf(ids: seq<int>, lo: nat, hi: nat, tags: seq<int>, n: nat, i: nat) returns (t: nat)
    requires i < n <= |ids| && |tags| == 4096 && Missing(lo, hi, tags, ids[i])
    ensures t < |Queue(ids, lo, hi, tags, n)| && Queue(ids, lo, hi, tags, n)[t] == i
  {
    if i == n - 1 {
      t := |Queue(ids, lo, hi, tags, n - 1)|;
    } else {
      t := EntryOf(ids, lo, hi, tags, n - 1, i);
    }
  }

  /** When the wait is over every queue entry has been settled. */
  lemma EntryIsRight(store: Store, s: State, t: nat)
    requires Inv(store, s) && s.pool.pc.After? && t < |s.pool.order|
    ensures RowRight(store, s, t)
  {
    assert s.pool.served[Service(|s.pool.runs| - 1, t)] == Pool.Expected(s.pool, |s.pool.runs| - 1, t);
    assert RowDone(s, t);
  }

  /** When the wait is over and no read has failed, every output is filled. */
  lemma ServedIsFilled(store: Store, s: State)
    requires Inv(store, s) && s.pool.pc.After? && !s.failure.Any()
    ensures Filled(store, s)
  {
    forall i: nat | i < |s.ids| ensures FilledAt(store, s, i) {
      assert FirstPassed(store, s, i);
      if MissingAt(store, s, i) {
        var t := EntryOf(s.ids, store.lo, store.hi, s.tags, s.at, i);
        EntryIsRight(store, s, t);
      }
    }
  }

  /** From a valid cache, what is filled is what the lookup delivers. */
  lemma FilledIsDelivered(store: Store, s: State)
    requires Sized(store, s) && Filled(store, s) && CacheValid(store, s.cache, s.tags)
    ensures s.output == store.Delivered(s.ids, s.tags, s.devices)
  {
    var delivered := store.Delivered(s.ids, s.tags, s.devices);
    forall i: nat | i < |s.ids| ensures s.output[i] == delivered[i] {
      assert FilledAt(store, s, i);
      if store.Owned(s.ids[i]) && !MissingAt(store, s, i) {
        assert s.tags[s.ids[i] % 4096] == s.ids[i];
      }
    }
  }

  /**
  Over every interleaving of the pool's threads and of what they do inside `row`: when the
  wait of a run is over and no read has failed, each output holds what the cache had for its
  id, what its own read found, or zeros; from a valid cache that is exactly what a
  sequential lookup delivers.
  */
  lemma EveryRunDelivers(store: Store, s0: State, steps: seq<Step>, s: State)
    requires Reaches(store, s0, steps, s) && s.pool.pc.After? && !s.failure.Any()
    ensures Sized(store, s) && Filled(store, s)
    ensures CacheValid(store, s.cache, s.tags) ==> s.output == store.Delivered(s.ids, s.tags, s.devices)
    ensures CacheValid(store, s.cache, s.tags) ==>
      (s.output == store.WantedAll(s.ids) <==> store.Trusted(s.ids, s.tags, s.devices))
  {
    InitInv(store, s0);
    ExecutionKeeps(store, s0, steps, s);
    ServedIsFilled(store, s);
    if CacheValid(store, s.cache, s.tags) {
      FilledIsDelivered(store, s);
      store.TrustedDelivers(s.ids, s.tags, s.devices);
    }
  }

  // ---------------------------------------------------------- unchanged file

  /** Every read of an owned row finds the bytes of the file the store was opened on. */
  predicate TrueReads(store: Store, ids: seq<int>, devices: seq<DeviceRead>)
    requires store.Sized() && |devices| == |ids|
  {
    forall i :: 0 <= i < |ids| && store.Owned(ids[i]) ==> store.Found(devices[i], ids[i]) == store.FileRow(ids[i])
  }

  predicate TrueStep(store: Store, step: Step)
    requires store.Sized()
  {
    step.Begin? ==> |step.devices| == |step.ids| && TrueReads(store, step.ids, step.devices)
  }

  ghost predicate TrueInv(store: Store, s: State)
    requires Sized(store, s)
  {
    CacheValid(store, s.cache, s.tags) && (Busy(s.pool) ==> TrueReads(store, s.ids, s.devices))
  }

  /** Filling the cache with right rows keeps it valid, whatever slots they share. */
  lemma {:induction false} RefillKeeps(store: Store, cache: seq<Cell>, tags: seq<int>, ids: seq<int>, order: seq<nat>,
                                       output: seq<Cell>)
    requires store.Sized() && |cache| == |tags| == 4096 && |output| == |ids| && CacheValid(store, cache, tags)
    requires forall k :: 0 <= k < |order| ==> order[k] < |ids| && store.Owned(ids[order[k]])
    requires output == store.WantedAll(ids)
    ensures CacheValid(store, Recached(cache, ids, order, output), Retagged(tags, ids, order))
  {
    if order != [] {
      RefillKeeps(store, cache, tags, ids, order[..|order| - 1], output);
    }
  }

  lemma FinishKeepsTrue(store: Store, s: State, after: bool)
    requires Inv(store, s) && TrueInv(store, s) && Enabled(store, s, Finish(after))
    ensures Sized(store, AfterFinish(store, s, after)) && TrueInv(store, AfterFinish(store, s, after))
  {
    if after && !s.failure.Any() {
      ServedIsFilled(store, s);
      FilledIsDelivered(store, s);
      store.TrustedDelivers(s.ids, s.tags, s.devices);
      RefillKeeps(store, s.cache, s.tags, s.ids, s.pool.order, s.output);
    }
  }

  lemma TrueStepKeeps(store: Store, s: State, step: Step)
    requires Inv(store, s) && TrueInv(store, s) && Enabled(store, s, step) && TrueStep(store, step)
    ensures Inv(store, Apply(store, s, step)) && TrueInv(store, Apply(store, s, step))
  {
    StepKeeps(store, s, step);
    match step
    case Finish(after) => FinishKeepsTrue(store, s, after);
    case PoolStep(p) => PoolEffect(s.pool, p);
    case _ =>
  }

  lemma {:induction false} TrueExecutionKeeps(store: Store, s: State, steps: seq<Step>, s': State)
    requires Inv(store, s) && TrueInv(store, s) && Executes(store, s, steps, s')
    requires forall step <- steps :: TrueStep(store, step)
    ensures Inv(store, s') && TrueInv(store, s')
    decreases |steps|
  {
    if steps != [] {
      TrueStepKeeps(store, s, steps[0]);
      TrueExecutionKeeps(store, Apply(store, s, steps[0]), steps[1..], s');
    }
  }

  /**
  As long as the file stays what it was when the store was opened, every run that sees no
  failed read has delivered every row exactly, over every interleaving and any number of runs.
  */
  lemma EveryRunIsExact(store: Store, s0: State, steps: seq<Step>, s: State)
    requires Reaches(store, s0, steps, s) && forall step <- steps :: TrueStep(store, step)
    requires s.pool.pc.After? && !s.failure.Any()
    ensures s.output == store.WantedAll(s.ids)
  {
    InitInv(store, s0);
    TrueExecutionKeeps(store, s0, steps, s);
    EveryRunDelivers(store, s0, steps, s);
  }

  /** A failure keeps the cache as it was; without one the cache takes the rows just read, in queue order. */
  lemma FinishIsExact(store: Store, s: State, after: bool)
    requires Inv(store, s) && Enabled(store, s, Finish(after))
    ensures var s' := Apply(store, s, Finish(after));
      if after && !s.failure.Any()
      then
        var order := Queue(s.ids, store.lo, store.hi, s.tags, |s.ids|);
        && (forall k :: 0 <= k < |order| ==> order[k] < |s.ids|)
        && !s'.failure.Any() && s'.tags == Retagged(s.tags, s.ids, order)
        && s'.cache == Recached(s.cache, s.ids, order, s.output)
        && SlotsLeft(s.ids, order, s.output, s.tags, s.cache, s'.tags, s'.cache)
      else s'.failure.Any() && s'.tags == s.tags && s'.cache == s.cache
  {
    RefilledSlots(s.ids, s.pool.order, s.output, s.tags, s.cache);
  }

  /** After a run without failures an owned id of its batch is a hit, unless another row took its slot. */
  lemma FinishedIsHit(store: Store, s: State, i: nat)
    requires Inv(store, s) && Enabled(store, s, Finish(true)) && !s.failure.Any()
    requires i < |s.ids| && store.Owned(s.ids[i])
    requires forall j: nat :: j < |s.ids| ==> !TakesSlot(s.ids, store.lo, store.hi, s.tags, i, j)
    ensures var s' := Apply(store, s, Finish(true));
      |s'.tags| == 4096 && !Missing(store.lo, store.hi, s'.tags, s.ids[i])
  {
    var s' := Apply(store, s, Finish(true));
    FinishIsExact(store, s, true);
    NextRunHits(s.ids, store.lo, store.hi, s.output, s.tags, s.cache, s'.tags, s'.cache, i);
  }

  /** When the wait of a run is over, its reads have failed if and only if one that it needed was short. */
  lemma FailsExactly(store: Store, s: State)
    requires Inv(store, s) && s.pool.pc.After?
    ensures s.failure.Any() <==> !store.AllFull(s.ids, s.tags, s.devices)
  {
    if s.failure.Any() {
      var t: nat :| ShortAt(store, s, t);
      assert MissingAt(store, s, s.pool.order[t]);
    } else {
      forall i | 0 <= i < |s.ids| && MissingAt(store, s, i) ensures store.FullRead(s.devices[i], s.ids[i]) {
        var t := EntryOf(s.ids, store.lo, store.hi, s.tags, s.at, i);
        EntryIsRight(store, s, t);
      }
    }
  }

  // --------------------------------------------------------------- progress

  predicate Proper(step: Step) {
    step.First? || step.Start? || step.Look? || step.Settle? || step.Finish? ||
    (step.PoolStep? && Pool.Proper(step.step))
  }

  predicate Wakeup(step: Step) {
    step.PoolStep? && Pool.Wakeup(step.step)
  }

  function Wakeups(steps: seq<Step>): nat {
    if steps == [] then 0 else (if Wakeup(steps[0]) then 1 else 0) + Wakeups(steps[1..])
  }

  lemma HolderIsAtRow(store: Store, s: State, who: Thread)
    requires Inv(store, s) && Holding(s.pool, who).Some?
    ensures AtRow(store, s, who)
  {
    HoldingIsInRun(s.pool, who);
    DistinctEntries(store, s, Holding(s.pool, who).value, Holding(s.pool, who).value);
  }

  /** From the first pass to the end of a run some thread can move without a wakeup. */
  lemma Progress(store: Store, s: State) returns (step: Step)
    requires Inv(store, s) && Busy(s.pool)
    ensures Proper(step) && Enabled(store, s, step)
  {
    if s.pool.pc.Filling? {
      step := if s.at < |s.ids| then First else Start;
    } else if s.pool.pc.After? {
      step := Finish(true);
    } else {
      var p := Pool.Progress(s.pool);
      step := PoolStep(p);
      if !RowFinished(s, p) {
        var who := Actor(p).value;
        HolderIsAtRow(store, s, who);
        step := if s.rows[Index(who)] == Fresh then Look(who) else Settle(who);
      }
    }
  }

  function Left(phase: Phase): nat {
    match phase
    case Fresh => 2
    case Reading => 1
    case Settled => 0
  }

  function AllLeft(rows: seq<Phase>): nat {
    if rows == [] then 0 else Left(rows[0]) + AllLeft(rows[1..])
  }

  lemma {:induction false} LeftUpdate(rows: seq<Phase>, n: nat, phase: Phase)
    requires n < |rows|
    ensures AllLeft(rows[n := phase]) == AllLeft(rows) - Left(rows[n]) + Left(phase)
  {
    if n > 0 {
      assert rows[n := phase][1..] == rows[1..][n - 1 := phase];
      LeftUpdate(rows[1..], n - 1, phase);
    } else {
      assert rows[n := phase][1..] == rows[1..];
    }
  }

  function Measure(s: State): nat {
    3 * Pool.Measure(s.pool) + AllLeft(s.rows)
  }

  lemma StepBound(store: Store, s: State, step: Step)
    requires Inv(store, s) && Enabled(store, s, step) && Pool.InRun(s.pool.pc)
    requires (Proper(step) || Wakeup(step)) && !step.Finish?
    ensures var s' := Apply(store, s, step);
      Pool.InRun(s'.pool.pc) && Measure(s') < Measure(s) + 30 * Wakeups([step])
  {
    match step {
      case PoolStep(p) =>
        PoolEffect(s.pool, p);
        Pool.StepBound(s.pool, p);
        assert Pool.Wakeups([p]) == Wakeups([step]);
        if Actor(p).Some? && Index(Actor(p).value) < |s.rows| {
          LeftUpdate(s.rows, Index(Actor(p).value), Fresh);
        }
      case Look(who) =>
        LeftUpdate(s.rows, Index(who), if s.failure.Any() then Settled else Reading);
      case Settle(who) =>
        LeftUpdate(s.rows, Index(who), Settled);
      case _ =>
    }
  }

  /**
  The service of a run ends: an execution with n wakeups has at most Measure + 30n steps,
  and can only stop when every queue entry has been settled.
  */
  lemma {:induction false} EveryRunEnds(store: Store, s: State, steps: seq<Step>, s': State)
    requires Inv(store, s) && Executes(store, s, steps, s') && Pool.InRun(s.pool.pc)
    requires forall i :: 0 <= i < |steps| ==> (Proper(steps[i]) || Wakeup(steps[i])) && !steps[i].Finish?
    ensures |steps| <= Measure(s) + 30 * Wakeups(steps)
    ensures Inv(store, s')
    ensures (forall step :: Proper(step) && !step.Finish? ==> !Enabled(store, s', step)) ==> s'.pool.pc.After?
    decreases |steps|
  {
    if steps != [] {
      StepKeeps(store, s, steps[0]);
      StepBound(store, s, steps[0]);
      EveryRunEnds(store, Apply(store, s, steps[0]), steps[1..], s');
    } else if !s.pool.pc.After? {
      var step := Progress(store, s);
    }
  }
}
