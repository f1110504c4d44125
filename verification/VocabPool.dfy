/**
The helper threads of the vocabulary row store (`Store::run`, `Store::drain` and
`Store::loop`). Unlike the Engram pool this one counts the workers that have joined a
job, not the chunks that are left, and closes the job before it waits.

One step is one access to `next`, one store to the shared queue, or one critical section
under `job_mutex`. `notify_one` on `ready` and spurious wakeups are both covered by
letting a sleeping worker wake at any time; signals on `done` are tracked exactly.
*/
module VocabPool {
  import opened Prelude
  import opened Threads

  datatype CallerPc =
    | Idle
    | Filling                // under `caller`, writing order and order_count
    | Serial(k: nat)         // no helpers: about to read queue entry k
    | Publish(stage: nat)    // 0 wants job_mutex; 1..3 holds it, before the stage-th store
    | CallerDrain(d: Drain)
    | Close                  // wants job_mutex to clear `job` and test `remaining`
    | Asleep                 // waits on `done`
    | Recheck                // woken, wants job_mutex to test `remaining` again
    | After                  // queue served; reads `order` to fill the cache

  datatype Drain = Ticket | Serving(t: nat)

  datatype WorkerPc =
    | Locking
    | WorkerAsleep
    | WorkerDrain(run: nat, d: Drain)
    | Leaving(run: nat)

  datatype Worker = Worker(pc: WorkerPc, seen: nat)

  datatype Join = Join(w: nat, run: nat)

  /**
  Shared state and history: `runs` holds the queue length of every run that reached
  service, `done` and `holder` the tickets of the latest parallel run that are served or
  claimed, `served` and `joins` every row read and every worker's entry into a job.
  */
  datatype State = State(
    pc: CallerPc, workers: seq<Worker>,
    order: seq<nat>, job: Option<nat>, next: nat, remaining: int, generation: nat,
    runs: seq<nat>, done: set<nat>, holder: map<nat, Thread>,
    served: multiset<Service>, joins: multiset<Join>)

  datatype Step =
    | Acquire
    | Queue(index: nat)
    | EndFill
    | CallerStep
    | CallerSpurious
    | WorkerStep(w: nat)
    | WorkerSpurious(w: nat)

  ghost predicate Init(s: State) {
    && s.pc == Idle && s.job == None && s.order == [] && s.runs == []
    && s.next == 0 && s.remaining == 0 && s.generation == 0
    && s.done == {} && s.holder == map[] && s.served == multiset{} && s.joins == multiset{}
    && (forall w :: 0 <= w < |s.workers| ==> s.workers[w] == Worker(Locking, 0))
  }

  // ------------------------------------------------------------------ steps

  predicate HoldsMutex(pc: CallerPc) {
    pc.Publish? && pc.stage > 0
  }

  predicate Inside(k: Worker) {
    k.pc.WorkerDrain? || k.pc.Leaving?
  }

  predicate Enabled(s: State, step: Step) {
    match step
    case Acquire => s.pc.Idle?
    case Queue(_) => s.pc.Filling?
    case EndFill => s.pc.Filling?
    case CallerStep =>
      && !s.pc.Idle? && !s.pc.Filling? && !s.pc.Asleep?
      && |s.runs| > 0
      && (s.pc.CallerDrain? && s.pc.d.Serving? ==> s.pc.d.t < |s.order|)
    case CallerSpurious => s.pc.Asleep?
    case WorkerStep(w) =>
      && w < |s.workers|
      && !s.workers[w].pc.WorkerAsleep?
      && (!s.workers[w].pc.WorkerDrain? ==> !HoldsMutex(s.pc))
      && (s.workers[w].pc.WorkerDrain? && s.workers[w].pc.d.Serving? ==>
            s.workers[w].pc.d.t < |s.order|)
    case WorkerSpurious(w) => w < |s.workers| && s.workers[w].pc.WorkerAsleep?
  }

  function Claim(s: State, who: Thread): State {
    if s.next < |s.order| then s.(next := s.next + 1, holder := s.holder[s.next := who])
    else s.(next := s.next + 1)
  }

  function AfterClaim(s: State): Option<Drain> {
    if s.next < |s.order| then Some(Serving(s.next)) else None
  }

  /** row(work, order[t], scratch) by the thread that claimed ticket t. */
  function Serve(s: State, run: nat, t: nat): State {
    s.(served := s.served + multiset{Service(run, t)}, done := s.done + {t}, holder := s.holder - {t})
  }

  function CallerApply(s: State): State
    requires Enabled(s, CallerStep)
  {
    var run := |s.runs| - 1;
    match s.pc
    case Serial(k) =>
      if k < |s.order| then s.(pc := Serial(k + 1), served := s.served + multiset{Service(run, k)})
      else s.(pc := After)
    case Publish(0) => s.(pc := Publish(1))
    case Publish(1) => s.(pc := Publish(2), job := Some(run))
    case Publish(2) => s.(pc := Publish(3), next := 0, done := {}, holder := map[])
    case Publish(_) => s.(pc := CallerDrain(Ticket), generation := s.generation + 1)
    case CallerDrain(Ticket) =>
      var d := AfterClaim(s);
      Claim(s, TheCaller).(pc := if d.Some? then CallerDrain(d.value) else Close)
    case CallerDrain(Serving(t)) => Serve(s, run, t).(pc := CallerDrain(Ticket))
    case Close => s.(pc := if s.remaining == 0 then After else Asleep, job := None)
    case Recheck => s.(pc := if s.remaining == 0 then After else Asleep)
    case After => s.(pc := Idle)
    case _ => s
  }

  function WorkerApply(s: State, w: nat): State
    requires Enabled(s, WorkerStep(w))
  {
    var k := s.workers[w];
    match k.pc
    case Locking =>
      if s.job.Some? && s.generation != k.seen
      then s.(workers := s.workers[w := Worker(WorkerDrain(s.job.value, Ticket), s.generation)],
              remaining := s.remaining + 1, joins := s.joins + multiset{Join(w, s.job.value)})
      else s.(workers := s.workers[w := k.(pc := WorkerAsleep)])
    case WorkerDrain(run, Ticket) =>
      var d := AfterClaim(s);
      var pc := if d.Some? then WorkerDrain(run, d.value) else Leaving(run);
      Claim(s, TheWorker(w)).(workers := s.workers[w := k.(pc := pc)])
    case WorkerDrain(run, Serving(t)) =>
      Serve(s, run, t).(workers := s.workers[w := k.(pc := WorkerDrain(run, Ticket))])
    case Leaving(_) =>
      s.(workers := s.workers[w := k.(pc := Locking)], remaining := s.remaining - 1,
         pc := if s.remaining == 1 && s.pc.Asleep? then Recheck else s.pc)
    case WorkerAsleep => s
  }

  function Apply(s: State, step: Step): State
    requires Enabled(s, step)
  {
    match step
    case Acquire => s.(pc := Filling, order := [])
    case Queue(index) => s.(order := s.order + [index])
    case EndFill =>
      s.(runs := s.runs + [|s.order|],
         pc := if |s.order| < 2 || s.workers == [] then Serial(0) else Publish(0))
    case CallerStep => CallerApply(s)
    case CallerSpurious => s.(pc := Recheck)
    case WorkerStep(w) => WorkerApply(s, w)
    case WorkerSpurious(w) => s.(workers := s.workers[w := s.workers[w].(pc := Locking)])
  }

  ghost predicate Executes(s: State, steps: seq<Step>, s': State)
    decreases |steps|
  {
    if steps == [] then s' == s
    else Enabled(s, steps[0]) && Executes(Apply(s, steps[0]), steps[1..], s')
  }

  // -------------------------------------------------------------- invariant

  /** Workers may be inside drain. */
  predicate Shared(pc: CallerPc) {
    pc.CallerDrain? || pc.Close? || pc.Asleep? || pc.Recheck?
  }

  /** The caller's own drain has returned. */
  predicate Drained(pc: CallerPc) {
    pc.Close? || pc.Asleep? || pc.Recheck?
  }

  /** The latest entry of `runs` is the run in progress. */
  predicate InRun(pc: CallerPc) {
    Shared(pc) || pc.Serial? || pc.Publish? || pc.After?
  }

  function Position(s: State, who: Thread): Option<Drain> {
    match who
    case TheCaller => if s.pc.CallerDrain? then Some(s.pc.d) else None
    case TheWorker(w) =>
      if w < |s.workers| && s.workers[w].pc.WorkerDrain? then Some(s.workers[w].pc.d) else None
  }

  function InsideSet(workers: seq<Worker>): set<nat> {
    set w | 0 <= w < |workers| && Inside(workers[w])
  }

  ghost predicate JobInv(s: State) {
    && (InRun(s.pc) ==> |s.runs| > 0 && s.runs[|s.runs| - 1] == |s.order|)
    && (s.pc.Publish? ==> s.pc.stage <= 3)
    && s.job == (if s.pc.CallerDrain? || s.pc.Close? || (s.pc.Publish? && s.pc.stage >= 2)
                 then Some(|s.runs| - 1) else None)
    && (s.pc.Publish? && s.pc.stage >= 3 ==> s.next == 0 && s.done == {} && s.holder == map[])
    && (s.pc.Serial? ==> s.pc.k <= |s.order|)
    && (Drained(s.pc) ==> s.next >= |s.order|)
    && (s.pc.Asleep? ==> s.remaining > 0)
  }

  ghost predicate WorkerInv(s: State) {
    && s.remaining == |InsideSet(s.workers)|
    && (forall w :: 0 <= w < |s.workers| && Inside(s.workers[w]) ==>
          Shared(s.pc) && s.workers[w].pc.run == |s.runs| - 1 && s.workers[w].seen == s.generation)
  }

  /** A claimed ticket is served, or held by exactly the thread that claimed it. */
  ghost predicate TicketInv(s: State) {
    Shared(s.pc) ==>
      && (forall t: nat :: t in s.holder <==> t < s.next && t < |s.order| && t !in s.done)
      && (forall t: nat :: t in s.done ==> t < s.next && t < |s.order|)
      && (forall who, t :: Position(s, who) == Some(Serving(t)) <==> t in s.holder && s.holder[t] == who)
  }

  ghost function Expected(s: State, r: nat, t: nat): nat {
    if r >= |s.runs| then 0
    else if r < |s.runs| - 1 || !InRun(s.pc) || s.pc.After? then (if t < s.runs[r] then 1 else 0)
    else if s.pc.Serial? then (if t < s.pc.k then 1 else 0)
    else if Shared(s.pc) && t in s.done then 1 else 0
  }

  ghost predicate ServiceInv(s: State) {
    forall r, t :: s.served[Service(r, t)] == Expected(s, r, t)
  }

  /** A worker joins a run at most once, and only after having seen its generation. */
  ghost predicate JoinInv(s: State) {
    && (forall w, r :: s.joins[Join(w, r)] <= 1)
    && (forall w, r :: s.joins[Join(w, r)] > 0 ==>
          r < |s.runs| && w < |s.workers|
          && (r == |s.runs| - 1 ==> s.workers[w].seen == s.generation && !s.pc.Publish?))
  }

  ghost predicate Inv(s: State) {
    JobInv(s) && WorkerInv(s) && TicketInv(s) && ServiceInv(s) && JoinInv(s)
  }

  lemma InsideUpdate(workers: seq<Worker>, w: nat, k: Worker)
    requires w < |workers|
    ensures InsideSet(workers[w := k]) ==
            if Inside(k) then InsideSet(workers) + {w} else InsideSet(workers) - {w}
  {
  }

  // ------------------------------------------------------ effects on tickets

  ghost predicate OthersStay(s: State, s': State, who: Thread) {
    && Shared(s.pc) && Shared(s'.pc) && s'.runs == s.runs && s'.order == s.order
    && |s.runs| > 0
    && (forall x :: x != who ==> Position(s', x) == Position(s, x))
  }

  lemma MoveKeeps(s: State, s': State, who: Thread)
    requires TicketInv(s) && ServiceInv(s) && OthersStay(s, s', who)
    requires s'.next == s.next && s'.done == s.done && s'.holder == s.holder && s'.served == s.served
    requires Position(s, who) == None || Position(s, who) == Some(Ticket)
    requires Position(s', who) == None || Position(s', who) == Some(Ticket)
    ensures TicketInv(s') && ServiceInv(s')
  {
    forall x, t ensures Position(s', x) == Some(Serving(t)) <==> Position(s, x) == Some(Serving(t)) {}
    forall r, t ensures Expected(s', r, t) == Expected(s, r, t) {}
  }

  lemma ClaimKeeps(s: State, s': State, who: Thread)
    requires TicketInv(s) && ServiceInv(s) && OthersStay(s, s', who)
    requires s'.next == s.next + 1 && s'.done == s.done && s'.served == s.served
    requires Position(s, who) == Some(Ticket) && Position(s', who) == AfterClaim(s)
    requires s'.holder == Claim(s, who).holder
    ensures TicketInv(s') && ServiceInv(s')
  {
    forall r, t ensures Expected(s', r, t) == Expected(s, r, t) {}
    forall x, t ensures Position(s', x) == Some(Serving(t)) <==> t in s'.holder && s'.holder[t] == x {
      assert Position(s, x) == Some(Serving(t)) <==> t in s.holder && s.holder[t] == x;
    }
  }

  lemma ServeKeeps(s: State, s': State, who: Thread, t: nat)
    requires TicketInv(s) && ServiceInv(s) && OthersStay(s, s', who)
    requires Position(s, who) == Some(Serving(t)) && Position(s', who) == Some(Ticket)
    requires s'.next == s.next && s'.done == s.done + {t} && s'.holder == s.holder - {t}
    requires s'.served == s.served + multiset{Service(|s.runs| - 1, t)}
    ensures TicketInv(s') && ServiceInv(s')
  {
    assert t in s.holder && s.holder[t] == who;
    forall x, u ensures Position(s', x) == Some(Serving(u)) <==> u in s'.holder && s'.holder[u] == x {
      assert Position(s, x) == Some(Serving(u)) <==> u in s.holder && s.holder[u] == x;
    }
    forall r, u ensures s'.served[Service(r, u)] == Expected(s', r, u) {
      assert s.served[Service(r, u)] == Expected(s, r, u);
    }
  }

  // ---------------------------------------------------- steps keep invariants

  lemma InitInv(s: State)
    requires Init(s)
    ensures Inv(s)
  {
    assert InsideSet(s.workers) == {};
  }

  lemma FillKeeps(s: State, step: Step)
    requires Inv(s) && Enabled(s, step) && (step.Acquire? || step.Queue? || step.EndFill?)
    ensures Inv(Apply(s, step))
  {
    var s' := Apply(s, step);
    forall r, t ensures s'.served[Service(r, t)] == Expected(s', r, t) {
      assert s.served[Service(r, t)] == Expected(s, r, t);
    }
  }

  lemma SerialKeeps(s: State)
    requires Inv(s) && Enabled(s, CallerStep) && s.pc.Serial?
    ensures Inv(Apply(s, CallerStep))
  {
    var s' := Apply(s, CallerStep);
    forall r, t ensures s'.served[Service(r, t)] == Expected(s', r, t) {
      assert s.served[Service(r, t)] == Expected(s, r, t);
    }
  }

  lemma PublishKeeps(s: State)
    requires Inv(s) && Enabled(s, CallerStep) && s.pc.Publish?
    ensures Inv(Apply(s, CallerStep))
  {
    var s' := Apply(s, CallerStep);
    forall r, t ensures s'.served[Service(r, t)] == Expected(s', r, t) {
      assert s.served[Service(r, t)] == Expected(s, r, t);
    }
    forall who, t ensures Position(s, who) != Some(Serving(t)) {
      assert who.TheWorker? && who.w < |s.workers| ==> !Inside(s.workers[who.w]);
    }
    if Shared(s'.pc) {
      forall who, t ensures Position(s', who) != Some(Serving(t)) {
        assert who.TheWorker? ==> Position(s', who) == Position(s, who);
      }
    }
  }

  lemma CallerTicketKeeps(s: State)
    requires Inv(s) && Enabled(s, CallerStep) && s.pc == CallerDrain(Ticket)
    ensures Inv(Apply(s, CallerStep))
  {
    ClaimKeeps(s, Apply(s, CallerStep), TheCaller);
  }

  lemma CallerServeKeeps(s: State)
    requires Inv(s) && Enabled(s, CallerStep) && s.pc.CallerDrain? && s.pc.d.Serving?
    ensures Inv(Apply(s, CallerStep))
  {
    ServeKeeps(s, Apply(s, CallerStep), TheCaller, s.pc.d.t);
  }

  /** With no worker inside and the caller drained, every queue entry has been served. */
  lemma AllServed(s: State)
    requires Inv(s) && Drained(s.pc) && s.remaining == 0
    ensures forall t: nat :: t in s.done <==> t < |s.order|
    ensures forall w :: 0 <= w < |s.workers| ==> !Inside(s.workers[w])
  {
    forall w | 0 <= w < |s.workers| ensures !Inside(s.workers[w]) {
      assert w !in InsideSet(s.workers);
    }
    forall t: nat | t < |s.order| ensures t in s.done {
      assert t !in s.holder || Position(s, s.holder[t]) == Some(Serving(t));
    }
  }

  lemma WaitKeeps(s: State)
    requires Inv(s) && Enabled(s, CallerStep) && (s.pc.Close? || s.pc.Recheck?)
    ensures Inv(Apply(s, CallerStep))
  {
    var s' := Apply(s, CallerStep);
    if s.remaining == 0 {
      AllServed(s);
      forall r, t ensures s'.served[Service(r, t)] == Expected(s', r, t) {
        assert s.served[Service(r, t)] == Expected(s, r, t);
      }
    } else {
      MoveKeeps(s, s', TheCaller);
    }
  }

  lemma AfterKeeps(s: State)
    requires Inv(s) && Enabled(s, CallerStep) && s.pc.After?
    ensures Inv(Apply(s, CallerStep))
  {
    var s' := Apply(s, CallerStep);
    forall r, t ensures s'.served[Service(r, t)] == Expected(s', r, t) {
      assert s.served[Service(r, t)] == Expected(s, r, t);
    }
  }

  lemma WorkerMoves(s: State, s': State, w: nat)
    requires JobInv(s) && WorkerInv(s) && w < |s.workers| == |s'.workers|
    requires s'.workers == s.workers[w := s'.workers[w]]
    requires s'.runs == s.runs && Shared(s'.pc) == Shared(s.pc) && s'.generation == s.generation
    requires Inside(s'.workers[w]) ==>
      Shared(s.pc) && s'.workers[w].pc.run == |s.runs| - 1 && s'.workers[w].seen == s.generation
    requires s'.remaining == s.remaining + (if Inside(s'.workers[w]) then 1 else 0)
                                         - (if Inside(s.workers[w]) then 1 else 0)
    ensures WorkerInv(s')
    ensures Inside(s.workers[w]) ==> s.remaining >= 1
  {
    InsideUpdate(s.workers, w, s'.workers[w]);
    if Inside(s.workers[w]) {
      assert w in InsideSet(s.workers);
    }
  }

  lemma UnsharedMove(s: State, s': State)
    requires ServiceInv(s) && !Shared(s.pc) && s'.pc == s.pc
    requires s'.runs == s.runs && s'.served == s.served
    ensures TicketInv(s') && ServiceInv(s')
  {
    forall r, t ensures s'.served[Service(r, t)] == Expected(s', r, t) {
      assert s.served[Service(r, t)] == Expected(s, r, t);
    }
  }

  lemma WorkerLockingKeeps(s: State, w: nat)
    requires Inv(s) && Enabled(s, WorkerStep(w)) && s.workers[w].pc.Locking?
    ensures Inv(Apply(s, WorkerStep(w)))
  {
    var s' := Apply(s, WorkerStep(w));
    WorkerMoves(s, s', w);
    if Shared(s.pc) {
      MoveKeeps(s, s', TheWorker(w));
    } else {
      UnsharedMove(s, s');
    }
  }

  lemma WorkerLeavingKeeps(s: State, w: nat)
    requires Inv(s) && Enabled(s, WorkerStep(w)) && s.workers[w].pc.Leaving?
    ensures Inv(Apply(s, WorkerStep(w)))
  {
    var s' := Apply(s, WorkerStep(w));
    WorkerMoves(s, s', w);
    MoveKeeps(s, s', TheWorker(w));
  }

  lemma WorkerDrainKeeps(s: State, w: nat)
    requires Inv(s) && Enabled(s, WorkerStep(w)) && s.workers[w].pc.WorkerDrain?
    ensures Inv(Apply(s, WorkerStep(w)))
  {
    var s' := Apply(s, WorkerStep(w));
    WorkerMoves(s, s', w);
    match s.workers[w].pc.d
    case Ticket => ClaimKeeps(s, s', TheWorker(w));
    case Serving(t) => ServeKeeps(s, s', TheWorker(w), t);
  }

  lemma SpuriousKeeps(s: State, step: Step)
    requires Inv(s) && Enabled(s, step) && (step.CallerSpurious? || step.WorkerSpurious?)
    ensures Inv(Apply(s, step))
  {
    var s' := Apply(s, step);
    if step.CallerSpurious? {
      MoveKeeps(s, s', TheCaller);
    } else {
      WorkerMoves(s, s', step.w);
      if Shared(s.pc) {
        MoveKeeps(s, s', TheWorker(step.w));
      } else {
        UnsharedMove(s, s');
      }
    }
  }

  lemma CallerStepKeeps(s: State)
    requires Inv(s) && Enabled(s, CallerStep)
    ensures Inv(Apply(s, CallerStep))
  {
    match s.pc
    case Serial(_) => SerialKeeps(s);
    case Publish(_) => PublishKeeps(s);
    case CallerDrain(Ticket) => CallerTicketKeeps(s);
    case CallerDrain(Serving(_)) => CallerServeKeeps(s);
    case Close => WaitKeeps(s);
    case Recheck => WaitKeeps(s);
    case After => AfterKeeps(s);
  }

  lemma WorkerStepKeeps(s: State, w: nat)
    requires Inv(s) && Enabled(s, WorkerStep(w))
    ensures Inv(Apply(s, WorkerStep(w)))
  {
    match s.workers[w].pc
    case Locking => WorkerLockingKeeps(s, w);
    case Leaving(_) => WorkerLeavingKeeps(s, w);
    case WorkerDrain(_, _) => WorkerDrainKeeps(s, w);
  }

  lemma StepKeeps(s: State, step: Step)
    requires Inv(s) && Enabled(s, step)
    ensures Inv(Apply(s, step))
  {
    match step
    case CallerStep => CallerStepKeeps(s);
    case WorkerStep(w) => WorkerStepKeeps(s, w);
    case CallerSpurious => SpuriousKeeps(s, step);
    case WorkerSpurious(w) => SpuriousKeeps(s, step);
    case _ => FillKeeps(s, step);
  }

  lemma {:induction false} ExecutionKeeps(s: State, steps: seq<Step>, s': State)
    requires Inv(s) && Executes(s, steps, s')
    ensures Inv(s')
    decreases |steps|
  {
    if steps != [] {
      StepKeeps(s, steps[0]);
      ExecutionKeeps(Apply(s, steps[0]), steps[1..], s');
    }
  }

  // ----------------------------------------------------------------- safety

  ghost predicate Returned(s: State, run: nat) {
    run < |s.runs| && (run < |s.runs| - 1 || !InRun(s.pc) || s.pc.After?)
  }

  /**
  In every execution no queued row is read twice, and once the wait is over (before the
  cache is filled from the outputs) every queue entry has been read.
  */
  lemma ServedExactlyOnce(s0: State, steps: seq<Step>, s: State, run: nat, t: nat)
    requires Init(s0) && Executes(s0, steps, s)
    ensures s.served[Service(run, t)] <= 1
    ensures Returned(s, run) ==> s.served[Service(run, t)] == if t < s.runs[run] then 1 else 0
    ensures s.pc.After? && run + 1 == |s.runs| ==> Returned(s, run) && s.runs[run] == |s.order|
  {
    InitInv(s0);
    ExecutionKeeps(s0, steps, s);
    assert s.served[Service(run, t)] == Expected(s, run, t);
  }

  /** The queue is written only while no helper is inside drain. */
  lemma QueueWritesAreExclusive(s: State, step: Step)
    requires Inv(s) && Enabled(s, step) && Apply(s, step).order != s.order
    ensures s.remaining == 0 && s.job == None
    ensures forall w :: 0 <= w < |s.workers| ==> !Inside(s.workers[w])
  {
    assert InsideSet(s.workers) == {};
  }

  /** A helper joins only the job that is still open, and the same job at most once. */
  lemma JoinsOpenJobOnce(s: State, step: Step, w: nat, run: nat)
    requires Inv(s) && Enabled(s, step)
    requires Apply(s, step).joins[Join(w, run)] != s.joins[Join(w, run)]
    ensures s.job == Some(run) && run == |s.runs| - 1 && !Returned(s, run)
    ensures s.pc.CallerDrain? || s.pc.Close?
    ensures s.joins[Join(w, run)] == 0 && Apply(s, step).joins[Join(w, run)] == 1
  {
    assert s.joins[Join(w, run)] <= 1;
  }

  /** No helper reads a row for a run whose wait is over. */
  lemma NoServiceAfterReturn(s: State, step: Step, run: nat, t: nat)
    requires Inv(s) && Enabled(s, step)
    requires Apply(s, step).served[Service(run, t)] != s.served[Service(run, t)]
    ensures !Returned(s, run) && run == |s.runs| - 1 && t < |s.order|
  {
  }

  /** A waiting caller always has a helper inside drain; the last one to leave wakes it. */
  lemma NoLostWakeup(s0: State, steps: seq<Step>, s: State)
    requires Init(s0) && Executes(s0, steps, s) && s.pc.Asleep?
    ensures exists w :: 0 <= w < |s.workers| && Inside(s.workers[w])
    ensures forall w: nat :: Enabled(s, WorkerStep(w)) && s.workers[w].pc.Leaving? ==>
      Apply(s, WorkerStep(w)).pc == if s.remaining == 1 then Recheck else Asleep
  {
    InitInv(s0);
    ExecutionKeeps(s0, steps, s);
    var w :| w in InsideSet(s.workers);
    assert Inside(s.workers[w]);
  }

  // --------------------------------------------------------------- progress

  function DrainWeight(d: Drain): nat {
    if d.Ticket? then 0 else 8
  }

  function WorkerWeight(k: Worker, generation: nat): nat {
    match k.pc
    case WorkerAsleep => 0
    case Locking => if k.seen == generation then 1 else 9
    case WorkerDrain(_, d) => 8 + DrainWeight(d)
    case Leaving(_) => 7
  }

  function WorkersWeight(workers: seq<Worker>, generation: nat): nat {
    if workers == [] then 0
    else WorkerWeight(workers[0], generation) + WorkersWeight(workers[1..], generation)
  }

  function CallerWeight(s: State): nat {
    match s.pc
    case Idle => 0
    case Filling => 0
    case Serial(k) => 3 + (if k < |s.order| then 2 * (|s.order| - k) else 0)
    case Publish(stage) => 20 * |s.order| + 9 * |s.workers| + 31 + (if stage <= 3 then 3 - stage else 0)
    case CallerDrain(d) => 10 + DrainWeight(d)
    case Close => 6
    case Recheck => 5
    case Asleep => 2
    case After => 1
  }

  function Unclaimed(s: State): nat {
    if Shared(s.pc) && s.next < |s.order| then |s.order| - s.next else 0
  }

  function Measure(s: State): nat {
    CallerWeight(s) + WorkersWeight(s.workers, s.generation) + 20 * Unclaimed(s)
  }

  lemma {:induction false} WeightUpdate(workers: seq<Worker>, generation: nat, w: nat, k: Worker)
    requires w < |workers|
    ensures WorkersWeight(workers[w := k], generation) ==
            WorkersWeight(workers, generation) - WorkerWeight(workers[w], generation)
            + WorkerWeight(k, generation)
  {
    if w > 0 {
      assert workers[w := k][1..] == workers[1..][w - 1 := k];
      WeightUpdate(workers[1..], generation, w - 1, k);
    } else {
      assert workers[w := k][1..] == workers[1..];
    }
  }

  lemma {:induction false} GenerationGrowth(workers: seq<Worker>, g: nat, h: nat)
    requires forall w :: 0 <= w < |workers| ==> !Inside(workers[w])
    ensures WorkersWeight(workers, h) <= WorkersWeight(workers, g) + 9 * |workers|
  {
    if workers != [] {
      GenerationGrowth(workers[1..], g, h);
    }
  }

  predicate Wakeup(step: Step) {
    step.CallerSpurious? || step.WorkerSpurious?
  }

  predicate Proper(step: Step) {
    step.CallerStep? || step.WorkerStep?
  }

  function Wakeups(steps: seq<Step>): nat {
    if steps == [] then 0 else (if Wakeup(steps[0]) then 1 else 0) + Wakeups(steps[1..])
  }

  lemma WorkerStepDecreases(s: State, w: nat)
    requires JobInv(s) && Enabled(s, WorkerStep(w))
    requires Inside(s.workers[w]) ==> Shared(s.pc) && s.workers[w].seen == s.generation
    ensures Measure(Apply(s, WorkerStep(w))) < Measure(s)
  {
    var s' := Apply(s, WorkerStep(w));
    var k' := s'.workers[w];
    WeightUpdate(s.workers, s.generation, w, k');
    assert s'.workers == s.workers[w := k'] && s'.generation == s.generation;
    if s.workers[w].pc.WorkerDrain? && s.workers[w].pc.d.Ticket? {
      assert Unclaimed(s') < Unclaimed(s) || k'.pc.Leaving?;
    } else {
      assert Unclaimed(s') == Unclaimed(s);
      assert CallerWeight(s') <= CallerWeight(s) + 3;
    }
  }

  lemma CallerStepDecreases(s: State)
    requires JobInv(s) && Enabled(s, CallerStep)
    requires s.pc.Publish? ==> forall w :: 0 <= w < |s.workers| ==> !Inside(s.workers[w])
    ensures Measure(Apply(s, CallerStep)) < Measure(s)
  {
    var s' := Apply(s, CallerStep);
    if s'.generation != s.generation {
      GenerationGrowth(s.workers, s.generation, s'.generation);
    }
  }

  lemma WakeupIncreases(s: State, step: Step)
    requires Enabled(s, step) && Wakeup(step)
    ensures Measure(Apply(s, step)) <= Measure(s) + 9
  {
    if step.WorkerSpurious? {
      WeightUpdate(s.workers, s.generation, step.w, s.workers[step.w].(pc := Locking));
    }
  }

  /** While a run is in service some thread can move without any wakeup. */
  lemma Progress(s: State) returns (step: Step)
    requires Inv(s) && InRun(s.pc)
    ensures Proper(step) && Enabled(s, step)
  {
    if s.pc.Asleep? {
      var w :| w in InsideSet(s.workers);
      if Position(s, TheWorker(w)).Some? && Position(s, TheWorker(w)).value.Serving? {
        var t := Position(s, TheWorker(w)).value.t;
        assert t in s.holder;
      }
      step := WorkerStep(w);
    } else {
      if Position(s, TheCaller).Some? && Position(s, TheCaller).value.Serving? {
        var t := Position(s, TheCaller).value.t;
        assert t in s.holder;
      }
      step := CallerStep;
    }
  }

  lemma StepBound(s: State, step: Step)
    requires Inv(s) && Enabled(s, step) && (Proper(step) || Wakeup(step))
    ensures Measure(Apply(s, step)) < Measure(s) + 10 * Wakeups([step])
  {
    match step {
      case CallerStep => CallerStepDecreases(s);
      case WorkerStep(w) => WorkerStepDecreases(s, w);
      case _ => WakeupIncreases(s, step);
    }
  }

  /**
  Progress never depends on a wakeup: an execution with n wakeups has at most
  Measure + 10n steps, and it can only stop outside a run.
  */
  lemma {:induction false} EveryRunReturns(s: State, steps: seq<Step>, s': State)
    requires Inv(s) && Executes(s, steps, s')
    requires forall i :: 0 <= i < |steps| ==> Proper(steps[i]) || Wakeup(steps[i])
    ensures |steps| <= Measure(s) + 10 * Wakeups(steps)
    ensures (forall step :: Proper(step) ==> !Enabled(s', step)) ==> !InRun(s'.pc)
    decreases |steps|
  {
    ExecutionKeeps(s, steps, s');
    if steps != [] {
      StepKeeps(s, steps[0]);
      StepBound(s, steps[0]);
      EveryRunReturns(Apply(s, steps[0]), steps[1..], s');
    }
    if InRun(s'.pc) {
      var step := Progress(s');
    }
  }
}
