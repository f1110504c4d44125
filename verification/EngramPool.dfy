/**
The process-wide pool that serves one Engram lookup at a time
(`Pool::run`, `Pool::drain` and `Pool::loop` of the Engram row store).

The pool is a transition system. One step is one access to a shared atomic, or one
critical section under `mutex_` that touches only mutex-protected state. `caller_`
admits one thread into `run`, so a single program counter stands for whichever
thread holds it; `Idle` means that nobody does.
*/
module EngramPool {
  import opened Prelude
  import opened Threads

  /** Where a thread is inside `drain`. */
  datatype Drain =
    | Ticket                 // before next_.fetch_add
    | Serving(t: nat)        // before serve of chunk t
    | Finishing(t: nat)      // before remaining_.fetch_sub for chunk t
    | Notifying              // before taking mutex_ to signal done_

  datatype CallerPc =
    | Idle
    | Publish(stage: nat)    // 0 wants mutex_; 1..5 holds it, before the stage-th store
    | NotifyReady
    | CallerDrain(d: Drain)
    | WaitLock               // wants mutex_ to evaluate the wait predicate
    | ReadRemaining          // holds mutex_
    | ReadActive             // holds mutex_, has read remaining_ == 0
    | GoSleep                // holds mutex_, predicate was false
    | CallerAsleep
    | Finish                 // holds mutex_, predicate was true

  datatype WorkerPc =
    | Locking                // wants mutex_ at the top of loop()
    | Asleep                 // waits on ready_
    | WorkerDrain(run: nat, d: Drain)
    | Leaving(run: nat)      // drain returned, wants mutex_ to decrement active_

  datatype Worker = Worker(pc: WorkerPc, seen: nat)

  /**
  Shared state, program counters, and four history variables: `runs` (chunk count of
  every run ever begun), `done` and `holder` (tickets of the latest run that are
  subtracted, or claimed and not yet subtracted), and `served`.
  */
  datatype State = State(
    pc: CallerPc, workers: seq<Worker>,
    job: Option<nat>, next: nat, chunks: nat, remaining: int, active: int, generation: nat,
    runs: seq<nat>, done: set<nat>, holder: map<nat, Thread>, served: multiset<Service>)

  datatype Step =
    | Acquire(count: nat)
    | CallerStep
    | CallerSpurious
    | WorkerStep(w: nat)
    | WorkerSpurious(w: nat)

  ghost predicate Init(s: State) {
    && s.pc == Idle && s.job == None
    && s.next == 0 && s.chunks == 0 && s.remaining == 0 && s.active == 0 && s.generation == 0
    && s.runs == [] && s.done == {} && s.holder == map[] && s.served == multiset{}
    && (forall w :: 0 <= w < |s.workers| ==> s.workers[w] == Worker(Locking, 0))
  }

  // ------------------------------------------------------------------ steps

  const CHUNK: nat := 1

  function Chunks(count: nat): nat {
    (count + CHUNK - 1) / CHUNK
  }

  /** mutex_ is kept across steps only by the caller, so it is free when the caller lacks it. */
  predicate HoldsMutex(pc: CallerPc) {
    (pc.Publish? && pc.stage > 0) || pc.ReadRemaining? || pc.ReadActive? || pc.GoSleep? || pc.Finish?
  }

  predicate Inside(k: Worker) {
    k.pc.WorkerDrain? || k.pc.Leaving?
  }

  predicate WorkerNeedsMutex(k: Worker) {
    k.pc.Locking? || k.pc.Leaving? || (k.pc.WorkerDrain? && k.pc.d.Notifying?)
  }

  predicate Enabled(s: State, step: Step) {
    match step
    case Acquire(_) => s.pc.Idle?
    case CallerStep =>
      !s.pc.Idle? && !s.pc.CallerAsleep? && |s.runs| > 0 && (s.pc.Publish? ==> s.pc.stage <= 5)
    case CallerSpurious => s.pc.CallerAsleep?
    case WorkerStep(w) =>
      && w < |s.workers|
      && !s.workers[w].pc.Asleep?
      && (WorkerNeedsMutex(s.workers[w]) ==> !HoldsMutex(s.pc))
    case WorkerSpurious(w) => w < |s.workers| && s.workers[w].pc.Asleep?
  }

  function WakeAll(workers: seq<Worker>): (r: seq<Worker>)
    ensures |r| == |workers|
    ensures forall w :: 0 <= w < |r| ==>
      r[w] == if workers[w].pc.Asleep? then workers[w].(pc := Locking) else workers[w]
  {
    seq(|workers|, w requires 0 <= w < |workers| =>
      if workers[w].pc.Asleep? then workers[w].(pc := Locking) else workers[w])
  }

  /** done_.notify_one(): only the holder of caller_ ever waits on done_. */
  function NotifyDone(pc: CallerPc): CallerPc {
    if pc.CallerAsleep? then WaitLock else pc
  }

  /** next_.fetch_add(1) by `who`; the outcome is None when the ticket is past the end. */
  function Claim(s: State, who: Thread): (State, Option<nat>) {
    if s.next < s.chunks
    then (s.(next := s.next + 1, holder := s.holder[s.next := who]), Some(s.next))
    else (s.(next := s.next + 1), None)
  }

  /** remaining_.fetch_sub(1) for ticket t. */
  function Subtract(s: State, t: nat): State {
    s.(remaining := s.remaining - 1, done := s.done + {t}, holder := s.holder - {t})
  }

  function Record(s: State, run: nat, t: nat): State {
    s.(served := s.served + multiset{Service(run, t)})
  }

  function CallerApply(s: State): State
    requires Enabled(s, CallerStep)
  {
    var run := |s.runs| - 1;
    match s.pc
    case Publish(stage) =>
      (match stage
       case 0 => s.(pc := Publish(1))
       case 1 => s.(pc := Publish(2), job := Some(run))
       case 2 => s.(pc := Publish(3), next := 0)
       case 3 => s.(pc := Publish(4), chunks := s.runs[run])
       case 4 => s.(pc := Publish(5), remaining := s.runs[run], done := {}, holder := map[])
       case _ => s.(pc := NotifyReady, generation := s.generation + 1))
    case NotifyReady => s.(pc := CallerDrain(Ticket), workers := WakeAll(s.workers))
    case CallerDrain(d) =>
      (match d
       case Ticket =>
         var (s', ticket) := Claim(s, TheCaller);
         s'.(pc := if ticket.Some? then CallerDrain(Serving(ticket.value)) else WaitLock)
       case Serving(t) => Record(s, run, t).(pc := CallerDrain(Finishing(t)))
       case Finishing(t) =>
         Subtract(s, t).(pc := CallerDrain(if s.remaining == 1 then Notifying else Ticket))
       case Notifying => s.(pc := CallerDrain(Ticket)))
    case WaitLock => s.(pc := ReadRemaining)
    case ReadRemaining => s.(pc := if s.remaining == 0 then ReadActive else GoSleep)
    case ReadActive => s.(pc := if s.active == 0 then Finish else GoSleep)
    case GoSleep => s.(pc := CallerAsleep)
    case Finish => s.(pc := Idle, job := None)
    case _ => s
  }

  function WorkerApply(s: State, w: nat): State
    requires Enabled(s, WorkerStep(w))
  {
    var k := s.workers[w];
    match k.pc
    case Locking =>
      if s.generation == k.seen then s.(workers := s.workers[w := k.(pc := Asleep)])
      else if s.job.None? then s.(workers := s.workers[w := Worker(Locking, s.generation)])
      else s.(workers := s.workers[w := Worker(WorkerDrain(s.job.value, Ticket), s.generation)],
              active := s.active + 1)
    case WorkerDrain(run, d) =>
      (match d
       case Ticket =>
         var (s', ticket) := Claim(s, TheWorker(w));
         var pc := if ticket.Some? then WorkerDrain(run, Serving(ticket.value)) else Leaving(run);
         s'.(workers := s.workers[w := k.(pc := pc)])
       case Serving(t) =>
         Record(s, run, t).(workers := s.workers[w := k.(pc := WorkerDrain(run, Finishing(t)))])
       case Finishing(t) =>
         var pc := WorkerDrain(run, if s.remaining == 1 then Notifying else Ticket);
         Subtract(s, t).(workers := s.workers[w := k.(pc := pc)])
       case Notifying =>
         s.(workers := s.workers[w := k.(pc := WorkerDrain(run, Ticket))], pc := NotifyDone(s.pc)))
    case Leaving(_) =>
      s.(workers := s.workers[w := k.(pc := Locking)], active := s.active - 1, pc := NotifyDone(s.pc))
    case Asleep => s
  }

  function Apply(s: State, step: Step): State
    requires Enabled(s, step)
  {
    match step
    case Acquire(count) => s.(pc := Publish(0), runs := s.runs + [Chunks(count)])
    case CallerStep => CallerApply(s)
    case CallerSpurious => s.(pc := WaitLock)
    case WorkerStep(w) => WorkerApply(s, w)
    case WorkerSpurious(w) => s.(workers := s.workers[w := s.workers[w].(pc := Locking)])
  }

  /** `steps` is an execution from `s` to `s'`. */
  ghost predicate Executes(s: State, steps: seq<Step>, s': State)
    decreases |steps|
  {
    if steps == [] then s' == s
    else Enabled(s, steps[0]) && Executes(Apply(s, steps[0]), steps[1..], s')
  }

  // -------------------------------------------------------------- invariant

  /** The caller has published the latest run and has not yet returned from it. */
  predicate Published(pc: CallerPc) {
    !pc.Idle? && !pc.Publish?
  }

  predicate CallerDone(pc: CallerPc) {
    Published(pc) && !pc.NotifyReady? && !pc.CallerDrain?
  }

  /** Where `who` is inside drain, if it is there. */
  function Position(s: State, who: Thread): Option<Drain> {
    match who
    case TheCaller => if s.pc.CallerDrain? then Some(s.pc.d) else None
    case TheWorker(w) =>
      if w < |s.workers| && s.workers[w].pc.WorkerDrain? then Some(s.workers[w].pc.d) else None
  }

  predicate Holds(s: State, who: Thread, t: nat) {
    Position(s, who) == Some(Serving(t)) || Position(s, who) == Some(Finishing(t))
  }

  /** `who` has executed serve for t but not yet the subtraction. */
  predicate Served(s: State, who: Thread, t: nat) {
    Position(s, who) == Some(Finishing(t))
  }

  function InsideSet(workers: seq<Worker>): set<nat> {
    set w | 0 <= w < |workers| && Inside(workers[w])
  }

  /** The tickets of a run with n chunks. */
  function Below(n: nat): (r: set<nat>)
    ensures forall t: nat :: t in r <==> t < n
    ensures |r| == n
  {
    if n == 0 then {} else Below(n - 1) + {n - 1}
  }

  ghost predicate JobInv(s: State) {
    && (!s.pc.Idle? ==> |s.runs| > 0)
    && (s.pc.Publish? ==> s.pc.stage <= 5)
    && s.job == (if Published(s.pc) || (s.pc.Publish? && s.pc.stage >= 2) then Some(|s.runs| - 1) else None)
    && (s.pc.Publish? && s.pc.stage >= 3 ==> s.next == 0)
    && (s.pc.Publish? && s.pc.stage >= 4 ==> s.chunks == s.runs[|s.runs| - 1])
    && (s.pc.Publish? && s.pc.stage >= 5 ==> s.remaining == s.chunks && s.done == {} && s.holder == map[])
  }

  /** Workers inside drain are counted, and all of them work on the run being waited for. */
  ghost predicate WorkerInv(s: State) {
    && s.active == |InsideSet(s.workers)|
    && (forall w :: 0 <= w < |s.workers| && Inside(s.workers[w]) ==>
          Published(s.pc) && s.workers[w].pc.run == |s.runs| - 1 && s.workers[w].seen == s.generation)
  }

  /** Every claimed ticket is subtracted or held by exactly one thread. */
  ghost predicate TicketInv(s: State) {
    Published(s.pc) ==>
      && |s.runs| > 0
      && s.chunks == s.runs[|s.runs| - 1]
      && s.done <= Below(s.chunks)
      && s.remaining == s.chunks - |s.done|
      && (forall t: nat :: t in s.holder <==> t < s.next && t < s.chunks && t !in s.done)
      && (forall t: nat :: t in s.done ==> t < s.next)
      && (forall who, t :: Holds(s, who, t) <==> t in s.holder && s.holder[t] == who)
  }

  ghost predicate WaitInv(s: State) {
    && (CallerDone(s.pc) ==> s.next >= s.chunks)
    && (s.pc.ReadActive? ==> s.remaining == 0)
    && (s.pc.GoSleep? || s.pc.CallerAsleep? ==> s.active > 0)
    && (s.pc.Finish? ==> s.remaining == 0 && s.active == 0)
  }

  /** How often chunk t of run r has been served by now. */
  ghost function Expected(s: State, r: nat, t: nat): nat {
    if r >= |s.runs| then 0
    else if r < |s.runs| - 1 || s.pc.Idle? then (if t < s.runs[r] then 1 else 0)
    else if !Published(s.pc) then 0
    else if t in s.done || (t in s.holder && Served(s, s.holder[t], t)) then 1 else 0
  }

  ghost predicate ServiceInv(s: State) {
    forall r, t :: s.served[Service(r, t)] == Expected(s, r, t)
  }

  ghost predicate Inv(s: State) {
    JobInv(s) && WorkerInv(s) && TicketInv(s) && WaitInv(s) && ServiceInv(s)
  }

  // ------------------------------------------------------------- set facts

  lemma InsideUpdate(workers: seq<Worker>, w: nat, k: Worker)
    requires w < |workers|
    ensures InsideSet(workers[w := k]) ==
            if Inside(k) then InsideSet(workers) + {w} else InsideSet(workers) - {w}
  {
  }

  lemma FullSet(a: set<nat>, n: nat)
    requires a <= Below(n) && |a| == n
    ensures a == Below(n)
  {
    if exists t :: t in Below(n) && t !in a {
      var t :| t in Below(n) && t !in a;
      var rest := Below(n) - {t};
      SubsetSize(a, rest);
    }
  }

  // ------------------------------------------------------ effects on tickets

  /** Only `who` may have moved inside drain. */
  ghost predicate OthersStay(s: State, s': State, who: Thread) {
    && Published(s.pc) && Published(s'.pc) && s'.runs == s.runs && s'.chunks == s.chunks
    && (forall x :: x != who ==> Position(s', x) == Position(s, x))
  }

  ghost predicate SameTickets(s: State, s': State) {
    && s'.next == s.next && s'.remaining == s.remaining
    && s'.done == s.done && s'.holder == s.holder
  }

  lemma MoveKeeps(s: State, s': State, who: Thread)
    requires TicketInv(s) && ServiceInv(s) && OthersStay(s, s', who) && SameTickets(s, s')
    requires s'.served == s.served
    requires forall t :: !Holds(s, who, t) && !Holds(s', who, t)
    ensures TicketInv(s') && ServiceInv(s')
  {
    forall x, t ensures Holds(s', x, t) == Holds(s, x, t) && Served(s', x, t) == Served(s, x, t) {
      if x == who {
        assert !Holds(s, who, t) && !Holds(s', who, t);
      }
    }
    forall r, t ensures Expected(s', r, t) == Expected(s, r, t) {}
  }

  lemma ClaimKeeps(s: State, s': State, who: Thread)
    requires TicketInv(s) && ServiceInv(s) && OthersStay(s, s', who)
    requires s'.next == s.next + 1 && s'.remaining == s.remaining && s'.done == s.done
    requires s'.served == s.served
    requires Position(s, who) == Some(Ticket)
    requires s.next < s.chunks ==>
      Position(s', who) == Some(Serving(s.next)) && s'.holder == s.holder[s.next := who]
    requires s.next >= s.chunks ==> Position(s', who) == None && s'.holder == s.holder
    ensures TicketInv(s') && ServiceInv(s')
  {
    forall r, t ensures Expected(s', r, t) == Expected(s, r, t) {
      if t in s.holder && t != s.next {
        assert Holds(s, s.holder[t], t);
      }
    }
    forall x, t ensures Holds(s', x, t) <==> t in s'.holder && s'.holder[t] == x {
      assert Holds(s, x, t) <==> t in s.holder && s.holder[t] == x;
    }
  }

  lemma ServeKeeps(s: State, s': State, who: Thread, t: nat)
    requires TicketInv(s) && ServiceInv(s) && OthersStay(s, s', who) && SameTickets(s, s')
    requires Position(s, who) == Some(Serving(t)) && Position(s', who) == Some(Finishing(t))
    requires s'.served == s.served + multiset{Service(|s.runs| - 1, t)}
    ensures TicketInv(s') && ServiceInv(s')
  {
    assert Holds(s, who, t);
    forall x, u ensures Holds(s', x, u) == Holds(s, x, u) {}
    forall r, u ensures s'.served[Service(r, u)] == Expected(s', r, u) {
      assert s.served[Service(r, u)] == Expected(s, r, u);
      if r == |s.runs| - 1 && u in s.holder && u != t {
        assert Holds(s, s.holder[u], u);
      }
    }
  }

  lemma SubtractKeeps(s: State, s': State, who: Thread, t: nat)
    requires TicketInv(s) && ServiceInv(s) && OthersStay(s, s', who)
    requires Position(s, who) == Some(Finishing(t))
    requires Position(s', who) == Some(Ticket) || Position(s', who) == Some(Notifying)
    requires s'.next == s.next && s'.remaining == s.remaining - 1
    requires s'.done == s.done + {t} && s'.holder == s.holder - {t}
    requires s'.served == s.served
    ensures s.remaining >= 1
    ensures TicketInv(s') && ServiceInv(s')
  {
    assert Holds(s, who, t);
    SubsetSize(s'.done, Below(s.chunks));
    forall x, u ensures Holds(s', x, u) <==> u in s'.holder && s'.holder[u] == x {
      assert Holds(s, x, u) <==> u in s.holder && s.holder[u] == x;
    }
    forall r, u ensures Expected(s', r, u) == Expected(s, r, u) {
      if u in s.holder && u != t {
        assert Holds(s, s.holder[u], u);
      }
    }
  }

  // ---------------------------------------------------- steps keep invariants

  lemma InitInv(s: State)
    requires Init(s)
    ensures Inv(s)
  {
    assert InsideSet(s.workers) == {};
  }

  lemma AcquireKeeps(s: State, count: nat)
    requires Inv(s) && Enabled(s, Acquire(count))
    ensures Inv(Apply(s, Acquire(count)))
  {
  }

  lemma PublishStageKeeps(s: State)
    requires Inv(s) && Enabled(s, CallerStep) && s.pc.Publish? && s.pc.stage < 5
    ensures Inv(Apply(s, CallerStep))
  {
  }

  lemma PublishKeeps(s: State)
    requires Inv(s) && Enabled(s, CallerStep) && s.pc.Publish?
    ensures Inv(Apply(s, CallerStep))
  {
    if s.pc.stage < 5 {
      PublishStageKeeps(s);
    }
  }

  lemma NotifyReadyKeeps(s: State)
    requires Inv(s) && Enabled(s, CallerStep) && s.pc.NotifyReady?
    ensures Inv(Apply(s, CallerStep))
  {
    var s' := Apply(s, CallerStep);
    assert InsideSet(s'.workers) == InsideSet(s.workers);
    MoveKeeps(s, s', TheCaller);
  }

  lemma CallerTicketKeeps(s: State)
    requires Inv(s) && Enabled(s, CallerStep) && s.pc == CallerDrain(Ticket)
    ensures Inv(Apply(s, CallerStep))
  {
    ClaimKeeps(s, Apply(s, CallerStep), TheCaller);
  }

  lemma CallerServeKeeps(s: State)
    requires Inv(s) && Enabled(s, CallerStep) && s.pc.CallerDrain? && s.pc.d.Serving?
    ensures Inv(Apply(s, CallerStep))
  {
    ServeKeeps(s, Apply(s, CallerStep), TheCaller, s.pc.d.t);
  }

  lemma CallerSubtractKeeps(s: State)
    requires Inv(s) && Enabled(s, CallerStep) && s.pc.CallerDrain? && s.pc.d.Finishing?
    ensures Inv(Apply(s, CallerStep))
  {
    SubtractKeeps(s, Apply(s, CallerStep), TheCaller, s.pc.d.t);
  }

  lemma CallerNotifyKeeps(s: State)
    requires Inv(s) && Enabled(s, CallerStep) && s.pc == CallerDrain(Notifying)
    ensures Inv(Apply(s, CallerStep))
  {
    MoveKeeps(s, Apply(s, CallerStep), TheCaller);
  }

  /** A caller that found remaining_ nonzero after its own drain is waiting for a worker. */
  lemma SomeWorkerInside(s: State)
    requires Inv(s) && CallerDone(s.pc) && s.remaining != 0
    ensures s.active > 0
  {
    assert s.done != Below(s.chunks);
    var t :| t in Below(s.chunks) && t !in s.done;
    assert t in s.holder;
    var who := s.holder[t];
    assert Holds(s, who, t);
    assert who.w in InsideSet(s.workers);
  }

  lemma CallerWaitKeeps(s: State)
    requires Inv(s) && Enabled(s, CallerStep) && CallerDone(s.pc) && !s.pc.Finish?
    ensures Inv(Apply(s, CallerStep))
  {
    if s.pc.ReadRemaining? && s.remaining != 0 {
      SomeWorkerInside(s);
    }
    MoveKeeps(s, Apply(s, CallerStep), TheCaller);
  }

  /** When run returns every chunk is subtracted and no worker is inside drain. */
  lemma FinishIsQuiescent(s: State)
    requires Inv(s) && s.pc.Finish?
    ensures s.done == Below(s.runs[|s.runs| - 1])
    ensures forall w :: 0 <= w < |s.workers| ==> !Inside(s.workers[w])
  {
    FullSet(s.done, s.chunks);
    forall w | 0 <= w < |s.workers| ensures !Inside(s.workers[w]) {
      assert w !in InsideSet(s.workers);
    }
  }

  lemma FinishKeeps(s: State)
    requires Inv(s) && Enabled(s, CallerStep) && s.pc.Finish?
    ensures Inv(Apply(s, CallerStep))
  {
    FinishIsQuiescent(s);
    var s' := Apply(s, CallerStep);
    assert JobInv(s') && WorkerInv(s');
    forall t: nat ensures t !in s.holder {
      assert t in s.done <==> t < s.chunks;
    }
    forall r, t ensures s'.served[Service(r, t)] == Expected(s', r, t) {
      FinishedService(s, r, t);
    }
  }

  lemma FinishedService(s: State, r: nat, t: nat)
    requires s.pc.Finish? && |s.runs| > 0 && s.served[Service(r, t)] == Expected(s, r, t)
    requires s.done == Below(s.runs[|s.runs| - 1]) && s.holder.Keys == {}
    ensures var s' := CallerApply(s);
      s'.served[Service(r, t)] == Expected(s', r, t)
  {
  }

  /** The effect of one worker's move on the count of workers inside drain. */
  lemma WorkerMoves(s: State, s': State, w: nat)
    requires JobInv(s) && WorkerInv(s) && w < |s.workers| == |s'.workers|
    requires s'.workers == s.workers[w := s'.workers[w]]
    requires s'.runs == s.runs && s'.job == s.job && Published(s'.pc) == Published(s.pc)
    requires s'.generation == s.generation
    requires Inside(s'.workers[w]) ==>
      Published(s.pc) && s'.workers[w].pc.run == |s.runs| - 1 && s'.workers[w].seen == s.generation
    requires s'.active == s.active + (if Inside(s'.workers[w]) then 1 else 0)
                                   - (if Inside(s.workers[w]) then 1 else 0)
    ensures WorkerInv(s')
    ensures Inside(s.workers[w]) ==> s.active >= 1
  {
    InsideUpdate(s.workers, w, s'.workers[w]);
    if Inside(s.workers[w]) {
      assert w in InsideSet(s.workers);
    }
  }

  /** Before publication nobody is inside drain and no chunk of the latest run is served. */
  lemma UnpublishedMove(s: State, s': State)
    requires ServiceInv(s) && !Published(s.pc) && s'.pc == s.pc
    requires s'.runs == s.runs && s'.served == s.served
    ensures TicketInv(s') && ServiceInv(s')
  {
    forall r, t ensures s'.served[Service(r, t)] == Expected(s', r, t) {
      assert s.served[Service(r, t)] == Expected(s, r, t);
    }
  }

  lemma LockingKeepsJob(s: State, w: nat)
    requires JobInv(s) && WaitInv(s) && Enabled(s, WorkerStep(w)) && s.workers[w].pc.Locking?
    ensures JobInv(Apply(s, WorkerStep(w))) && WaitInv(Apply(s, WorkerStep(w)))
  {
  }

  lemma WorkerLockingKeeps(s: State, w: nat)
    requires Inv(s) && Enabled(s, WorkerStep(w)) && s.workers[w].pc.Locking?
    ensures Inv(Apply(s, WorkerStep(w)))
  {
    var s' := Apply(s, WorkerStep(w));
    LockingKeepsJob(s, w);
    WorkerMoves(s, s', w);
    if Published(s.pc) {
      MoveKeeps(s, s', TheWorker(w));
    } else {
      UnpublishedMove(s, s');
    }
  }

  lemma WorkerLeavingKeeps(s: State, w: nat)
    requires Inv(s) && Enabled(s, WorkerStep(w)) && s.workers[w].pc.Leaving?
    ensures Inv(Apply(s, WorkerStep(w)))
  {
    var s' := Apply(s, WorkerStep(w));
    WorkerMoves(s, s', w);
    MoveKeeps(s, s', TheWorker(w));
  }

  lemma WorkerTicketKeeps(s: State, w: nat)
    requires Inv(s) && Enabled(s, WorkerStep(w)) && s.workers[w].pc.WorkerDrain? && s.workers[w].pc.d == Ticket
    ensures Inv(Apply(s, WorkerStep(w)))
  {
    var s' := Apply(s, WorkerStep(w));
    WorkerMoves(s, s', w);
    ClaimKeeps(s, s', TheWorker(w));
  }

  lemma WorkerServeKeeps(s: State, w: nat)
    requires Inv(s) && Enabled(s, WorkerStep(w)) && s.workers[w].pc.WorkerDrain? && s.workers[w].pc.d.Serving?
    ensures Inv(Apply(s, WorkerStep(w)))
  {
    var s' := Apply(s, WorkerStep(w));
    WorkerMoves(s, s', w);
    ServeKeeps(s, s', TheWorker(w), s.workers[w].pc.d.t);
  }

  lemma WorkerSubtractKeeps(s: State, w: nat)
    requires Inv(s) && Enabled(s, WorkerStep(w)) && s.workers[w].pc.WorkerDrain? && s.workers[w].pc.d.Finishing?
    ensures Inv(Apply(s, WorkerStep(w)))
  {
    var s' := Apply(s, WorkerStep(w));
    WorkerMoves(s, s', w);
    SubtractKeeps(s, s', TheWorker(w), s.workers[w].pc.d.t);
  }

  lemma WorkerNotifyKeeps(s: State, w: nat)
    requires Inv(s) && Enabled(s, WorkerStep(w)) && s.workers[w].pc.WorkerDrain? && s.workers[w].pc.d == Notifying
    ensures Inv(Apply(s, WorkerStep(w)))
  {
    var s' := Apply(s, WorkerStep(w));
    WorkerMoves(s, s', w);
    MoveKeeps(s, s', TheWorker(w));
  }

  lemma WorkerDrainKeeps(s: State, w: nat)
    requires Inv(s) && Enabled(s, WorkerStep(w)) && s.workers[w].pc.WorkerDrain?
    ensures Inv(Apply(s, WorkerStep(w)))
  {
    match s.workers[w].pc.d
    case Ticket => WorkerTicketKeeps(s, w);
    case Serving(_) => WorkerServeKeeps(s, w);
    case Finishing(_) => WorkerSubtractKeeps(s, w);
    case Notifying => WorkerNotifyKeeps(s, w);
  }

  lemma CallerSpuriousKeeps(s: State)
    requires Inv(s) && Enabled(s, CallerSpurious)
    ensures Inv(Apply(s, CallerSpurious))
  {
    MoveKeeps(s, Apply(s, CallerSpurious), TheCaller);
  }

  lemma WorkerSpuriousKeeps(s: State, w: nat)
    requires Inv(s) && Enabled(s, WorkerSpurious(w))
    ensures Inv(Apply(s, WorkerSpurious(w)))
  {
    var s' := Apply(s, WorkerSpurious(w));
    assert JobInv(s') && WaitInv(s');
    WorkerMoves(s, s', w);
    if Published(s.pc) {
      MoveKeeps(s, s', TheWorker(w));
    } else {
      UnpublishedMove(s, s');
    }
  }

  lemma CallerStepKeeps(s: State)
    requires Inv(s) && Enabled(s, CallerStep)
    ensures Inv(Apply(s, CallerStep))
  {
    match s.pc
    case Publish(_) => PublishKeeps(s);
    case NotifyReady => NotifyReadyKeeps(s);
    case Finish => FinishKeeps(s);
    case CallerDrain(Ticket) => CallerTicketKeeps(s);
    case CallerDrain(Serving(_)) => CallerServeKeeps(s);
    case CallerDrain(Finishing(_)) => CallerSubtractKeeps(s);
    case CallerDrain(Notifying) => CallerNotifyKeeps(s);
    case _ => CallerWaitKeeps(s);
  }

  lemma WorkerStepKeeps(s: State, w: nat)
    requires Inv(s) && Enabled(s, WorkerStep(w))
    ensures Inv(Apply(s, WorkerStep(w)))
  {
    match s.workers[w].pc
    case Locking => WorkerLockingKeeps(s, w);
    case Leaving(_) => WorkerLeavingKeeps(s, w);
    case WorkerDrain(_, _) => WorkerDrainKeeps(s, w);
  }

  lemma StepKeeps(s: State, step: Step)
    requires Inv(s) && Enabled(s, step)
    ensures Inv(Apply(s, step))
  {
    match step
    case Acquire(count) => AcquireKeeps(s, count);
    case CallerStep => CallerStepKeeps(s);
    case WorkerStep(w) => WorkerStepKeeps(s, w);
    case CallerSpurious => CallerSpuriousKeeps(s);
    case WorkerSpurious(w) => WorkerSpuriousKeeps(s, w);
  }

  lemma {:induction false} ExecutionKeeps(s: State, steps: seq<Step>, s': State)
    requires Inv(s) && Executes(s, steps, s')
    ensures Inv(s')
    decreases |steps|
  {
    if steps != [] {
      StepKeeps(s, steps[0]);
      ExecutionKeeps(Apply(s, steps[0]), steps[1..], s');
    }
  }

  // ----------------------------------------------------------------- safety

  ghost predicate Returned(s: State, run: nat) {
    run < |s.runs| && (run < |s.runs| - 1 || s.pc.Idle?)
  }

  /**
  In every execution no chunk is ever served twice, and once a run has returned each of
  its chunks, and nothing else, has been served.
  */
  lemma ServedExactlyOnce(s0: State, steps: seq<Step>, s: State, run: nat, t: nat)
    requires Init(s0) && Executes(s0, steps, s)
    ensures s.served[Service(run, t)] <= 1
    ensures Returned(s, run) ==> s.served[Service(run, t)] == if t < s.runs[run] then 1 else 0
  {
    InitInv(s0);
    ExecutionKeeps(s0, steps, s);
    assert s.served[Service(run, t)] == Expected(s, run, t);
  }

  lemma ServiceIsHeld(s: State, step: Step, run: nat, t: nat)
    requires Enabled(s, step)
    requires Apply(s, step).served[Service(run, t)] != s.served[Service(run, t)]
    ensures if step.CallerStep? then s.pc == CallerDrain(Serving(t)) && run == |s.runs| - 1
            else step.WorkerStep? && s.workers[step.w].pc == WorkerDrain(run, Serving(t))
  {
  }

  /** A chunk is only ever served for the run that has been published and not yet returned. */
  lemma NoServiceAfterReturn(s: State, step: Step, run: nat, t: nat)
    requires Inv(s) && Enabled(s, step)
    requires Apply(s, step).served[Service(run, t)] != s.served[Service(run, t)]
    ensures !Returned(s, run) && !Returned(Apply(s, step), run)
    ensures Published(s.pc) && run == |s.runs| - 1 && t < s.runs[run]
  {
    ServiceIsHeld(s, step, run, t);
    if step.CallerStep? {
      assert Holds(s, TheCaller, t);
    } else {
      assert Holds(s, TheWorker(step.w), t);
    }
  }

  lemma ResetIsPublishing(s: State, step: Step)
    requires Enabled(s, step) && Apply(s, step).next < s.next
    ensures step.CallerStep? && s.pc.Publish?
  {
  }

  /** The ticket counter moves back only while no worker is inside drain. */
  lemma CounterResetIsSafe(s: State, step: Step)
    requires Inv(s) && Enabled(s, step)
    requires Apply(s, step).next < s.next
    ensures forall w :: 0 <= w < |s.workers| ==> !Inside(s.workers[w])
    ensures s.active == 0
  {
    ResetIsPublishing(s, step);
    assert InsideSet(s.workers) == {};
  }

  /** A caller waiting on done_ always has a worker inside drain, which signals as it leaves. */
  lemma NoLostWakeup(s0: State, steps: seq<Step>, s: State)
    requires Init(s0) && Executes(s0, steps, s) && s.pc.CallerAsleep?
    ensures exists w :: 0 <= w < |s.workers| && Inside(s.workers[w])
    ensures forall w: nat :: Enabled(s, WorkerStep(w)) && s.workers[w].pc.Leaving? ==>
      Apply(s, WorkerStep(w)).pc == WaitLock
  {
    InitInv(s0);
    ExecutionKeeps(s0, steps, s);
    var w :| w in InsideSet(s.workers);
    assert Inside(s.workers[w]);
  }

  // --------------------------------------------------------------- progress

  function DrainWeight(d: Drain): nat {
    match d
    case Ticket => 0
    case Notifying => 6
    case Finishing(_) => 7
    case Serving(_) => 8
  }

  /** Upper bound on the steps a worker can still take, tickets apart. */
  function WorkerWeight(k: Worker, generation: nat): nat {
    match k.pc
    case Asleep => 0
    case Locking => if k.seen == generation then 1 else 9
    case WorkerDrain(_, d) => 8 + DrainWeight(d)
    case Leaving(_) => 7
  }

  function WorkersWeight(workers: seq<Worker>, generation: nat): nat {
    if workers == [] then 0
    else WorkerWeight(workers[0], generation) + WorkersWeight(workers[1..], generation)
  }

  function CallerWeight(s: State): nat
    requires !s.pc.Idle? ==> |s.runs| > 0
  {
    match s.pc
    case Idle => 0
    case Publish(stage) => 20 * s.runs[|s.runs| - 1] + 18 * |s.workers| + 31 + (if stage <= 5 then 5 - stage else 0)
    case NotifyReady => 9 * |s.workers| + 30
    case CallerDrain(d) => 10 + DrainWeight(d)
    case WaitLock => 5
    case ReadRemaining => 4
    case ReadActive => 3
    case GoSleep => 2
    case Finish => 2
    case CallerAsleep => 1
  }

  /** The tickets of the published run that nobody has claimed. */
  function Unclaimed(s: State): nat {
    if Published(s.pc) && s.next < s.chunks then s.chunks - s.next else 0
  }

  function Measure(s: State): nat
    requires !s.pc.Idle? ==> |s.runs| > 0
  {
    CallerWeight(s) + WorkersWeight(s.workers, s.generation) + 20 * Unclaimed(s)
  }

  lemma {:induction false} WeightUpdate(workers: seq<Worker>, generation: nat, w: nat, k: Worker)
    requires w < |workers|
    ensures WorkersWeight(workers[w := k], generation) ==
            WorkersWeight(workers, generation) - WorkerWeight(workers[w], generation)
            + WorkerWeight(k, generation)
  {
    if w > 0 {
      assert workers[w := k][1..] == workers[1..][w - 1 := k];
      WeightUpdate(workers[1..], generation, w - 1, k);
    } else {
      assert workers[w := k][1..] == workers[1..];
    }
  }

  /** Waking every worker, or moving to another generation, costs at most nine per worker. */
  lemma {:induction false} WeightGrowth(a: seq<Worker>, g: nat, b: seq<Worker>, h: nat)
    requires |a| == |b|
    requires forall w :: 0 <= w < |a| ==>
      WorkerWeight(b[w], h) <= WorkerWeight(a[w], g) || (WorkerWeight(b[w], h) <= 9)
    ensures WorkersWeight(b, h) <= WorkersWeight(a, g) + 9 * |a|
  {
    if a != [] {
      WeightGrowth(a[1..], g, b[1..], h);
    }
  }

  predicate Proper(step: Step) {
    step.CallerStep? || step.WorkerStep?
  }

  predicate Wakeup(step: Step) {
    step.CallerSpurious? || step.WorkerSpurious?
  }

  function Wakeups(steps: seq<Step>): nat {
    if steps == [] then 0 else (if Wakeup(steps[0]) then 1 else 0) + Wakeups(steps[1..])
  }

  lemma WakeupIncreases(s: State, step: Step)
    requires Enabled(s, step) && Wakeup(step) && |s.runs| > 0
    ensures Measure(Apply(s, step)) <= Measure(s) + 9
  {
    if step.WorkerSpurious? {
      WeightUpdate(s.workers, s.generation, step.w, s.workers[step.w].(pc := Locking));
    }
  }

  lemma WorkerStepDecreases(s: State, w: nat)
    requires JobInv(s) && Enabled(s, WorkerStep(w))
    requires Inside(s.workers[w]) ==> Published(s.pc) && s.workers[w].seen == s.generation
    ensures !Apply(s, WorkerStep(w)).pc.Idle? ==> |s.runs| > 0
    ensures Measure(Apply(s, WorkerStep(w))) < Measure(s)
  {
    var s' := Apply(s, WorkerStep(w));
    var k, k' := s.workers[w], s'.workers[w];
    WeightUpdate(s.workers, s.generation, w, k');
    assert s'.generation == s.generation;
    assert s'.workers == s.workers[w := k'];
    if k.pc.WorkerDrain? && k.pc.d.Ticket? {
      assert s'.pc == s.pc;
      assert Unclaimed(s') < Unclaimed(s) || k'.pc.Leaving?;
    } else {
      assert Unclaimed(s') == Unclaimed(s);
      assert CallerWeight(s') <= CallerWeight(s) + 4;
    }
  }

  lemma PublishStepDecreases(s: State)
    requires JobInv(s) && Enabled(s, CallerStep) && s.pc.Publish?
    ensures Measure(Apply(s, CallerStep)) < Measure(s)
  {
    var s' := Apply(s, CallerStep);
    if s.pc.stage == 5 {
      WeightGrowth(s.workers, s.generation, s.workers, s'.generation);
    }
  }

  lemma NotifyReadyDecreases(s: State)
    requires JobInv(s) && Enabled(s, CallerStep) && s.pc.NotifyReady?
    ensures Measure(Apply(s, CallerStep)) < Measure(s)
  {
    var woken := WakeAll(s.workers);
    WeightGrowth(s.workers, s.generation, woken, s.generation);
  }

  lemma CallerStepDecreases(s: State)
    requires JobInv(s) && Enabled(s, CallerStep)
    ensures !Apply(s, CallerStep).pc.Idle? ==> |Apply(s, CallerStep).runs| > 0
    ensures Measure(Apply(s, CallerStep)) < Measure(s)
  {
    if s.pc.Publish? {
      PublishStepDecreases(s);
    } else if s.pc.NotifyReady? {
      NotifyReadyDecreases(s);
    }
  }

  /** While a run is in progress some thread can move without any spurious wakeup. */
  lemma Progress(s: State) returns (step: Step)
    requires Inv(s) && !s.pc.Idle?
    ensures Proper(step) && Enabled(s, step)
  {
    if s.pc.CallerAsleep? {
      var w :| w in InsideSet(s.workers);
      step := WorkerStep(w);
    } else {
      step := CallerStep;
    }
  }

  lemma CallerLeavesCounts(s: State)
    requires Enabled(s, CallerStep)
    ensures Apply(s, CallerStep).active == s.active && Apply(s, CallerStep).runs == s.runs
  {
  }

  lemma StepBound(s: State, step: Step)
    requires Inv(s) && Enabled(s, step) && |s.runs| > 0 && (Proper(step) || Wakeup(step))
    ensures Apply(s, step).runs == s.runs
    ensures Measure(Apply(s, step)) < Measure(s) + 10 * Wakeups([step])
  {
    match step {
      case CallerStep => CallerStepDecreases(s); CallerLeavesCounts(s);
      case WorkerStep(w) => WorkerStepDecreases(s, w);
      case _ => WakeupIncreases(s, step);
    }
  }

  /**
  Progress never depends on a wakeup: between two calls an execution with n spurious
  wakeups has at most Measure + 10n steps, and it can only stop once run has returned.
  */
  lemma {:induction false} EveryRunReturns(s: State, steps: seq<Step>, s': State)
    requires Inv(s) && Executes(s, steps, s') && |s.runs| > 0
    requires forall i :: 0 <= i < |steps| ==> Proper(steps[i]) || Wakeup(steps[i])
    ensures |steps| <= Measure(s) + 10 * Wakeups(steps)
    ensures (forall step :: Proper(step) ==> !Enabled(s', step)) ==> s'.pc.Idle?
    decreases |steps|
  {
    if steps != [] {
      StepKeeps(s, steps[0]);
      StepBound(s, steps[0]);
      EveryRunReturns(Apply(s, steps[0]), steps[1..], s');
    } else if !s.pc.Idle? {
      var step := Progress(s);
    }
  }

  lemma AloneStep(s: State)
    requires Inv(s) && s.active == 0 && !s.pc.Idle?
    ensures |s.runs| > 0
    ensures Enabled(s, CallerStep) && Inv(Apply(s, CallerStep))
    ensures Apply(s, CallerStep).active == 0 && Apply(s, CallerStep).runs == s.runs
    ensures Measure(Apply(s, CallerStep)) < Measure(s)
  {
    StepKeeps(s, CallerStep);
    assert JobInv(s);
    CallerStepDecreases(s);
    CallerLeavesCounts(s);
  }

  /** With no worker inside drain the caller finishes the whole run on its own. */
  lemma {:induction false} CallerAlone(s: State) returns (steps: seq<Step>, s': State)
    requires Inv(s) && s.active == 0
    ensures forall i :: 0 <= i < |steps| ==> steps[i] == CallerStep
    ensures Executes(s, steps, s') && s'.pc.Idle?
    ensures s'.runs == s.runs
    decreases Measure(s)
  {
    if s.pc.Idle? {
      return [], s;
    }
    AloneStep(s);
    var rest, last := CallerAlone(Apply(s, CallerStep));
    steps, s' := [CallerStep] + rest, last;
    assert steps[1..] == rest;
  }

  // ----------------------------------------------------------------- chunks

  /** The index ranges handed to serve tile the work: index i belongs to chunk i / size only. */
  lemma ChunksTile(count: nat, size: nat, i: nat, t: nat)
    requires size > 0 && i < count
    ensures i / size < (count + size - 1) / size
    ensures t * size <= i < (if t * size + size < count then t * size + size else count) <==> t == i / size
  {
    DivideBetween(i, size, t);
    DivideBetween(count + size - 1, size, i / size);
    assert i / size * size + size <= count + size - 1;
    QuotientAtLeast(count + size - 1, size, i / size + 1);
  }

  lemma DivideBetween(i: nat, size: nat, t: nat)
    requires size > 0
    ensures t * size <= i < t * size + size <==> t == i / size
  {
    var q := i / size;
    assert q * size <= i < q * size + size;
    if t < q {
      assert (t + 1) * size <= q * size;
    } else if t > q {
      assert (q + 1) * size <= t * size;
    }
  }

  lemma QuotientAtLeast(n: nat, size: nat, k: nat)
    requires size > 0 && k * size <= n
    ensures n / size >= k
  {
    var q := n / size;
    assert n < q * size + size;
    if q + 1 <= k {
      MultiplyMonotone(q + 1, k, size);
    }
  }
}
