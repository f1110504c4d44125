/**
Both ranks of one attention forward. Each rank has submitted its plan; its two streams work
it off on their own, a wait blocks a stream until the event is recorded, and an exchange
takes place when the side streams of both ranks have reached it. A plan is any sequence of
commands until it becomes that of a forward in the last section.
*/
module DcpRanks {
  import opened Prelude
  import opened DcpSchedule

  /** For each stream of one rank, the position in the plan up to which it has come. */
  datatype Gpu = Gpu(caller: nat, side: nat) {
    function At(x: Stream): nat {
      if x == Caller then caller else side
    }

    function Past(x: Stream): Gpu {
      if x == Caller then this.(caller := caller + 1) else this.(side := side + 1)
    }
  }

  /** The state of both ranks, and what they have submitted. */
  type Gpus = s: seq<Gpu> | |s| == 2 witness [Gpu(0, 0), Gpu(0, 0)]

  type Plans = p: seq<seq<Command>> | |p| == 2 witness [[], []]

  const START: Gpus := [Gpu(0, 0), Gpu(0, 0)]

  /** Joined takes effect in the order of the caller stream, which allocates the buffers. */
  function StreamOf(cmd: Command): Stream {
    match cmd
    case Launch(x, _) => x
    case Record(_, x) => x
    case Wait(x, _) => x
    case Joined(_) => Caller
  }

  predicate IsExchange(cmd: Command) {
    Keeps(Collectives, cmd)
  }

  /** The record that a wait submitted at position p refers to: the last one before it. */
  function LastRecord(plan: seq<Command>, e: Event, p: nat): (r: Option<nat>)
    requires p <= |plan|
    ensures r.Some? ==> r.value < p && plan[r.value].Record? && plan[r.value].event == e
  {
    if p == 0 then None
    else if plan[p - 1].Record? && plan[p - 1].event == e then Some(p - 1)
    else LastRecord(plan, e, p - 1)
  }

  predicate Recorded(plan: seq<Command>, g: Gpu, e: Event, p: nat)
    requires p <= |plan|
  {
    var j := LastRecord(plan, e, p);
    j.Some? ==> j.value < g.At(plan[j.value].stream)
  }

  datatype Step = Advance(rank: nat, stream: Stream) | Exchange

  /** A stream passes a command: one of the other stream, or one of its own that does not block. */
  predicate CanAdvance(plan: seq<Command>, g: Gpu, x: Stream) {
    var p := g.At(x);
    p < |plan| &&
    (StreamOf(plan[p]) == x ==>
      !IsExchange(plan[p]) && (plan[p].Wait? ==> Recorded(plan, g, plan[p].event, p)))
  }

  /** The side stream has reached an exchange. */
  predicate AtExchange(plan: seq<Command>, g: Gpu) {
    g.side < |plan| && StreamOf(plan[g.side]) == Side && IsExchange(plan[g.side])
  }

  predicate Enabled(plans: Plans, s: Gpus, step: Step) {
    match step
    case Advance(r, x) => r < 2 && CanAdvance(plans[r], s[r], x)
    case Exchange =>
      && AtExchange(plans[0], s[0]) && AtExchange(plans[1], s[1])
      && plans[0][s[0].side] == plans[1][s[1].side]
  }

  function Apply(plans: Plans, s: Gpus, step: Step): Gpus
    requires Enabled(plans, s, step)
  {
    match step
    case Advance(r, x) => s[r := s[r].Past(x)]
    case Exchange => [s[0].Past(Side), s[1].Past(Side)]
  }

  ghost predicate Executes(plans: Plans, s: Gpus, steps: seq<Step>, s': Gpus)
    decreases |steps|
  {
    if steps == [] then s' == s
    else Enabled(plans, s, steps[0]) && Executes(plans, Apply(plans, s, steps[0]), steps[1..], s')
  }

  // ----- Clocks -----

  /** The clock of a rank at a position of its plan. */
  function ClockAt(plan: seq<Command>, p: nat): Clock
    requires p <= |plan|
  {
    Play(FRESH, plan[..p])
  }

  lemma {:induction false} PlayLast(c: Clock, cmds: seq<Command>, cmd: Command)
    ensures Play(c, cmds + [cmd]) == Do(Play(c, cmds), cmd)
    decreases |cmds|
  {
    if cmds == [] {
      assert [] + [cmd] == [cmd];
    } else {
      assert (cmds + [cmd])[1..] == cmds[1..] + [cmd];
      PlayLast(Do(c, cmds[0]), cmds[1..], cmd);
    }
  }

  lemma ClockNext(plan: seq<Command>, p: nat)
    requires p < |plan|
    ensures ClockAt(plan, p + 1) == Do(ClockAt(plan, p), plan[p])
  {
    assert plan[..p + 1] == plan[..p] + [plan[p]];
    PlayLast(FRESH, plan[..p], plan[p]);
  }

  lemma {:induction false} ClockGrows(plan: seq<Command>, j: nat, p: nat, x: Stream)
    requires j <= p <= |plan|
    ensures ClockAt(plan, j).On(x) <= ClockAt(plan, p).On(x)
  {
    if j < p {
      ClockGrows(plan, j, p - 1, x);
      ClockNext(plan, p - 1);
    }
  }

  /** An event knows what its stream knew at its last record. */
  lemma {:induction false} EventIsRecord(plan: seq<Command>, e: Event, p: nat)
    requires p <= |plan|
    ensures e in ClockAt(plan, p).events <==> LastRecord(plan, e, p).Some?
    ensures var j := LastRecord(plan, e, p);
      j.Some? ==> ClockAt(plan, p).events[e] == ClockAt(plan, j.value).On(plan[j.value].stream)
  {
    if p > 0 {
      EventIsRecord(plan, e, p - 1);
      ClockNext(plan, p - 1);
    }
  }

  // ----- What has run -----

  predicate RanAt(plan: seq<Command>, g: Gpu, w: Work, j: nat) {
    j < |plan| && plan[j].Launch? && plan[j].work == w && j < g.At(plan[j].stream)
  }

  ghost predicate Ran(plan: seq<Command>, g: Gpu, w: Work) {
    exists j: nat :: RanAt(plan, g, w, j)
  }

  ghost predicate AllRan(plan: seq<Command>, g: Gpu, works: set<Work>) {
    forall w <- works :: Ran(plan, g, w)
  }

  /** All that a stream's clock names has run. */
  ghost predicate Sound(plan: seq<Command>, g: Gpu) {
    && g.caller <= |plan| && g.side <= |plan|
    && forall x :: AllRan(plan, g, ClockAt(plan, g.At(x)).On(x))
  }

  lemma RanStays(plan: seq<Command>, g: Gpu, x: Stream, works: set<Work>)
    requires AllRan(plan, g, works)
    ensures AllRan(plan, g.Past(x), works)
  {
    forall w <- works ensures Ran(plan, g.Past(x), w) {
      var j: nat :| RanAt(plan, g, w, j);
      assert RanAt(plan, g.Past(x), w, j);
    }
  }

  /** What the stream learns from one command has run as well. */
  lemma PassedHasRun(plan: seq<Command>, g: Gpu, x: Stream)
    requires Sound(plan, g) && g.At(x) < |plan|
    requires StreamOf(plan[g.At(x)]) == x && plan[g.At(x)].Wait? ==> Recorded(plan, g, plan[g.At(x)].event, g.At(x))
    ensures AllRan(plan, g.Past(x), ClockAt(plan, g.At(x) + 1).On(x))
  {
    var p, cmd := g.At(x), plan[g.At(x)];
    var before := ClockAt(plan, p);
    ClockNext(plan, p);
    RanStays(plan, g, x, before.On(x));
    match cmd
    case Launch(y, w) =>
      assert y == x ==> RanAt(plan, g.Past(x), w, p);
    case Wait(y, e) =>
      if y == x {
        WaitHasRun(plan, g, x, e, p);
      }
    case _ =>
  }

  lemma WaitHasRun(plan: seq<Command>, g: Gpu, x: Stream, e: Event, p: nat)
    requires Sound(plan, g) && p <= |plan| && Recorded(plan, g, e, p)
    ensures e in ClockAt(plan, p).events ==> AllRan(plan, g.Past(x), ClockAt(plan, p).events[e])
  {
    EventIsRecord(plan, e, p);
    if LastRecord(plan, e, p).Some? {
      var j := LastRecord(plan, e, p).value;
      var y := plan[j].stream;
      ClockGrows(plan, j, g.At(y), y);
      RanStays(plan, g, x, ClockAt(plan, g.At(y)).On(y));
    }
  }

  lemma PastIsSound(plan: seq<Command>, g: Gpu, x: Stream)
    requires Sound(plan, g) && g.At(x) < |plan|
    requires StreamOf(plan[g.At(x)]) == x && plan[g.At(x)].Wait? ==> Recorded(plan, g, plan[g.At(x)].event, g.At(x))
    ensures Sound(plan, g.Past(x))
  {
    PassedHasRun(plan, g, x);
    forall y ensures AllRan(plan, g.Past(x), ClockAt(plan, g.Past(x).At(y)).On(y)) {
      if y != x {
        RanStays(plan, g, x, ClockAt(plan, g.At(y)).On(y));
      }
    }
  }

  // ----- Exchanges -----

  /** The exchanges that a rank has taken part in. */
  function Exchanged(plan: seq<Command>, g: Gpu): seq<Command>
    requires g.side <= |plan|
  {
    Select(Collectives, plan[..g.side])
  }

  /** Both ranks have submitted the same exchanges, all on their side streams. */
  ghost predicate Matched(plans: Plans) {
    && Select(Collectives, plans[0]) == Select(Collectives, plans[1])
    && forall r, j: nat :: 0 <= r < 2 && j < |plans[r]| && IsExchange(plans[r][j]) ==> StreamOf(plans[r][j]) == Side
  }

  ghost predicate Inv(plans: Plans, s: Gpus) {
    && Sound(plans[0], s[0]) && Sound(plans[1], s[1])
    && Exchanged(plans[0], s[0]) == Exchanged(plans[1], s[1])
  }

  lemma ExchangedNext(plan: seq<Command>, p: nat)
    requires p < |plan|
    ensures Select(Collectives, plan[..p + 1]) ==
            if IsExchange(plan[p]) then Select(Collectives, plan[..p]) + [plan[p]] else Select(Collectives, plan[..p])
  {
    assert plan[..p + 1] == plan[..p] + [plan[p]];
    SelectLast(Collectives, plan[..p], plan[p]);
  }

  lemma StartInv(plans: Plans)
    ensures Inv(plans, START)
  {
    assert plans[0][..0] == [] && plans[1][..0] == [];
  }

  lemma AdvanceKeeps(plans: Plans, s: Gpus, r: nat, x: Stream)
    requires Matched(plans) && Inv(plans, s) && Enabled(plans, s, Advance(r, x))
    ensures Inv(plans, Apply(plans, s, Advance(r, x)))
  {
    PastIsSound(plans[r], s[r], x);
    if x == Side {
      ExchangedNext(plans[r], s[r].side);
    }
  }

  lemma ExchangeKeeps(plans: Plans, s: Gpus)
    requires Inv(plans, s) && Enabled(plans, s, Exchange)
    ensures Inv(plans, Apply(plans, s, Exchange))
  {
    PastIsSound(plans[0], s[0], Side);
    PastIsSound(plans[1], s[1], Side);
    ExchangedNext(plans[0], s[0].side);
    ExchangedNext(plans[1], s[1].side);
  }

  /** Every step of either rank keeps its clocks sound and the exchanges in step. */
  lemma StepKeeps(plans: Plans, s: Gpus, step: Step)
    requires Matched(plans) && Inv(plans, s) && Enabled(plans, s, step)
    ensures Inv(plans, Apply(plans, s, step))
  {
    match step
    case Advance(r, x) => AdvanceKeeps(plans, s, r, x);
    case Exchange => ExchangeKeeps(plans, s);
  }

  lemma {:induction false} ExecutionKeeps(plans: Plans, s: Gpus, steps: seq<Step>, s': Gpus)
    requires Matched(plans) && Inv(plans, s) && Executes(plans, s, steps, s')
    ensures Inv(plans, s')
    decreases |steps|
  {
    if steps != [] {
      StepKeeps(plans, s, steps[0]);
      ExecutionKeeps(plans, Apply(plans, s, steps[0]), steps[1..], s');
    }
  }

  /** An exchange that one rank has taken part in is among those of its side stream so far. */
  lemma {:induction false} RanIsExchanged(plan: seq<Command>, p: nat, j: nat)
    requires j < p <= |plan| && IsExchange(plan[j])
    ensures plan[j] in Select(Collectives, plan[..p])
  {
    ExchangedNext(plan, p - 1);
    if j < p - 1 {
      RanIsExchanged(plan, p - 1, j);
    }
  }

  lemma {:induction false} ExchangedHasRun(plan: seq<Command>, p: nat, cmd: Command) returns (j: nat)
    requires p <= |plan| && cmd in Select(Collectives, plan[..p])
    ensures j < p && plan[j] == cmd && IsExchange(cmd)
  {
    if p > 0 {
      ExchangedNext(plan, p - 1);
      if cmd in Select(Collectives, plan[..p - 1]) {
        j := ExchangedHasRun(plan, p - 1, cmd);
      } else {
        j := p - 1;
      }
    }
  }

  /** An exchange has run on both ranks or on neither. */
  lemma ExchangeOnBoth(plans: Plans, s: Gpus, r: nat, t: Ticket) returns (j: nat)
    requires Matched(plans) && Inv(plans, s) && r < 2 && Ran(plans[r], s[r], Gather(t))
    ensures RanAt(plans[1 - r], s[1 - r], Gather(t), j)
  {
    var i: nat :| RanAt(plans[r], s[r], Gather(t), i);
    RanIsExchanged(plans[r], s[r].side, i);
    j := ExchangedHasRun(plans[1 - r], s[1 - r].side, plans[r][i]);
  }

  // ----- Neither rank blocks -----

  ghost predicate Stuck(plans: Plans, s: Gpus) {
    forall step :: !Enabled(plans, s, step)
  }

  /** A rank that cannot advance is at the end of its plan, or its side stream is at an exchange. */
  lemma BlockedAtExchange(plan: seq<Command>, g: Gpu)
    requires g.caller <= |plan| && g.side <= |plan|
    requires forall j: nat :: j < |plan| && IsExchange(plan[j]) ==> StreamOf(plan[j]) == Side
    requires !CanAdvance(plan, g, Caller) && !CanAdvance(plan, g, Side)
    ensures AtExchange(plan, g) || (g.side == |plan| && g.caller == |plan|)
  {
    var p := if g.caller < g.side then g.caller else g.side;
    if p < |plan| {
      assert plan[p].Wait? ==> Recorded(plan, g, plan[p].event, p);
    }
  }

  /** The exchange at position p is the next one of the whole plan. */
  lemma NextExchange(plan: seq<Command>, p: nat)
    requires p < |plan| && IsExchange(plan[p])
    ensures var before, all := Select(Collectives, plan[..p]), Select(Collectives, plan);
      |before| < |all| && all[|before|] == plan[p]
  {
    var rest := plan[p + 1..];
    assert plan == plan[..p + 1] + rest;
    SelectAppend(Collectives, plan[..p + 1], rest);
    ExchangedNext(plan, p);
  }

  /** Two plans with the same exchanges, of which the same have taken place, have the same next one. */
  lemma SameExchange(plan: seq<Command>, p: nat, other: seq<Command>, q: nat)
    requires p < |plan| && q <= |other| && IsExchange(plan[p])
    requires Select(Collectives, plan) == Select(Collectives, other)
    requires Select(Collectives, plan[..p]) == Select(Collectives, other[..q])
    ensures q < |other| && (IsExchange(other[q]) ==> other[q] == plan[p])
  {
    NextExchange(plan, p);
    assert other[..|other|] == other;
    if q < |other| && IsExchange(other[q]) {
      NextExchange(other, q);
    }
  }

  /** A side stream at an exchange meets the other one there. */
  lemma MeetAtExchange(plans: Plans, s: Gpus, r: nat)
    requires Matched(plans) && Inv(plans, s) && r < 2 && AtExchange(plans[r], s[r])
    requires AtExchange(plans[1 - r], s[1 - r]) || s[1 - r].side == |plans[1 - r]|
    ensures Enabled(plans, s, Exchange)
  {
    SameExchange(plans[r], s[r].side, plans[1 - r], s[1 - r].side);
  }

  lemma StuckRank(plans: Plans, s: Gpus, r: nat)
    requires Matched(plans) && Inv(plans, s) && Stuck(plans, s) && r < 2
    ensures AtExchange(plans[r], s[r]) || s[r] == Gpu(|plans[r]|, |plans[r]|)
  {
    assert !Enabled(plans, s, Advance(r, Caller)) && !Enabled(plans, s, Advance(r, Side));
    BlockedAtExchange(plans[r], s[r]);
  }

  /** If no step is possible both ranks have worked off their plans. */
  lemma StuckIsFinished(plans: Plans, s: Gpus)
    requires Matched(plans) && Inv(plans, s) && Stuck(plans, s)
    ensures forall r :: 0 <= r < 2 ==> s[r] == Gpu(|plans[r]|, |plans[r]|)
  {
    StuckRank(plans, s, 0);
    StuckRank(plans, s, 1);
    forall r | 0 <= r < 2 ensures s[r] == Gpu(|plans[r]|, |plans[r]|) {
      if AtExchange(plans[r], s[r]) {
        MeetAtExchange(plans, s, r);
      }
    }
  }

  function Passed(s: Gpus): nat {
    s[0].caller + s[0].side + s[1].caller + s[1].side
  }

  lemma StepPasses(plans: Plans, s: Gpus, step: Step)
    requires Enabled(plans, s, step)
    ensures Passed(Apply(plans, s, step)) > Passed(s)
  {
  }

  /** Neither rank ever blocks: every execution is short, and can only stop when both plans are worked off. */
  lemma {:induction false} NeitherRankBlocks(plans: Plans, s: Gpus, steps: seq<Step>, s': Gpus)
    requires Matched(plans) && Inv(plans, s) && Executes(plans, s, steps, s')
    ensures |steps| <= 2 * |plans[0]| + 2 * |plans[1]| - Passed(s)
    ensures Stuck(plans, s') ==> forall r :: 0 <= r < 2 ==> s'[r] == Gpu(|plans[r]|, |plans[r]|)
    decreases |steps|
  {
    if steps == [] {
      if Stuck(plans, s) {
        StuckIsFinished(plans, s);
      }
    } else {
      StepKeeps(plans, s, steps[0]);
      StepPasses(plans, s, steps[0]);
      NeitherRankBlocks(plans, Apply(plans, s, steps[0]), steps[1..], s');
    }
  }

  // ----- The forward on both ranks -----

  /** The two ranks run the same slabs; not even their modes need to agree. */
  predicate Paired(f: seq<Forward>) {
    |f| == 2 && f[0].rank == 0 && f[1].rank == 1 && f[0].rows == f[1].rows
  }

  function PlansOf(f: seq<Forward>): Plans
    requires Paired(f)
  {
    [Plan(f[0]), Plan(f[1])]
  }

  lemma {:induction false} ExchangesOnSide(n: nat, cmd: Command)
    requires cmd in Exchanges(n)
    ensures StreamOf(cmd) == Side
  {
    if n > 0 && cmd in Exchanges(n - 1) {
      ExchangesOnSide(n - 1, cmd);
    }
  }

  lemma PlanExchangesOnSide(f: Forward, plan: seq<Command>, j: nat)
    requires f.Valid() && plan == Plan(f) && j < |plan| && IsExchange(plan[j])
    ensures StreamOf(plan[j]) == Side
  {
    RanIsExchanged(plan, |plan|, j);
    assert plan[..|plan|] == plan;
    RanksAgree(f);
    ExchangesOnSide(|f.rows|, plan[j]);
  }

  lemma PlansAreMatched(f: seq<Forward>)
    requires Paired(f)
    ensures Matched(PlansOf(f))
  {
    RanksAgree(f[0]);
    RanksAgree(f[1]);
    var plans := PlansOf(f);
    forall r, j: nat | 0 <= r < 2 && j < |plans[r]| && IsExchange(plans[r][j]) ensures StreamOf(plans[r][j]) == Side {
      PlanExchangesOnSide(f[r], plans[r], j);
    }
  }

  /** A command of a safe plan, where it stands. */
  lemma {:induction false} SafeAt(f: Forward, plan: seq<Command>, j: nat)
    requires f.Valid() && AllSafe(f, FRESH, plan) && j < |plan|
    ensures f.Safe(ClockAt(plan, j), plan[j])
  {
    var rest := plan[j..];
    assert plan == plan[..j] + rest && rest[0] == plan[j];
    PlayAppend(f, FRESH, plan[..j], rest);
  }

  /** Whatever a piece of work relies on has run by the time a stream has come to it. */
  lemma NeedsHaveRun(f: Forward, plan: seq<Command>, g: Gpu, x: Stream, j: nat)
    requires f.Valid() && AllSafe(f, FRESH, plan) && Sound(plan, g)
    requires j < |plan| && plan[j].Launch? && plan[j].stream == x && j <= g.At(x)
    ensures AllRan(plan, g, f.Needs(plan[j].work))
  {
    SafeAt(f, plan, j);
    ClockGrows(plan, j, g.At(x), x);
  }

  /** A state that both ranks can come to with these plans, which are those of the forward. */
  ghost predicate Reachable(f: seq<Forward>, plans: Plans, s: Gpus) {
    && Paired(f) && plans == PlansOf(f)
    && exists steps :: Executes(plans, START, steps, s)
  }

  lemma ReachableInv(f: seq<Forward>, plans: Plans, s: Gpus)
    requires Reachable(f, plans, s)
    ensures Matched(plans) && Inv(plans, s)
  {
    var steps :| Executes(plans, START, steps, s);
    PlansAreMatched(f);
    StartInv(plans);
    ExecutionKeeps(plans, START, steps, s);
  }

  /** Both plans are safe where they stand, and what they name has run. */
  ghost predicate SafeRanks(f: seq<Forward>, plans: Plans, s: Gpus) {
    && Paired(f) && Matched(plans) && Inv(plans, s)
    && AllSafe(f[0], FRESH, plans[0]) && AllSafe(f[1], FRESH, plans[1])
  }

  lemma SafeInputs(f: seq<Forward>, plans: Plans, s: Gpus, r: nat, j: nat)
    requires SafeRanks(f, plans, s) && r < 2
    requires j < |plans[r]| && plans[r][j].Launch? && j <= s[r].At(plans[r][j].stream)
    ensures AllRan(plans[r], s[r], f[r].Needs(plans[r][j].work))
    ensures forall t :: Gather(t) in f[r].Needs(plans[r][j].work) ==>
      AllRan(plans[1 - r], s[1 - r], f[1 - r].Needs(Gather(t)))
  {
    NeedsHaveRun(f[r], plans[r], s[r], plans[r][j].stream, j);
    forall t | Gather(t) in f[r].Needs(plans[r][j].work)
      ensures AllRan(plans[1 - r], s[1 - r], f[1 - r].Needs(Gather(t)))
    {
      var i := ExchangeOnBoth(plans, s, r, t);
      NeedsHaveRun(f[1 - r], plans[1 - r], s[1 - r], plans[1 - r][i].stream, i);
    }
  }

  lemma ReachableIsSafe(f: seq<Forward>, plans: Plans, s: Gpus)
    requires Reachable(f, plans, s)
    ensures SafeRanks(f, plans, s)
  {
    ReachableInv(f, plans, s);
    EveryReadIsOrdered(f[0]);
    EveryReadIsOrdered(f[1]);
  }

  /**
  In every interleaving of both ranks: when a stream comes to a piece of work, all that it
  reads has run on this rank, and whatever the other rank sends for it has run there.
  */
  lemma InputsHaveRun(f: seq<Forward>, plans: Plans, s: Gpus, r: nat, j: nat)
    requires Reachable(f, plans, s) && r < 2
    requires j < |plans[r]| && plans[r][j].Launch? && j <= s[r].At(plans[r][j].stream)
    ensures AllRan(plans[r], s[r], f[r].Needs(plans[r][j].work))
    ensures forall t :: Gather(t) in f[r].Needs(plans[r][j].work) ==>
      AllRan(plans[1 - r], s[1 - r], f[1 - r].Needs(Gather(t)))
  {
    ReachableIsSafe(f, plans, s);
    SafeInputs(f, plans, s, r, j);
  }

  /** A buffer is given up only after all its users have run, in every interleaving. */
  lemma ReleaseIsLate(f: seq<Forward>, plans: Plans, s: Gpus, r: nat, j: nat)
    requires Reachable(f, plans, s) && r < 2
    requires j < |plans[r]| && plans[r][j].Joined? && j <= s[r].caller
    ensures AllRan(plans[r], s[r], f[r].Users(plans[r][j].ticket))
  {
    ReachableIsSafe(f, plans, s);
    SafeRelease(f[r], plans[r], s[r], j);
  }

  /**
  What has run where a buffer is given up: the exchange and its source; the peer's heads too where
  the buffer is a result, or a query that they read on the side stream.
  */
  ghost predicate UsersRan(f: Forward, plan: seq<Command>, g: Gpu, t: Ticket) {
    var first := if f.rank == 0 then 32 else 0;
    && Ran(plan, g, Gather(t))
    && (t.kind == Query ==> Ran(plan, g, Prepare(t.slab)))
    && (t.kind == Result || f.mode == Concurrent ==> Ran(plan, g, PeerHeads(t.slab, first, first + 32)))
  }

  lemma UsersHaveRun(f: Forward, plan: seq<Command>, g: Gpu, t: Ticket)
    requires f.Valid() && AllRan(plan, g, f.Users(t))
    ensures UsersRan(f, plan, g, t)
  {
    assert Gather(t) in f.Users(t);
    if t.kind == Query {
      assert Prepare(t.slab) in f.Users(t);
    }
    if t.kind == Result || f.mode == Concurrent {
      assert Peer(f.rank, t.slab) in f.Users(t);
    }
  }

  /** The same in terms of the work itself. */
  lemma ReleaseFollowsUsers(f: seq<Forward>, plans: Plans, s: Gpus, r: nat, j: nat)
    requires Reachable(f, plans, s) && r < 2
    requires j < |plans[r]| && plans[r][j].Joined? && j <= s[r].caller
    ensures UsersRan(f[r], plans[r], s[r], plans[r][j].ticket)
  {
    ReachableIsSafe(f, plans, s);
    SafeRelease(f[r], plans[r], s[r], j);
    UsersHaveRun(f[r], plans[r], s[r], plans[r][j].ticket);
  }

  lemma SafeRelease(f: Forward, plan: seq<Command>, g: Gpu, j: nat)
    requires f.Valid() && AllSafe(f, FRESH, plan) && Sound(plan, g)
    requires j < |plan| && plan[j].Joined? && j <= g.caller
    ensures AllRan(plan, g, f.Users(plan[j].ticket))
  {
    SafeAt(f, plan, j);
    ClockGrows(plan, j, g.At(Caller), Caller);
    assert ClockAt(plan, j).On(Caller) == ClockAt(plan, j).caller;
  }

  /** What the other rank sends in an exchange that some work reads has been computed there. */
  lemma SafeAcross(f: seq<Forward>, plans: Plans, s: Gpus, r: nat, w: Work, t: Ticket)
    requires SafeRanks(f, plans, s) && r < 2 && Ran(plans[r], s[r], w) && Gather(t) in f[r].Needs(w)
    ensures AllRan(plans[1 - r], s[1 - r], f[1 - r].Needs(Gather(t)))
  {
    var j: nat :| RanAt(plans[r], s[r], w, j);
    SafeInputs(f, plans, s, r, j);
  }

  /** A merge on one rank comes after the other rank has computed this rank's heads of the slab. */
  lemma MergeFollowsPeer(f: seq<Forward>, plans: Plans, s: Gpus, r: nat, slab: nat)
    requires Reachable(f, plans, s) && r < 2 && Ran(plans[r], s[r], Merge(slab))
    ensures Peer(1 - r, slab) == PeerHeads(slab, r * 32, r * 32 + 32)
    ensures Ran(plans[1 - r], s[1 - r], Peer(1 - r, slab))
  {
    ReachableIsSafe(f, plans, s);
    SafeMerge(f, plans, s, r, slab);
  }

  lemma SafeMerge(f: seq<Forward>, plans: Plans, s: Gpus, r: nat, slab: nat)
    requires SafeRanks(f, plans, s) && r < 2 && Ran(plans[r], s[r], Merge(slab))
    ensures Ran(plans[1 - r], s[1 - r], Peer(1 - r, slab))
  {
    MergeReads(f[r], slab);
    SafeAcross(f, plans, s, r, Merge(slab), Ticket(Result, slab));
  }

  /** A rank's own heads of a slab have run, in the calls that its mode and size demand. */
  ghost predicate OwnHeadsRan(f: Forward, plan: seq<Command>, g: Gpu, slab: nat)
    requires slab < |f.rows|
  {
    if f.mode == Balanced && f.rows[slab] < 32
    then Ran(plan, g, OwnHeads(slab, f.rank * 32, f.rank * 32 + 16)) &&
         Ran(plan, g, OwnHeads(slab, f.rank * 32 + 16, f.rank * 32 + 32))
    else Ran(plan, g, OwnHeads(slab, f.rank * 32, f.rank * 32 + 32))
  }

  /** A merge comes after this rank's own heads of the slab. */
  lemma MergeFollowsOwn(f: seq<Forward>, plans: Plans, s: Gpus, r: nat, slab: nat)
    requires Reachable(f, plans, s) && r < 2 && slab < |f[r].rows| && Ran(plans[r], s[r], Merge(slab))
    ensures OwnHeadsRan(f[r], plans[r], s[r], slab)
  {
    ReachableIsSafe(f, plans, s);
    SafeOwn(f, plans, s, r, slab);
  }

  lemma SafeOwn(f: seq<Forward>, plans: Plans, s: Gpus, r: nat, slab: nat)
    requires SafeRanks(f, plans, s) && r < 2 && slab < |f[r].rows| && Ran(plans[r], s[r], Merge(slab))
    ensures OwnHeadsRan(f[r], plans[r], s[r], slab)
  {
    var j: nat :| RanAt(plans[r], s[r], Merge(slab), j);
    SafeInputs(f, plans, s, r, j);
    OwnIsRead(f[r], slab);
    NeededRan(f[r], plans[r], s[r], slab, f[r].Needs(Merge(slab)));
  }

  lemma NeededRan(f: Forward, plan: seq<Command>, g: Gpu, slab: nat, needs: set<Work>)
    requires slab < |f.rows| && AllRan(plan, g, needs) && OwnIn(f, slab, needs)
    ensures OwnHeadsRan(f, plan, g, slab)
  {
  }

  predicate OwnIn(f: Forward, slab: nat, works: set<Work>)
    requires slab < |f.rows|
  {
    if f.mode == Balanced && f.rows[slab] < 32
    then OwnHeads(slab, f.rank * 32, f.rank * 32 + 16) in works &&
         OwnHeads(slab, f.rank * 32 + 16, f.rank * 32 + 32) in works
    else OwnHeads(slab, f.rank * 32, f.rank * 32 + 32) in works
  }

  /** A merge reads the slab's own heads as they are called. */
  lemma OwnIsRead(f: Forward, slab: nat)
    requires f.Valid() && slab < |f.rows|
    ensures OwnIn(f, slab, f.Needs(Merge(slab)))
  {
    var parts := f.PartsOf(slab);
    assert Own(f.rank, slab, parts[0]) in f.Needs(Merge(slab));
    assert Own(f.rank, slab, parts[|parts| - 1]) in f.Needs(Merge(slab));
  }

  lemma MergeReads(f: Forward, slab: nat)
    requires f.Valid()
    ensures Gather(Ticket(Result, slab)) in f.Needs(Merge(slab))
  {
  }

  /** The peer's heads are computed on a query that the peer has prepared. */
  lemma PeerFollowsPrepare(f: seq<Forward>, plans: Plans, s: Gpus, r: nat, slab: nat)
    requires Reachable(f, plans, s) && r < 2 && Ran(plans[r], s[r], Peer(r, slab))
    ensures Ran(plans[1 - r], s[1 - r], Prepare(slab))
  {
    ReachableIsSafe(f, plans, s);
    SafePeer(f, plans, s, r, slab);
  }

  lemma SafePeer(f: seq<Forward>, plans: Plans, s: Gpus, r: nat, slab: nat)
    requires SafeRanks(f, plans, s) && r < 2 && Ran(plans[r], s[r], Peer(r, slab))
    ensures Ran(plans[1 - r], s[1 - r], Prepare(slab))
  {
    PeerReads(f[r], slab);
    SafeAcross(f, plans, s, r, Peer(r, slab), Ticket(Query, slab));
  }

  lemma PeerReads(f: Forward, slab: nat)
    requires f.Valid()
    ensures Gather(Ticket(Query, slab)) in f.Needs(Peer(f.rank, slab))
    ensures f.Needs(Gather(Ticket(Query, slab))) == {Prepare(slab)}
  {
  }

  /** The forward ends on both ranks, whatever the order in which the four streams move. */
  lemma ForwardEnds(f: seq<Forward>, steps: seq<Step>, s: Gpus)
    requires Paired(f) && Executes(PlansOf(f), START, steps, s)
    ensures |steps| <= 2 * |Plan(f[0])| + 2 * |Plan(f[1])|
    ensures Stuck(PlansOf(f), s) ==> forall r :: 0 <= r < 2 ==> s[r] == Gpu(|Plan(f[r])|, |Plan(f[r])|)
  {
    PlansAreMatched(f);
    StartInv(PlansOf(f));
    NeitherRankBlocks(PlansOf(f), START, steps, s);
  }
}
