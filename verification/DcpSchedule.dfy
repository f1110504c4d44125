/**
The overlap schedule of one attention forward on one rank: the commands submitted to the
caller stream and the side stream, and what FIFO order and events make of them.
*/
module DcpSchedule {
  import opened Prelude

  datatype Mode = QueryOnly | Balanced | Concurrent

  datatype Stream = Caller | Side

  datatype Kind = Query | Result

  /** One transfer between the ranks: the query or the result of one slab. */
  datatype Ticket = Ticket(kind: Kind, slab: nat)

  /** GPU work. Heads first..last are numbered over both ranks; each rank owns 32 of them. */
  datatype Work =
    | Prepare(slab: nat)
    | Metadata(slab: nat)
    | Gather(ticket: Ticket)
    | OwnHeads(slab: nat, first: nat, last: nat)
    | PeerHeads(slab: nat, first: nat, last: nat)
    | Merge(slab: nat)

  datatype Event = Ready(ticket: Ticket) | Done(ticket: Ticket)

  /** Joined is bookkeeping: from here on the buffers of the transfer may be freed or reused. */
  datatype Command =
    | Launch(stream: Stream, work: Work)
    | Record(event: Event, stream: Stream)
    | Wait(stream: Stream, event: Event)
    | Joined(ticket: Ticket)

  // ----- What the GPU guarantees -----

  /** For each stream, the work that anything launched on it next is ordered after. */
  datatype Clock = Clock(caller: set<Work>, side: set<Work>, events: map<Event, set<Work>>) {
    function On(s: Stream): set<Work> {
      if s == Caller then caller else side
    }

    function Seen(s: Stream, works: set<Work>): Clock {
      if s == Caller then this.(caller := caller + works) else this.(side := side + works)
    }
  }

  const FRESH := Clock({}, {}, map[])

  /** The heads of head_schedule: two halves for small balanced slabs, otherwise one call. */
  function Parts(mode: Mode, rows: nat): (parts: seq<(nat, nat)>)
    ensures |parts| == 1 || |parts| == 2
  {
    if mode == Balanced && rows < 32 then [(0, 16), (16, 32)] else [(0, 32)]
  }

  function Own(rank: nat, slab: nat, part: (nat, nat)): Work {
    OwnHeads(slab, rank * 32 + part.0, rank * 32 + part.1)
  }

  function Peer(rank: nat, slab: nat): Work
    requires rank <= 1
  {
    PeerHeads(slab, (1 - rank) * 32, (2 - rank) * 32)
  }

  /** The modes and slab sizes of one forward. */
  datatype Forward = Forward(mode: Mode, rank: nat, rows: seq<nat>) {
    predicate Valid() {
      rank <= 1
    }

    /** The slab sizes the transport admits. */
    predicate Bounded() {
      forall slab :: 0 <= slab < |rows| ==> 1 <= rows[slab] <= 512
    }

    function PartsOf(slab: nat): (parts: seq<(nat, nat)>)
      requires slab < |rows|
      ensures |parts| == 1 || |parts| == 2
    {
      Parts(mode, rows[slab])
    }

    /** The work that produces what a piece of work reads. */
    function Needs(w: Work): set<Work>
      requires Valid()
    {
      match w
      case Prepare(_) => {}
      case Metadata(_) => {}
      case Gather(Ticket(Query, s)) => {Prepare(s)}
      case Gather(Ticket(Result, s)) => {Peer(rank, s)}
      case OwnHeads(s, _, _) => {Prepare(s), Metadata(s)}
      case PeerHeads(s, _, _) => {Gather(Ticket(Query, s)), Metadata(s)}
      case Merge(s) =>
        {Gather(Ticket(Result, s))} +
        if s < |rows| then set part <- PartsOf(s) :: Own(rank, s, part) else {}
    }

    /** The side-stream work, and its sources, that use the buffers of a transfer. */
    function Users(t: Ticket): set<Work>
      requires Valid()
    {
      {Gather(t)} + Needs(Gather(t)) + if mode == Concurrent && t.kind == Query then {Peer(rank, t.slab)} else {}
    }

    /** Whether a command finds everything it relies on ordered before it. */
    predicate Safe(c: Clock, cmd: Command)
      requires Valid()
    {
      match cmd
      case Launch(s, w) => Needs(w) <= c.On(s)
      case Record(_, _) => true
      case Wait(_, e) => e in c.events
      case Joined(t) => Users(t) <= c.caller
    }
  }

  function Do(c: Clock, cmd: Command): Clock {
    match cmd
    case Launch(s, w) => c.Seen(s, {w})
    case Record(e, s) => c.(events := c.events[e := c.On(s)])
    case Wait(s, e) => if e in c.events then c.Seen(s, c.events[e]) else c
    case Joined(_) => c
  }

  function Play(c: Clock, cmds: seq<Command>): Clock
    decreases |cmds|
  {
    if cmds == [] then c else Play(Do(c, cmds[0]), cmds[1..])
  }

  /** Every command of the sequence is safe where it stands. */
  predicate AllSafe(f: Forward, c: Clock, cmds: seq<Command>)
    requires f.Valid()
    decreases |cmds|
  {
    cmds == [] || (f.Safe(c, cmds[0]) && AllSafe(f, Do(c, cmds[0]), cmds[1..]))
  }

  lemma PlayCons(f: Forward, c: Clock, cmd: Command, rest: seq<Command>)
    requires f.Valid()
    ensures Play(c, [cmd] + rest) == Play(Do(c, cmd), rest)
    ensures AllSafe(f, c, [cmd] + rest) <==> f.Safe(c, cmd) && AllSafe(f, Do(c, cmd), rest)
  {
    assert ([cmd] + rest)[1..] == rest;
  }

  lemma {:induction false} PlayAppend(f: Forward, c: Clock, a: seq<Command>, b: seq<Command>)
    requires f.Valid()
    ensures Play(c, a + b) == Play(Play(c, a), b)
    ensures AllSafe(f, c, a + b) <==> AllSafe(f, c, a) && AllSafe(f, Play(c, a), b)
    decreases |a|
  {
    if a == [] {
      assert a + b == b;
    } else {
      assert (a + b)[1..] == a[1..] + b;
      PlayAppend(f, Do(c, a[0]), a[1..], b);
    }
  }

  // ----- What the program submits -----

  /** Transport.gather: fork the side stream and exchange. */
  function GatherCommands(t: Ticket): seq<Command> {
    [Record(Ready(t), Caller), Wait(Side, Ready(t)), Launch(Side, Gather(t)), Record(Done(t), Side)]
  }

  /** Transport.remote_result: the peer's heads are computed on the side stream as well. */
  function RemoteCommands(rank: nat, slab: nat): seq<Command>
    requires rank <= 1
  {
    var t := Ticket(Result, slab);
    [Record(Ready(t), Caller), Wait(Side, Ready(t)), Launch(Side, Peer(rank, slab)), Launch(Side, Gather(t)),
     Record(Done(t), Side)]
  }

  /** Transfer.join without a dependency, as issued for a query. */
  function JoinCommands(t: Ticket): seq<Command> {
    [Wait(Caller, Done(t)), Joined(t)]
  }

  /** PendingMerge.finish; in concurrent mode its join covers the query as well. */
  function FinishCommands(mode: Mode, slab: nat): seq<Command> {
    JoinCommands(Ticket(Result, slab)) +
    (if mode == Concurrent then [Joined(Ticket(Query, slab))] else []) + [Launch(Caller, Merge(slab))]
  }

  /** The start of a slab: its query is sent, then the caller prepares the metadata. */
  function OpenCommands(slab: nat): seq<Command> {
    [Launch(Caller, Prepare(slab))] + GatherCommands(Ticket(Query, slab)) + [Launch(Caller, Metadata(slab))]
  }

  function FinishPrevious(mode: Mode, previous: Option<nat>): seq<Command> {
    if previous.Some? then FinishCommands(mode, previous.value) else []
  }

  /** One slab; previous is the slab whose merge is still to be done. */
  function SlabCommands(f: Forward, slab: nat, previous: Option<nat>): seq<Command>
    requires f.Valid() && slab < |f.rows|
  {
    var parts := f.PartsOf(slab);
    OpenCommands(slab) +
    if f.mode == Concurrent then
      RemoteCommands(f.rank, slab) + [Launch(Caller, Own(f.rank, slab, parts[0]))] + FinishCommands(f.mode, slab)
    else
      [Launch(Caller, Own(f.rank, slab, parts[0]))] + JoinCommands(Ticket(Query, slab)) +
      FinishPrevious(f.mode, previous) + [Launch(Caller, Peer(f.rank, slab))] +
      GatherCommands(Ticket(Result, slab)) +
      if |parts| == 2 then [Launch(Caller, Own(f.rank, slab, parts[1]))] + FinishCommands(f.mode, slab) else []
  }

  /** The slab whose merge is left to the next one. */
  function Deferred(f: Forward, slab: nat): Option<nat>
    requires slab < |f.rows|
  {
    if f.mode == Concurrent || |f.PartsOf(slab)| == 2 then None else Some(slab)
  }

  function Previous(f: Forward, n: nat): Option<nat>
    requires n <= |f.rows|
  {
    if n == 0 then None else Deferred(f, n - 1)
  }

  /** The first n slabs. */
  function Slabs(f: Forward, n: nat): seq<Command>
    requires f.Valid() && n <= |f.rows|
  {
    if n == 0 then [] else Slabs(f, n - 1) + SlabCommands(f, n - 1, Previous(f, n - 1))
  }

  /** Everything one session submits. */
  function Plan(f: Forward): seq<Command>
    requires f.Valid()
  {
    Slabs(f, |f.rows|) + FinishPrevious(f.mode, Previous(f, |f.rows|))
  }

  /** The first slabs are the beginning of the plan. */
  lemma {:induction false} SlabsArePrefix(f: Forward, n: nat)
    requires f.Valid() && n <= |f.rows|
    ensures Slabs(f, n) <= Plan(f)
    decreases |f.rows| - n
  {
    if n < |f.rows| {
      SlabsArePrefix(f, n + 1);
    }
  }

  // ----- Stream ordering -----

  /** What holds between slabs. */
  ghost predicate Between(f: Forward, c: Clock, previous: Option<nat>)
    requires f.Valid()
  {
    match previous
    case None => c.side <= c.caller
    case Some(p) =>
      var t := Ticket(Result, p);
      && p < |f.rows| && Done(t) in c.events && c.side == c.events[Done(t)]
      && Gather(t) in c.side && HeadsDone(f, c, p)
  }

  /** All heads of a slab, own and peer's, are ordered before the caller stream. */
  ghost predicate HeadsDone(f: Forward, c: Clock, slab: nat)
    requires f.Valid() && slab < |f.rows|
  {
    Peer(f.rank, slab) in c.caller && forall part <- f.PartsOf(slab) :: Own(f.rank, slab, part) in c.caller
  }

  lemma GatherEffect(f: Forward, c: Clock, t: Ticket)
    requires f.Valid() && f.Needs(Gather(t)) <= c.caller
    ensures AllSafe(f, c, GatherCommands(t))
    ensures var known := c.side + c.caller + {Gather(t)};
      Play(c, GatherCommands(t)) == Clock(c.caller, known, c.events[Ready(t) := c.caller][Done(t) := known])
  {
    var c1 := Do(c, Record(Ready(t), Caller));
    var c2 := Do(c1, Wait(Side, Ready(t)));
    var c3 := Do(c2, Launch(Side, Gather(t)));
    var c4 := Do(c3, Record(Done(t), Side));
    var r3 := [Record(Done(t), Side)];
    var r2 := [Launch(Side, Gather(t))] + r3;
    var r1 := [Wait(Side, Ready(t))] + r2;
    assert GatherCommands(t) == [Record(Ready(t), Caller)] + r1;
    PlayCons(f, c, Record(Ready(t), Caller), r1);
    PlayCons(f, c1, Wait(Side, Ready(t)), r2);
    PlayCons(f, c2, Launch(Side, Gather(t)), r3);
    PlayCons(f, c3, Record(Done(t), Side), []);
    assert r3 == r3 + [];
  }

  lemma LaunchEffect(f: Forward, c: Clock, s: Stream, w: Work)
    requires f.Valid() && f.Needs(w) <= c.On(s)
    ensures AllSafe(f, c, [Launch(s, w)]) && Play(c, [Launch(s, w)]) == c.Seen(s, {w})
  {
    PlayCons(f, c, Launch(s, w), []);
    assert [Launch(s, w)] + [] == [Launch(s, w)];
  }

  lemma OpenEffect(f: Forward, c: Clock, slab: nat)
    requires f.Valid()
    ensures AllSafe(f, c, OpenCommands(slab))
    ensures var t := Ticket(Query, slab);
      var known := c.side + c.caller + {Prepare(slab), Gather(t)};
      Play(c, OpenCommands(slab)) ==
      Clock(c.caller + {Prepare(slab), Metadata(slab)}, known,
            c.events[Ready(t) := c.caller + {Prepare(slab)}][Done(t) := known])
  {
    var t := Ticket(Query, slab);
    var a, b, d := [Launch(Caller, Prepare(slab))], GatherCommands(t), [Launch(Caller, Metadata(slab))];
    LaunchEffect(f, c, Caller, Prepare(slab));
    var c1 := Play(c, a);
    GatherEffect(f, c1, t);
    var c2 := Play(c1, b);
    LaunchEffect(f, c2, Caller, Metadata(slab));
    PlayAppend(f, c, a, b);
    PlayAppend(f, c, a + b, d);
    assert c.side + c1.caller + {Gather(t)} == c.side + c.caller + {Prepare(slab), Gather(t)};
    assert c2.caller + {Metadata(slab)} == c.caller + {Prepare(slab), Metadata(slab)};
  }

  lemma JoinEffect(f: Forward, c: Clock, t: Ticket)
    requires f.Valid() && Done(t) in c.events
    requires f.Users(t) <= c.caller + c.events[Done(t)]
    ensures AllSafe(f, c, JoinCommands(t))
    ensures Play(c, JoinCommands(t)) == c.(caller := c.caller + c.events[Done(t)])
  {
    var c1 := Do(c, Wait(Caller, Done(t)));
    var r := [Joined(t)];
    assert JoinCommands(t) == [Wait(Caller, Done(t))] + r;
    PlayCons(f, c, Wait(Caller, Done(t)), r);
    PlayCons(f, c1, Joined(t), []);
    assert r + [] == r;
  }

  lemma FinishEffect(f: Forward, c: Clock, slab: nat)
    requires f.Valid() && slab < |f.rows| && Done(Ticket(Result, slab)) in c.events
    requires var t := Ticket(Result, slab);
      var c' := c.(caller := c.caller + c.events[Done(t)]);
      && Gather(t) in c'.caller && HeadsDone(f, c', slab)
      && (f.mode == Concurrent ==> {Gather(Ticket(Query, slab)), Prepare(slab)} <= c'.caller)
    ensures AllSafe(f, c, FinishCommands(f.mode, slab))
    ensures Play(c, FinishCommands(f.mode, slab)) ==
      c.(caller := c.caller + c.events[Done(Ticket(Result, slab))] + {Merge(slab)})
  {
    var t, q := Ticket(Result, slab), Ticket(Query, slab);
    JoinEffect(f, c, t);
    var c1 := Play(c, JoinCommands(t));
    LaunchEffect(f, c1, Caller, Merge(slab));
    var last := [Launch(Caller, Merge(slab))];
    if f.mode == Concurrent {
      PlayCons(f, c1, Joined(q), last);
      assert FinishCommands(f.mode, slab) == JoinCommands(t) + ([Joined(q)] + last);
      PlayAppend(f, c, JoinCommands(t), [Joined(q)] + last);
    } else {
      assert FinishCommands(f.mode, slab) == JoinCommands(t) + last;
      PlayAppend(f, c, JoinCommands(t), last);
    }
  }

  lemma RemoteEffect(f: Forward, c: Clock, slab: nat)
    requires f.Valid() && Metadata(slab) in c.caller && Gather(Ticket(Query, slab)) in c.side
    ensures AllSafe(f, c, RemoteCommands(f.rank, slab))
    ensures var t := Ticket(Result, slab);
      var known := c.side + c.caller + {Peer(f.rank, slab), Gather(t)};
      Play(c, RemoteCommands(f.rank, slab)) ==
      Clock(c.caller, known, c.events[Ready(t) := c.caller][Done(t) := known])
  {
    var t, w := Ticket(Result, slab), Peer(f.rank, slab);
    var c1 := Do(c, Record(Ready(t), Caller));
    var c2 := Do(c1, Wait(Side, Ready(t)));
    var c3 := Do(c2, Launch(Side, w));
    var c4 := Do(c3, Launch(Side, Gather(t)));
    var r4 := [Record(Done(t), Side)];
    var r3 := [Launch(Side, Gather(t))] + r4;
    var r2 := [Launch(Side, w)] + r3;
    var r1 := [Wait(Side, Ready(t))] + r2;
    assert RemoteCommands(f.rank, slab) == [Record(Ready(t), Caller)] + r1;
    PlayCons(f, c, Record(Ready(t), Caller), r1);
    PlayCons(f, c1, Wait(Side, Ready(t)), r2);
    PlayCons(f, c2, Launch(Side, w), r3);
    PlayCons(f, c3, Launch(Side, Gather(t)), r4);
    PlayCons(f, c4, Record(Done(t), Side), []);
    assert r4 == r4 + [];
    assert c4.side == c.side + c.caller + {w, Gather(t)};
  }

  /** A slab whose query has been sent and whose metadata is prepared. */
  ghost predicate Opened(f: Forward, c: Clock, slab: nat)
    requires f.Valid()
  {
    var q := Ticket(Query, slab);
    && slab < |f.rows| && Done(q) in c.events && c.side == c.events[Done(q)] && Gather(q) in c.side
    && Prepare(slab) in c.caller && Metadata(slab) in c.caller
  }

  lemma ConcurrentBody(f: Forward, c: Clock, slab: nat)
    requires f.Valid() && f.mode == Concurrent && Opened(f, c, slab)
    ensures var body := RemoteCommands(f.rank, slab) + [Launch(Caller, Own(f.rank, slab, f.PartsOf(slab)[0]))] +
                        FinishCommands(f.mode, slab);
      AllSafe(f, c, body) && Between(f, Play(c, body), None)
  {
    var own := Own(f.rank, slab, f.PartsOf(slab)[0]);
    var a, b, d := RemoteCommands(f.rank, slab), [Launch(Caller, own)], FinishCommands(f.mode, slab);
    RemoteEffect(f, c, slab);
    var c1 := Play(c, a);
    LaunchEffect(f, c1, Caller, own);
    var c2 := Play(c1, b);
    FinishEffect(f, c2, slab);
    PlayAppend(f, c, a, b);
    PlayAppend(f, c, a + b, d);
  }

  /** The previous slab is ready to be merged, or there is none. */
  ghost predicate Mergeable(f: Forward, c: Clock, previous: Option<nat>)
    requires f.Valid()
  {
    previous.Some? ==>
      var p, t := previous.value, Ticket(Result, previous.value);
      && p < |f.rows| && Done(t) in c.events && Gather(t) in c.events[Done(t)] && HeadsDone(f, c, p)
  }

  lemma PreviousEffect(f: Forward, c: Clock, previous: Option<nat>)
    requires f.Valid() && f.mode != Concurrent && Mergeable(f, c, previous)
    ensures AllSafe(f, c, FinishPrevious(f.mode, previous))
    ensures var c' := Play(c, FinishPrevious(f.mode, previous));
      && c'.side == c.side && c'.events == c.events && c.caller <= c'.caller
      && (previous.Some? ==> c.events[Done(Ticket(Result, previous.value))] <= c'.caller)
  {
    if previous.Some? {
      FinishEffect(f, c, previous.value);
    }
  }

  /** Own heads, the query's join, the merge left over, the peer's heads. */
  function SerialHead(f: Forward, slab: nat, previous: Option<nat>): seq<Command>
    requires f.Valid() && slab < |f.rows|
  {
    [Launch(Caller, Own(f.rank, slab, f.PartsOf(slab)[0]))] + JoinCommands(Ticket(Query, slab)) +
    FinishPrevious(f.mode, previous) + [Launch(Caller, Peer(f.rank, slab))]
  }

  lemma SerialHeadEffect(f: Forward, c: Clock, slab: nat, previous: Option<nat>)
    requires f.Valid() && f.mode != Concurrent && Opened(f, c, slab) && Mergeable(f, c, previous)
    ensures AllSafe(f, c, SerialHead(f, slab, previous))
    ensures var c' := Play(c, SerialHead(f, slab, previous));
      && c'.side == c.side && c'.events == c.events && c.caller + c.side <= c'.caller
      && Own(f.rank, slab, f.PartsOf(slab)[0]) in c'.caller && Peer(f.rank, slab) in c'.caller
  {
    var own, q := Own(f.rank, slab, f.PartsOf(slab)[0]), Ticket(Query, slab);
    var a, b := [Launch(Caller, own)], JoinCommands(q);
    var d, e := FinishPrevious(f.mode, previous), [Launch(Caller, Peer(f.rank, slab))];
    LaunchEffect(f, c, Caller, own);
    var c1 := Play(c, a);
    JoinEffect(f, c1, q);
    var c2 := Play(c1, b);
    PreviousEffect(f, c2, previous);
    var c3 := Play(c2, d);
    LaunchEffect(f, c3, Caller, Peer(f.rank, slab));
    PlayAppend(f, c, a, b);
    PlayAppend(f, c, a + b, d);
    PlayAppend(f, c, a + b + d, e);
  }

  /** The result exchange and, for a slab in two halves, the second half and the merge. */
  function SerialTail(f: Forward, slab: nat): seq<Command>
    requires f.Valid() && slab < |f.rows|
  {
    GatherCommands(Ticket(Result, slab)) +
    if |f.PartsOf(slab)| == 2 then
      [Launch(Caller, Own(f.rank, slab, f.PartsOf(slab)[1]))] + FinishCommands(f.mode, slab)
    else []
  }

  lemma SerialTailEffect(f: Forward, c: Clock, slab: nat)
    requires f.Valid() && f.mode != Concurrent && slab < |f.rows|
    requires Prepare(slab) in c.caller && Metadata(slab) in c.caller
    requires Own(f.rank, slab, f.PartsOf(slab)[0]) in c.caller && Peer(f.rank, slab) in c.caller
    ensures AllSafe(f, c, SerialTail(f, slab)) && Between(f, Play(c, SerialTail(f, slab)), Deferred(f, slab))
  {
    var t, parts := Ticket(Result, slab), f.PartsOf(slab);
    var a := GatherCommands(t);
    GatherEffect(f, c, t);
    var c1 := Play(c, a);
    if |parts| == 2 {
      var own := Own(f.rank, slab, parts[1]);
      var b, d := [Launch(Caller, own)], FinishCommands(f.mode, slab);
      LaunchEffect(f, c1, Caller, own);
      var c2 := Play(c1, b);
      FinishEffect(f, c2, slab);
      PlayAppend(f, c1, b, d);
      PlayAppend(f, c, a, b + d);
    } else {
      assert a + [] == a;
    }
  }

  lemma SlabEffect(f: Forward, c: Clock, slab: nat, previous: Option<nat>)
    requires f.Valid() && slab < |f.rows| && Between(f, c, previous)
    requires f.mode == Concurrent ==> previous == None
    ensures AllSafe(f, c, SlabCommands(f, slab, previous))
    ensures Between(f, Play(c, SlabCommands(f, slab, previous)), Deferred(f, slab))
  {
    var a := OpenCommands(slab);
    OpenEffect(f, c, slab);
    var c1 := Play(c, a);
    if f.mode == Concurrent {
      ConcurrentBody(f, c1, slab);
      PlayAppend(f, c, a, RemoteCommands(f.rank, slab) + [Launch(Caller, Own(f.rank, slab, f.PartsOf(slab)[0]))] +
                          FinishCommands(f.mode, slab));
    } else {
      var b, d := SerialHead(f, slab, previous), SerialTail(f, slab);
      SerialHeadEffect(f, c1, slab, previous);
      var c2 := Play(c1, b);
      SerialTailEffect(f, c2, slab);
      PlayAppend(f, c1, b, d);
      PlayAppend(f, c, a, b + d);
      assert SlabCommands(f, slab, previous) == a + (b + d);
    }
  }

  lemma {:induction false} SlabsEffect(f: Forward, n: nat)
    requires f.Valid() && n <= |f.rows|
    ensures AllSafe(f, FRESH, Slabs(f, n)) && Between(f, Play(FRESH, Slabs(f, n)), Previous(f, n))
  {
    if n > 0 {
      SlabsEffect(f, n - 1);
      SlabEffect(f, Play(FRESH, Slabs(f, n - 1)), n - 1, Previous(f, n - 1));
      PlayAppend(f, FRESH, Slabs(f, n - 1), SlabCommands(f, n - 1, Previous(f, n - 1)));
    }
  }

  /**
  For every mode and every sequence of slabs, every command finds its inputs written by
  work that is ordered before it, buffers are given up only after everything on the side
  stream that uses them, and at the end nothing on the side stream is unordered.
  */
  lemma EveryReadIsOrdered(f: Forward)
    requires f.Valid()
    ensures AllSafe(f, FRESH, Plan(f))
    ensures Play(FRESH, Plan(f)).side <= Play(FRESH, Plan(f)).caller
  {
    var n := |f.rows|;
    var c, last := Play(FRESH, Slabs(f, n)), FinishPrevious(f.mode, Previous(f, n));
    SlabsEffect(f, n);
    PlayAppend(f, FRESH, Slabs(f, n), last);
    if Previous(f, n).Some? {
      PreviousEffect(f, c, Previous(f, n));
    }
  }

  /** Joining the query on its own in concurrent mode would release it under the peer's heads. */
  lemma EarlyReleaseIsUnsafe(f: Forward, slab: nat)
    requires f.Valid() && f.mode == Concurrent
    ensures var forked := OpenCommands(slab) + RemoteCommands(f.rank, slab);
      AllSafe(f, FRESH, forked) && !AllSafe(f, FRESH, forked + JoinCommands(Ticket(Query, slab)))
  {
    var q := Ticket(Query, slab);
    var a, b, d := OpenCommands(slab), RemoteCommands(f.rank, slab), JoinCommands(q);
    OpenEffect(f, FRESH, slab);
    var c := Play(FRESH, a);
    RemoteEffect(f, c, slab);
    PlayAppend(f, FRESH, a, b);
    PlayAppend(f, FRESH, a + b, d);
    var c' := Play(c, b);
    assert d == [Wait(Caller, Done(q))] + [Joined(q)];
    PlayCons(f, c', Wait(Caller, Done(q)), [Joined(q)]);
    assert Peer(f.rank, slab) !in Do(c', Wait(Caller, Done(q))).caller;
  }

  // ----- What happens exactly once, and in which order -----

  datatype Lens = Collectives | Merges | Joins

  predicate Keeps(lens: Lens, cmd: Command) {
    match lens
    case Collectives => cmd.Launch? && cmd.work.Gather?
    case Merges => cmd.Launch? && cmd.work.Merge?
    case Joins => cmd.Joined?
  }

  /** The commands of one sort, in order. */
  function Select(lens: Lens, cmds: seq<Command>): seq<Command> {
    if cmds == [] then [] else One(lens, cmds[0]) + Select(lens, cmds[1..])
  }

  function One(lens: Lens, cmd: Command): seq<Command> {
    if Keeps(lens, cmd) then [cmd] else []
  }

  lemma {:induction false} SelectAppend(lens: Lens, a: seq<Command>, b: seq<Command>)
    ensures Select(lens, a + b) == Select(lens, a) + Select(lens, b)
  {
    if a == [] {
      assert a + b == b;
    } else {
      assert (a + b)[1..] == a[1..] + b;
      SelectAppend(lens, a[1..], b);
      Associates(One(lens, a[0]), Select(lens, a[1..]), Select(lens, b));
    }
  }

  lemma Associates<T>(a: seq<T>, b: seq<T>, c: seq<T>)
    ensures (a + b) + c == a + (b + c)
  {
  }

  lemma SelectOne(lens: Lens, cmd: Command)
    ensures Select(lens, [cmd]) == One(lens, cmd)
  {
    assert Select(lens, [cmd][1..]) == [];
  }

  lemma SelectFirst(lens: Lens, cmd: Command, rest: seq<Command>)
    ensures Select(lens, [cmd] + rest) == if Keeps(lens, cmd) then [cmd] + Select(lens, rest) else Select(lens, rest)
  {
    assert ([cmd] + rest)[1..] == rest;
  }

  lemma SelectLast(lens: Lens, before: seq<Command>, cmd: Command)
    ensures Select(lens, before + [cmd]) ==
            if Keeps(lens, cmd) then Select(lens, before) + [cmd] else Select(lens, before)
  {
    SelectAppend(lens, before, [cmd]);
    SelectOne(lens, cmd);
  }

  /** The end of a fork: the exchange and the record of its completion. */
  function ExchangeCommands(t: Ticket): seq<Command> {
    [Launch(Side, Gather(t)), Record(Done(t), Side)]
  }

  lemma SelectExchange(lens: Lens, t: Ticket)
    ensures Select(lens, ExchangeCommands(t)) == if lens == Collectives then [Launch(Side, Gather(t))] else []
  {
    SelectOne(lens, Record(Done(t), Side));
    SelectFirst(lens, Launch(Side, Gather(t)), [Record(Done(t), Side)]);
    assert ExchangeCommands(t) == [Launch(Side, Gather(t))] + [Record(Done(t), Side)];
  }

  lemma SelectForked(lens: Lens, t: Ticket, rest: seq<Command>)
    ensures Select(lens, [Record(Ready(t), Caller), Wait(Side, Ready(t))] + rest) == Select(lens, rest)
  {
    SkipTwo(lens, Record(Ready(t), Caller), Wait(Side, Ready(t)), rest);
  }

  lemma SkipTwo(lens: Lens, x: Command, y: Command, rest: seq<Command>)
    requires !Keeps(lens, x) && !Keeps(lens, y)
    ensures Select(lens, [x, y] + rest) == Select(lens, rest)
  {
    SelectFirst(lens, y, rest);
    SelectFirst(lens, x, [y] + rest);
    assert [x] + [y] == [x, y];
    Associates([x], [y], rest);
  }

  lemma SelectGather(lens: Lens, t: Ticket)
    ensures Select(lens, GatherCommands(t)) == if lens == Collectives then [Launch(Side, Gather(t))] else []
  {
    SelectExchange(lens, t);
    SelectForked(lens, t, ExchangeCommands(t));
    assert GatherCommands(t) == [Record(Ready(t), Caller), Wait(Side, Ready(t))] + ExchangeCommands(t);
  }

  lemma SelectRemote(lens: Lens, rank: nat, slab: nat)
    requires rank <= 1
    ensures Select(lens, RemoteCommands(rank, slab)) ==
            if lens == Collectives then [Launch(Side, Gather(Ticket(Result, slab)))] else []
  {
    var t := Ticket(Result, slab);
    var rest := [Launch(Side, Peer(rank, slab))] + ExchangeCommands(t);
    SelectExchange(lens, t);
    SelectFirst(lens, Launch(Side, Peer(rank, slab)), ExchangeCommands(t));
    SelectForked(lens, t, rest);
    assert RemoteCommands(rank, slab) == [Record(Ready(t), Caller), Wait(Side, Ready(t))] + rest;
  }

  lemma SelectJoin(lens: Lens, t: Ticket)
    ensures Select(lens, JoinCommands(t)) == if lens == Joins then [Joined(t)] else []
  {
    SelectOne(lens, Joined(t));
    SelectFirst(lens, Wait(Caller, Done(t)), [Joined(t)]);
    assert JoinCommands(t) == [Wait(Caller, Done(t))] + [Joined(t)];
  }

  /** What finishing a slab contributes. */
  function Finishing(lens: Lens, mode: Mode, slab: nat): seq<Command> {
    match lens
    case Collectives => []
    case Merges => [Launch(Caller, Merge(slab))]
    case Joins => [Joined(Ticket(Result, slab))] + if mode == Concurrent then [Joined(Ticket(Query, slab))] else []
  }

  lemma SelectFinish(lens: Lens, mode: Mode, slab: nat)
    ensures Select(lens, FinishCommands(mode, slab)) == Finishing(lens, mode, slab)
  {
    var join, merge := JoinCommands(Ticket(Result, slab)), Launch(Caller, Merge(slab));
    SelectJoin(lens, Ticket(Result, slab));
    if mode == Concurrent {
      var query := Joined(Ticket(Query, slab));
      SelectLast(lens, join, query);
      SelectLast(lens, join + [query], merge);
    } else {
      SelectLast(lens, join, merge);
      assert join + [] == join;
    }
  }

  lemma SelectOpen(lens: Lens, slab: nat)
    ensures Select(lens, OpenCommands(slab)) ==
            if lens == Collectives then [Launch(Side, Gather(Ticket(Query, slab)))] else []
  {
    var gather := GatherCommands(Ticket(Query, slab));
    SelectGather(lens, Ticket(Query, slab));
    SelectFirst(lens, Launch(Caller, Prepare(slab)), gather);
    SelectLast(lens, [Launch(Caller, Prepare(slab))] + gather, Launch(Caller, Metadata(slab)));
  }

  function FinishingPrevious(lens: Lens, mode: Mode, previous: Option<nat>): seq<Command> {
    if previous.Some? then Finishing(lens, mode, previous.value) else []
  }

  /** What one slab contributes. */
  function Contribution(lens: Lens, f: Forward, slab: nat, previous: Option<nat>): seq<Command>
    requires slab < |f.rows|
  {
    if lens == Collectives then
      [Launch(Side, Gather(Ticket(Query, slab))), Launch(Side, Gather(Ticket(Result, slab)))]
    else if f.mode == Concurrent then Finishing(lens, f.mode, slab)
    else
      (if lens == Joins then [Joined(Ticket(Query, slab))] else []) + FinishingPrevious(lens, f.mode, previous) +
      if |f.PartsOf(slab)| == 2 then Finishing(lens, f.mode, slab) else []
  }

  lemma SelectSerialHead(lens: Lens, f: Forward, slab: nat, previous: Option<nat>)
    requires f.Valid() && slab < |f.rows|
    ensures Select(lens, SerialHead(f, slab, previous)) ==
      (if lens == Joins then [Joined(Ticket(Query, slab))] else []) + FinishingPrevious(lens, f.mode, previous)
  {
    var q := Ticket(Query, slab);
    var a, b := [Launch(Caller, Own(f.rank, slab, f.PartsOf(slab)[0]))], JoinCommands(q);
    var c, d := FinishPrevious(f.mode, previous), [Launch(Caller, Peer(f.rank, slab))];
    SelectOne(lens, a[0]);
    SelectJoin(lens, q);
    SelectOne(lens, d[0]);
    if previous.Some? {
      SelectFinish(lens, f.mode, previous.value);
    }
    SelectFour(lens, a, b, c, d);
  }

  lemma SelectFour(lens: Lens, a: seq<Command>, b: seq<Command>, c: seq<Command>, d: seq<Command>)
    requires Select(lens, a) == [] && Select(lens, d) == []
    ensures Select(lens, a + b + c + d) == Select(lens, b) + Select(lens, c)
  {
    SelectAppend(lens, a + b + c, d);
    SelectAppend(lens, a + b, c);
    SelectAppend(lens, a, b);
  }

  lemma SelectSerialTail(lens: Lens, f: Forward, slab: nat)
    requires f.Valid() && slab < |f.rows|
    ensures Select(lens, SerialTail(f, slab)) ==
      (if lens == Collectives then [Launch(Side, Gather(Ticket(Result, slab)))] else []) +
      if |f.PartsOf(slab)| == 2 then Finishing(lens, f.mode, slab) else []
  {
    var a, b := GatherCommands(Ticket(Result, slab)), FinishCommands(f.mode, slab);
    SelectGather(lens, Ticket(Result, slab));
    if |f.PartsOf(slab)| == 2 {
      var g := [Launch(Caller, Own(f.rank, slab, f.PartsOf(slab)[1]))];
      SelectOne(lens, g[0]);
      SelectFinish(lens, f.mode, slab);
      SelectAppend(lens, g, b);
      SelectAppend(lens, a, g + b);
    } else {
      assert a + [] == a;
    }
  }

  lemma SelectConcurrent(lens: Lens, f: Forward, slab: nat)
    requires f.Valid() && slab < |f.rows|
    ensures Select(lens, RemoteCommands(f.rank, slab) + [Launch(Caller, Own(f.rank, slab, f.PartsOf(slab)[0]))] +
                         FinishCommands(f.mode, slab)) ==
      (if lens == Collectives then [Launch(Side, Gather(Ticket(Result, slab)))] else []) +
      Finishing(lens, f.mode, slab)
  {
    var a, b := RemoteCommands(f.rank, slab), [Launch(Caller, Own(f.rank, slab, f.PartsOf(slab)[0]))];
    SelectRemote(lens, f.rank, slab);
    SelectOne(lens, b[0]);
    SelectFinish(lens, f.mode, slab);
    SelectAppend(lens, a, b);
    SelectAppend(lens, a + b, FinishCommands(f.mode, slab));
  }

  lemma SelectSerial(lens: Lens, f: Forward, slab: nat, previous: Option<nat>)
    requires f.Valid() && slab < |f.rows|
    ensures Select(lens, OpenCommands(slab) + (SerialHead(f, slab, previous) + SerialTail(f, slab))) ==
      Select(lens, OpenCommands(slab)) + (Select(lens, SerialHead(f, slab, previous)) +
                                          Select(lens, SerialTail(f, slab)))
  {
    var a, b := SerialHead(f, slab, previous), SerialTail(f, slab);
    SelectAppend(lens, a, b);
    SelectAppend(lens, OpenCommands(slab), a + b);
  }

  lemma SelectSerialSlab(lens: Lens, f: Forward, slab: nat, previous: Option<nat>)
    requires f.Valid() && slab < |f.rows| && f.mode != Concurrent
    ensures Select(lens, SlabCommands(f, slab, previous)) == Contribution(lens, f, slab, previous)
  {
    SelectOpen(lens, slab);
    SelectSerialHead(lens, f, slab, previous);
    SelectSerialTail(lens, f, slab);
    SelectSerial(lens, f, slab, previous);
    SerialInThree(f, slab, previous);
    var gather := if lens == Collectives then [Launch(Side, Gather(Ticket(Result, slab)))] else [];
    WithoutEmpty(Select(lens, OpenCommands(slab)), Select(lens, SerialHead(f, slab, previous)), gather,
      if |f.PartsOf(slab)| == 2 then Finishing(lens, f.mode, slab) else []);
  }

  lemma SerialInThree(f: Forward, slab: nat, previous: Option<nat>)
    requires f.Valid() && slab < |f.rows| && f.mode != Concurrent
    ensures SlabCommands(f, slab, previous) ==
            OpenCommands(slab) + (SerialHead(f, slab, previous) + SerialTail(f, slab))
  {
  }

  lemma WithoutEmpty<T>(a: seq<T>, b: seq<T>, c: seq<T>, d: seq<T>)
    ensures a == [] && c == [] ==> a + (b + (c + d)) == b + d
    ensures b == [] && d == [] ==> a + (b + (c + d)) == a + c
  {
  }

  lemma SelectSlab(lens: Lens, f: Forward, slab: nat, previous: Option<nat>)
    requires f.Valid() && slab < |f.rows|
    ensures Select(lens, SlabCommands(f, slab, previous)) == Contribution(lens, f, slab, previous)
  {
    if f.mode == Concurrent {
      SelectOpen(lens, slab);
      SelectConcurrent(lens, f, slab);
      SelectAppend(lens, OpenCommands(slab), RemoteCommands(f.rank, slab) +
        [Launch(Caller, Own(f.rank, slab, f.PartsOf(slab)[0]))] + FinishCommands(f.mode, slab));
    } else {
      SelectSerialSlab(lens, f, slab, previous);
    }
  }

  /** The collectives of n slabs: query and result of each in turn. */
  function Exchanges(n: nat): seq<Command> {
    if n == 0 then []
    else
      var query, result := Gather(Ticket(Query, n - 1)), Gather(Ticket(Result, n - 1));
      Exchanges(n - 1) + [Launch(Side, query), Launch(Side, result)]
  }

  lemma {:induction false} CollectivesOfSlabs(f: Forward, n: nat)
    requires f.Valid() && n <= |f.rows|
    ensures Select(Collectives, Slabs(f, n)) == Exchanges(n)
  {
    if n > 0 {
      var m := n - 1;
      var a, b := Slabs(f, m), SlabCommands(f, m, Previous(f, m));
      CollectivesOfSlabs(f, m);
      SelectSlab(Collectives, f, m, Previous(f, m));
      SelectAppend(Collectives, a, b);
    }
  }

  /** The sequence of collectives does not depend on the rank, nor on the mode. */
  lemma RanksAgree(f: Forward)
    requires f.Valid()
    ensures Select(Collectives, Plan(f)) == Exchanges(|f.rows|)
  {
    var n := |f.rows|;
    CollectivesOfSlabs(f, n);
    SelectAppend(Collectives, Slabs(f, n), FinishPrevious(f.mode, Previous(f, n)));
    if Previous(f, n).Some? {
      SelectFinish(Collectives, f.mode, Previous(f, n).value);
    }
  }

  /** The merges of n slabs in order. */
  function MergesInOrder(n: nat): (r: seq<Command>)
    ensures |r| == n && forall k :: 0 <= k < n ==> r[k] == Launch(Caller, Merge(k))
  {
    seq(n, k requires 0 <= k => Launch(Caller, Merge(k)))
  }

  /** What the slab left to the next one still has to contribute. */
  function Left(lens: Lens, f: Forward, n: nat): seq<Command>
    requires n <= |f.rows|
  {
    FinishingPrevious(lens, f.mode, Previous(f, n))
  }

  /** A slab contributes its own merge, after the one left to it and before the one it leaves. */
  lemma SlabMerges(f: Forward, n: nat)
    requires f.Valid() && n < |f.rows|
    ensures Select(Merges, SlabCommands(f, n, Previous(f, n))) + Left(Merges, f, n + 1) ==
            Left(Merges, f, n) + [Launch(Caller, Merge(n))]
  {
    SelectSlab(Merges, f, n, Previous(f, n));
  }

  lemma Regroup<T>(a: seq<T>, b: seq<T>, c: seq<T>, d: seq<T>, e: seq<T>)
    requires b + c == d + e
    ensures (a + b) + c == (a + d) + e
  {
    assert (a + b) + c == a + (b + c);
    assert (a + d) + e == a + (d + e);
  }

  lemma {:induction false} MergesOfSlabs(f: Forward, n: nat)
    requires f.Valid() && n <= |f.rows|
    ensures Select(Merges, Slabs(f, n)) + Left(Merges, f, n) == MergesInOrder(n)
  {
    if n > 0 {
      var m := n - 1;
      var a, b := Slabs(f, m), SlabCommands(f, m, Previous(f, m));
      MergesOfSlabs(f, m);
      SelectAppend(Merges, a, b);
      SlabMerges(f, m);
      Regroup(Select(Merges, a), Select(Merges, b), Left(Merges, f, n), Left(Merges, f, m), [Launch(Caller, Merge(m))]);
      NextInOrder(m);
    }
  }

  lemma NextInOrder(n: nat)
    ensures MergesInOrder(n + 1) == MergesInOrder(n) + [Launch(Caller, Merge(n))]
  {
  }

  /** Every slab is merged exactly once, in the order of the slabs. */
  lemma EverySlabMergedOnce(f: Forward)
    requires f.Valid()
    ensures Select(Merges, Plan(f)) == MergesInOrder(|f.rows|)
  {
    var n := |f.rows|;
    MergesOfSlabs(f, n);
    SelectAppend(Merges, Slabs(f, n), FinishPrevious(f.mode, Previous(f, n)));
    if Previous(f, n).Some? {
      SelectFinish(Merges, f.mode, Previous(f, n).value);
    }
  }

  /** The joins of n slabs, slab by slab. */
  function JoinOrder(f: Forward, n: nat): seq<Command>
    requires n <= |f.rows|
  {
    if n == 0 then [] else JoinOrder(f, n - 1) + Contribution(Joins, f, n - 1, Previous(f, n - 1))
  }

  lemma {:induction false} JoinsOfSlabs(f: Forward, n: nat)
    requires f.Valid() && n <= |f.rows|
    ensures Select(Joins, Slabs(f, n)) == JoinOrder(f, n)
  {
    if n > 0 {
      JoinsOfSlabs(f, n - 1);
      SelectSlab(Joins, f, n - 1, Previous(f, n - 1));
      SelectAppend(Joins, Slabs(f, n - 1), SlabCommands(f, n - 1, Previous(f, n - 1)));
    }
  }

  function Count(cmds: seq<Command>, cmd: Command): nat {
    if cmds == [] then 0 else (if cmds[0] == cmd then 1 else 0) + Count(cmds[1..], cmd)
  }

  lemma {:induction false} CountAppend(a: seq<Command>, b: seq<Command>, cmd: Command)
    ensures Count(a + b, cmd) == Count(a, cmd) + Count(b, cmd)
  {
    if a == [] {
      assert a + b == b;
    } else {
      assert (a + b)[1..] == a[1..] + b;
      CountAppend(a[1..], b, cmd);
    }
  }

  lemma CountOne(cmd: Command, other: Command)
    ensures Count([cmd], other) == if cmd == other then 1 else 0
  {
    assert Count([cmd][1..], other) == 0;
  }

  lemma CountFinishing(mode: Mode, slab: nat, t: Ticket)
    ensures Count(Finishing(Joins, mode, slab), Joined(t)) ==
            if t.slab == slab && (t.kind == Result || mode == Concurrent) then 1 else 0
  {
    var q := if mode == Concurrent then [Joined(Ticket(Query, slab))] else [];
    CountOne(Joined(Ticket(Result, slab)), Joined(t));
    CountOne(Joined(Ticket(Query, slab)), Joined(t));
    CountAppend([Joined(Ticket(Result, slab))], q, Joined(t));
    assert t.kind == Query || t.kind == Result;
  }

  lemma CountLeft(f: Forward, n: nat, t: Ticket)
    requires n <= |f.rows|
    ensures Count(Left(Joins, f, n), Joined(t)) ==
            if Previous(f, n) == Some(t.slab) && t.kind == Result then 1 else 0
  {
    if n > 0 {
      CountFinishing(f.mode, n - 1, t);
    }
  }

  lemma CountContribution(f: Forward, n: nat, t: Ticket)
    requires n < |f.rows|
    ensures Count(Contribution(Joins, f, n, Previous(f, n)), Joined(t)) ==
      (if t.slab == n && (t.kind == Query || Deferred(f, n) == None) then 1 else 0) +
      (if Previous(f, n) == Some(t.slab) && t.kind == Result then 1 else 0)
  {
    CountFinishing(f.mode, n, t);
    if f.mode != Concurrent {
      var a, b := [Joined(Ticket(Query, n))], Left(Joins, f, n);
      var c := if |f.PartsOf(n)| == 2 then Finishing(Joins, f.mode, n) else [];
      CountOne(a[0], Joined(t));
      CountLeft(f, n, t);
      CountAppend(a, b, Joined(t));
      CountAppend(a + b, c, Joined(t));
    }
    assert t.kind == Query || t.kind == Result;
  }

  lemma {:induction false} JoinOrderCounts(f: Forward, n: nat, t: Ticket)
    requires n <= |f.rows|
    ensures Count(JoinOrder(f, n), Joined(t)) ==
            if t.slab < n && !(Previous(f, n) == Some(t.slab) && t.kind == Result) then 1 else 0
  {
    if n > 0 {
      JoinOrderCounts(f, n - 1, t);
      CountContribution(f, n - 1, t);
      CountAppend(JoinOrder(f, n - 1), Contribution(Joins, f, n - 1, Previous(f, n - 1)), Joined(t));
    }
  }

  /** Every transfer is joined exactly once. */
  lemma EveryTransferJoinedOnce(f: Forward, t: Ticket)
    requires f.Valid()
    ensures Count(Select(Joins, Plan(f)), Joined(t)) == if t.slab < |f.rows| then 1 else 0
  {
    var n := |f.rows|;
    JoinsOfSlabs(f, n);
    JoinOrderCounts(f, n, t);
    SelectAppend(Joins, Slabs(f, n), FinishPrevious(f.mode, Previous(f, n)));
    if Previous(f, n).Some? {
      SelectFinish(Joins, f.mode, Previous(f, n).value);
    }
    CountLeft(f, n, t);
    CountAppend(JoinOrder(f, n), Left(Joins, f, n), Joined(t));
  }

  /** The own and peer heads of a slab are the 64 heads, each once; own heads come in equal parts. */
  lemma HeadsTile(f: Forward, slab: nat, head: nat)
    requires f.Valid() && slab < |f.rows| && head < 64
    ensures var parts := f.PartsOf(slab);
      var own := set k: nat |
        k < |parts| && Own(f.rank, slab, parts[k]).first <= head < Own(f.rank, slab, parts[k]).last;
      var peer := Peer(f.rank, slab).first <= head < Peer(f.rank, slab).last;
      && (if head / 32 == f.rank then |own| == 1 && !peer else own == {} && peer)
      && |parts| == (if f.mode == Balanced && f.rows[slab] < 32 then 2 else 1)
      && forall part <- parts :: |parts| * (part.1 - part.0) == 32
  {
    var parts := f.PartsOf(slab);
    var own := set k: nat |
      k < |parts| && Own(f.rank, slab, parts[k]).first <= head < Own(f.rank, slab, parts[k]).last;
    if head / 32 == f.rank {
      var k := if |parts| == 2 && head % 32 >= 16 then 1 else 0;
      assert own == {k};
    }
  }
}
