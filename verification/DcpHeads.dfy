/**
What the plan of a forward launches, read off its commands: which heads are computed in
which calls (`head_schedule`, `own_and_peer`), and when a slab is merged.
*/
module DcpHeads {
  import opened Prelude
  import opened DcpSchedule

  /** A kind of work, of one slab. */
  datatype Topic = Owns(slab: nat) | Peers(slab: nat) | Prepares(slab: nat)

  predicate About(topic: Topic, cmd: Command) {
    cmd.Launch? &&
    match topic
    case Owns(s) => cmd.work.OwnHeads? && cmd.work.slab == s
    case Peers(s) => cmd.work.PeerHeads? && cmd.work.slab == s
    case Prepares(s) => cmd.work == Prepare(s)
  }

  /** The commands about a topic, in order. */
  function Only(topic: Topic, cmds: seq<Command>): seq<Command> {
    if cmds == [] then []
    else (if About(topic, cmds[0]) then [cmds[0]] else []) + Only(topic, cmds[1..])
  }

  lemma {:induction false} OnlyAppend(topic: Topic, a: seq<Command>, b: seq<Command>)
    ensures Only(topic, a + b) == Only(topic, a) + Only(topic, b)
  {
    if a == [] {
      assert a + b == b;
    } else {
      var head := if About(topic, a[0]) then [a[0]] else [];
      assert (a + b)[1..] == a[1..] + b;
      OnlyAppend(topic, a[1..], b);
      Associates(head, Only(topic, a[1..]), Only(topic, b));
    }
  }

  lemma {:induction false} OnlyNone(topic: Topic, cmds: seq<Command>)
    requires forall j :: 0 <= j < |cmds| ==> !About(topic, cmds[j])
    ensures Only(topic, cmds) == []
  {
    if cmds != [] {
      OnlyNone(topic, cmds[1..]);
    }
  }

  lemma OnlyOne(topic: Topic, cmd: Command)
    ensures Only(topic, [cmd]) == if About(topic, cmd) then [cmd] else []
  {
    assert Only(topic, [cmd][1..]) == [];
  }

  /** What is between two parts without the topic. */
  lemma OnlyMiddle(topic: Topic, a: seq<Command>, b: seq<Command>, c: seq<Command>)
    requires Only(topic, a) == [] && Only(topic, c) == []
    ensures Only(topic, a + b + c) == Only(topic, b)
  {
    OnlyAppend(topic, a + b, c);
    OnlyAppend(topic, a, b);
  }

  lemma EmptySide<T>(a: seq<T>, b: seq<T>)
    ensures a == [] ==> a + b == b
    ensures b == [] ==> a + b == a
  {
  }

  // ----- One slab -----

  /** Everything but the head calls, and the preparation of a slab. */
  predicate Plain(cmd: Command) {
    cmd.Launch? ==> !cmd.work.OwnHeads? && !cmd.work.PeerHeads? && !cmd.work.Prepare?
  }

  predicate AllPlain(cmds: seq<Command>) {
    forall j :: 0 <= j < |cmds| ==> Plain(cmds[j])
  }

  lemma PlainIsNone(topic: Topic, cmds: seq<Command>)
    requires AllPlain(cmds)
    ensures Only(topic, cmds) == []
  {
    forall j | 0 <= j < |cmds| ensures !About(topic, cmds[j]) {
      assert Plain(cmds[j]);
    }
    OnlyNone(topic, cmds);
  }

  lemma PlainParts(mode: Mode, slab: nat, t: Ticket)
    ensures AllPlain(GatherCommands(t)) && AllPlain(JoinCommands(t)) && AllPlain(FinishCommands(mode, slab))
  {
  }

  lemma OnlyOpen(topic: Topic, slab: nat)
    ensures Only(topic, OpenCommands(slab)) ==
            if topic == Prepares(slab) then [Launch(Caller, Prepare(slab))] else []
  {
    var first := [Launch(Caller, Prepare(slab))];
    var rest := GatherCommands(Ticket(Query, slab)) + [Launch(Caller, Metadata(slab))];
    PlainParts(Concurrent, slab, Ticket(Query, slab));
    PlainIsNone(topic, rest);
    OnlyOne(topic, first[0]);
    OnlyAppend(topic, first, rest);
    Associates(first, GatherCommands(Ticket(Query, slab)), [Launch(Caller, Metadata(slab))]);
  }

  /** The calls for the heads of a slab, as the mode and its size demand. */
  function OwnCalls(f: Forward, slab: nat): seq<Command>
    requires slab < |f.rows|
  {
    var first := f.rank * 32;
    if f.mode == Balanced && f.rows[slab] < 32
    then [Launch(Caller, OwnHeads(slab, first, first + 16)), Launch(Caller, OwnHeads(slab, first + 16, first + 32))]
    else [Launch(Caller, OwnHeads(slab, first, first + 32))]
  }

  lemma OwnCallsAreParts(f: Forward, slab: nat)
    requires slab < |f.rows|
    ensures |f.PartsOf(slab)| == if f.mode == Balanced && f.rows[slab] < 32 then 2 else 1
    ensures OwnCalls(f, slab) ==
      if |f.PartsOf(slab)| == 2 then [FirstOwn(f, slab)] + [Launch(Caller, Own(f.rank, slab, f.PartsOf(slab)[1]))]
      else [FirstOwn(f, slab)]
  {
  }

  function PeerCalls(f: Forward, slab: nat): seq<Command> {
    var first := if f.rank == 0 then 32 else 0;
    [Launch(if f.mode == Concurrent then Side else Caller, PeerHeads(slab, first, first + 32))]
  }

  /** What a slab launches about a topic. */
  function Calls(topic: Topic, f: Forward, slab: nat): seq<Command>
    requires slab < |f.rows|
  {
    match topic
    case Owns(s) => if s == slab then OwnCalls(f, slab) else []
    case Peers(s) => if s == slab then PeerCalls(f, slab) else []
    case Prepares(s) => if s == slab then [Launch(Caller, Prepare(slab))] else []
  }

  lemma OnlyRemote(topic: Topic, f: Forward, slab: nat)
    requires f.Valid() && f.mode == Concurrent && slab < |f.rows|
    ensures Only(topic, RemoteCommands(f.rank, slab)) == if topic == Peers(slab) then PeerCalls(f, slab) else []
  {
    var t := Ticket(Result, slab);
    var a, b := [Record(Ready(t), Caller), Wait(Side, Ready(t))], [Launch(Side, Peer(f.rank, slab))];
    var c := [Launch(Side, Gather(t)), Record(Done(t), Side)];
    assert RemoteCommands(f.rank, slab) == a + b + c;
    PlainIsNone(topic, a);
    PlainIsNone(topic, c);
    OnlyOne(topic, b[0]);
    OnlyMiddle(topic, a, b, c);
  }

  function FirstOwn(f: Forward, slab: nat): Command
    requires slab < |f.rows|
  {
    Launch(Caller, Own(f.rank, slab, f.PartsOf(slab)[0]))
  }

  lemma OnlyConcurrent(topic: Topic, f: Forward, slab: nat)
    requires f.Valid() && f.mode == Concurrent && slab < |f.rows|
    ensures Only(topic, RemoteCommands(f.rank, slab) + [FirstOwn(f, slab)] + FinishCommands(f.mode, slab)) ==
            if topic == Owns(slab) then OwnCalls(f, slab) else if topic == Peers(slab) then PeerCalls(f, slab) else []
  {
    var a, b, c := RemoteCommands(f.rank, slab), [FirstOwn(f, slab)], FinishCommands(f.mode, slab);
    OnlyRemote(topic, f, slab);
    OnlyOne(topic, b[0]);
    PlainParts(f.mode, slab, Ticket(Result, slab));
    PlainIsNone(topic, c);
    OnlyFront(topic, a, b, c);
    EmptySide(Only(topic, a), Only(topic, b));
    OwnCallsAreParts(f, slab);
  }

  lemma OnlyFront(topic: Topic, a: seq<Command>, b: seq<Command>, c: seq<Command>)
    requires Only(topic, c) == []
    ensures Only(topic, a + b + c) == Only(topic, a) + Only(topic, b)
  {
    OnlyAppend(topic, a + b, c);
    OnlyAppend(topic, a, b);
  }

  lemma OnlyPrevious(topic: Topic, mode: Mode, previous: Option<nat>)
    ensures Only(topic, FinishPrevious(mode, previous)) == []
  {
    if previous.Some? {
      PlainParts(mode, previous.value, Ticket(Result, previous.value));
      PlainIsNone(topic, FinishPrevious(mode, previous));
    }
  }

  lemma OnlyFirst(topic: Topic, f: Forward, slab: nat)
    requires slab < |f.rows|
    ensures Only(topic, [FirstOwn(f, slab)]) == if topic == Owns(slab) then [FirstOwn(f, slab)] else []
  {
    OnlyOne(topic, FirstOwn(f, slab));
  }

  lemma OnlyPeer(topic: Topic, f: Forward, slab: nat)
    requires f.Valid() && f.mode != Concurrent
    ensures Only(topic, [Launch(Caller, Peer(f.rank, slab))]) ==
            if topic == Peers(slab) then PeerCalls(f, slab) else []
  {
    OnlyOne(topic, Launch(Caller, Peer(f.rank, slab)));
  }

  lemma OnlySerialHead(topic: Topic, f: Forward, slab: nat, previous: Option<nat>)
    requires f.Valid() && f.mode != Concurrent && slab < |f.rows|
    ensures Only(topic, SerialHead(f, slab, previous)) ==
            if topic == Owns(slab) then [FirstOwn(f, slab)]
            else if topic == Peers(slab) then PeerCalls(f, slab) else []
  {
    PlainParts(f.mode, slab, Ticket(Query, slab));
    PlainIsNone(topic, JoinCommands(Ticket(Query, slab)));
    OnlyPrevious(topic, f.mode, previous);
    OnlyFirst(topic, f, slab);
    OnlyPeer(topic, f, slab);
    var own, peer := [FirstOwn(f, slab)], [Launch(Caller, Peer(f.rank, slab))];
    FourParts(topic, own, JoinCommands(Ticket(Query, slab)), FinishPrevious(f.mode, previous), peer);
    EmptySide(Only(topic, own), Only(topic, peer));
  }

  lemma FourParts(topic: Topic, a: seq<Command>, b: seq<Command>, c: seq<Command>, d: seq<Command>)
    requires Only(topic, b) == [] && Only(topic, c) == []
    ensures Only(topic, a + b + c + d) == Only(topic, a) + Only(topic, d)
  {
    OnlyAppend(topic, a + b + c, d);
    OnlyAppend(topic, a + b, c);
    OnlyAppend(topic, a, b);
    EmptySide(Only(topic, a), Only(topic, b));
    EmptySide(Only(topic, a), Only(topic, c));
  }

  lemma OnlySerialTail(topic: Topic, f: Forward, slab: nat)
    requires f.Valid() && f.mode != Concurrent && slab < |f.rows|
    ensures Only(topic, SerialTail(f, slab)) ==
            if topic == Owns(slab) && f.mode == Balanced && f.rows[slab] < 32
            then [Launch(Caller, Own(f.rank, slab, f.PartsOf(slab)[1]))] else []
  {
    var gather, finish := GatherCommands(Ticket(Result, slab)), FinishCommands(f.mode, slab);
    PlainParts(f.mode, slab, Ticket(Result, slab));
    PlainIsNone(topic, gather);
    PlainIsNone(topic, finish);
    if |f.PartsOf(slab)| == 2 {
      var own := [Launch(Caller, Own(f.rank, slab, f.PartsOf(slab)[1]))];
      OnlyOne(topic, own[0]);
      OnlyAppend(topic, own, finish);
      OnlyAppend(topic, gather, own + finish);
    } else {
      assert gather + [] == gather;
    }
  }

  lemma SlabCalls(topic: Topic, f: Forward, slab: nat, previous: Option<nat>)
    requires f.Valid() && slab < |f.rows|
    ensures Only(topic, SlabCommands(f, slab, previous)) == Calls(topic, f, slab)
  {
    if f.mode == Concurrent {
      ConcurrentCalls(topic, f, slab, previous);
    } else {
      SerialCalls(topic, f, slab, previous);
    }
  }

  lemma ConcurrentCalls(topic: Topic, f: Forward, slab: nat, previous: Option<nat>)
    requires f.Valid() && slab < |f.rows| && f.mode == Concurrent
    ensures Only(topic, SlabCommands(f, slab, previous)) == Calls(topic, f, slab)
  {
    var body := RemoteCommands(f.rank, slab) + [FirstOwn(f, slab)] + FinishCommands(f.mode, slab);
    OnlyOpen(topic, slab);
    OnlyConcurrent(topic, f, slab);
    TwoSum(topic, f, slab, OpenCommands(slab), body, SlabCommands(f, slab, previous));
  }

  lemma TwoSum(topic: Topic, f: Forward, slab: nat, open: seq<Command>, body: seq<Command>, all: seq<Command>)
    requires f.Valid() && slab < |f.rows| && all == open + body
    requires Only(topic, open) == if topic == Prepares(slab) then [Launch(Caller, Prepare(slab))] else []
    requires Only(topic, body) == if topic == Owns(slab) then OwnCalls(f, slab)
                                  else if topic == Peers(slab) then PeerCalls(f, slab) else []
    ensures Only(topic, all) == Calls(topic, f, slab)
  {
    OnlyAppend(topic, open, body);
    EmptySide(Only(topic, open), Only(topic, body));
  }

  lemma SerialCalls(topic: Topic, f: Forward, slab: nat, previous: Option<nat>)
    requires f.Valid() && slab < |f.rows| && f.mode != Concurrent
    ensures Only(topic, SlabCommands(f, slab, previous)) == Calls(topic, f, slab)
  {
    var body := SerialHead(f, slab, previous) + SerialTail(f, slab);
    OnlyOpen(topic, slab);
    SerialBody(topic, f, slab, previous);
    SerialInThree(f, slab, previous);
    TwoSum(topic, f, slab, OpenCommands(slab), body, SlabCommands(f, slab, previous));
  }

  lemma SerialBody(topic: Topic, f: Forward, slab: nat, previous: Option<nat>)
    requires f.Valid() && slab < |f.rows| && f.mode != Concurrent
    ensures Only(topic, SerialHead(f, slab, previous) + SerialTail(f, slab)) ==
            if topic == Owns(slab) then OwnCalls(f, slab)
            else if topic == Peers(slab) then PeerCalls(f, slab) else []
  {
    OnlySerialHead(topic, f, slab, previous);
    OnlySerialTail(topic, f, slab);
    OwnCallsAreParts(f, slab);
    OnlyAppend(topic, SerialHead(f, slab, previous), SerialTail(f, slab));
    EmptySide(Only(topic, SerialHead(f, slab, previous)), Only(topic, SerialTail(f, slab)));
  }

  // ----- The plan -----

  /** The commands of the first n slabs about a topic are the calls of its slab. */
  predicate CallsOf(topic: Topic, f: Forward, n: nat, cmds: seq<Command>)
    requires n <= |f.rows|
  {
    Only(topic, cmds) == if topic.slab < n then Calls(topic, f, topic.slab) else []
  }

  lemma AppendedCalls(topic: Topic, f: Forward, n: nat, before: seq<Command>, slab: seq<Command>)
    requires n < |f.rows| && Only(topic, slab) == Calls(topic, f, n) && CallsOf(topic, f, n, before)
    ensures CallsOf(topic, f, n + 1, before + slab)
  {
    OnlyAppend(topic, before, slab);
    EmptySide(Only(topic, before), Only(topic, slab));
  }

  lemma {:induction false} SlabsCalls(topic: Topic, f: Forward, n: nat)
    requires f.Valid() && n <= |f.rows|
    ensures CallsOf(topic, f, n, Slabs(f, n))
  {
    if n > 0 {
      SlabsCalls(topic, f, n - 1);
      NextCalls(topic, f, n - 1, Slabs(f, n - 1));
    }
  }

  lemma NextCalls(topic: Topic, f: Forward, n: nat, before: seq<Command>)
    requires f.Valid() && n < |f.rows| && CallsOf(topic, f, n, before)
    ensures CallsOf(topic, f, n + 1, before + SlabCommands(f, n, Previous(f, n)))
  {
    SlabCalls(topic, f, n, Previous(f, n));
    AppendedCalls(topic, f, n, before, SlabCommands(f, n, Previous(f, n)));
  }

  lemma PlanCalls(topic: Topic, f: Forward)
    requires f.Valid()
    ensures Only(topic, Plan(f)) == if topic.slab < |f.rows| then Calls(topic, f, topic.slab) else []
  {
    var n := |f.rows|;
    SlabsCalls(topic, f, n);
    OnlyPrevious(topic, f.mode, Previous(f, n));
    OnlyAppend(topic, Slabs(f, n), FinishPrevious(f.mode, Previous(f, n)));
  }

  // ----- When slabs are merged -----

  lemma {:induction false} OnlyHas(topic: Topic, cmds: seq<Command>, j: nat)
    requires j < |cmds| && About(topic, cmds[j])
    ensures |Only(topic, cmds)| > 0
  {
    if j > 0 {
      OnlyHas(topic, cmds[1..], j - 1);
    }
  }

  lemma TwoPositions(topic: Topic, cmds: seq<Command>, i: nat, j: nat)
    requires i < j < |cmds| && About(topic, cmds[i]) && About(topic, cmds[j])
    ensures |Only(topic, cmds)| >= 2
  {
    var a, b := cmds[..j], cmds[j..];
    assert cmds == a + b;
    OnlyAppend(topic, a, b);
    OnlyHas(topic, a, i);
    OnlyHas(topic, b, 0);
  }

  /** A topic that occurs once has one position. */
  lemma OnePosition(topic: Topic, cmds: seq<Command>, i: nat, j: nat)
    requires |Only(topic, cmds)| == 1 && i < |cmds| && j < |cmds| && About(topic, cmds[i]) && About(topic, cmds[j])
    ensures i == j
  {
    if i < j {
      TwoPositions(topic, cmds, i, j);
    } else if j < i {
      TwoPositions(topic, cmds, j, i);
    }
  }

  lemma SlabBegins(f: Forward, s: nat)
    requires f.Valid() && s < |f.rows|
    ensures |Slabs(f, s)| < |Plan(f)| && Plan(f)[|Slabs(f, s)|] == Launch(Caller, Prepare(s))
  {
    var before, slab := Slabs(f, s), SlabCommands(f, s, Previous(f, s));
    SlabsArePrefix(f, s + 1);
    assert Slabs(f, s + 1) == before + slab && slab[0] == Launch(Caller, Prepare(s));
  }

  /** A slab is prepared at its beginning and nowhere else. */
  lemma PreparedAt(f: Forward, s: nat, j: nat)
    requires f.Valid() && s < |f.rows| && j < |Plan(f)| && Plan(f)[j] == Launch(Caller, Prepare(s))
    ensures j == |Slabs(f, s)|
  {
    SlabBegins(f, s);
    PlanCalls(Prepares(s), f);
    OnePosition(Prepares(s), Plan(f), j, |Slabs(f, s)|);
  }

  lemma {:induction false} SelectHas(lens: Lens, cmds: seq<Command>, j: nat)
    requires j < |cmds| && Keeps(lens, cmds[j])
    ensures cmds[j] in Select(lens, cmds)
  {
    if j > 0 {
      SelectHas(lens, cmds[1..], j - 1);
    }
  }

  /** A merge is among those of the first or the second part of a plan, as its position says. */
  lemma MergeInParts(a: seq<Command>, b: seq<Command>, n: nat, i: nat, cmd: Command)
    requires Select(Merges, a) + Select(Merges, b) == MergesInOrder(n) && cmd.Launch? && cmd.work.Merge?
    requires i < |a| + |b| && cmd == if i < |a| then a[i] else b[i - |a|]
    ensures i < |a| <==> cmd in Select(Merges, a)
  {
    if i < |a| {
      SelectHas(Merges, a, i);
    } else {
      SelectHas(Merges, b, i - |a|);
      MergedOnce(Select(Merges, a), Select(Merges, b), n, cmd);
    }
  }

  lemma MergeSide(cmds: seq<Command>, n: nat, p: nat, i: nat)
    requires Select(Merges, cmds) == MergesInOrder(n) && p <= |cmds|
    requires i < |cmds| && cmds[i].Launch? && cmds[i].work.Merge?
    ensures i < p <==> cmds[i] in Select(Merges, cmds[..p])
  {
    var a, b := cmds[..p], cmds[p..];
    assert cmds == a + b;
    SelectAppend(Merges, a, b);
    MergeInParts(a, b, n, i, cmds[i]);
  }

  lemma MergedOnce(a: seq<Command>, b: seq<Command>, n: nat, cmd: Command)
    requires a + b == MergesInOrder(n) && cmd in b
    ensures cmd !in a
  {
    var k :| 0 <= k < |b| && b[k] == cmd;
    assert (a + b)[|a| + k] == cmd == Launch(Caller, Merge(|a| + k));
    forall m | 0 <= m < |a| ensures a[m] != cmd {
      assert (a + b)[m] == a[m] == Launch(Caller, Merge(m));
    }
  }

  /** Whether the merge of a slab is among the commands of the slabs up to it. */
  lemma MergedInSlab(f: Forward, s: nat)
    requires f.Valid() && s < |f.rows|
    ensures Launch(Caller, Merge(s)) in Select(Merges, Slabs(f, s + 1)) <==>
            f.mode == Concurrent || (f.mode == Balanced && f.rows[s] < 32)
  {
    MergesOfSlabs(f, s + 1);
    var merges, left := Select(Merges, Slabs(f, s + 1)), Left(Merges, f, s + 1);
    var late := !(f.mode == Concurrent || (f.mode == Balanced && f.rows[s] < 32));
    assert left == if late then [Launch(Caller, Merge(s))] else [];
    assert (merges + left)[s] == Launch(Caller, Merge(s));
    if late {
      forall m | 0 <= m < |merges| ensures merges[m] != Launch(Caller, Merge(s)) {
        assert (merges + left)[m] == merges[m] == Launch(Caller, Merge(m));
      }
    }
  }

  /**
  A slab is merged before the next one is prepared if and only if the mode is concurrent, or
  balanced with fewer than 32 rows.
  */
  lemma MergedBeforeNext(f: Forward, s: nat, i: nat, j: nat)
    requires f.Valid() && s + 1 < |f.rows| && i < |Plan(f)| && j < |Plan(f)|
    requires Plan(f)[i] == Launch(Caller, Merge(s)) && Plan(f)[j] == Launch(Caller, Prepare(s + 1))
    ensures i < j <==> f.mode == Concurrent || (f.mode == Balanced && f.rows[s] < 32)
  {
    PreparedAt(f, s + 1, j);
    SlabsArePrefix(f, s + 1);
    assert Plan(f)[..j] == Slabs(f, s + 1);
    EverySlabMergedOnce(f);
    MergeSide(Plan(f), |f.rows|, j, i);
    MergedInSlab(f, s);
  }

  // ----- What a transfer overlaps with -----

  /** A transfer is under way while the caller computes its own heads of a slab. */
  ghost predicate Overlaps(slab: nat, t: Ticket, cmds: seq<Command>) {
    exists i, j, k ::
      && 0 <= i < j < k < |cmds| && cmds[i] == Launch(Side, Gather(t)) && About(Owns(slab), cmds[j])
      && cmds[k] == Joined(t)
  }

  lemma OverlapParts(slab: nat, t: Ticket, a: seq<Command>, own: Command, b: seq<Command>, all: seq<Command>)
    requires all == a + [own] + b
    requires Launch(Side, Gather(t)) in a && About(Owns(slab), own) && Joined(t) in b
    ensures Overlaps(slab, t, all)
  {
    var i :| 0 <= i < |a| && a[i] == Launch(Side, Gather(t));
    var k :| 0 <= k < |b| && b[k] == Joined(t);
    assert all[i] == a[i] && all[|a|] == own && all[|a| + 1 + k] == b[k];
  }

  lemma OverlapInside(slab: nat, t: Ticket, a: seq<Command>, b: seq<Command>, c: seq<Command>)
    requires Overlaps(slab, t, b)
    ensures Overlaps(slab, t, a + b + c)
  {
    var i, j, k :| 0 <= i < j < k < |b| && b[i] == Launch(Side, Gather(t)) && About(Owns(slab), b[j]) &&
                   b[k] == Joined(t);
    var all := a + b + c;
    assert all[|a| + i] == b[i] && all[|a| + j] == b[j] && all[|a| + k] == b[k];
  }

  lemma GatherIn(t: Ticket)
    ensures Launch(Side, Gather(t)) in GatherCommands(t) && Joined(t) in JoinCommands(t)
  {
    assert GatherCommands(t)[2] == Launch(Side, Gather(t)) && JoinCommands(t)[1] == Joined(t);
  }

  lemma OpenSends(slab: nat)
    ensures Launch(Side, Gather(Ticket(Query, slab))) in OpenCommands(slab)
  {
    assert OpenCommands(slab)[3] == Launch(Side, Gather(Ticket(Query, slab)));
  }

  lemma FirstIsOwn(f: Forward, slab: nat)
    requires slab < |f.rows|
    ensures About(Owns(slab), FirstOwn(f, slab))
  {
  }

  /** A concurrent slab: both of its transfers are under way while its own heads are computed. */
  lemma ConcurrentOverlaps(f: Forward, slab: nat, previous: Option<nat>)
    requires f.Valid() && slab < |f.rows| && f.mode == Concurrent
    ensures Overlaps(slab, Ticket(Query, slab), SlabCommands(f, slab, previous))
    ensures Overlaps(slab, Ticket(Result, slab), SlabCommands(f, slab, previous))
  {
    var q, t, own := Ticket(Query, slab), Ticket(Result, slab), FirstOwn(f, slab);
    var open, remote, finish := OpenCommands(slab), RemoteCommands(f.rank, slab), FinishCommands(f.mode, slab);
    OpenSends(slab);
    FirstIsOwn(f, slab);
    assert remote[3] == Launch(Side, Gather(t)) && finish[1] == Joined(t) && finish[2] == Joined(q);
    assert open + (remote + [own] + finish) == (open + remote) + [own] + finish;
    OverlapParts(slab, q, open + remote, own, finish, SlabCommands(f, slab, previous));
    OverlapParts(slab, t, open + remote, own, finish, SlabCommands(f, slab, previous));
  }

  /** Otherwise a query is under way while the first own heads of its slab are computed. */
  lemma QueryOverlaps(f: Forward, slab: nat, previous: Option<nat>)
    requires f.Valid() && slab < |f.rows| && f.mode != Concurrent
    ensures Overlaps(slab, Ticket(Query, slab), SlabCommands(f, slab, previous))
  {
    var q, own := Ticket(Query, slab), FirstOwn(f, slab);
    var rest := JoinCommands(q) + (FinishPrevious(f.mode, previous) + [Launch(Caller, Peer(f.rank, slab))]);
    OpenSends(slab);
    FirstIsOwn(f, slab);
    GatherIn(q);
    SerialInThree(f, slab, previous);
    Regroup(OpenCommands(slab), [own], JoinCommands(q), FinishPrevious(f.mode, previous),
            [Launch(Caller, Peer(f.rank, slab))], SerialTail(f, slab));
    OverlapParts(slab, q, OpenCommands(slab), own, rest + SerialTail(f, slab), SlabCommands(f, slab, previous));
  }

  lemma Regroup(a: seq<Command>, b: seq<Command>, c: seq<Command>, d: seq<Command>, e: seq<Command>, g: seq<Command>)
    ensures a + ((b + c + d + e) + g) == a + b + ((c + (d + e)) + g)
  {
  }

  /** The result of a slab in two parts is under way while the second part is computed. */
  lemma ResultOverlaps(f: Forward, slab: nat)
    requires f.Valid() && slab < |f.rows| && f.mode == Balanced && f.rows[slab] < 32
    ensures Overlaps(slab, Ticket(Result, slab), SerialTail(f, slab))
  {
    var t, own := Ticket(Result, slab), Launch(Caller, Own(f.rank, slab, f.PartsOf(slab)[1]));
    GatherIn(t);
    assert GatherCommands(t) + ([own] + FinishCommands(f.mode, slab)) ==
           GatherCommands(t) + [own] + FinishCommands(f.mode, slab);
    OverlapParts(slab, t, GatherCommands(t), own, FinishCommands(f.mode, slab), SerialTail(f, slab));
  }

  /** A result that is left over is under way while the first own heads of the next slab are computed. */
  lemma LeftoverOverlaps(f: Forward, s: nat)
    requires f.Valid() && s + 1 < |f.rows| && Late(f, s)
    ensures Overlaps(s + 1, Ticket(Result, s), SerialTail(f, s) + SlabCommands(f, s + 1, Previous(f, s + 1)))
  {
    var q, t, own := Ticket(Query, s + 1), Ticket(Result, s), FirstOwn(f, s + 1);
    var finish, peer := FinishCommands(f.mode, s), [Launch(Caller, Peer(f.rank, s + 1))];
    GatherIn(t);
    FirstIsOwn(f, s + 1);
    SerialInThree(f, s + 1, Some(s));
    Regroup(OpenCommands(s + 1), [own], JoinCommands(q), finish, peer, SerialTail(f, s + 1));
    Associates(SerialTail(f, s), OpenCommands(s + 1) + [own],
               (JoinCommands(q) + (finish + peer)) + SerialTail(f, s + 1));
    Associates(SerialTail(f, s), OpenCommands(s + 1), [own]);
    OverlapParts(s + 1, t, SerialTail(f, s) + OpenCommands(s + 1), own,
                 (JoinCommands(q) + (finish + peer)) + SerialTail(f, s + 1),
                 SerialTail(f, s) + SlabCommands(f, s + 1, Previous(f, s + 1)));
  }

  /** Whether a slab's merge is left to the next one. */
  predicate Late(f: Forward, slab: nat)
    requires slab < |f.rows|
  {
    !(f.mode == Concurrent || (f.mode == Balanced && f.rows[slab] < 32))
  }

  lemma OverlapInPlan(f: Forward, n: nat, slab: nat, t: Ticket, before: seq<Command>, part: seq<Command>)
    requires f.Valid() && n <= |f.rows| && Slabs(f, n) == before + part && Overlaps(slab, t, part)
    ensures Overlaps(slab, t, Plan(f))
  {
    SlabsArePrefix(f, n);
    var plan := Plan(f);
    assert plan == Slabs(f, n) + plan[|Slabs(f, n)|..];
    OverlapInside(slab, t, before, part, plan[|Slabs(f, n)|..]);
  }

  /** The transfers of a slab that are joined in the slab. */
  lemma SlabOverlaps(f: Forward, t: Ticket)
    requires f.Valid() && t.slab < |f.rows| && (t.kind == Query || !Late(f, t.slab))
    ensures Overlaps(t.slab, t, SlabCommands(f, t.slab, Previous(f, t.slab)))
  {
    var previous := Previous(f, t.slab);
    if f.mode == Concurrent {
      ConcurrentOverlaps(f, t.slab, previous);
    } else if t.kind == Query {
      QueryOverlaps(f, t.slab, previous);
    } else {
      TailOverlaps(f, t.slab, previous);
    }
  }

  lemma TailOverlaps(f: Forward, slab: nat, previous: Option<nat>)
    requires f.Valid() && slab < |f.rows| && f.mode == Balanced && f.rows[slab] < 32
    ensures Overlaps(slab, Ticket(Result, slab), SlabCommands(f, slab, previous))
  {
    var a, b := OpenCommands(slab) + SerialHead(f, slab, previous), SerialTail(f, slab);
    ResultOverlaps(f, slab);
    OverlapInside(slab, Ticket(Result, slab), a, b, []);
    SerialInThree(f, slab, previous);
    Associates(OpenCommands(slab), SerialHead(f, slab, previous), b);
    EmptySide(a + b, []);
  }

  lemma TwoSlabs(f: Forward, s: nat)
    requires f.Valid() && s + 1 < |f.rows| && f.mode != Concurrent
    ensures Slabs(f, s + 2) ==
            (Slabs(f, s) + (OpenCommands(s) + SerialHead(f, s, Previous(f, s)))) +
            (SerialTail(f, s) + SlabCommands(f, s + 1, Previous(f, s + 1)))
  {
    SerialInThree(f, s, Previous(f, s));
    assert Slabs(f, s + 2) == Slabs(f, s + 1) + SlabCommands(f, s + 1, Previous(f, s + 1));
    Nested(Slabs(f, s), OpenCommands(s), SerialHead(f, s, Previous(f, s)), SerialTail(f, s),
           SlabCommands(f, s + 1, Previous(f, s + 1)));
  }

  lemma Nested(a: seq<Command>, b: seq<Command>, c: seq<Command>, d: seq<Command>, e: seq<Command>)
    ensures a + (b + (c + d)) + e == (a + (b + c)) + (d + e)
  {
  }

  lemma JoinedInSlab(f: Forward, t: Ticket)
    requires f.Valid() && t.slab < |f.rows| && (t.kind == Query || !Late(f, t.slab))
    ensures Overlaps(t.slab, t, Plan(f))
  {
    SlabOverlaps(f, t);
    OverlapInPlan(f, t.slab + 1, t.slab, t, Slabs(f, t.slab), SlabCommands(f, t.slab, Previous(f, t.slab)));
  }

  lemma JoinedInNext(f: Forward, s: nat)
    requires f.Valid() && s + 1 < |f.rows| && Late(f, s)
    ensures Overlaps(s + 1, Ticket(Result, s), Plan(f))
  {
    LeftoverOverlaps(f, s);
    TwoSlabs(f, s);
    OverlapInPlan(f, s + 2, s + 1, Ticket(Result, s),
                  Slabs(f, s) + (OpenCommands(s) + SerialHead(f, s, Previous(f, s))),
                  SerialTail(f, s) + SlabCommands(f, s + 1, Previous(f, s + 1)));
  }

  // ----- The laws, of any list of commands -----

  /**
  For each slab: two calls of 16 of this rank's heads in balanced mode for fewer than 32 rows,
  otherwise one of 32; and always one call of the peer's 32 heads, on the side stream in
  concurrent mode alone.
  */
  ghost predicate HeadsCalled(f: Forward, cmds: seq<Command>) {
    forall slab :: 0 <= slab < |f.rows| ==>
      var halves, first, other := f.mode == Balanced && f.rows[slab] < 32, f.rank * 32, if f.rank == 0 then 32 else 0;
      && Only(Owns(slab), cmds) ==
        (if halves
         then [Launch(Caller, OwnHeads(slab, first, first + 16)),
               Launch(Caller, OwnHeads(slab, first + 16, first + 32))]
         else [Launch(Caller, OwnHeads(slab, first, first + 32))])
      && Only(Peers(slab), cmds) ==
        [Launch(if f.mode == Concurrent then Side else Caller, PeerHeads(slab, other, other + 32))]
  }

  /** A slab is merged before the next is prepared just if nothing of it is left to overlap with. */
  ghost predicate MergedInTime(f: Forward, cmds: seq<Command>) {
    forall s, i, j | 0 <= s && s + 1 < |f.rows| && 0 <= i < |cmds| && 0 <= j < |cmds| &&
                     cmds[i] == Launch(Caller, Merge(s)) && cmds[j] == Launch(Caller, Prepare(s + 1)) ::
      i < j <==> f.mode == Concurrent || (f.mode == Balanced && f.rows[s] < 32)
  }

  /**
  Every transfer is under way while own heads are computed: those of its slab, or those of the
  next slab for a result whose merge is left over. Only the last slab's result, if its merge is
  left over, may have nothing to overlap with.
  */
  ghost predicate TransfersOverlap(f: Forward, cmds: seq<Command>) {
    && (forall s: nat :: s < |f.rows| ==> Overlaps(s, Ticket(Query, s), cmds))
    && (forall s: nat :: s < |f.rows| && (f.mode == Concurrent || (f.mode == Balanced && f.rows[s] < 32)) ==>
          Overlaps(s, Ticket(Result, s), cmds))
    && (forall s: nat :: s + 1 < |f.rows| && !(f.mode == Concurrent || (f.mode == Balanced && f.rows[s] < 32)) ==>
          Overlaps(s + 1, Ticket(Result, s), cmds))
  }

  /** What a forward launches, when it merges and what overlaps follows from its mode and slab sizes. */
  ghost predicate Obeys(f: Forward, cmds: seq<Command>) {
    HeadsCalled(f, cmds) && MergedInTime(f, cmds) && TransfersOverlap(f, cmds)
  }

  lemma PlanCallsHeads(f: Forward)
    requires f.Valid()
    ensures HeadsCalled(f, Plan(f))
  {
    forall slab | 0 <= slab < |f.rows|
      ensures Only(Owns(slab), Plan(f)) == OwnCalls(f, slab) && Only(Peers(slab), Plan(f)) == PeerCalls(f, slab)
    {
      PlanCalls(Owns(slab), f);
      PlanCalls(Peers(slab), f);
    }
  }

  lemma PlanMergesInTime(f: Forward)
    requires f.Valid()
    ensures MergedInTime(f, Plan(f))
  {
    var plan := Plan(f);
    forall s, i, j | 0 <= s && s + 1 < |f.rows| && 0 <= i < |plan| && 0 <= j < |plan| &&
                     plan[i] == Launch(Caller, Merge(s)) && plan[j] == Launch(Caller, Prepare(s + 1))
      ensures i < j <==> f.mode == Concurrent || (f.mode == Balanced && f.rows[s] < 32)
    {
      MergedBeforeNext(f, s, i, j);
    }
  }

  lemma PlanOverlaps(f: Forward)
    requires f.Valid()
    ensures TransfersOverlap(f, Plan(f))
  {
    forall s: nat | s < |f.rows| ensures Overlaps(s, Ticket(Query, s), Plan(f)) {
      JoinedInSlab(f, Ticket(Query, s));
    }
    forall s: nat | s < |f.rows| && !Late(f, s) ensures Overlaps(s, Ticket(Result, s), Plan(f)) {
      JoinedInSlab(f, Ticket(Result, s));
    }
    forall s: nat | s + 1 < |f.rows| && Late(f, s) ensures Overlaps(s + 1, Ticket(Result, s), Plan(f)) {
      JoinedInNext(f, s);
    }
  }

  lemma PlanObeys(f: Forward, cmds: seq<Command>)
    requires f.Valid() && cmds == Plan(f)
    ensures Obeys(f, cmds)
  {
    PlanCallsHeads(f);
    PlanMergesInTime(f);
    PlanOverlaps(f);
  }
}
