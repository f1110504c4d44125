/**
The transport as an object (`Transport`, `Transfer`), the steps that drive it and the
session around them. Every method may raise at any point; a result of false stands for a
raised exception. Without an outside fault a session submits exactly the planned commands.
*/
module DcpTransport {
  import opened Prelude
  import opened DcpSchedule
  import DcpHeads

  /** The thread and the CUDA stream a call is made on. */
  datatype Context = Context(thread: nat, stream: nat)

  class Transfer {
    const ticket: Ticket
    const dependency: Transfer?
    var joined: bool

    constructor (ticket: Ticket, dependency: Transfer?)
      ensures this.ticket == ticket && this.dependency == dependency && !joined
    {
      this.ticket, this.dependency, joined := ticket, dependency, false;
    }
  }

  /** What joining a transfer marks as joined. */
  function Covered(t: Transfer): set<Transfer> {
    if t.dependency == null then {t} else {t, t.dependency}
  }

  /** A merge that waits for its result transfer. */
  datatype PendingMerge = PendingMerge(transfer: Transfer, slab: nat)

  /** The first occurrence removed. */
  function Without<T(==)>(s: seq<T>, x: T): seq<T> {
    if s == [] then []
    else if s[0] == x then s[1..]
    else [s[0]] + Without(s[1..], x)
  }

  lemma WithoutMembers<T>(s: seq<T>, x: T)
    requires |s| <= 2 && (|s| == 2 ==> s[0] != s[1])
    ensures |Without(s, x)| == |s| - (if x in s then 1 else 0)
    ensures forall y :: y in Without(s, x) <==> y in s && y != x
  {
    if |s| > 0 {
      assert s == [s[0]] + s[1..];
      if |s| > 1 {
        assert s[1..] == [s[1]] + s[1..][1..];
      }
    }
  }

  /** Only some first commands of a sequence have been submitted. */
  predicate Partial(before: seq<Command>, after: seq<Command>, cmds: seq<Command>) {
    before <= after <= before + cmds
  }

  /** A piece that is cut short cuts the whole short. */
  lemma CutShort(before: seq<Command>, done: seq<Command>, after: seq<Command>, piece: seq<Command>,
                 rest: seq<Command>)
    requires Partial(before + done, after, piece)
    ensures Partial(before, after, done + piece + rest)
  {
    assert (before + done) + piece + rest == before + (done + piece + rest);
  }

  lemma Regrouped(before: seq<Command>, a: seq<Command>, b: seq<Command>)
    ensures (before + a) + b == before + (a + b)
  {
  }

  /** What a join submits: the wait, and the bookkeeping of the transfers it covers. */
  function JoinAll(t: Transfer): seq<Command> {
    JoinCommands(t.ticket) + if t.dependency == null then [] else [Joined(t.dependency.ticket)]
  }

  /** What one step submits: everything of a slab after its metadata. */
  function StepCommands(f: Forward, slab: nat, previous: Option<nat>): seq<Command>
    requires f.Valid() && slab < |f.rows|
  {
    if f.mode == Concurrent then
      RemoteCommands(f.rank, slab) + [Launch(Caller, Own(f.rank, slab, f.PartsOf(slab)[0]))] +
      FinishCommands(f.mode, slab)
    else SerialHead(f, slab, previous) + SerialTail(f, slab)
  }

  lemma NextSlab(f: Forward, n: nat)
    requires f.Valid() && n < |f.rows|
    ensures Slabs(f, n + 1) == Slabs(f, n) + (OpenCommands(n) + StepCommands(f, n, Previous(f, n)))
  {
    assert SlabCommands(f, n, Previous(f, n)) == OpenCommands(n) + StepCommands(f, n, Previous(f, n));
  }

  function SlabOf(p: Option<PendingMerge>): Option<nat> {
    if p.Some? then Some(p.value.slab) else None
  }

  /** The transfers of the merge left over. */
  function TransfersOf(p: Option<PendingMerge>): seq<Transfer> {
    if p.Some? then [p.value.transfer] else []
  }

  function Leftover(p: Option<PendingMerge>): set<Transfer> {
    if p.Some? then {p.value.transfer} else {}
  }

  /** A merge is left over only without a dependency, for its own slab's result. */
  predicate LeftOver(p: Option<PendingMerge>) {
    p.Some? ==> p.value.transfer.ticket == Ticket(Result, p.value.slab) && p.value.transfer.dependency == null
  }

  class Transport {
    var pending: seq<Transfer>
    var failed: bool
    var session: Option<Context>
    var log: seq<Command>

    constructor ()
      ensures Resting() && !failed
    {
      pending, failed, session, log := [], false, None, [];
    }

    /** At most two pending transfers, none of them joined. */
    ghost predicate Valid()
      reads this, pending
    {
      && |pending| <= 2
      && (|pending| == 2 ==> pending[0] != pending[1])
      && forall t <- pending :: !t.joined
    }

    /** Between sessions: nothing is pending, unless the transport has failed for good. */
    ghost predicate Resting()
      reads this, pending
    {
      Valid() && session == None && (!failed ==> pending == [])
    }

    predicate Admits(who: Context)
      reads this
    {
      !failed && session == Some(who)
    }

    /** One submission to the GPU. */
    method Submit(cmd: Command, healthy: bool) returns (ok: bool)
      modifies this`log
      ensures healthy ==> ok
      ensures log == if ok then old(log) + [cmd] else old(log)
    {
      if !healthy {
        var raises: bool := *;
        if raises {
          return false;
        }
      }
      log := log + [cmd];
      return true;
    }

    method SubmitAll(cmds: seq<Command>, healthy: bool) returns (ok: bool)
      modifies this`log
      ensures healthy ==> ok
      ensures if ok then log == old(log) + cmds else Partial(old(log), log, cmds)
    {
      for n := 0 to |cmds|
        invariant log == old(log) + cmds[..n]
      {
        ok := Submit(cmds[n], healthy);
        if !ok {
          return;
        }
      }
      return true;
    }

    /** Transfer.join. */
    method Join(t: Transfer, who: Context, healthy: bool) returns (ok: bool)
      requires Valid() && t.dependency != t
      modifies this`pending, this`log, Covered(t)
      ensures Valid()
      ensures ok ==> old(!failed && session == Some(who)) && Covered(t) <= set p <- old(pending)
      ensures ok ==> forall p <- Covered(t) :: p.joined
      ensures ok ==> pending == old(if t.dependency == null then Without(pending, t)
                                    else Without(Without(pending, t), t.dependency))
      ensures if ok then log == old(log) + JoinAll(t) else Partial(old(log), log, JoinAll(t))
      ensures healthy && old(Admits(who)) && Covered(t) <= (set p <- old(pending)) ==> ok
    {
      if !Admits(who) || t.joined {
        return false;
      }
      ok := Submit(Wait(Caller, Done(t.ticket)), healthy);
      if !ok {
        return;
      }
      t.joined := true;
      WithoutMembers(pending, t);
      if t !in pending {
        return false;
      }
      pending := Without(pending, t);
      log := log + [Joined(t.ticket)];
      if t.dependency != null {
        var dependency: Transfer := t.dependency;
        if dependency.joined || dependency !in pending {
          return false;
        }
        dependency.joined := true;
        WithoutMembers(pending, dependency);
        pending := Without(pending, dependency);
        log := log + [Joined(dependency.ticket)];
      }
      return true;
    }

    /** Transport.gather. */
    method Gather(ticket: Ticket, rows: nat, who: Context, healthy: bool) returns (ok: bool, t: Transfer)
      requires Valid()
      modifies this`pending, this`log
      ensures Valid()
      ensures ok ==> fresh(t) && t.ticket == ticket && t.dependency == null && pending == old(pending) + [t]
      ensures ok ==> old(!failed && session == Some(who) && |pending| < 2) && 1 <= rows <= 512
      ensures if ok then log == old(log) + GatherCommands(ticket) else Partial(old(log), log, GatherCommands(ticket))
      ensures healthy && old(Admits(who)) && 1 <= rows <= 512 && |old(pending)| < 2 ==> ok
    {
      t := new Transfer(ticket, null);
      if !Admits(who) || !(1 <= rows <= 512) || |pending| >= 2 {
        return false, t;
      }
      pending := pending + [t];
      ok := SubmitAll(GatherCommands(ticket), healthy);
    }

    /** Transport.remote_result: the result of this slab covers its query as well. */
    method RemoteResult(query: Transfer, f: Forward, slab: nat, who: Context, healthy: bool)
      returns (ok: bool, t: Transfer)
      requires Valid() && f.Valid()
      modifies this`pending, this`log
      ensures Valid()
      ensures ok ==> fresh(t) && t.ticket == Ticket(Result, slab) && t.dependency == query
      ensures ok ==> old(!failed && session == Some(who)) && pending == old(pending) + [t] == [query, t]
      ensures if ok then log == old(log) + RemoteCommands(f.rank, slab)
              else Partial(old(log), log, RemoteCommands(f.rank, slab))
      ensures healthy && old(Admits(who)) && old(pending) == [query] ==> ok
    {
      t := new Transfer(Ticket(Result, slab), query);
      if !Admits(who) || query.joined || pending != [query] {
        return false, t;
      }
      pending := pending + [t];
      ok := SubmitAll(RemoteCommands(f.rank, slab), healthy);
    }

    /** PendingMerge.finish. */
    method Finish(p: PendingMerge, mode: Mode, who: Context, healthy: bool) returns (ok: bool)
      requires Valid() && p.transfer.dependency != p.transfer && p.transfer.ticket == Ticket(Result, p.slab)
      requires match p.transfer.dependency
        case null => mode != Concurrent && pending == [p.transfer]
        case q => mode == Concurrent && q.ticket == Ticket(Query, p.slab) && pending == [q, p.transfer]
      modifies this`pending, this`log, Covered(p.transfer)
      ensures Valid()
      ensures ok ==> pending == []
      ensures if ok then log == old(log) + FinishCommands(mode, p.slab)
              else Partial(old(log), log, FinishCommands(mode, p.slab))
      ensures healthy && old(Admits(who)) ==> ok
    {
      var a, b := JoinAll(p.transfer), [Launch(Caller, Merge(p.slab))];
      ghost var before := log;
      assert FinishCommands(mode, p.slab) == [] + a + b;
      assert before + [] == before;
      ok := Join(p.transfer, who, healthy);
      if !ok {
        CutShort(before, [], log, a, b);
        return;
      }
      ok := Submit(b[0], healthy);
      if !ok {
        CutShort(before, a, log, b, []);
      }
    }

    /** The concurrent step: the peer's heads on the side stream, own heads on the caller, then the merge. */
    method StepConcurrent(f: Forward, slab: nat, query: Transfer, who: Context, healthy: bool) returns (ok: bool)
      requires Valid() && f.Valid() && slab < |f.rows| && f.mode == Concurrent
      requires pending == [query] && query.ticket == Ticket(Query, slab) && query.dependency == null
      modifies this`pending, this`log, query
      ensures Valid()
      ensures ok ==> pending == []
      ensures if ok then log == old(log) + StepCommands(f, slab, None)
              else Partial(old(log), log, StepCommands(f, slab, None))
      ensures healthy && old(Admits(who)) ==> ok
    {
      ghost var before := log;
      var a, b := RemoteCommands(f.rank, slab), [Launch(Caller, Own(f.rank, slab, f.PartsOf(slab)[0]))];
      var c := FinishCommands(f.mode, slab);
      assert StepCommands(f, slab, None) == [] + a + (b + c) == a + b + c == (a + b) + c + [];
      assert before + [] == before;
      var result;
      ok, result := RemoteResult(query, f, slab, who, healthy);
      if !ok {
        CutShort(before, [], log, a, b + c);
        return;
      }
      ok := Submit(b[0], healthy);
      if !ok {
        CutShort(before, a, log, b, c);
        return;
      }
      ok := Finish(PendingMerge(result, slab), f.mode, who, healthy);
      if !ok {
        assert before + (a + b) == before + a + b;
        CutShort(before, a + b, log, c, []);
      }
    }

    /** Own heads while the query travels, then the query's join. */
    method OwnHeadsAndJoin(f: Forward, slab: nat, query: Transfer, who: Context, healthy: bool) returns (ok: bool)
      requires Valid() && f.Valid() && slab < |f.rows|
      requires query.ticket == Ticket(Query, slab) && query.dependency == null
      modifies this`pending, this`log, query
      ensures Valid() && (ok ==> pending == Without(old(pending), query))
      ensures var cmds := [Launch(Caller, Own(f.rank, slab, f.PartsOf(slab)[0]))] + JoinCommands(Ticket(Query, slab));
        if ok then log == old(log) + cmds else Partial(old(log), log, cmds)
      ensures healthy && old(Admits(who)) && query in old(pending) ==> ok
    {
      ghost var before := log;
      var a, b := [Launch(Caller, Own(f.rank, slab, f.PartsOf(slab)[0]))], JoinCommands(Ticket(Query, slab));
      assert [] + a + b == a + b == a + b + [] && before + [] == before;
      ok := Submit(a[0], healthy);
      if !ok {
        CutShort(before, [], log, a, b);
        return;
      }
      assert JoinAll(query) == b;
      ok := Join(query, who, healthy);
      if !ok {
        CutShort(before, a, log, b, []);
      }
    }

    /** The merge left over from the preceding slab, then the peer's heads. */
    method FinishPreviousAndPeer(f: Forward, slab: nat, previous: Option<PendingMerge>, who: Context, healthy: bool)
      returns (ok: bool)
      requires Valid() && f.Valid() && slab < |f.rows| && f.mode != Concurrent && LeftOver(previous)
      requires pending == TransfersOf(previous)
      modifies this`pending, this`log, Leftover(previous)
      ensures Valid() && (ok ==> pending == [])
      ensures var cmds := FinishPrevious(f.mode, SlabOf(previous)) + [Launch(Caller, Peer(f.rank, slab))];
        if ok then log == old(log) + cmds else Partial(old(log), log, cmds)
      ensures healthy && old(Admits(who)) ==> ok
    {
      ghost var before := log;
      var a, b := FinishPrevious(f.mode, SlabOf(previous)), [Launch(Caller, Peer(f.rank, slab))];
      assert [] + a + b == a + b == a + b + [] && before + [] == before;
      if previous.Some? {
        ok := Finish(previous.value, f.mode, who, healthy);
        if !ok {
          CutShort(before, [], log, a, b);
          return;
        }
      }
      ok := Submit(b[0], healthy);
      if !ok {
        CutShort(before, a, log, b, []);
      }
    }

    /** The first half of a serial step. */
    method StepHead(f: Forward, slab: nat, query: Transfer, previous: Option<PendingMerge>, who: Context,
                    healthy: bool)
      returns (ok: bool)
      requires Valid() && f.Valid() && slab < |f.rows| && f.mode != Concurrent && LeftOver(previous)
      requires pending == TransfersOf(previous) + [query]
      requires query.ticket == Ticket(Query, slab) && query.dependency == null
      modifies this`pending, this`log, query, Leftover(previous)
      ensures Valid() && (ok ==> pending == [])
      ensures if ok then log == old(log) + SerialHead(f, slab, SlabOf(previous))
              else Partial(old(log), log, SerialHead(f, slab, SlabOf(previous)))
      ensures healthy && old(Admits(who)) ==> ok
    {
      ghost var before := log;
      var a := [Launch(Caller, Own(f.rank, slab, f.PartsOf(slab)[0]))] + JoinCommands(Ticket(Query, slab));
      var b := FinishPrevious(f.mode, SlabOf(previous)) + [Launch(Caller, Peer(f.rank, slab))];
      assert SerialHead(f, slab, SlabOf(previous)) == [] + a + b == a + b + [] && before + [] == before;
      ok := OwnHeadsAndJoin(f, slab, query, who, healthy);
      if !ok {
        CutShort(before, [], log, a, b);
        return;
      }
      ok := FinishPreviousAndPeer(f, slab, previous, who, healthy);
      if !ok {
        CutShort(before, a, log, b, []);
      }
    }

    /** The second half: the result is sent; a slab in two halves is merged at once. */
    method StepTail(f: Forward, slab: nat, who: Context, healthy: bool)
      returns (ok: bool, next: Option<PendingMerge>)
      requires Valid() && f.Valid() && slab < |f.rows| && f.mode != Concurrent && pending == []
      modifies this`pending, this`log
      ensures Valid()
      ensures ok ==> pending == TransfersOf(next) && LeftOver(next) && SlabOf(next) == Deferred(f, slab)
      ensures ok ==> SlabOf(next) == if f.mode == Balanced && f.rows[slab] < 32 then None else Some(slab)
      ensures ok ==> fresh(Leftover(next))
      ensures if ok then log == old(log) + SerialTail(f, slab) else Partial(old(log), log, SerialTail(f, slab))
      ensures healthy && old(Admits(who)) && 1 <= f.rows[slab] <= 512 ==> ok
    {
      ghost var before := log;
      var a, b := GatherCommands(Ticket(Result, slab)), if |f.PartsOf(slab)| == 2 then
        [Launch(Caller, Own(f.rank, slab, f.PartsOf(slab)[1]))] else [];
      var c := if |f.PartsOf(slab)| == 2 then FinishCommands(f.mode, slab) else [];
      assert SerialTail(f, slab) == [] + a + (b + c) == a + b + c == (a + b) + c + [];
      assert before + [] == before;
      var result;
      ok, result := Gather(Ticket(Result, slab), f.rows[slab], who, healthy);
      next := Some(PendingMerge(result, slab));
      if !ok {
        CutShort(before, [], log, a, b + c);
        return;
      }
      if |f.PartsOf(slab)| == 2 {
        ok := Submit(b[0], healthy);
        if !ok {
          CutShort(before, a, log, b, c);
          return;
        }
        ok := Finish(next.value, f.mode, who, healthy);
        if !ok {
          assert before + (a + b) == before + a + b;
          CutShort(before, a + b, log, c, []);
        }
        next := None;
      }
    }

    /** step. */
    method Step(f: Forward, slab: nat, query: Transfer, previous: Option<PendingMerge>, who: Context, healthy: bool)
      returns (ok: bool, next: Option<PendingMerge>)
      requires Valid() && f.Valid() && slab < |f.rows| && LeftOver(previous)
      requires pending == TransfersOf(previous) + [query]
      requires query.ticket == Ticket(Query, slab) && query.dependency == null
      modifies this`pending, this`log, query, Leftover(previous)
      ensures Valid()
      ensures ok ==> pending == TransfersOf(next) && LeftOver(next) && SlabOf(next) == Deferred(f, slab)
      ensures ok ==> fresh(Leftover(next))
      ensures if ok then log == old(log) + StepCommands(f, slab, SlabOf(previous))
              else Partial(old(log), log, StepCommands(f, slab, SlabOf(previous)))
      ensures ok && f.mode == Concurrent ==> previous == None
      ensures healthy && old(Admits(who)) && 1 <= f.rows[slab] <= 512 && (f.mode == Concurrent ==> previous == None)
        ==> ok
    {
      next := None;
      if f.mode == Concurrent {
        if previous.Some? {
          return false, None;
        }
        ok := StepConcurrent(f, slab, query, who, healthy);
        return;
      }
      ghost var before := log;
      var a, b := SerialHead(f, slab, SlabOf(previous)), SerialTail(f, slab);
      assert a + b == [] + a + b == a + b + [] && before + [] == before;
      ok := StepHead(f, slab, query, previous, who, healthy);
      if !ok {
        CutShort(before, [], log, a, b);
        return;
      }
      ok, next := StepTail(f, slab, who, healthy);
      if !ok {
        CutShort(before, a, log, b, []);
      }
    }

    /** The start of a slab: the query is prepared and sent, then the metadata is prepared. */
    method Open(slab: nat, rows: nat, who: Context, healthy: bool) returns (ok: bool, query: Transfer)
      requires Valid()
      modifies this`pending, this`log
      ensures Valid()
      ensures ok ==> fresh(query) && query.ticket == Ticket(Query, slab) && query.dependency == null
      ensures ok ==> pending == old(pending) + [query] && 1 <= rows <= 512
      ensures if ok then log == old(log) + OpenCommands(slab) else Partial(old(log), log, OpenCommands(slab))
      ensures healthy && old(Admits(who)) && 1 <= rows <= 512 && |old(pending)| < 2 ==> ok
    {
      query := new Transfer(Ticket(Query, slab), null);
      ghost var before := log;
      var a, b := [Launch(Caller, Prepare(slab))], GatherCommands(Ticket(Query, slab));
      var c := [Launch(Caller, Metadata(slab))];
      assert OpenCommands(slab) == [] + a + (b + c) == a + b + c == (a + b) + c + [] && before + [] == before;
      ok := Submit(a[0], healthy);
      if !ok {
        CutShort(before, [], log, a, b + c);
        return;
      }
      ok, query := Gather(Ticket(Query, slab), rows, who, healthy);
      if !ok {
        CutShort(before, a, log, b, c);
        return;
      }
      ok := Submit(c[0], healthy);
      if !ok {
        assert before + (a + b) == before + a + b;
        CutShort(before, a + b, log, c, []);
      }
    }

    /** One pass of the loop over the slabs. */
    method Slab(f: Forward, slab: nat, previous: Option<PendingMerge>, who: Context, healthy: bool)
      returns (ok: bool, next: Option<PendingMerge>)
      requires Valid() && f.Valid() && slab < |f.rows| && LeftOver(previous) && pending == TransfersOf(previous)
      requires f.mode == Concurrent ==> previous == None
      modifies this`pending, this`log, Leftover(previous)
      ensures Valid()
      ensures ok ==> pending == TransfersOf(next) && LeftOver(next) && SlabOf(next) == Deferred(f, slab)
      ensures ok ==> 1 <= f.rows[slab] <= 512 && fresh(Leftover(next))
      ensures var cmds := OpenCommands(slab) + StepCommands(f, slab, SlabOf(previous));
        if ok then log == old(log) + cmds else Partial(old(log), log, cmds)
      ensures healthy && old(Admits(who)) && 1 <= f.rows[slab] <= 512 ==> ok
    {
      next := None;
      ghost var before := log;
      var a, b := OpenCommands(slab), StepCommands(f, slab, SlabOf(previous));
      assert a + b == [] + a + b == a + b + [] && before + [] == before;
      var query;
      ok, query := Open(slab, f.rows[slab], who, healthy);
      if !ok {
        CutShort(before, [], log, a, b);
        return;
      }
      ok, next := Step(f, slab, query, previous, who, healthy);
      if !ok {
        CutShort(before, a, log, b, []);
        return;
      }
      Regrouped(before, a, b);
    }

    /** n slabs are through: the log holds their commands, and what is left over is pending. */
    ghost predicate After(f: Forward, n: nat, left: Option<PendingMerge>)
      requires f.Valid() && n <= |f.rows|
      reads this, pending
    {
      && Valid() && LeftOver(left) && pending == TransfersOf(left) && SlabOf(left) == Previous(f, n)
      && log == Slabs(f, n)
      && forall k :: 0 <= k < n ==> 1 <= f.rows[k] <= 512
    }

    /** The same pass, within the plan. */
    method NextOfPlan(f: Forward, n: nat, previous: Option<PendingMerge>, who: Context, healthy: bool)
      returns (ok: bool, next: Option<PendingMerge>)
      requires f.Valid() && n < |f.rows| && After(f, n, previous)
      modifies this`pending, this`log, Leftover(previous)
      ensures Valid() && log <= Plan(f)
      ensures ok ==> After(f, n + 1, next) && fresh(Leftover(next))
      ensures healthy && old(Admits(who)) && 1 <= f.rows[n] <= 512 ==> ok
    {
      NextSlab(f, n);
      SlabsArePrefix(f, n + 1);
      ok, next := Slab(f, n, previous, who, healthy);
    }

    /** The merge left when the loop ends. */
    method FinishLast(f: Forward, left: Option<PendingMerge>, who: Context, healthy: bool) returns (ok: bool)
      requires f.Valid() && After(f, |f.rows|, left)
      modifies this`pending, this`log, Leftover(left)
      ensures Valid() && log <= Plan(f) && (ok ==> pending == [] && log == Plan(f))
      ensures healthy && old(Admits(who)) ==> ok
    {
      if left.Some? {
        ok := Finish(left.value, f.mode, who, healthy);
        return;
      }
      return true;
    }

    /** The loop over all slabs. */
    method AllSlabs(f: Forward, who: Context, healthy: bool) returns (ok: bool, left: Option<PendingMerge>)
      requires Valid() && f.Valid() && pending == [] && log == []
      modifies this`pending, this`log
      ensures Valid() && (!ok ==> log <= Plan(f))
      ensures ok ==> After(f, |f.rows|, left) && fresh(Leftover(left))
      ensures healthy && old(Admits(who)) && f.Bounded() ==> ok
    {
      left := None;
      for n := 0 to |f.rows|
        invariant After(f, n, left) && fresh(Leftover(left))
      {
        ok, left := NextOfPlan(f, n, left, who, healthy);
        if !ok {
          return;
        }
      }
      ok := true;
    }

    /** The loop over all slabs and the merge left at its end. */
    method RunSlabs(f: Forward, who: Context, healthy: bool) returns (ok: bool)
      requires Valid() && f.Valid() && pending == [] && log == []
      modifies this`pending, this`log
      ensures Valid() && (ok ==> pending == [])
      ensures ok ==> log == Plan(f) && f.Bounded() && DcpHeads.Obeys(f, log)
      ensures log <= Plan(f)
      ensures healthy && old(Admits(who)) && f.Bounded() ==> ok
    {
      var left;
      ok, left := AllSlabs(f, who, healthy);
      if ok {
        ok := FinishLast(f, left, who, healthy);
      }
      if ok {
        DcpHeads.PlanObeys(f, log);
      }
    }

    /** A session is open, a transfer was left behind, or an exception has failed the transport. */
    predicate Busy()
      reads this
    {
      failed || session.Some? || pending != []
    }

    /**
    One attention forward inside its session. A nested, unfinished or poisoned session is
    refused, and a fault may refuse one before it opens: nothing changes. Otherwise, whatever
    happens, what was submitted is a beginning of the plan; an exception fails the transport
    for good.
    */
    method Session(f: Forward, who: Context, healthy: bool) returns (ok: bool, refused: bool)
      requires Valid() && f.Valid()
      modifies this
      ensures Valid()
      ensures refused ==> !ok && pending == old(pending) && failed == old(failed) && session == old(session)
      ensures refused ==> log == old(log)
      ensures old(failed || session != None || pending != []) ==> refused
      ensures !refused ==> Resting() && log <= Plan(f) && AllSafe(f, FRESH, log)
      ensures !refused ==> (ok <==> !failed)
      ensures ok ==> log == Plan(f) && DcpHeads.Obeys(f, log)
      ensures ok ==> forall slab :: 0 <= slab < |f.rows| ==> 1 <= f.rows[slab] <= 512
      ensures !old(Busy()) && healthy ==>
        !refused && ((forall slab :: 0 <= slab < |f.rows| ==> 1 <= f.rows[slab] <= 512) ==> ok)
    {
      if Busy() {
        return false, true;
      }
      if !healthy {
        var ownerChanged: bool := *;
        if ownerChanged {
          return false, true;
        }
      }
      refused := false;
      session, log := Some(who), [];
      ok := RunSlabs(f, who, healthy);
      ok := ok && pending == [];
      if !healthy {
        // The forward may still raise after its last submission.
        var raises: bool := *;
        ok := ok && !raises;
      }
      if !ok {
        failed := true;
      }
      session := None;
      PrefixIsSafe(f, log);
    }
  }

  /** Also a session that is cut short has ordered everything it submitted. */
  lemma PrefixIsSafe(f: Forward, log: seq<Command>)
    requires f.Valid() && log <= Plan(f)
    ensures AllSafe(f, FRESH, log)
  {
    EveryReadIsOrdered(f);
    assert Plan(f) == log + Plan(f)[|log|..];
    PlayAppend(f, FRESH, log, Plan(f)[|log|..]);
  }
}
