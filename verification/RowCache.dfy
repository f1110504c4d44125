/**
The set-associative row cache as a value, and every interleaving of the fetches that
share it (`fetch_row`): probe and fill are critical sections, the read between them is not.
*/
module RowCache {
  import opened Prelude
  import opened EngramTable

  /** keys[slot] is id + 1, or 0 for an empty slot; slot = set * ways + way. */
  datatype Cache = Cache(sets: nat, ways: nat, keys: seq<nat>, rows: seq<Image>, victim: seq<nat>) {

    predicate Shaped() {
      && 1 <= ways <= 16
      && |keys| == sets * ways && |rows| == sets * ways && |victim| == sets
    }

    /** Every occupied slot belongs to its id's set and holds that id's bytes. */
    ghost predicate Valid(table: Table)
      requires table.Valid()
    {
      Shaped() && forall slot :: 0 <= slot < |keys| && keys[slot] != 0 ==> SlotValid(slot, table)
    }

    predicate SlotValid(slot: nat, table: Table)
      requires table.Valid() && Shaped() && slot < |keys| && keys[slot] != 0
    {
      var id := keys[slot] - 1;
      && id < table.rows
      && sets > 0 && Base(id) <= slot < Base(id) + ways
      && rows[slot] == table.Row(id)
    }

    /** The first slot of the set that id belongs to. */
    function Base(id: nat): (base: nat)
      requires sets > 0
      ensures Shaped() ==> base + ways <= |keys|
    {
      SetFits(id % sets, sets, ways);
      id % sets * ways
    }

    /** The keys of the set that id belongs to. */
    function Bucket(id: nat): (r: seq<nat>)
      requires Shaped() && sets > 0
      ensures |r| == ways
    {
      keys[Base(id)..Base(id) + ways]
    }

    /** The probe under the set's lock. */
    function Lookup(id: nat): Option<Image>
      requires Shaped()
    {
      if sets == 0 then None
      else
        var way := FindKey(Bucket(id), id + 1);
        if way < ways then Some(rows[Base(id) + way]) else None
    }

    /** The fill under the set's lock: overwrite the victim way and advance the cursor. */
    function Fill(id: nat, row: Image): (c: Cache)
      requires Shaped()
      ensures c.Shaped() && c.sets == sets && c.ways == ways
    {
      if sets == 0 then this
      else
        var set_ := id % sets;
        var slot := Base(id) + victim[set_] % ways;
        this.(keys := keys[slot := id + 1], rows := rows[slot := row],
              victim := victim[set_ := (victim[set_] + 1) % ways])
    }
  }

  /** The first position of a key in a bucket, or the bucket's length. */
  function FindKey(bucket: seq<nat>, key: nat): (way: nat)
    ensures way <= |bucket|
    ensures way < |bucket| ==> bucket[way] == key
    ensures forall k :: 0 <= k < way ==> bucket[k] != key
  {
    if bucket == [] || bucket[0] == key then 0 else 1 + FindKey(bucket[1..], key)
  }

  lemma SetFits(s: nat, sets: nat, ways: nat)
    requires s < sets
    ensures s * ways + ways <= sets * ways
  {
    assert sets * ways == s * ways + ways + (sets - s - 1) * ways;
  }

  /** Different sets occupy disjoint slots. */
  lemma SetsAreDisjoint(a: nat, b: nat, ways: nat)
    requires a != b
    ensures a * ways + ways <= b * ways || b * ways + ways <= a * ways
  {
    if a < b {
      SetFits(a, b, ways);
    } else {
      SetFits(b, a, ways);
    }
  }

  /** A hit returns exactly the table's bytes. */
  lemma HitIsExact(c: Cache, table: Table, id: nat)
    requires table.Valid() && c.Valid(table)
    ensures c.Lookup(id).Some? ==> id < table.rows && c.Lookup(id) == Some(table.Row(id))
  {
    if c.Lookup(id).Some? {
      var slot := c.Base(id) + FindKey(c.Bucket(id), id + 1);
      assert c.SlotValid(slot, table);
    }
  }

  lemma LookupAt(c: Cache, id: nat, way: nat)
    requires c.Shaped() && c.sets > 0 && way == FindKey(c.Bucket(id), id + 1)
    ensures c.Base(id) == id % c.sets * c.ways
    ensures if way < c.ways then
              c.Base(id) + way < |c.rows| && c.Lookup(id) == Some(c.rows[c.Base(id) + way])
            else c.Lookup(id) == None
  {
  }

  /** Filling with the table's row keeps the cache valid, whatever was there before. */
  lemma FillKeepsValid(c: Cache, table: Table, id: nat)
    requires table.Valid() && c.Valid(table) && id < table.rows
    ensures c.Fill(id, table.Row(id)).Valid(table)
    ensures c.sets > 0 ==> c.Fill(id, table.Row(id)).Lookup(id) == Some(table.Row(id))
  {
    if c.sets > 0 {
      var c', base := c.Fill(id, table.Row(id)), c.Base(id);
      var slot := base + c.victim[id % c.sets] % c.ways;
      forall k | 0 <= k < |c'.keys| && c'.keys[k] != 0 ensures c'.SlotValid(k, table) {
        assert k == slot || c.SlotValid(k, table);
      }
      assert c'.Bucket(id)[slot - base] == id + 1;
      HitIsExact(c', table, id);
    }
  }

  /** The lock that guards a set. */
  function Stripe(id: nat, sets: nat): nat
    requires sets > 0
  {
    id % sets % 256
  }

  /**
  Critical sections under different locks touch different slots, so they commute: it is
  enough to consider whole critical sections, one after the other.
  */
  lemma DifferentStripesCommute(c: Cache, a: nat, x: Image, b: nat, y: Image)
    requires c.Shaped() && c.sets > 0 && Stripe(a, c.sets) != Stripe(b, c.sets)
    ensures c.Fill(a, x).Fill(b, y) == c.Fill(b, y).Fill(a, x)
    ensures c.Fill(a, x).Lookup(b) == c.Lookup(b)
  {
    FillsCommute(c, a, x, b, y);
    FillLeavesOtherSet(c, a, x, b);
  }

  lemma FillsCommute(c: Cache, a: nat, x: Image, b: nat, y: Image)
    requires c.Shaped() && c.sets > 0 && a % c.sets != b % c.sets
    ensures c.Fill(a, x).Fill(b, y) == c.Fill(b, y).Fill(a, x)
  {
    SetsAreDisjoint(a % c.sets, b % c.sets, c.ways);
    var slotA, slotB := c.Base(a) + c.victim[a % c.sets] % c.ways, c.Base(b) + c.victim[b % c.sets] % c.ways;
    UpdatesCommute(c.keys, slotA, a + 1, slotB, b + 1);
    UpdatesCommute(c.rows, slotA, x, slotB, y);
    var va, vb := (c.victim[a % c.sets] + 1) % c.ways, (c.victim[b % c.sets] + 1) % c.ways;
    UpdatesCommute(c.victim, a % c.sets, va, b % c.sets, vb);
  }

  lemma UpdatesCommute<T>(s: seq<T>, i: nat, x: T, j: nat, y: T)
    requires i < |s| && j < |s| && i != j
    ensures s[i := x][j := y] == s[j := y][i := x]
  {
  }

  lemma FillLeavesOtherSet(c: Cache, a: nat, x: Image, b: nat)
    requires c.Shaped() && c.sets > 0 && a % c.sets != b % c.sets
    ensures c.Fill(a, x).Lookup(b) == c.Lookup(b)
  {
    SetsAreDisjoint(a % c.sets, b % c.sets, c.ways);
    assert c.Fill(a, x).Bucket(b) == c.Bucket(b);
  }

  // ------------------------------------------------------------ replacement

  predicate AllInTable(ids: seq<nat>, table: Table) {
    forall k :: 0 <= k < |ids| ==> ids[k] < table.rows
  }

  /** The table's rows filled one after the other. */
  function FillAll(c: Cache, table: Table, ids: seq<nat>): (r: Cache)
    requires table.Valid() && c.Shaped() && AllInTable(ids, table)
    ensures r.Shaped() && r.sets == c.sets && r.ways == c.ways
    decreases |ids|
  {
    if ids == [] then c
    else FillAll(c.Fill(ids[0], table.Row(ids[0])), table, ids[1..])
  }

  /** How many of the ids belong to a set. */
  function FillsOf(ids: seq<nat>, sets: nat, set_: nat): nat
    requires sets > 0
  {
    if ids == [] then 0 else (if ids[0] % sets == set_ then 1 else 0) + FillsOf(ids[1..], sets, set_)
  }

  /** How many fills a cursor needs to come to a way. */
  function Distance(cursor: nat, way: nat, ways: nat): nat
    requires cursor < ways && way < ways
  {
    if cursor <= way then way - cursor else way + ways - cursor
  }

  /** A way holds the id, and the cursor of the set reaches it after `left` further fills. */
  predicate Kept(c: Cache, id: nat, way: nat, left: nat)
    requires c.Shaped() && c.sets > 0
  {
    && way < c.ways && c.keys[c.Base(id) + way] == id + 1
    && Distance(c.victim[id % c.sets] % c.ways, way, c.ways) == left
  }

  /** The cursor goes from way to way, and from the last one to the first. */
  lemma CursorMoves(v: nat, ways: nat)
    requires ways > 0
    ensures (v + 1) % ways % ways == if v % ways + 1 == ways then 0 else v % ways + 1
  {
    var q, r := v / ways, v % ways;
    if r + 1 == ways {
      assert v + 1 == (q + 1) * ways + 0;
      ExactModulo(q + 1, 0, ways);
      ExactModulo(0, 0, ways);
    } else {
      assert v + 1 == q * ways + (r + 1);
      ExactModulo(q, r + 1, ways);
      ExactModulo(0, r + 1, ways);
    }
  }

  lemma ExactModulo(q: nat, r: nat, m: nat)
    requires r < m
    ensures (q * m + r) % m == r
  {
    var n := q * m + r;
    assert n / m * m + n % m == n;
    if n / m > q {
      MultiplyMonotone(q + 1, n / m, m);
    } else if n / m < q {
      MultiplyMonotone(n / m + 1, q, m);
    }
  }

  /** A fill of another set, or of a set whose cursor is elsewhere, keeps the way. */
  lemma FillKeeps(c: Cache, table: Table, id: nat, way: nat, left: nat, next: nat)
    requires table.Valid() && c.Shaped() && c.sets > 0 && next < table.rows && Kept(c, id, way, left)
    requires next % c.sets == id % c.sets ==> left > 0
    ensures Kept(c.Fill(next, table.Row(next)), id, way, if next % c.sets == id % c.sets then left - 1 else left)
  {
    if next % c.sets == id % c.sets {
      CursorMoves(c.victim[id % c.sets], c.ways);
    } else {
      SetsAreDisjoint(id % c.sets, next % c.sets, c.ways);
    }
  }

  lemma {:induction false} FillAllKeeps(c: Cache, table: Table, id: nat, way: nat, left: nat, ids: seq<nat>)
    requires table.Valid() && c.Shaped() && c.sets > 0 && Kept(c, id, way, left)
    requires AllInTable(ids, table) && FillsOf(ids, c.sets, id % c.sets) <= left
    ensures Kept(FillAll(c, table, ids), id, way, left - FillsOf(ids, c.sets, id % c.sets))
    decreases |ids|
  {
    if ids != [] {
      FillKeeps(c, table, id, way, left, ids[0]);
      var rest := if ids[0] % c.sets == id % c.sets then left - 1 else left;
      FillAllKeeps(c.Fill(ids[0], table.Row(ids[0])), table, id, way, rest, ids[1..]);
    }
  }

  lemma {:induction false} FillAllValid(c: Cache, table: Table, ids: seq<nat>)
    requires table.Valid() && c.Valid(table) && AllInTable(ids, table)
    ensures FillAll(c, table, ids).Valid(table)
    decreases |ids|
  {
    if ids != [] {
      FillKeepsValid(c, table, ids[0]);
      FillAllValid(c.Fill(ids[0], table.Row(ids[0])), table, ids[1..]);
    }
  }

  lemma KeptIsHit(c: Cache, table: Table, id: nat, way: nat, left: nat)
    requires table.Valid() && c.Valid(table) && c.sets > 0 && Kept(c, id, way, left) && id < table.rows
    ensures c.Lookup(id) == Some(table.Row(id))
  {
    assert c.Bucket(id)[way] == id + 1;
    HitIsExact(c, table, id);
  }

  lemma JustFilled(c: Cache, table: Table, id: nat)
    requires table.Valid() && c.Shaped() && c.sets > 0 && id < table.rows
    ensures Kept(c.Fill(id, table.Row(id)), id, c.victim[id % c.sets] % c.ways, c.ways - 1)
  {
    CursorMoves(c.victim[id % c.sets], c.ways);
  }

  /**
  Replacement is round robin: whatever is filled after it, a row stays in the cache until
  its set has been filled as many times more as it has ways.
  */
  lemma FilledRowStays(c: Cache, table: Table, id: nat, later: seq<nat>)
    requires table.Valid() && c.Valid(table) && c.sets > 0 && id < table.rows
    requires AllInTable(later, table) && FillsOf(later, c.sets, id % c.sets) < c.ways
    ensures FillAll(c.Fill(id, table.Row(id)), table, later).Lookup(id) == Some(table.Row(id))
  {
    var filled, way := c.Fill(id, table.Row(id)), c.victim[id % c.sets] % c.ways;
    JustFilled(c, table, id);
    FillKeepsValid(c, table, id);
    FillAllKeeps(filled, table, id, way, c.ways - 1, later);
    FillAllValid(filled, table, later);
    KeptIsHit(FillAll(filled, table, later), table, id, way, c.ways - 1 - FillsOf(later, c.sets, id % c.sets));
  }

  // ----------------------------------------------------------------- sizing

  /** The sets that `row_store_open` allocates for a budget; a way takes 264 + 8 bytes. */
  function SetsFor(budget: nat, ways: nat): nat
    requires ways > 0
  {
    DivisionBounds(budget, 272 * ways + 1);
    budget / (272 * ways + 1)
  }

  /** Rows, keys and cursors of that many sets fit the budget, and one more set would not. */
  lemma CacheFitsBudget(budget: nat, ways: nat)
    requires ways > 0
    ensures var sets := SetsFor(budget, ways);
      sets * ways * 272 + sets <= budget < (sets + 1) * ways * 272 + (sets + 1)
  {
    var sets, per := SetsFor(budget, ways), 272 * ways + 1;
    assert sets * per <= budget < sets * per + per;
    assert sets * per == sets * ways * 272 + sets;
    assert (sets + 1) * per == (sets + 1) * ways * 272 + (sets + 1);
    assert (sets + 1) * per == sets * per + per;
  }

  // ----------------------------------------------------- concurrent fetches

  datatype Pc =
    | Idle
    | Probe(id: nat)                 // wants the set's lock for the first time
    | Read(id: nat)                  // missed; reads the source outside the lock
    | Count(id: nat, row: Image)     // before misses.fetch_add
    | Insert(id: nat, row: Image)    // wants the set's lock again
    | Done(id: nat, row: Image)

  /** `completed` counts the fetches that have returned. */
  datatype State = State(cache: Cache, threads: seq<Pc>, hits: nat, misses: nat, completed: nat)

  datatype Step = Begin(t: nat, id: nat) | Advance(t: nat)

  predicate Enabled(s: State, table: Table, step: Step) {
    step.t < |s.threads| &&
    match step
    case Begin(t, id) => (s.threads[t].Idle? || s.threads[t].Done?) && id < table.rows
    case Advance(t) => !s.threads[t].Idle? && !s.threads[t].Done?
  }

  /** The source is immutable, so a read returns the table's row at any time. */
  function Apply(s: State, table: Table, step: Step): State
    requires table.Valid() && s.cache.Shaped() && Enabled(s, table, step)
    requires step.Advance? && s.threads[step.t].Read? ==> s.threads[step.t].id < table.rows
  {
    match step
    case Begin(t, id) => s.(threads := s.threads[t := Probe(id)])
    case Advance(t) =>
      match s.threads[t]
      case Probe(id) =>
        var hit := s.cache.Lookup(id);
        if hit.Some?
        then s.(threads := s.threads[t := Done(id, hit.value)], hits := s.hits + 1, completed := s.completed + 1)
        else s.(threads := s.threads[t := Read(id)])
      case Read(id) => s.(threads := s.threads[t := Count(id, table.Row(id))])
      case Count(id, row) =>
        if s.cache.sets > 0 then s.(threads := s.threads[t := Insert(id, row)], misses := s.misses + 1)
        else s.(threads := s.threads[t := Done(id, row)], misses := s.misses + 1, completed := s.completed + 1)
      case Insert(id, row) =>
        s.(threads := s.threads[t := Done(id, row)], cache := s.cache.Fill(id, row), completed := s.completed + 1)
      case _ => s
  }

  function Inserting(threads: seq<Pc>): set<nat> {
    set t | 0 <= t < |threads| && threads[t].Insert?
  }

  /** Whatever row a thread carries is the table's row for its id. */
  ghost predicate Carries(pc: Pc, table: Table)
    requires table.Valid()
  {
    && (!pc.Idle? ==> pc.id < table.rows)
    && (pc.Count? || pc.Insert? || pc.Done? ==> pc.row == table.Row(pc.id))
  }

  ghost predicate Inv(s: State, table: Table)
    requires table.Valid()
  {
    && s.cache.Valid(table)
    && (forall t :: 0 <= t < |s.threads| ==> Carries(s.threads[t], table))
    && s.hits + s.misses == s.completed + |Inserting(s.threads)|
  }

  ghost predicate Executes(s: State, table: Table, steps: seq<Step>, s': State)
    requires table.Valid() && Inv(s, table)
    decreases |steps|
  {
    if steps == [] then s' == s
    else if !Enabled(s, table, steps[0]) then false
    else
      StepKeeps(s, table, steps[0]);
      Executes(Apply(s, table, steps[0]), table, steps[1..], s')
  }

  lemma InsertingUpdate(threads: seq<Pc>, t: nat, pc: Pc)
    requires t < |threads|
    ensures Inserting(threads[t := pc]) ==
            if pc.Insert? then Inserting(threads) + {t} else Inserting(threads) - {t}
  {
  }

  lemma StepKeeps(s: State, table: Table, step: Step)
    requires table.Valid() && Inv(s, table) && Enabled(s, table, step)
    ensures Carries(s.threads[step.t], table)
    ensures Inv(Apply(s, table, step), table)
  {
    if step.Begin? {
      BeginKeeps(s, table, step.t, step.id);
    } else {
      AdvanceKeeps(s, table, step.t);
    }
  }

  lemma BeginKeeps(s: State, table: Table, t: nat, id: nat)
    requires table.Valid() && Inv(s, table) && Enabled(s, table, Begin(t, id))
    ensures Inv(Apply(s, table, Begin(t, id)), table)
  {
    InsertingUpdate(s.threads, t, Probe(id));
    assert t !in Inserting(s.threads);
  }

  lemma AdvanceKeeps(s: State, table: Table, t: nat)
    requires table.Valid() && Inv(s, table) && Enabled(s, table, Advance(t))
    ensures Carries(s.threads[t], table)
    ensures Inv(Apply(s, table, Advance(t)), table)
  {
    var pc := s.threads[t];
    assert Carries(pc, table);
    InsertingUpdate(s.threads, t, Apply(s, table, Advance(t)).threads[t]);
    assert pc.Insert? <==> t in Inserting(s.threads);
    if pc.Probe? && s.cache.Lookup(pc.id).Some? {
      HitIsExact(s.cache, table, pc.id);
    }
    if pc.Insert? {
      FillKeepsValid(s.cache, table, pc.id);
    }
  }

  /**
  Under every interleaving of fetches (duplicates included) each returned row is exactly the
  table's row, the cache stays valid, and hits plus misses count the returned fetches, up to
  those that have counted their miss and not yet filled.
  */
  lemma {:induction false} EveryInterleavingIsExact(s: State, table: Table, steps: seq<Step>, s': State)
    requires table.Valid() && Inv(s, table) && Executes(s, table, steps, s')
    ensures s'.cache.Valid(table)
    ensures forall t :: 0 <= t < |s'.threads| && s'.threads[t].Done? ==>
      s'.threads[t].id < table.rows && s'.threads[t].row == table.Row(s'.threads[t].id)
    ensures (forall t :: 0 <= t < |s'.threads| ==> !s'.threads[t].Insert?) ==>
      s'.hits + s'.misses == s'.completed
    decreases |steps|
  {
    if steps == [] {
      if forall t :: 0 <= t < |s'.threads| ==> !s'.threads[t].Insert? {
        assert Inserting(s'.threads) == {};
      }
      forall t | 0 <= t < |s'.threads| && s'.threads[t].Done?
        ensures s'.threads[t].id < table.rows && s'.threads[t].row == table.Row(s'.threads[t].id)
      {
        assert Carries(s'.threads[t], table);
      }
    } else {
      StepKeeps(s, table, steps[0]);
      EveryInterleavingIsExact(Apply(s, table, steps[0]), table, steps[1..], s');
    }
  }
}
