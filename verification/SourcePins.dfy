/**
Propagation of source pins (`transform`): files pin each other's digests, rewriting a pin
changes the digest of the file that holds it, and rounds of rewriting run until nothing
changes. A digest is modelled as an injective constructor of the file's content.
*/
module SourcePins {
  import opened Prelude

  datatype Token = Text(text: string) | Pin(digest: Digest)

  datatype Digest = Sha(file: File) | Foreign(n: nat)

  type File = seq<Token>

  predicate EndsWith(name: string, suffix: string) {
    |suffix| <= |name| && name[|name| - |suffix|..] == suffix
  }

  predicate Eligible(name: string) {
    ("serving/" <= name || "tools/" <= name) && !EndsWith(name, "overlay-manifest.json")
  }

  /** The files in which pins are rewritten. */
  predicate Rewritable(name: string) {
    Eligible(name) && (EndsWith(name, ".py") || EndsWith(name, ".json"))
  }

  /** The files whose digests are followed. */
  predicate Tracked(name: string) {
    Rewritable(name) || (Eligible(name) && (EndsWith(name, ".so") || EndsWith(name, ".yaml")))
  }

  /** The tracked names in their order, those to rewrite, the payload, and every digest a name has had. */
  datatype Bundle = Bundle(names: seq<string>, rewritable: set<string>, payload: map<string, File>,
                           history: map<string, set<Digest>>) {

    /** The history covers exactly the tracked files and includes their current digests. */
    ghost predicate Valid() {
      && (forall g <- names :: g in payload)
      && (forall f <- rewritable :: f in names)
      && (forall g :: g in history <==> g in names)
      && (forall g <- names :: Sha(payload[g]) in history[g])
      && (forall g <- names, d :: d in history[g] ==> d.Sha?)
    }

    function Current(g: string): Digest
      requires g in payload
    {
      Sha(payload[g])
    }

    predicate Had(g: string, d: Digest) {
      g in names && g in history && d in history[g]
    }

    predicate Stale(g: string, d: Digest)
      requires g in payload
    {
      Had(g, d) && d != Current(g)
    }

    /** The files that have had a digest leave no doubt about what it should become. */
    ghost predicate CoherentAt(d: Digest)
      requires Valid()
    {
      forall g, h :: Had(g, d) && Had(h, d) ==> Current(g) == Current(h)
    }

    /** There is no doubt about any pin, nor about what it should become. */
    ghost predicate Coherent()
      requires Valid()
    {
      forall f, i: nat, g :: PinsTo(this, f, i, g) ==> CoherentAt(payload[f][i].digest) && CoherentAt(Current(g))
    }

    /** The update of a digest: the current digest of the last name for which it is stale. */
    function Target(d: Digest, n: nat): (r: Option<Digest>)
      requires n <= |names| && forall g <- names :: g in payload
      ensures r.Some? ==> exists g <- names[..n] :: Stale(g, d) && r.value == Current(g)
      ensures r.None? ==> forall g <- names[..n] :: !Stale(g, d)
    {
      if n == 0 then None
      else if Stale(names[n - 1], d) then Some(Current(names[n - 1]))
      else
        assert names[..n] == names[..n - 1] + [names[n - 1]];
        Target(d, n - 1)
    }

    /** The update dictionary of one round, with its keys in some order. */
    ghost predicate Updates(keys: seq<Digest>, updates: map<Digest, Digest>)
      requires Valid()
    {
      && Distinct(keys)
      && (forall d :: d in keys <==> d in updates)
      && (forall d <- updates :: Target(d, |names|) == Some(updates[d]))
      && (forall g, d :: g in names && Stale(g, d) ==> d in updates)
    }

    /** What a digest should become: the current digest of a file that has had it. */
    ghost function Resolve(d: Digest): Digest
      requires Valid()
    {
      if exists g <- names :: Had(g, d) then
        var g :| g in names && Had(g, d);
        Current(g)
      else d
    }

    /** All pins of all rewritable files resolved at once. */
    ghost function Resolved(): map<string, File>
      requires Valid()
    {
      map f | f in payload :: if f in rewritable then MapPins(payload[f], d => Resolve(d)) else payload[f]
    }

    /** The next round: pins resolved, then the new digests noted. */
    ghost function Next(): (b: Bundle)
      requires Valid()
      ensures b.Valid() && b.names == names && b.rewritable == rewritable
    {
      var p := Resolved();
      Bundle(names, rewritable, p, map g | g in history :: history[g] + {Sha(p[g])})
    }
  }

  predicate Distinct(keys: seq<Digest>) {
    forall i, j :: 0 <= i < j < |keys| ==> keys[i] != keys[j]
  }

  /** A pin of file f, at token i, that is meant for g: it holds a digest g has had. */
  ghost predicate PinsTo(b: Bundle, f: string, i: nat, g: string)
    requires b.Valid()
  {
    f in b.rewritable && i < |b.payload[f]| && b.payload[f][i].Pin? && b.Had(g, b.payload[f][i].digest)
  }

  predicate IsPin(b: Bundle, f: string, i: nat) {
    f in b.rewritable && f in b.payload && i < |b.payload[f]| && b.payload[f][i].Pin?
  }

  function MapToken(t: Token, f: Digest -> Digest): Token {
    if t.Pin? then Pin(f(t.digest)) else t
  }

  function MapPins(file: File, f: Digest -> Digest): (r: File)
    ensures |r| == |file| && forall i :: 0 <= i < |file| ==> r[i] == MapToken(file[i], f)
  {
    seq(|file|, i requires 0 <= i < |file| => MapToken(file[i], f))
  }

  /** The effect on one digest of replacing the keys one after the other. */
  function Chase(d: Digest, keys: seq<Digest>, updates: map<Digest, Digest>): Digest {
    if keys == [] then d
    else
      var k := keys[|keys| - 1];
      var e := Chase(d, keys[..|keys| - 1], updates);
      if e == k && k in updates then updates[k] else e
  }

  // ----- One round -----

  /** Every pin that is meant for some file is given that file's current digest. */
  ghost predicate RoundIsRight(b: Bundle, keys: seq<Digest>, updates: map<Digest, Digest>)
    requires b.Valid() && b.Updates(keys, updates)
  {
    forall f, i: nat, g :: PinsTo(b, f, i, g) ==> Chase(b.payload[f][i].digest, keys, updates) == b.Current(g)
  }

  lemma {:induction false} ChaseCoherent(b: Bundle, keys: seq<Digest>, updates: map<Digest, Digest>, g: string,
                                         d: Digest, n: nat)
    requires b.Valid() && b.Updates(keys, updates) && b.Had(g, d) && n <= |keys|
    requires b.CoherentAt(d) && b.CoherentAt(b.Current(g))
    ensures Chase(d, keys[..n], updates) == if d in keys[..n] then b.Current(g) else d
    decreases n
  {
    if n > 0 {
      assert keys[..n][..n - 1] == keys[..n - 1] && keys[..n] == keys[..n - 1] + [keys[n - 1]];
      ChaseCoherent(b, keys, updates, g, d, n - 1);
      var k := keys[n - 1];
      assert k in updates;
      var h :| h in b.names && b.Stale(h, k) && updates[k] == b.Current(h);
      assert b.Had(g, b.Current(g));
    }
  }

  lemma {:induction false} ChaseForeign(b: Bundle, keys: seq<Digest>, updates: map<Digest, Digest>, d: Digest, n: nat)
    requires b.Valid() && b.Updates(keys, updates) && n <= |keys|
    requires forall g :: !b.Had(g, d)
    ensures Chase(d, keys[..n], updates) == d
    decreases n
  {
    if n > 0 {
      assert keys[..n][..n - 1] == keys[..n - 1] && keys[..n] == keys[..n - 1] + [keys[n - 1]];
      ChaseForeign(b, keys, updates, d, n - 1);
      assert keys[n - 1] in updates;
    }
  }

  lemma ChasePin(b: Bundle, keys: seq<Digest>, updates: map<Digest, Digest>, g: string, d: Digest)
    requires b.Valid() && b.Updates(keys, updates) && b.Had(g, d)
    requires b.CoherentAt(d) && b.CoherentAt(b.Current(g))
    ensures Chase(d, keys, updates) == b.Current(g)
  {
    assert keys[..|keys|] == keys;
    ChaseCoherent(b, keys, updates, g, d, |keys|);
    assert d != b.Current(g) ==> b.Stale(g, d) && d in updates;
  }

  /** The same updates, with one of the keys moved to the end. */
  lemma KeyLast(b: Bundle, keys: seq<Digest>, updates: map<Digest, Digest>, d: Digest) returns (ks: seq<Digest>)
    requires b.Valid() && b.Updates(keys, updates) && d in keys
    ensures b.Updates(ks, updates) && |ks| > 0 && ks[|ks| - 1] == d
  {
    ks := MoveToEnd(keys, d);
  }

  lemma MoveToEnd(keys: seq<Digest>, d: Digest) returns (ks: seq<Digest>)
    requires Distinct(keys) && d in keys
    ensures Distinct(ks) && (forall e :: e in ks <==> e in keys) && |ks| > 0 && ks[|ks| - 1] == d
  {
    var n :| 0 <= n < |keys| && keys[n] == d;
    var before, after := keys[..n], keys[n + 1..];
    assert keys == before + [d] + after;
    ks := before + after + [d];
    forall i, j | 0 <= i < j < |ks| ensures ks[i] != ks[j] {
      assert ks[i] == keys[if i < n then i else i + 1];
      assert ks[j] == if j < n then keys[j] else if j < |ks| - 1 then keys[j + 1] else keys[n];
    }
  }

  /** If what a pin should become is itself in doubt, replacing it last sends the pin elsewhere. */
  lemma LastKeyMisdirects(b: Bundle, keys: seq<Digest>, updates: map<Digest, Digest>, c: Digest, h: string, d: Digest)
    requires b.Valid() && b.Updates(keys, updates) && |keys| > 0 && keys[|keys| - 1] == c
    requires h in b.names && b.Stale(h, c)
    ensures Chase(d, keys, updates) != c
  {
    assert b.Target(c, |b.names|) == Some(updates[c]);
  }

  lemma SomeOrderIsWrong(b: Bundle, keys: seq<Digest>, updates: map<Digest, Digest>, f: string, i: nat, g: string)
    requires b.Valid() && b.Updates(keys, updates) && PinsTo(b, f, i, g)
    requires !(b.CoherentAt(b.payload[f][i].digest) && b.CoherentAt(b.Current(g)))
    ensures exists ks :: b.Updates(ks, updates) && !RoundIsRight(b, ks, updates)
  {
    var d, c := b.payload[f][i].digest, b.Current(g);
    if !b.CoherentAt(d) {
      var x, y :| b.Had(x, d) && b.Had(y, d) && b.Current(x) != b.Current(y);
      assert PinsTo(b, f, i, x) && PinsTo(b, f, i, y);
      assert !RoundIsRight(b, keys, updates);
    } else {
      var x, y :| b.Had(x, c) && b.Had(y, c) && b.Current(x) != b.Current(y);
      var h := if b.Current(x) != c then x else y;
      assert b.Stale(h, c);
      var ks := KeyLast(b, keys, updates, c);
      LastKeyMisdirects(b, ks, updates, c, h, d);
      assert !RoundIsRight(b, ks, updates);
    }
  }

  /**
  A round of sequential replacements directs every pin to the current digest of its file, in
  whatever order the replacements are made, if and only if there is no doubt about any pin:
  neither its digest nor the one it should become is shared by files whose current digests differ.
  */
  lemma RoundIsRightIffCoherent(b: Bundle, keys: seq<Digest>, updates: map<Digest, Digest>)
    requires b.Valid() && b.Updates(keys, updates)
    ensures (forall ks :: b.Updates(ks, updates) ==> RoundIsRight(b, ks, updates)) <==> b.Coherent()
  {
    if b.Coherent() {
      forall ks | b.Updates(ks, updates) ensures RoundIsRight(b, ks, updates) {
        forall f, i: nat, g | PinsTo(b, f, i, g)
          ensures Chase(b.payload[f][i].digest, ks, updates) == b.Current(g) {
          ChasePin(b, ks, updates, g, b.payload[f][i].digest);
        }
      }
    } else {
      var f, i: nat, g :|
        PinsTo(b, f, i, g) && !(b.CoherentAt(b.payload[f][i].digest) && b.CoherentAt(b.Current(g)));
      SomeOrderIsWrong(b, keys, updates, f, i, g);
    }
  }

  /** In a coherent round the replacements, in whatever order, resolve all pins at once. */
  lemma ChaseIsResolve(b: Bundle, keys: seq<Digest>, updates: map<Digest, Digest>, f: string, i: nat)
    requires b.Valid() && b.Coherent() && b.Updates(keys, updates) && IsPin(b, f, i)
    ensures Chase(b.payload[f][i].digest, keys, updates) == b.Resolve(b.payload[f][i].digest)
  {
    var d := b.payload[f][i].digest;
    if g :| b.Had(g, d) {
      assert PinsTo(b, f, i, g);
      ChasePin(b, keys, updates, g, d);
      ResolveOwned(b, g, d);
    } else {
      assert keys[..|keys|] == keys;
      ChaseForeign(b, keys, updates, d, |keys|);
    }
  }

  /**
  The property fails of the code for some bundles. If g was changed, h is an unchanged file
  with the bytes g used to have, and no file had those bytes otherwise, then the pins of h
  are redirected to g.
  */
  lemma SharedBytesMisdirect(b: Bundle, keys: seq<Digest>, updates: map<Digest, Digest>, g: string, h: string,
                             before: File, after: File)
    requires b.Valid() && b.Updates(keys, updates)
    requires b.names == [g, h] && g != h && before != after
    requires b.payload[g] == after && b.history[g] == {Sha(before), Sha(after)}
    requires b.payload[h] == before && b.history[h] == {Sha(before)}
    ensures Chase(b.Current(h), keys, updates) == b.Current(g) != b.Current(h)
  {
    assert b.Stale(g, Sha(before));
    assert !b.Stale(g, Sha(after)) && !b.Stale(h, Sha(before)) && !b.Stale(h, Sha(after));
    forall d | d in updates ensures d == Sha(before) && updates[d] == Sha(after) {
      assert b.Target(d, |b.names|).Some?;
    }
    ChaseOnly(Sha(before), Sha(after), keys, updates);
  }

  lemma {:induction false} ChaseOnly(before: Digest, after: Digest, keys: seq<Digest>, updates: map<Digest, Digest>)
    requires before != after
    requires forall k <- keys :: k in updates && k == before && updates[k] == after
    ensures Chase(before, keys, updates) == if keys == [] then before else after
  {
    if keys != [] {
      assert keys[|keys| - 1] in keys;
      ChaseOnly(before, after, keys[..|keys| - 1], updates);
    }
  }

  // ----- Whole runs -----

  /** Equal up to the digests in the pins: the shape of a file never changes. */
  predicate SameShape(a: File, b: File) {
    |a| == |b| && forall i :: 0 <= i < |a| ==> if a[i].Pin? then b[i].Pin? else a[i] == b[i]
  }

  predicate Alike(d: Digest, e: Digest) {
    d.Sha? && e.Sha? && SameShape(d.file, e.file)
  }

  /** A digest that g could come to have in some round, judged by shape alone. */
  ghost predicate Claims(start: Bundle, g: string, d: Digest) {
    exists e :: start.Had(g, e) && Alike(d, e)
  }

  /** Two copies of one file that are treated alike. */
  predicate Twins(start: Bundle, g: string, h: string)
    requires start.Valid() && g in start.names && h in start.names
  {
    && start.payload[g] == start.payload[h] && start.history[g] == start.history[h]
    && (g in start.rewritable <==> h in start.rewritable)
  }

  /** Checkable before the run: distinct files, other than exact copies, have distinct shapes. */
  ghost predicate Separate(start: Bundle)
    requires start.Valid()
  {
    forall g, h, d, e :: start.Had(g, d) && start.Had(h, e) && Alike(d, e) ==> Twins(start, g, h)
  }

  /** What every round keeps. */
  ghost predicate Follows(start: Bundle, b: Bundle)
    requires start.Valid() && b.Valid()
  {
    && b.names == start.names && b.rewritable == start.rewritable && b.payload.Keys == start.payload.Keys
    && (forall g, d :: b.Had(g, d) ==> Claims(start, g, d))
    && (forall g <- start.names, h <- start.names :: Twins(start, g, h) ==> b.payload[g] == b.payload[h])
  }

  lemma StartFollows(start: Bundle)
    requires start.Valid()
    ensures Follows(start, start)
  {
    forall g, d | start.Had(g, d) ensures Claims(start, g, d) {
      assert Alike(d, d);
    }
  }

  /** Distinct shapes make every round of the run coherent. */
  lemma SeparateIsCoherent(start: Bundle, b: Bundle)
    requires start.Valid() && b.Valid() && Separate(start) && Follows(start, b)
    ensures b.Coherent()
  {
    forall d ensures b.CoherentAt(d) {
      forall g, h | b.Had(g, d) && b.Had(h, d) ensures b.Current(g) == b.Current(h) {
        ClaimedByTwins(start, g, h, d);
      }
    }
  }

  lemma ClaimedByTwins(start: Bundle, g: string, h: string, d: Digest)
    requires start.Valid() && Separate(start) && Claims(start, g, d) && Claims(start, h, d)
    ensures g in start.names && h in start.names && Twins(start, g, h)
  {
    var x :| start.Had(g, x) && Alike(d, x);
    var y :| start.Had(h, y) && Alike(d, y);
    assert Alike(x, y);
  }

  lemma NextKeepsShape(b: Bundle, g: string)
    requires b.Valid() && g in b.names
    ensures Alike(b.Next().Current(g), b.Current(g))
  {
  }

  lemma NextHistory(b: Bundle, g: string, d: Digest)
    requires b.Valid()
    ensures b.Next().Had(g, d) <==> b.Had(g, d) || (g in b.names && d == b.Next().Current(g))
  {
  }

  lemma ClaimsAlike(start: Bundle, g: string, d: Digest, e: Digest)
    requires Claims(start, g, e) && Alike(d, e)
    ensures Claims(start, g, d)
  {
    var x :| start.Had(g, x) && Alike(e, x);
    assert Alike(d, x);
  }

  lemma NextFollows(start: Bundle, b: Bundle)
    requires start.Valid() && b.Valid() && Follows(start, b)
    ensures Follows(start, b.Next())
  {
    forall g, d | b.Next().Had(g, d) ensures Claims(start, g, d) {
      NextHistory(b, g, d);
      if !b.Had(g, d) {
        NextKeepsShape(b, g);
        assert b.Had(g, b.Current(g));
        ClaimsAlike(start, g, d, b.Current(g));
      }
    }
    forall g <- start.names, h <- start.names | Twins(start, g, h)
      ensures b.Next().payload[g] == b.Next().payload[h] {
      assert b.payload[g] == b.payload[h];
    }
  }

  ghost predicate Settled(b: Bundle)
    requires b.Valid()
  {
    b.Resolved() == b.payload
  }

  ghost predicate IsRound(trace: seq<Bundle>, k: nat)
    requires k + 1 < |trace| && trace[k].Valid()
  {
    trace[k + 1] == trace[k].Next()
  }

  /** The bundles at the beginning of successive rounds. */
  ghost predicate IsRun(trace: seq<Bundle>) {
    && |trace| > 0
    && (forall k: nat :: k < |trace| ==> trace[k].Valid())
    && (forall k: nat :: k + 1 < |trace| ==> IsRound(trace, k))
  }

  lemma {:induction false} RunFollows(trace: seq<Bundle>, n: nat)
    requires IsRun(trace) && n < |trace|
    ensures Follows(trace[0], trace[n])
  {
    if n == 0 {
      StartFollows(trace[0]);
    } else {
      RunFollows(trace, n - 1);
      assert IsRound(trace, n - 1);
      NextFollows(trace[0], trace[n - 1]);
    }
  }

  /** A run all of whose rounds are coherent. */
  ghost predicate IsCoherentRun(trace: seq<Bundle>) {
    IsRun(trace) && forall k: nat :: k < |trace| ==> trace[k].Coherent()
  }

  // ----- What a converged run delivers -----

  lemma ResolveOwned(b: Bundle, g: string, d: Digest)
    requires b.Valid() && b.CoherentAt(d) && b.Had(g, d)
    ensures b.Resolve(d) == b.Current(g)
  {
  }

  lemma ResolvedPin(b: Bundle, f: string, i: nat)
    requires b.Valid() && f in b.rewritable && i < |b.payload[f]| && b.payload[f][i].Pin?
    ensures f in b.Resolved() && |b.Resolved()[f]| == |b.payload[f]|
    ensures b.Resolved()[f][i] == Pin(b.Resolve(b.payload[f][i].digest))
  {
  }

  /** A pin never loses its target from one round to the next. */
  lemma PinKeepsTarget(b: Bundle, f: string, i: nat, g: string)
    requires b.Valid() && b.Coherent() && PinsTo(b, f, i, g)
    ensures PinsTo(b.Next(), f, i, g)
  {
    ResolvedPin(b, f, i);
    ResolveOwned(b, g, b.payload[f][i].digest);
    NextHistory(b, g, b.Current(g));
  }

  ghost predicate KeepsPins(a: Bundle, b: Bundle)
    requires a.Valid() && b.Valid()
  {
    forall f, i: nat, g :: PinsTo(a, f, i, g) ==> PinsTo(b, f, i, g)
  }

  lemma NextKeepsPins(b: Bundle)
    requires b.Valid() && b.Coherent()
    ensures KeepsPins(b, b.Next())
  {
    forall f, i: nat, g | PinsTo(b, f, i, g) ensures PinsTo(b.Next(), f, i, g) {
      PinKeepsTarget(b, f, i, g);
    }
  }

  lemma {:induction false} RunKeepsPins(trace: seq<Bundle>, n: nat)
    requires IsCoherentRun(trace) && n < |trace|
    ensures KeepsPins(trace[0], trace[n])
  {
    if n > 0 {
      RunKeepsPins(trace, n - 1);
      assert IsRound(trace, n - 1);
      NextKeepsPins(trace[n - 1]);
    }
  }

  /** In a settled bundle no pin holds a stale digest of a tracked file. */
  lemma SettledPin(b: Bundle, f: string, i: nat, g: string)
    requires b.Valid() && b.Coherent() && Settled(b) && PinsTo(b, f, i, g)
    ensures b.payload[f][i] == Pin(b.Current(g))
  {
    ResolvedPin(b, f, i);
    ResolveOwned(b, g, b.payload[f][i].digest);
  }

  /** In a settled bundle every pin that was meant for g at the start holds g's final digest. */
  lemma FinalPinsAreRight(trace: seq<Bundle>, n: nat, f: string, i: nat, g: string)
    requires IsCoherentRun(trace) && n < |trace| && Settled(trace[n]) && PinsTo(trace[0], f, i, g)
    ensures PinsTo(trace[n], f, i, g) && trace[n].payload[f][i] == Pin(trace[n].Current(g))
  {
    RunKeepsPins(trace, n);
    SettledPin(trace[n], f, i, g);
  }

  /** The pins of the attestation file: for each private source, the token that pins it. */
  predicate AttestationHolds(b: Bundle, backend: string, pins: map<string, nat>) {
    forall g <- pins ::
      && backend in b.payload && g in b.payload && pins[g] < |b.payload[backend]|
      && b.payload[backend][pins[g]] == Pin(b.Current(g))
  }

  /** The final attestation check cannot fail if the pins were right to begin with. */
  lemma AttestationCannotFail(trace: seq<Bundle>, n: nat, backend: string, pins: map<string, nat>)
    requires IsCoherentRun(trace) && n < |trace| && Settled(trace[n])
    requires forall g <- pins :: PinsTo(trace[0], backend, pins[g], g)
    ensures AttestationHolds(trace[n], backend, pins)
  {
    forall g <- pins
      ensures PinsTo(trace[n], backend, pins[g], g)
      ensures trace[n].payload[backend][pins[g]] == Pin(trace[n].Current(g)) {
      FinalPinsAreRight(trace, n, backend, pins[g], g);
    }
  }

  // ----- Convergence -----

  /** The k-th link of a chain of files: file k pins file k + 1. */
  ghost predicate Link(b: Bundle, path: seq<string>, at: seq<nat>, k: nat)
    requires b.Valid() && |at| == |path|
  {
    k + 1 < |path| && PinsTo(b, path[k], at[k], path[k + 1])
  }

  /** Files that pin each other in a circle. */
  ghost predicate PinCycle(b: Bundle, path: seq<string>, at: seq<nat>)
    requires b.Valid()
  {
    && |path| >= 2 && |at| == |path| && path[0] == path[|path| - 1]
    && forall k: nat :: k + 1 < |path| ==> Link(b, path, at, k)
  }

  lemma {:induction false} PinChainDescends(trace: seq<Bundle>, n: nat, path: seq<string>, at: seq<nat>, k: nat)
    requires IsCoherentRun(trace) && n < |trace| && Settled(trace[n])
    requires PinCycle(trace[0], path, at) && 1 <= k < |path|
    ensures path[0] in trace[n].payload && path[k] in trace[n].payload
    ensures trace[n].Current(path[k]) < trace[n].Current(path[0])
  {
    var b, f := trace[n], path[k - 1];
    assert Link(trace[0], path, at, k - 1);
    FinalPinsAreRight(trace, n, f, at[k - 1], path[k]);
    assert b.Current(path[k]) < b.payload[f][at[k - 1]] < b.Current(f);
    if k > 1 {
      PinChainDescends(trace, n, path, at, k - 1);
    }
  }

  /** A circle of pins never settles, in however many rounds: a file cannot contain its own digest. */
  lemma CycleNeverConverges(trace: seq<Bundle>, n: nat, path: seq<string>, at: seq<nat>)
    requires IsCoherentRun(trace) && n < |trace| && PinCycle(trace[0], path, at)
    ensures !Settled(trace[n])
  {
    if Settled(trace[n]) {
      PinChainDescends(trace, n, path, at, |path| - 1);
    }
  }

  /** A pin of file f, at token i, holds a digest that g has had or could come to have. */
  ghost predicate MayPin(start: Bundle, b: Bundle, f: string, i: nat, g: string)
    requires b.Valid()
  {
    && f in b.rewritable && i < |b.payload[f]| && b.payload[f][i].Pin?
    && g in b.names && Claims(start, g, b.payload[f][i].digest)
  }

  /** A file the pin is meant for is lower, or every file it could ever come to hit is. */
  ghost predicate PinRanked(start: Bundle, b: Bundle, height: map<string, nat>, f: string, i: nat)
    requires b.Valid() && forall g <- b.names :: g in height
  {
    || (exists g :: PinsTo(b, f, i, g) && height[g] < height[f])
    || forall g :: MayPin(start, b, f, i, g) ==> height[g] < height[f]
  }

  /** Pins point to files of smaller height: no chain of pins is longer than the height of its first file. */
  ghost predicate Ranked(start: Bundle, b: Bundle, height: map<string, nat>)
    requires b.Valid()
  {
    && (forall g <- b.names :: g in height)
    && forall f, i: nat :: IsPin(b, f, i) ==> PinRanked(start, b, height, f, i)
  }

  /** The files up to height k no longer change. */
  ghost predicate SettledUpTo(b: Bundle, height: map<string, nat>, k: nat)
    requires b.Valid() && forall g <- b.names :: g in height
  {
    forall f <- b.rewritable :: height[f] <= k ==> b.Resolved()[f] == b.payload[f]
  }

  /** If some file has had the pinned digest, then a lower one has. */
  lemma LowerOwner(start: Bundle, b: Bundle, height: map<string, nat>, f: string, i: nat, h: string) returns (g: string)
    requires start.Valid() && b.Valid() && Follows(start, b) && Ranked(start, b, height) && PinsTo(b, f, i, h)
    ensures PinsTo(b, f, i, g) && height[g] < height[f]
  {
    assert IsPin(b, f, i);
    assert MayPin(start, b, f, i, h);
    if k :| PinsTo(b, f, i, k) && height[k] < height[f] {
      g := k;
    } else {
      g := h;
    }
  }

  /** A pin that holds no file's digest is left alone. */
  lemma ForeignPin(b: Bundle, f: string, i: nat)
    requires b.Valid() && IsPin(b, f, i) && forall h :: !PinsTo(b, f, i, h)
    ensures forall h :: !b.Had(h, b.payload[f][i].digest)
    ensures b.Resolve(b.payload[f][i].digest) == b.payload[f][i].digest
    ensures b.Next().payload[f][i] == b.payload[f][i]
  {
    forall h ensures !b.Had(h, b.payload[f][i].digest) {
      assert !PinsTo(b, f, i, h);
    }
    ResolvedPin(b, f, i);
  }

  lemma ForeignPinRanked(start: Bundle, b: Bundle, height: map<string, nat>, f: string, i: nat)
    requires b.Valid() && Ranked(start, b, height) && IsPin(b, f, i) && forall h :: !PinsTo(b, f, i, h)
    ensures PinRanked(start, b.Next(), height, f, i)
  {
    ForeignPin(b, f, i);
    assert PinRanked(start, b, height, f, i);
    forall g | MayPin(start, b.Next(), f, i, g) ensures height[g] < height[f] {
      assert MayPin(start, b, f, i, g);
    }
  }

  lemma PinRankedStays(start: Bundle, b: Bundle, height: map<string, nat>, f: string, i: nat)
    requires start.Valid() && b.Valid() && b.Coherent() && Follows(start, b) && Ranked(start, b, height)
    requires IsPin(b, f, i)
    ensures PinRanked(start, b.Next(), height, f, i)
  {
    if h :| PinsTo(b, f, i, h) {
      var g := LowerOwner(start, b, height, f, i, h);
      PinKeepsTarget(b, f, i, g);
    } else {
      ForeignPinRanked(start, b, height, f, i);
    }
  }

  lemma RankedStays(start: Bundle, b: Bundle, height: map<string, nat>)
    requires start.Valid() && b.Valid() && b.Coherent() && Follows(start, b) && Ranked(start, b, height)
    ensures Ranked(start, b.Next(), height)
  {
    forall f, i: nat | IsPin(b.Next(), f, i) ensures PinRanked(start, b.Next(), height, f, i) {
      PinRankedStays(start, b, height, f, i);
    }
  }

  /** A pin to a file that has settled is final after the round. */
  lemma OwnedTokenSettles(b: Bundle, height: map<string, nat>, k: nat, f: string, i: nat, g: string)
    requires b.Valid() && b.Coherent() && b.Next().Coherent() && PinsTo(b, f, i, g)
    requires (forall h <- b.names :: h in height) && SettledUpTo(b, height, k) && height[g] <= k
    ensures var e := b.Resolve(b.payload[f][i].digest); b.Next().Resolve(e) == e
  {
    var c, d := b.Next(), b.payload[f][i].digest;
    ResolvedPin(b, f, i);
    ResolveOwned(b, g, d);
    assert c.payload[g] == b.payload[g];
    PinKeepsTarget(b, f, i, g);
    ResolveOwned(c, g, b.Resolve(d));
  }

  lemma ForeignTokenSettles(b: Bundle, f: string, i: nat)
    requires b.Valid() && b.Next().Coherent() && IsPin(b, f, i) && forall h :: !PinsTo(b, f, i, h)
    ensures var d := b.payload[f][i].digest; b.Resolve(d) == d && b.Next().Resolve(d) == d
  {
    var c, d := b.Next(), b.payload[f][i].digest;
    ForeignPin(b, f, i);
    if g :| c.Had(g, d) {
      NextHistory(b, g, d);
      assert PinsTo(c, f, i, g);
      ResolveOwned(c, g, d);
    }
  }

  /** After one more round the files of one more height no longer change. */
  lemma TokenSettles(start: Bundle, b: Bundle, height: map<string, nat>, k: nat, f: string, i: nat)
    requires start.Valid() && b.Valid() && b.Coherent() && b.Next().Coherent()
    requires Follows(start, b) && Ranked(start, b, height) && SettledUpTo(b, height, k)
    requires IsPin(b, f, i) && height[f] <= k + 1
    ensures var e := b.Resolve(b.payload[f][i].digest); b.Next().Resolve(e) == e
  {
    var d := b.payload[f][i].digest;
    if h :| PinsTo(b, f, i, h) {
      var g := LowerOwner(start, b, height, f, i, h);
      OwnedTokenSettles(b, height, k, f, i, g);
    } else {
      ForeignTokenSettles(b, f, i);
    }
  }

  lemma SettlesFurther(start: Bundle, b: Bundle, height: map<string, nat>, k: nat)
    requires start.Valid() && b.Valid() && b.Coherent() && b.Next().Coherent()
    requires Follows(start, b) && Ranked(start, b, height) && SettledUpTo(b, height, k)
    ensures SettledUpTo(b.Next(), height, k + 1)
  {
    var c := b.Next();
    forall f <- c.rewritable | height[f] <= k + 1 ensures c.Resolved()[f] == c.payload[f] {
      forall i | 0 <= i < |c.payload[f]| ensures c.Resolved()[f][i] == c.payload[f][i] {
        if IsPin(b, f, i) {
          TokenSettles(start, b, height, k, f, i);
        }
      }
    }
  }

  lemma {:induction false} RunSettlesFurther(trace: seq<Bundle>, height: map<string, nat>, n: nat)
    requires IsCoherentRun(trace) && Ranked(trace[0], trace[0], height) && n < |trace|
    ensures Ranked(trace[0], trace[n], height) && SettledUpTo(trace[n], height, n)
  {
    if n == 0 {
      UnpinnedSettled(trace[0], height);
    } else {
      RunSettlesFurther(trace, height, n - 1);
      RunFollows(trace, n - 1);
      assert IsRound(trace, n - 1);
      RankedStays(trace[0], trace[n - 1], height);
      SettlesFurther(trace[0], trace[n - 1], height, n - 1);
    }
  }

  lemma UnpinnedSettled(start: Bundle, height: map<string, nat>)
    requires start.Valid() && Ranked(start, start, height)
    ensures SettledUpTo(start, height, 0)
  {
    StartFollows(start);
    forall f <- start.rewritable | height[f] == 0 ensures start.Resolved()[f] == start.payload[f] {
      forall i | 0 <= i < |start.payload[f]| ensures start.Resolved()[f][i] == start.payload[f][i] {
        if IsPin(start, f, i) {
          if h :| PinsTo(start, f, i, h) {
            var g := LowerOwner(start, start, height, f, i, h);
          } else {
            assert forall g :: !start.Had(g, start.payload[f][i].digest) || PinsTo(start, f, i, g);
          }
        }
      }
    }
  }

  /** If no chain of pins has more than d links, round d + 1 finds nothing left to change. */
  lemma AcyclicConverges(trace: seq<Bundle>, height: map<string, nat>, d: nat)
    requires IsCoherentRun(trace) && Ranked(trace[0], trace[0], height) && d < |trace|
    requires forall f <- trace[0].rewritable :: height[f] <= d
    ensures Settled(trace[d])
  {
    RunSettlesFurther(trace, height, d);
    RunFollows(trace, d);
  }

  /** How deeply digests are nested in a file. */
  function Depth(file: File): nat {
    if file == [] then 0
    else
      var first, rest := TokenDepth(file[0]), Depth(file[1..]);
      if first >= rest then first else rest
  }

  function TokenDepth(t: Token): nat {
    if t.Pin? && t.digest.Sha? then 1 + Depth(t.digest.file) else 0
  }

  lemma {:induction false} PinIsDeeper(file: File, i: nat)
    requires i < |file|
    ensures TokenDepth(file[i]) <= Depth(file)
  {
    if i > 0 {
      PinIsDeeper(file[1..], i - 1);
    }
  }

  /** A run that settles has an acyclic pin graph: the depths of the final files are heights for it. */
  lemma SettledIsAcyclic(trace: seq<Bundle>, n: nat) returns (height: map<string, nat>)
    requires IsCoherentRun(trace) && n < |trace| && Settled(trace[n])
    ensures forall g <- trace[0].names :: g in height
    ensures forall f, i: nat, g :: PinsTo(trace[0], f, i, g) ==> height[g] < height[f]
  {
    var final := trace[n];
    RunFollows(trace, n);
    height := map g | g in final.payload :: Depth(final.payload[g]);
    forall f, i: nat, g | PinsTo(trace[0], f, i, g) ensures height[g] < height[f] {
      FinalPinsAreRight(trace, n, f, i, g);
      PinIsDeeper(final.payload[f], i);
    }
  }

  // ----- The program -----

  /** The digests a file has before the first round: the parent's and that of the edited payload. */
  function FirstDigests(g: string, parent: map<string, File>, payload: map<string, File>): set<Digest>
    requires g in payload
  {
    (if g in parent then {Sha(parent[g])} else {}) + {Sha(payload[g])}
  }

  /** The bundle before the first round. */
  ghost predicate Opened(b: Bundle, parent: map<string, File>, payload: map<string, File>) {
    && b.Valid() && b.payload == payload
    && (forall g :: g in b.names <==> g in payload && Tracked(g))
    && (forall f :: f in b.rewritable <==> f in payload && Rewritable(f))
    && (forall g <- b.names :: b.history[g] == FirstDigests(g, parent, payload))
  }

  /** The digests of the parent's tracked files. */
  method ParentHistory(parentNames: seq<string>, parent: map<string, File>, tracked: set<string>)
    returns (names: seq<string>, history: map<string, set<Digest>>)
    requires forall g :: g in parentNames <==> g in parent
    ensures forall g :: g in names <==> g in parent && g in tracked
    ensures forall g :: g in history <==> g in names
    ensures forall g <- names :: history[g] == {Sha(parent[g])}
  {
    names, history := [], map[];
    for n := 0 to |parentNames|
      invariant forall g :: g in names <==> g in parentNames[..n] && g in tracked
      invariant forall g :: g in history <==> g in names
      invariant forall g <- names :: history[g] == {Sha(parent[g])}
    {
      var g := parentNames[n];
      if g in tracked {
        history := history[g := {Sha(parent[g])}];
        names := names + [g];
      }
    }
  }

  /** The history before the first round, over the tracked names in the order they are met. */
  method OpenHistory(parentNames: seq<string>, parent: map<string, File>, payloadNames: seq<string>,
                     payload: map<string, File>, tracked: set<string>)
    returns (names: seq<string>, history: map<string, set<Digest>>)
    requires forall g :: g in parentNames <==> g in parent
    requires forall g :: g in payloadNames <==> g in payload
    requires parent.Keys <= payload.Keys && tracked <= payload.Keys
    ensures forall g :: g in names <==> g in tracked
    ensures forall g :: g in history <==> g in tracked
    ensures forall g <- tracked :: history[g] == FirstDigests(g, parent, payload)
  {
    names, history := ParentHistory(parentNames, parent, tracked);
    for n := 0 to |payloadNames|
      invariant forall g :: g in names <==> g in tracked && (g in parent || g in payloadNames[..n])
      invariant forall g :: g in history <==> g in names
      invariant forall g <- names ::
        history[g] == if g in payloadNames[..n] then FirstDigests(g, parent, payload) else {Sha(parent[g])}
    {
      var g := payloadNames[n];
      if g in tracked {
        if g !in history {
          history := history[g := {}];
          names := names + [g];
        }
        history := history[g := history[g] + {Sha(payload[g])}];
      }
    }
  }

  method Open(parentNames: seq<string>, parent: map<string, File>, payloadNames: seq<string>,
              payload: map<string, File>)
    returns (b: Bundle)
    requires forall g :: g in parentNames <==> g in parent
    requires forall g :: g in payloadNames <==> g in payload
    requires parent.Keys <= payload.Keys
    ensures Opened(b, parent, payload)
  {
    var tracked := set g | g in payload && Tracked(g);
    var rewritable := set f | f in payload && Rewritable(f);
    var names, history := OpenHistory(parentNames, parent, payloadNames, payload, tracked);
    b := Bundle(names, rewritable, payload, history);
  }

  /** The update dictionary of a round; the digests of one file come in any order. */
  method CollectUpdates(b: Bundle) returns (keys: seq<Digest>, updates: map<Digest, Digest>)
    requires b.Valid()
    ensures b.Updates(keys, updates)
  {
    keys, updates := [], map[];
    for n := 0 to |b.names|
      invariant Distinct(keys) && forall d :: d in keys <==> d in updates
      invariant forall d :: b.Target(d, n) == if d in updates then Some(updates[d]) else None
    {
      var g := b.names[n];
      var todo := b.history[g];
      while todo != {}
        invariant todo <= b.history[g]
        invariant Distinct(keys) && forall d :: d in keys <==> d in updates
        invariant forall d :: d !in todo && b.Stale(g, d) ==> d in updates && updates[d] == b.Current(g)
        invariant forall d :: (d in todo || !b.Stale(g, d)) && d in updates ==> b.Target(d, n) == Some(updates[d])
        invariant forall d :: (d in todo || !b.Stale(g, d)) && d !in updates ==> b.Target(d, n) == None
        decreases todo
      {
        var d :| d in todo;
        todo := todo - {d};
        if d != b.Current(g) {
          if d !in updates {
            keys := keys + [d];
          }
          updates := updates[d := b.Current(g)];
        }
      }
    }
  }

  function Replaced(file: File, before: Digest, after: Digest): File {
    MapPins(file, d => if d == before then after else d)
  }

  /** All replacements in one file, one after the other. */
  method RewriteFile(file: File, keys: seq<Digest>, updates: map<Digest, Digest>) returns (raw: File)
    requires forall k <- keys :: k in updates
    ensures raw == MapPins(file, d => Chase(d, keys, updates))
  {
    raw := file;
    for n := 0 to |keys|
      invariant raw == MapPins(file, d => Chase(d, keys[..n], updates))
    {
      assert keys[..n + 1][..n] == keys[..n];
      raw := Replaced(raw, keys[n], updates[keys[n]]);
    }
    assert keys[..|keys|] == keys;
  }

  /** What one round makes of one file. */
  function Rewritten(b: Bundle, keys: seq<Digest>, updates: map<Digest, Digest>, f: string): File
    requires f in b.payload
  {
    if f in b.rewritable then MapPins(b.payload[f], d => Chase(d, keys, updates)) else b.payload[f]
  }

  /** One pass over the rewritable files. */
  method RewriteAll(b: Bundle, keys: seq<Digest>, updates: map<Digest, Digest>)
    returns (payload: map<string, File>, changed: bool)
    requires b.Valid() && b.Updates(keys, updates)
    ensures payload.Keys == b.payload.Keys
    ensures forall f <- b.payload :: payload[f] == Rewritten(b, keys, updates, f)
    ensures changed <==> payload != b.payload
  {
    payload, changed := b.payload, false;
    var todo := b.rewritable;
    while todo != {}
      invariant todo <= b.rewritable && payload.Keys == b.payload.Keys
      invariant forall f <- b.payload :: f in todo ==> payload[f] == b.payload[f]
      invariant forall f <- b.payload :: f !in todo ==> payload[f] == Rewritten(b, keys, updates, f)
      invariant changed <==> payload != b.payload
      decreases todo
    {
      var f :| f in todo;
      todo := todo - {f};
      var raw := RewriteFile(payload[f], keys, updates);
      if raw != payload[f] {
        payload := payload[f := raw];
        changed := true;
      }
    }
  }

  datatype Error = NotConverged

  /** In a coherent round the sequential replacements are the next round's payload. */
  lemma RewrittenIsResolved(b: Bundle, keys: seq<Digest>, updates: map<Digest, Digest>, payload: map<string, File>)
    requires b.Valid() && b.Coherent() && b.Updates(keys, updates) && payload.Keys == b.payload.Keys
    requires forall f <- b.payload :: payload[f] == Rewritten(b, keys, updates, f)
    ensures payload == b.Resolved()
  {
    forall f <- b.rewritable, i | 0 <= i < |b.payload[f]|
      ensures Rewritten(b, keys, updates, f)[i] == b.Resolved()[f][i] {
      if b.payload[f][i].Pin? {
        ChaseIsResolve(b, keys, updates, f, i);
      }
    }
    assert forall f <- b.payload :: payload[f] == b.Resolved()[f];
  }

  /** A run in which no bundle before the last is settled. */
  ghost predicate IsUnsettledRun(trace: seq<Bundle>) {
    IsRun(trace) && forall k: nat :: k + 1 < |trace| ==> !Settled(trace[k])
  }

  /** Without chains of more than d links the loop runs d + 1 rounds at most, so 32 are enough for 31 links. */
  lemma PropagationIsShort(trace: seq<Bundle>, height: map<string, nat>, d: nat)
    requires IsCoherentRun(trace) && IsUnsettledRun(trace) && Ranked(trace[0], trace[0], height)
    requires forall f <- trace[0].rewritable :: height[f] <= d
    ensures |trace| <= d + 1
  {
    if d + 1 < |trace| {
      AcyclicConverges(trace, height, d);
    }
  }

  /** The replacements know the right digest for every digest that is stale. */
  ghost predicate KnowsStale(b: Bundle, replacements: map<Digest, Digest>)
    requires b.Valid()
  {
    && ReplacesOthers(replacements)
    && (forall d :: b.Target(d, |b.names|).Some? ==> d in replacements)
    && (forall d <- replacements :: b.Target(d, |b.names|) in {None, Some(replacements[d])})
  }

  ghost predicate StaleIn(b: Bundle, d: Digest) {
    b.Valid() && b.Target(d, |b.names|).Some?
  }

  ghost predicate StaleBefore(trace: seq<Bundle>, n: nat, d: Digest)
    requires n <= |trace|
  {
    exists k: nat :: k < n && StaleIn(trace[k], d)
  }

  /** The replaced digests are exactly those that were stale in one of the first n rounds. */
  ghost predicate ReplacesAllStale(trace: seq<Bundle>, n: nat, replacements: map<Digest, Digest>)
    requires n <= |trace|
  {
    forall d :: d in replacements <==> StaleBefore(trace, n, d)
  }

  lemma ReplacesMore(trace: seq<Bundle>, n: nat, replacements: map<Digest, Digest>, updates: map<Digest, Digest>)
    requires n < |trace|
    requires ReplacesAllStale(trace, n, replacements) && forall d :: d in updates <==> StaleIn(trace[n], d)
    ensures ReplacesAllStale(trace, n + 1, replacements + updates)
  {
    forall d ensures d in replacements + updates <==> StaleBefore(trace, n + 1, d) {
      StaleNext(trace, n, d);
    }
  }

  lemma StaleNext(trace: seq<Bundle>, n: nat, d: Digest)
    requires n < |trace|
    ensures StaleBefore(trace, n + 1, d) <==> StaleBefore(trace, n, d) || StaleIn(trace[n], d)
  {
    if k: nat :| k < n + 1 && StaleIn(trace[k], d) {
      assert k < n || k == n;
    }
  }

  lemma StaleEarlier(trace: seq<Bundle>, next: Bundle, d: Digest)
    ensures StaleBefore(trace + [next], |trace|, d) <==> StaleBefore(trace, |trace|, d)
  {
    var longer := trace + [next];
    if k: nat :| k < |trace| && StaleIn(trace[k], d) {
      assert StaleIn(longer[k], d);
    }
    if k: nat :| k < |trace| && StaleIn(longer[k], d) {
      assert StaleIn(trace[k], d);
    }
  }

  /** The next bundle after the replacements of one round, in some order of the keys. */
  ghost predicate ReplacedBy(b: Bundle, next: Bundle)
    requires b.Valid()
  {
    exists keys, updates :: b.Updates(keys, updates) && ReplacedWith(b, keys, updates, next)
  }

  ghost predicate ReplacedWith(b: Bundle, keys: seq<Digest>, updates: map<Digest, Digest>, next: Bundle)
    requires b.Valid()
  {
    && next.payload.Keys == b.payload.Keys
    && (forall f <- b.payload :: next.payload[f] == Rewritten(b, keys, updates, f))
    && next == Noted(b, next.payload)
  }

  /** The payload with its digests added to the history. */
  function Noted(b: Bundle, payload: map<string, File>): Bundle
    requires b.history.Keys <= payload.Keys
  {
    Bundle(b.names, b.rewritable, payload, map g | g in b.history :: b.history[g] + {Sha(payload[g])})
  }

  /** One round; the next bundle has the new digests noted. */
  method Round(b: Bundle) returns (next: Bundle, changed: bool, updates: map<Digest, Digest>)
    requires b.Valid()
    ensures next.Valid() && KnowsStale(b, updates) && ReplacedBy(b, next)
    ensures forall d :: d in updates <==> StaleIn(b, d)
    ensures changed <==> next.payload != b.payload
    ensures b.Coherent() ==> next == b.Next() && (changed <==> !Settled(b))
  {
    var keys;
    keys, updates := CollectUpdates(b);
    var payload;
    payload, changed := RewriteAll(b, keys, updates);
    next := Noted(b, payload);
    assert ReplacedWith(b, keys, updates, next);
    if b.Coherent() {
      RewrittenIsResolved(b, keys, updates, payload);
    }
  }

  /** Successive bundles, each made from the last by replacements that changed something. */
  ghost predicate IsPropagation(trace: seq<Bundle>) {
    && (forall k: nat :: k < |trace| ==> trace[k].Valid())
    && forall k: nat :: k + 1 < |trace| ==> PropagatesAt(trace, k)
  }

  ghost predicate PropagatesAt(trace: seq<Bundle>, k: nat)
    requires k + 1 < |trace| && trace[k].Valid()
  {
    ReplacedBy(trace[k], trace[k + 1]) && trace[k + 1].payload != trace[k].payload
  }

  /** The replacements of a further round change nothing. */
  ghost predicate Unchanging(b: Bundle) {
    b.Valid() && exists next :: ReplacedBy(b, next) && next.payload == b.payload
  }

  lemma PropagationExtends(trace: seq<Bundle>, next: Bundle)
    requires IsPropagation(trace) && |trace| > 0 && next.Valid()
    requires ReplacedBy(trace[|trace| - 1], next) && next.payload != trace[|trace| - 1].payload
    ensures IsPropagation(trace + [next])
  {
    var t := trace + [next];
    forall k: nat | k + 1 < |t| ensures PropagatesAt(t, k) {
      assert k + 1 < |trace| ==> PropagatesAt(trace, k);
    }
  }

  ghost predicate AllCoherent(trace: seq<Bundle>) {
    forall k: nat :: k < |trace| ==> trace[k].Valid() && trace[k].Coherent()
  }

  lemma ReplacedByIsNext(b: Bundle, next: Bundle)
    requires b.Valid() && b.Coherent() && ReplacedBy(b, next)
    ensures next == b.Next() && next.payload == b.Resolved()
  {
    var keys, updates :| b.Updates(keys, updates) && ReplacedWith(b, keys, updates, next);
    RewrittenIsResolved(b, keys, updates, next.payload);
  }

  /** With coherent rounds the loop as written goes through a run, and settles where it stops. */
  lemma PropagationIsRun(trace: seq<Bundle>)
    requires |trace| > 0 && IsPropagation(trace) && AllCoherent(trace)
    ensures IsCoherentRun(trace) && IsUnsettledRun(trace)
    ensures Unchanging(trace[|trace| - 1]) ==> Settled(trace[|trace| - 1])
  {
    forall k: nat | k + 1 < |trace| ensures IsRound(trace, k) && !Settled(trace[k]) {
      assert PropagatesAt(trace, k);
      ReplacedByIsNext(trace[k], trace[k + 1]);
    }
    var last := trace[|trace| - 1];
    if Unchanging(last) {
      var next :| ReplacedBy(last, next) && next.payload == last.payload;
      ReplacedByIsNext(last, next);
    }
  }

  /** A digest that all its files have left behind is never come back to. */
  lemma {:induction false} ChaseLeaves(b: Bundle, keys: seq<Digest>, updates: map<Digest, Digest>, d: Digest, n: nat)
    requires b.Valid() && b.Updates(keys, updates) && n <= |keys|
    requires forall g :: b.Had(g, d) ==> b.Current(g) != d
    ensures Chase(d, keys[..n], updates) == d <==> d !in keys[..n]
    decreases n
  {
    if n > 0 {
      assert keys[..n][..n - 1] == keys[..n - 1] && keys[..n] == keys[..n - 1] + [keys[n - 1]];
      ChaseLeaves(b, keys, updates, d, n - 1);
      var k := keys[n - 1];
      assert k in updates;
      var h :| h in b.names && b.Stale(h, k) && updates[k] == b.Current(h);
      assert b.Had(h, b.Current(h));
    }
  }

  lemma UnchangingPin(b: Bundle, f: string, i: nat) returns (keys: seq<Digest>, updates: map<Digest, Digest>)
    requires Unchanging(b) && IsPin(b, f, i)
    ensures b.Updates(keys, updates)
    ensures Chase(b.payload[f][i].digest, keys, updates) == b.payload[f][i].digest
  {
    var next :| ReplacedBy(b, next) && next.payload == b.payload;
    keys, updates :| b.Updates(keys, updates) && ReplacedWith(b, keys, updates, next);
    assert b.payload[f][i] == Rewritten(b, keys, updates, f)[i];
  }

  /** Where the loop as written stops, a pin holds the current digest of a file it is meant for. */
  lemma NoStalePinRemains(b: Bundle, f: string, i: nat, g: string) returns (h: string)
    requires Unchanging(b) && PinsTo(b, f, i, g)
    ensures PinsTo(b, f, i, h) && b.payload[f][i] == Pin(b.Current(h))
  {
    var d := b.payload[f][i].digest;
    if forall x :: b.Had(x, d) ==> b.Current(x) != d {
      var keys, updates := UnchangingPin(b, f, i);
      assert keys[..|keys|] == keys;
      ChaseLeaves(b, keys, updates, d, |keys|);
      assert b.Stale(g, d);
      assert false;
    }
    h :| b.Had(h, d) && b.Current(h) == d;
  }

  /**
  Where the loop as written stops, a pin is right for all files it is meant for if and only
  if their current digests agree. Nothing is asked of the rounds before.
  */
  lemma StoppedPinIsRightIff(b: Bundle, f: string, i: nat)
    requires Unchanging(b) && IsPin(b, f, i)
    ensures (forall g :: PinsTo(b, f, i, g) ==> b.payload[f][i] == Pin(b.Current(g)))
      <==> (forall g, h :: PinsTo(b, f, i, g) && PinsTo(b, f, i, h) ==> b.Current(g) == b.Current(h))
  {
    if g :| PinsTo(b, f, i, g) {
      var h := NoStalePinRemains(b, f, i, g);
    }
  }

  /** What the loop as written keeps when the shapes are distinct. */
  lemma {:induction false} SeparateFollows(trace: seq<Bundle>, n: nat)
    requires IsPropagation(trace) && n < |trace| && Separate(trace[0])
    ensures Follows(trace[0], trace[n]) && trace[n].Coherent()
  {
    if n == 0 {
      StartFollows(trace[0]);
    } else {
      SeparateFollows(trace, n - 1);
      assert PropagatesAt(trace, n - 1);
      ReplacedByIsNext(trace[n - 1], trace[n]);
      NextFollows(trace[0], trace[n - 1]);
    }
    SeparateIsCoherent(trace[0], trace[n]);
  }

  /** Checked once before the loop, distinct shapes make all of its rounds coherent. */
  lemma SeparateIsEnough(trace: seq<Bundle>)
    requires |trace| > 0 && IsPropagation(trace) && Separate(trace[0])
    ensures AllCoherent(trace)
  {
    forall k: nat | k < |trace| ensures trace[k].Coherent() {
      SeparateFollows(trace, k);
    }
  }

  predicate ReplacesOthers(replacements: map<Digest, Digest>) {
    forall d <- replacements :: replacements[d] != d
  }

  /** The state of the loop before a round. */
  ghost predicate Propagating(start: Bundle, trace: seq<Bundle>, b: Bundle, replacements: map<Digest, Digest>) {
    && |trace| > 0 && trace[0] == start && trace[|trace| - 1] == b && IsPropagation(trace)
    && ReplacesOthers(replacements)
    && ReplacesAllStale(trace, |trace| - 1, replacements)
  }

  lemma PropagationStops(start: Bundle, trace: seq<Bundle>, b: Bundle, replacements: map<Digest, Digest>,
                         updates: map<Digest, Digest>)
    requires Propagating(start, trace, b, replacements)
    requires KnowsStale(b, updates) && forall d :: d in updates <==> StaleIn(b, d)
    ensures KnowsStale(b, replacements + updates) && ReplacesAllStale(trace, |trace|, replacements + updates)
  {
    KnowsMore(b, replacements, updates);
    ReplacesMore(trace, |trace| - 1, replacements, updates);
  }

  lemma KnowsMore(b: Bundle, replacements: map<Digest, Digest>, updates: map<Digest, Digest>)
    requires b.Valid() && ReplacesOthers(replacements) && KnowsStale(b, updates)
    ensures KnowsStale(b, replacements + updates)
  {
  }

  lemma PropagationGoesOn(start: Bundle, trace: seq<Bundle>, b: Bundle, replacements: map<Digest, Digest>,
                          updates: map<Digest, Digest>, next: Bundle)
    requires Propagating(start, trace, b, replacements)
    requires ReplacesOthers(updates) && forall d :: d in updates <==> StaleIn(b, d)
    requires next.Valid() && ReplacedBy(b, next) && next.payload != b.payload
    ensures Propagating(start, trace + [next], next, replacements + updates)
  {
    PropagationExtends(trace, next);
    ReplacesLonger(trace, next, replacements, updates);
  }

  lemma ReplacesLonger(trace: seq<Bundle>, next: Bundle, replacements: map<Digest, Digest>,
                       updates: map<Digest, Digest>)
    requires |trace| > 0 && ReplacesAllStale(trace, |trace| - 1, replacements)
    requires forall d :: d in updates <==> StaleIn(trace[|trace| - 1], d)
    ensures ReplacesAllStale(trace + [next], |trace|, replacements + updates)
  {
    ReplacesMore(trace, |trace| - 1, replacements, updates);
    forall d ensures d in replacements + updates <==> StaleBefore(trace + [next], |trace|, d) {
      StaleEarlier(trace, next, d);
    }
  }

  /** The propagation loop: rounds of replacements until one changes nothing, at most 32. */
  method Propagate(start: Bundle)
    returns (r: Result<Bundle, Error>, replacements: map<Digest, Digest>, ghost trace: seq<Bundle>)
    requires start.Valid()
    ensures |trace| > 0 && trace[0] == start && IsPropagation(trace)
    ensures r.Ok? ==> |trace| <= 32 && r.value == trace[|trace| - 1] && Unchanging(r.value)
    ensures r.Ok? ==> KnowsStale(r.value, replacements) && ReplacesAllStale(trace, |trace|, replacements)
    ensures r.Err? ==> |trace| == 33
    ensures AllCoherent(trace) ==> IsCoherentRun(trace) && IsUnsettledRun(trace) && (r.Ok? ==> Settled(r.value))
    ensures Separate(start) ==> AllCoherent(trace)
  {
    var b := start;
    replacements, trace := map[], [b];
    r := Err(NotConverged);
    for n := 0 to 32
      invariant |trace| == n + 1 && Propagating(start, trace, b, replacements)
      invariant r.Err?
    {
      var next, changed, updates := Round(b);
      if !changed {
        PropagationStops(start, trace, b, replacements, updates);
      } else {
        PropagationGoesOn(start, trace, b, replacements, updates, next);
      }
      replacements := replacements + updates;
      if !changed {
        assert Unchanging(b);
        r := Ok(b);
        break;
      }
      b := next;
      trace := trace + [b];
    }
    PropagationOutcome(trace);
  }

  /** A propagation through coherent rounds is a run, and the last of its bundles has settled if nothing changes. */
  lemma PropagationOutcome(trace: seq<Bundle>)
    requires |trace| > 0 && trace[0].Valid() && IsPropagation(trace)
    ensures AllCoherent(trace) ==> IsCoherentRun(trace) && IsUnsettledRun(trace)
    ensures AllCoherent(trace) && Unchanging(trace[|trace| - 1]) ==> Settled(trace[|trace| - 1])
    ensures Separate(trace[0]) ==> AllCoherent(trace)
  {
    if AllCoherent(trace) {
      PropagationIsRun(trace);
    }
    if Separate(trace[0]) {
      SeparateIsEnough(trace);
    }
  }
}
