/**
The refresh of the requirements after the propagation of source pins (`refresh`): a digest
is looked up once among all replacements ever made, which is right unless some file came
back to a digest it had before.
*/
module PinRefresh {
  import opened Prelude
  import opened SourcePins

  /** What the requirements file is given for a digest: one lookup, not a chase. */
  function Refreshed(replacements: map<Digest, Digest>, d: Digest): Digest {
    if d in replacements then replacements[d] else d
  }

  /** The requirements are given the right digest unless the digest is current again after having been stale. */
  lemma RefreshIsRightIff(final: Bundle, replacements: map<Digest, Digest>, g: string, d: Digest)
    requires final.Valid() && final.CoherentAt(d) && KnowsStale(final, replacements) && final.Had(g, d)
    ensures Refreshed(replacements, d) == final.Current(g) <==> !(d == final.Current(g) && d in replacements)
  {
    if d != final.Current(g) {
      assert final.Stale(g, d);
      assert final.Target(d, |final.names|).Some?;
    }
  }

  // ----- When it is enough -----

  /** The digest of g before the run (k = 0, in the parent) and at the beginning of round k - 1. */
  function DigestAt(trace: seq<Bundle>, parent: map<string, File>, g: string, k: nat): Option<Digest> {
    if k == 0 then if g in parent then Some(Sha(parent[g])) else None
    else if k <= |trace| && g in trace[k - 1].payload then Some(trace[k - 1].Current(g))
    else None
  }

  function Digests(trace: seq<Bundle>, parent: map<string, File>, g: string): (r: seq<Option<Digest>>)
    ensures |r| == |trace| + 1 && forall k :: 0 <= k < |r| ==> r[k] == DigestAt(trace, parent, g, k)
  {
    seq(|trace| + 1, k requires 0 <= k => DigestAt(trace, parent, g, k))
  }

  /** The same value at two times and another one in between. */
  predicate ComesBack<T(==)>(s: seq<T>, a: nat, c: nat, b: nat) {
    a < c < b < |s| && s[a] == s[b] && s[a] != s[c]
  }

  /** Some value is come back to. */
  ghost predicate Returns<T>(s: seq<T>) {
    exists a: nat, c: nat, b: nat :: ComesBack(s, a, c, b)
  }

  /**
  Where the edit keeps the shape of a file it changes only pins that were right in the
  parent, and does not direct them to another file.
  */
  ghost predicate EditsRightPins(start: Bundle, parent: map<string, File>)
    requires start.Valid()
  {
    forall f, i: nat :: IsPin(start, f, i) && f in parent && SameShape(parent[f], start.payload[f]) ==>
      EditsRightPin(start, parent, f, i)
  }

  ghost predicate EditsRightPin(start: Bundle, parent: map<string, File>, f: string, i: nat)
    requires start.Valid() && IsPin(start, f, i) && f in parent && |parent[f]| == |start.payload[f]|
  {
    || parent[f][i] == start.payload[f][i]
    || exists g :: PinsTo(start, f, i, g) && g in parent && parent[f][i] == Pin(Sha(parent[g]))
  }

  /** A run from an edited parent. */
  ghost predicate IsEditedRun(trace: seq<Bundle>, parent: map<string, File>) {
    && IsCoherentRun(trace)
    && (forall g <- trace[0].names :: trace[0].history[g] == FirstDigests(g, parent, trace[0].payload))
  }

  ghost predicate IsSettledRun(trace: seq<Bundle>, parent: map<string, File>) {
    IsEditedRun(trace, parent) && Settled(trace[|trace| - 1])
  }

  /** What never changes. */
  lemma {:induction false} RunKeepsNames(trace: seq<Bundle>, k: nat)
    requires IsRun(trace) && k < |trace|
    ensures trace[k].names == trace[0].names && trace[k].rewritable == trace[0].rewritable
    ensures trace[k].payload.Keys == trace[0].payload.Keys
  {
    if k > 0 {
      RunKeepsNames(trace, k - 1);
      assert IsRound(trace, k - 1);
    }
  }

  /** From the round in which a pin is meant for h, it follows h, one round behind. */
  lemma {:induction false} PinFollows(trace: seq<Bundle>, m: nat, k: nat, f: string, i: nat, h: string)
    requires IsCoherentRun(trace) && m <= k < |trace| && PinsTo(trace[m], f, i, h)
    ensures PinsTo(trace[k], f, i, h)
    ensures m < k ==> h in trace[k - 1].payload && trace[k].payload[f][i] == Pin(trace[k - 1].Current(h))
  {
    if m < k {
      PinFollows(trace, m, k - 1, f, i, h);
      var b := trace[k - 1];
      assert IsRound(trace, k - 1);
      PinKeepsTarget(b, f, i, h);
      ResolvedPin(b, f, i);
      ResolveOwned(b, h, b.payload[f][i].digest);
    }
  }

  /** As long as a pin is meant for no file it stays. */
  lemma {:induction false} UnownedStays(trace: seq<Bundle>, m: nat, f: string, i: nat)
    requires IsCoherentRun(trace) && m < |trace| && IsPin(trace[0], f, i)
    requires forall k: nat, h :: k < m ==> !PinsTo(trace[k], f, i, h)
    ensures IsPin(trace[m], f, i) && trace[m].payload[f][i] == trace[0].payload[f][i]
  {
    if m > 0 {
      UnownedStays(trace, m - 1, f, i);
      assert IsRound(trace, m - 1);
      ForeignPin(trace[m - 1], f, i);
    }
  }

  lemma HadBefore(trace: seq<Bundle>, k: nat, g: string, d: Digest)
    requires IsRun(trace) && 0 < k < |trace| && trace[k].Had(g, d) && d != trace[k].Current(g)
    ensures trace[k - 1].Had(g, d)
  {
    assert IsRound(trace, k - 1);
    NextHistory(trace[k - 1], g, d);
  }

  /** Every digest a file has had by round k is its digest at some time up to then. */
  lemma {:induction false} HadAtSomeTime(trace: seq<Bundle>, parent: map<string, File>, k: nat, g: string, d: Digest)
      returns (x: nat)
    requires IsRun(trace) && k < |trace| && trace[k].Had(g, d)
    requires forall g <- trace[0].names :: trace[0].history[g] == FirstDigests(g, parent, trace[0].payload)
    ensures x <= k + 1 && DigestAt(trace, parent, g, x) == Some(d)
  {
    if d == trace[k].Current(g) {
      x := k + 1;
    } else if k == 0 {
      x := 0;
    } else {
      HadBefore(trace, k, g, d);
      x := HadAtSomeTime(trace, parent, k - 1, g, d);
    }
  }

  /** Token i of f before the run and at the beginning of each round. */
  function TokenAt(trace: seq<Bundle>, parent: map<string, File>, f: string, i: nat, k: nat): Option<Token> {
    if k == 0 then if f in parent && i < |parent[f]| then Some(parent[f][i]) else None
    else if k <= |trace| && f in trace[k - 1].payload && i < |trace[k - 1].payload[f]|
    then Some(trace[k - 1].payload[f][i])
    else None
  }

  function Tokens(trace: seq<Bundle>, parent: map<string, File>, f: string, i: nat): (r: seq<Option<Token>>)
    ensures |r| == |trace| + 1 && forall k :: 0 <= k < |r| ==> r[k] == TokenAt(trace, parent, f, i, k)
  {
    seq(|trace| + 1, k requires 0 <= k => TokenAt(trace, parent, f, i, k))
  }

  /** From round m on the pin holds the digest its file h had one round before. */
  lemma TokenIsDigest(trace: seq<Bundle>, parent: map<string, File>, m: nat, f: string, i: nat, h: string, k: nat)
    requires IsCoherentRun(trace) && m + 2 <= k <= |trace| && PinsTo(trace[m], f, i, h)
    ensures DigestAt(trace, parent, h, k - 1).Some?
    ensures TokenAt(trace, parent, f, i, k) == Some(Pin(DigestAt(trace, parent, h, k - 1).value))
  {
    PinFollows(trace, m, k - 1, f, i, h);
  }

  /** A pin is first meant for some file in round m; until then it stays as it was. */
  ghost predicate FirstOwned(trace: seq<Bundle>, f: string, i: nat, m: nat, h: string) {
    && m < |trace| && (forall k: nat :: k < |trace| ==> trace[k].Valid())
    && PinsTo(trace[m], f, i, h)
    && forall k: nat, g :: k < m ==> !PinsTo(trace[k], f, i, g)
  }

  lemma UnownedToken(trace: seq<Bundle>, parent: map<string, File>, m: nat, f: string, i: nat, h: string, k: nat)
    requires IsCoherentRun(trace) && FirstOwned(trace, f, i, m, h) && IsPin(trace[0], f, i) && 1 <= k <= m + 1
    ensures TokenAt(trace, parent, f, i, k) == Some(trace[0].payload[f][i])
  {
    UnownedStays(trace, k - 1, f, i);
  }

  /** What a file has had in a round and not before is its current digest. */
  lemma FirstHad(trace: seq<Bundle>, m: nat, f: string, i: nat, h: string)
    requires IsCoherentRun(trace) && FirstOwned(trace, f, i, m, h) && m > 0 && IsPin(trace[0], f, i)
    ensures h in trace[m].payload && trace[0].payload[f][i].digest == trace[m].Current(h)
  {
    UnownedStays(trace, m, f, i);
    UnownedStays(trace, m - 1, f, i);
    assert IsRound(trace, m - 1);
    NextHistory(trace[m - 1], h, trace[0].payload[f][i].digest);
    assert !PinsTo(trace[m - 1], f, i, h);
  }

  /** The digest of the pin by then is one that h has by then. */
  lemma OwnedDigest(trace: seq<Bundle>, parent: map<string, File>, m: nat, f: string, i: nat, h: string)
      returns (x: nat)
    requires IsEditedRun(trace, parent) && FirstOwned(trace, f, i, m, h) && IsPin(trace[0], f, i)
    ensures x <= m + 1 && DigestAt(trace, parent, h, x) == Some(trace[0].payload[f][i].digest)
  {
    if m == 0 {
      x := HadAtSomeTime(trace, parent, 0, h, trace[0].payload[f][i].digest);
    } else {
      FirstHad(trace, m, f, i, h);
      x := m + 1;
    }
  }

  lemma {:induction false} FindFirstOwned(trace: seq<Bundle>, f: string, i: nat, k: nat, g: string)
      returns (m: nat, h: string)
    requires k < |trace| && (forall k: nat :: k < |trace| ==> trace[k].Valid()) && PinsTo(trace[k], f, i, g)
    ensures m <= k && FirstOwned(trace, f, i, m, h)
    decreases k
  {
    if j: nat, x :| j < k && PinsTo(trace[j], f, i, x) {
      m, h := FindFirstOwned(trace, f, i, j, x);
    } else {
      m, h := k, g;
    }
  }

  /** A pin that changes is meant for some file in some round. */
  lemma ChangedIsOwned(trace: seq<Bundle>, parent: map<string, File>, f: string, i: nat, a: nat, c: nat)
      returns (m: nat, h: string)
    requires IsCoherentRun(trace) && IsPin(trace[0], f, i) && 1 <= a <= |trace| && 1 <= c <= |trace|
    requires TokenAt(trace, parent, f, i, a) != TokenAt(trace, parent, f, i, c)
    ensures FirstOwned(trace, f, i, m, h)
  {
    if k: nat, g :| k < |trace| && PinsTo(trace[k], f, i, g) {
      m, h := FindFirstOwned(trace, f, i, k, g);
    } else {
      UnownedStays(trace, a - 1, f, i);
      UnownedStays(trace, c - 1, f, i);
      assert false;
    }
  }

  predicate Pinned(token: Option<Token>, digest: Option<Digest>) {
    digest.Some? && token == Some(Pin(digest.value))
  }

  /** Tokens that trail digests by one step from m + 2 on, and before that pin one of the digests up to then. */
  predicate Trails(tokens: seq<Option<Token>>, digests: seq<Option<Digest>>, m: nat, x: nat) {
    && |tokens| == |digests| && m + 1 < |digests| && x <= m + 1
    && (forall k :: 1 <= k <= m + 1 ==> Pinned(tokens[k], digests[x]))
    && (forall k :: m + 2 <= k < |tokens| ==> Pinned(tokens[k], digests[k - 1]))
  }

  /** What trails comes back only if what it trails does. */
  lemma TrailComesBack(tokens: seq<Option<Token>>, digests: seq<Option<Digest>>, m: nat, x: nat,
                       a: nat, c: nat, b: nat)
    requires Trails(tokens, digests, m, x) && 1 <= a && ComesBack(tokens, a, c, b)
    ensures Returns(digests)
  {
    assert ComesBack(digests, if a <= m + 1 then x else a - 1, c - 1, b - 1);
  }

  /** A token that was the pin of the first digest before, as in the parent. */
  lemma TrailComesBackToFirst(tokens: seq<Option<Token>>, digests: seq<Option<Digest>>, x: nat, c: nat, b: nat)
    requires Trails(tokens, digests, 0, x) && ComesBack(tokens, 0, c, b)
    requires Pinned(tokens[0], digests[0])
    ensures Returns(digests)
  {
    assert ComesBack(digests, 0, if c == 1 then x else c - 1, b - 1);
  }

  lemma OwnedTrails(trace: seq<Bundle>, parent: map<string, File>, m: nat, f: string, i: nat, h: string)
      returns (x: nat)
    requires IsEditedRun(trace, parent) && FirstOwned(trace, f, i, m, h) && IsPin(trace[0], f, i)
    ensures Trails(Tokens(trace, parent, f, i), Digests(trace, parent, h), m, x)
  {
    var tokens, digests := Tokens(trace, parent, f, i), Digests(trace, parent, h);
    x := OwnedDigest(trace, parent, m, f, i, h);
    forall k | 1 <= k <= m + 1 ensures Pinned(tokens[k], digests[x]) {
      UnownedToken(trace, parent, m, f, i, h, k);
    }
    forall k | m + 2 <= k < |tokens| ensures Pinned(tokens[k], digests[k - 1]) {
      TokenIsDigest(trace, parent, m, f, i, h, k);
    }
  }

  /** If a pin comes back to a digest, so does the file it is meant for. */
  lemma TokenReturns(trace: seq<Bundle>, parent: map<string, File>, f: string, i: nat, a: nat, c: nat, b: nat)
      returns (m: nat, h: string)
    requires IsEditedRun(trace, parent) && IsPin(trace[0], f, i)
    requires 1 <= a && ComesBack(Tokens(trace, parent, f, i), a, c, b)
    ensures m < |trace| && PinsTo(trace[m], f, i, h) && Returns(Digests(trace, parent, h))
  {
    m, h := ChangedIsOwned(trace, parent, f, i, a, c);
    var x := OwnedTrails(trace, parent, m, f, i, h);
    TrailComesBack(Tokens(trace, parent, f, i), Digests(trace, parent, h), m, x, a, c, b);
  }

  lemma ParentTokenReturns(trace: seq<Bundle>, parent: map<string, File>, f: string, i: nat, c: nat, b: nat)
      returns (m: nat, h: string)
    requires IsEditedRun(trace, parent) && IsPin(trace[0], f, i) && ComesBack(Tokens(trace, parent, f, i), 0, c, b)
    requires f in parent && |parent[f]| == |trace[0].payload[f]| && EditsRightPin(trace[0], parent, f, i)
    ensures m < |trace| && PinsTo(trace[m], f, i, h) && Returns(Digests(trace, parent, h))
  {
    if parent[f][i] == trace[0].payload[f][i] {
      m, h := TokenReturns(trace, parent, f, i, 1, c, b);
    } else {
      m := 0;
      h :| PinsTo(trace[0], f, i, h) && h in parent && parent[f][i] == Pin(Sha(parent[h]));
      var x := OwnedTrails(trace, parent, 0, f, i, h);
      TrailComesBackToFirst(Tokens(trace, parent, f, i), Digests(trace, parent, h), x, c, b);
    }
  }

  ghost predicate Keeps(start: Bundle, b: Bundle, g: string)
    requires g in start.payload
  {
    && b.rewritable == start.rewritable && g in b.payload
    && SameShape(start.payload[g], b.payload[g])
    && (g !in start.rewritable ==> b.payload[g] == start.payload[g])
  }

  lemma {:induction false} RunKeepsShape(trace: seq<Bundle>, k: nat, g: string)
    requires IsRun(trace) && k < |trace| && g in trace[0].payload
    ensures Keeps(trace[0], trace[k], g)
  {
    if k > 0 {
      RunKeepsShape(trace, k - 1, g);
      assert IsRound(trace, k - 1);
      RoundKeepsShape(trace[0], trace[k - 1], g);
    }
  }

  lemma RoundKeepsShape(start: Bundle, b: Bundle, g: string)
    requires b.Valid() && g in start.payload && Keeps(start, b, g)
    ensures Keeps(start, b.Next(), g)
  {
  }

  lemma DifferenceIsPin(start: File, x: File, y: File) returns (i: nat)
    requires SameShape(start, x) && SameShape(start, y) && x != y
    ensures i < |start| == |x| == |y| && start[i].Pin? && x[i] != y[i]
  {
    i :| 0 <= i < |x| && x[i] != y[i];
  }

  /** The file of DigestAt, with its shape. */
  lemma FileAt(trace: seq<Bundle>, parent: map<string, File>, g: string, k: nat) returns (x: File)
    requires IsRun(trace) && g in trace[0].payload && 1 <= k <= |trace|
    ensures DigestAt(trace, parent, g, k) == Some(Sha(x)) && SameShape(trace[0].payload[g], x)
    ensures forall i: nat :: i < |x| ==> TokenAt(trace, parent, g, i, k) == Some(x[i])
    ensures g !in trace[0].rewritable ==> x == trace[0].payload[g]
  {
    RunKeepsShape(trace, k - 1, g);
    x := trace[k - 1].payload[g];
  }

  lemma PinIsSmaller(b: Bundle, f: string, i: nat, h: string)
    requires b.Valid() && b.Coherent() && Settled(b) && PinsTo(b, f, i, h)
    ensures f in b.payload && h in b.payload && b.Current(h) < b.Current(f)
  {
    SettledPin(b, f, i, h);
    assert b.Current(h) < b.payload[f][i] < b.Current(f);
  }

  /** A pin that comes back with its file. */
  lemma ReturningPin(trace: seq<Bundle>, parent: map<string, File>, g: string, a: nat, c: nat, b: nat)
      returns (i: nat)
    requires IsRun(trace) && g in trace[0].names && ComesBack(Digests(trace, parent, g), a, c, b)
    ensures IsPin(trace[0], g, i) && ComesBack(Tokens(trace, parent, g, i), a, c, b)
    ensures a == 0 ==> g in parent && SameShape(parent[g], trace[0].payload[g])
  {
    var again := FileAt(trace, parent, g, b);
    var between := FileAt(trace, parent, g, c);
    i := DifferenceIsPin(trace[0].payload[g], again, between);
    if a > 0 {
      var before := FileAt(trace, parent, g, a);
    }
  }

  /** A file that comes back to a digest pins another one that does, which is nested more deeply. */
  lemma ReturnDescends(trace: seq<Bundle>, parent: map<string, File>, g: string) returns (h: string)
    requires IsSettledRun(trace, parent) && EditsRightPins(trace[0], parent)
    requires g in trace[0].names && Returns(Digests(trace, parent, g))
    ensures h in trace[0].names && Returns(Digests(trace, parent, h))
    ensures g in trace[|trace| - 1].payload && h in trace[|trace| - 1].payload
    ensures trace[|trace| - 1].Current(h) < trace[|trace| - 1].Current(g)
  {
    var m;
    var a: nat, c: nat, b: nat :| ComesBack(Digests(trace, parent, g), a, c, b);
    var i := ReturningPin(trace, parent, g, a, c, b);
    if a == 0 {
      assert EditsRightPin(trace[0], parent, g, i);
      m, h := ParentTokenReturns(trace, parent, g, i, c, b);
    } else {
      m, h := TokenReturns(trace, parent, g, i, a, c, b);
    }
    PinEndsSmaller(trace, m, g, i, h);
  }

  /** What a pin is meant for in some round ends up nested in its file. */
  lemma PinEndsSmaller(trace: seq<Bundle>, m: nat, f: string, i: nat, h: string)
    requires IsCoherentRun(trace) && Settled(trace[|trace| - 1]) && m < |trace| && PinsTo(trace[m], f, i, h)
    ensures h in trace[0].names
    ensures f in trace[|trace| - 1].payload && h in trace[|trace| - 1].payload
    ensures trace[|trace| - 1].Current(h) < trace[|trace| - 1].Current(f)
  {
    PinFollows(trace, m, |trace| - 1, f, i, h);
    RunKeepsNames(trace, m);
    PinIsSmaller(trace[|trace| - 1], f, i, h);
  }

  /** No file comes back to a digest it had before. */
  lemma {:induction false} NoReturn(trace: seq<Bundle>, parent: map<string, File>, g: string)
    requires IsSettledRun(trace, parent) && EditsRightPins(trace[0], parent)
    requires g in trace[0].names && g in trace[|trace| - 1].payload
    ensures !Returns(Digests(trace, parent, g))
    decreases trace[|trace| - 1].Current(g)
  {
    if Returns(Digests(trace, parent, g)) {
      var h := ReturnDescends(trace, parent, g);
      NoReturn(trace, parent, h);
    }
  }

  /**
  If the edit only touches pins that were right in the parent, and leaves them meant for the
  same files, the single lookup is right after coherent rounds for every digest that leaves
  no doubt.
  */
  lemma RefreshNeverMisses(trace: seq<Bundle>, parent: map<string, File>, replacements: map<Digest, Digest>,
                           g: string, d: Digest)
    requires |trace| > 0 && IsPropagation(trace) && AllCoherent(trace) && Unchanging(trace[|trace| - 1])
    requires Opened(trace[0], parent, trace[0].payload) && EditsRightPins(trace[0], parent)
    requires var final := trace[|trace| - 1];
      KnowsStale(final, replacements) && final.CoherentAt(d) && final.Had(g, d)
    requires ReplacesAllStale(trace, |trace|, replacements)
    ensures Refreshed(replacements, d) == trace[|trace| - 1].Current(g)
  {
    PropagationIsSettledRun(trace, parent);
    NotReplaced(trace, parent, replacements, g, d);
    RefreshIsRightIff(trace[|trace| - 1], replacements, g, d);
  }

  lemma PropagationIsSettledRun(trace: seq<Bundle>, parent: map<string, File>)
    requires |trace| > 0 && IsPropagation(trace) && AllCoherent(trace) && Unchanging(trace[|trace| - 1])
    requires Opened(trace[0], parent, trace[0].payload)
    ensures IsSettledRun(trace, parent)
  {
    PropagationIsRun(trace);
  }

  /** A current digest of the settled bundle was never replaced. */
  lemma NotReplaced(trace: seq<Bundle>, parent: map<string, File>, replacements: map<Digest, Digest>,
                    g: string, d: Digest)
    requires IsSettledRun(trace, parent) && EditsRightPins(trace[0], parent)
    requires var final := trace[|trace| - 1];
      final.CoherentAt(d) && final.Had(g, d)
    requires ReplacesAllStale(trace, |trace|, replacements)
    ensures d in replacements ==> d != trace[|trace| - 1].Current(g)
  {
    if d in replacements {
      assert StaleBefore(trace, |trace|, d);
      var k: nat :| k < |trace| && StaleIn(trace[k], d);
      var h :| h in trace[k].names && trace[k].Stale(h, d);
      StaleStays(trace, parent, g, h, k, d);
    }
  }

  /** A stale digest that is current at the end has been come back to. */
  lemma StaleReturns(trace: seq<Bundle>, parent: map<string, File>, h: string, k: nat, d: Digest)
    requires IsEditedRun(trace, parent) && k < |trace| && h in trace[k].names && trace[k].Stale(h, d)
    requires h in trace[|trace| - 1].payload && trace[|trace| - 1].Current(h) == d
    ensures Returns(Digests(trace, parent, h))
  {
    var x := HadAtSomeTime(trace, parent, k, h, d);
    assert ComesBack(Digests(trace, parent, h), x, k + 1, |trace|);
  }

  lemma StaleStays(trace: seq<Bundle>, parent: map<string, File>, g: string, h: string, k: nat, d: Digest)
    requires IsSettledRun(trace, parent) && EditsRightPins(trace[0], parent)
    requires var final := trace[|trace| - 1];
      final.Had(g, d) && final.CoherentAt(d)
    requires k < |trace| && h in trace[k].names && trace[k].Stale(h, d)
    ensures d != trace[|trace| - 1].Current(g)
  {
    var n := |trace| - 1;
    HadStays(trace, k, n, h, d);
    RunKeepsNames(trace, n);
    if d == trace[n].Current(g) {
      assert trace[n].Current(h) == d;
      StaleReturns(trace, parent, h, k, d);
      NoReturn(trace, parent, h);
    }
  }

  lemma {:induction false} HadStays(trace: seq<Bundle>, k: nat, n: nat, g: string, d: Digest)
    requires IsRun(trace) && k <= n < |trace| && trace[k].Had(g, d)
    ensures trace[n].Had(g, d)
  {
    if k < n {
      HadStays(trace, k, n - 1, g, d);
      assert IsRound(trace, n - 1);
      NextHistory(trace[n - 1], g, d);
    }
  }

  // ----- When it is not -----

  const LIBRARY: string := "serving/moe.so"
  const LOADER: string := "serving/load.py"
  const OLDER: File := [Text("older")]
  const PRESENT: File := [Text("present")]

  /** A parent whose loader pins bytes that its library does not have yet. */
  const PARENT: map<string, File> := map[LIBRARY := OLDER, LOADER := [Pin(Sha(PRESENT))]]

  /** An edit that brings these bytes, and puts the digest of the older ones into the loader. */
  const EDITED: map<string, File> := map[LIBRARY := PRESENT, LOADER := [Pin(Sha(OLDER))]]

  /** The digest of the parent's loader. */
  const BEFORE: Digest := Sha([Pin(Sha(PRESENT))])

  lemma WitnessNames()
    ensures LIBRARY != LOADER && Tracked(LIBRARY) && !Rewritable(LIBRARY) && Rewritable(LOADER)
  {
    assert LIBRARY[|LIBRARY| - 3..] == ".so" && LOADER[|LOADER| - 3..] == ".py";
    assert LIBRARY[|LIBRARY| - 3..][1] == 's' && ".py"[1] == 'p';
    assert LIBRARY[|LIBRARY| - 5..][3] == 's' && ".json"[3] == 'o';
    assert LIBRARY[|LIBRARY| - 1] == 'o' && LOADER[|LOADER| - 1] == 'y' && "overlay-manifest.json"[20] == 'n';
  }

  predicate WitnessDigest(g: string, d: Digest) {
    || (g == LIBRARY && d in {Sha(OLDER), Sha(PRESENT)})
    || (g == LOADER && d in {BEFORE, Sha(EDITED[LOADER])})
  }

  lemma WitnessOpened(b: Bundle)
    requires Opened(b, PARENT, EDITED)
    ensures (forall g :: g in b.names <==> g == LIBRARY || g == LOADER) && b.rewritable == {LOADER}
    ensures b.history[LIBRARY] == {Sha(OLDER), Sha(PRESENT)} && b.history[LOADER] == {BEFORE, Sha(EDITED[LOADER])}
  {
    WitnessNames();
    assert forall g :: g in EDITED <==> g == LIBRARY || g == LOADER;
  }

  lemma WitnessHad(b: Bundle, g: string, d: Digest)
    requires Opened(b, PARENT, EDITED)
    ensures b.Had(g, d) <==> WitnessDigest(g, d)
  {
    WitnessOpened(b);
  }

  lemma WitnessCoherentAt(b: Bundle, d: Digest)
    requires Opened(b, PARENT, EDITED)
    ensures b.CoherentAt(d)
  {
    WitnessNames();
    forall g, h | b.Had(g, d) && b.Had(h, d) ensures b.Current(g) == b.Current(h) {
      WitnessHad(b, g, d);
      WitnessHad(b, h, d);
    }
  }

  /** The first round undoes the edit of the loader, whose former digest is replaced all the same. */
  lemma WitnessRound(b: Bundle)
    requires Opened(b, PARENT, EDITED)
    ensures LIBRARY in b.names && LOADER in b.names && b.rewritable == {LOADER}
    ensures b.Coherent() && StaleIn(b, BEFORE)
    ensures b.Next().payload[LOADER] == PARENT[LOADER] && b.Next().payload[LIBRARY] == PRESENT
  {
    WitnessOpened(b);
    forall d ensures b.CoherentAt(d) {
      WitnessCoherentAt(b, d);
    }
    assert b.Stale(LOADER, BEFORE);
    ResolvedPin(b, LOADER, 0);
    ResolveOwned(b, LIBRARY, Sha(OLDER));
    WitnessNames();
  }

  lemma WitnessHadLater(b: Bundle, g: string, d: Digest)
    requires Opened(b, PARENT, EDITED) && b.Next().Had(g, d)
    ensures WitnessDigest(g, d)
  {
    WitnessRound(b);
    NextHistory(b, g, d);
    if b.Had(g, d) {
      WitnessHad(b, g, d);
    } else {
      assert g in EDITED;
    }
  }

  lemma WitnessCoherent(b: Bundle, d: Digest)
    requires Opened(b, PARENT, EDITED)
    ensures b.Next().CoherentAt(d)
  {
    var c := b.Next();
    WitnessNames();
    forall g, h | c.Had(g, d) && c.Had(h, d) ensures c.Current(g) == c.Current(h) {
      WitnessHadLater(b, g, d);
      WitnessHadLater(b, h, d);
    }
  }

  lemma WitnessPin(c: Bundle)
    requires c.Valid() && LOADER in c.payload && LIBRARY in c.names && c.rewritable == {LOADER}
    requires c.payload[LOADER] == PARENT[LOADER] && c.payload[LIBRARY] == PRESENT && c.CoherentAt(Sha(PRESENT))
    ensures Settled(c)
  {
    ResolveOwned(c, LIBRARY, Sha(PRESENT));
    assert c.Resolved()[LOADER] == c.payload[LOADER];
    assert forall f <- c.payload :: c.Resolved()[f] == c.payload[f];
  }

  /** After it nothing changes any more. */
  lemma WitnessSettles(b: Bundle)
    requires Opened(b, PARENT, EDITED)
    ensures b.Next().Coherent() && Settled(b.Next())
  {
    WitnessRound(b);
    forall d ensures b.Next().CoherentAt(d) {
      WitnessCoherent(b, d);
    }
    WitnessPin(b.Next());
  }

  /** So the loop stops in the second round. */
  lemma WitnessRun(b: Bundle, trace: seq<Bundle>)
    requires Opened(b, PARENT, EDITED) && |trace| > 0 && trace[0] == b && IsPropagation(trace)
    ensures |trace| <= 2
    ensures |trace| == 2 ==> trace[1] == b.Next()
    ensures !Unchanging(b)
  {
    WitnessRound(b);
    if |trace| >= 2 {
      assert PropagatesAt(trace, 0);
      ReplacedByIsNext(b, trace[1]);
    }
    if |trace| >= 3 {
      assert PropagatesAt(trace, 1);
      WitnessSettles(b);
      ReplacedByIsNext(trace[1], trace[2]);
    }
    if Unchanging(b) {
      var next :| ReplacedBy(b, next) && next.payload == b.payload;
      ReplacedByIsNext(b, next);
    }
  }

  lemma WitnessOutcome(b: Bundle, trace: seq<Bundle>, replacements: map<Digest, Digest>)
    requires Opened(b, PARENT, EDITED) && |trace| > 0 && trace[0] == b && IsPropagation(trace)
    requires |trace| > 1 || Unchanging(b)
    requires ReplacesOthers(replacements) && ReplacesAllStale(trace, |trace|, replacements)
    ensures |trace| == 2 && LIBRARY in trace[1].payload && LOADER in trace[1].payload
    ensures trace[1].payload[LIBRARY] == PRESENT && trace[1].payload[LOADER] == PARENT[LOADER]
    ensures Refreshed(replacements, BEFORE) != BEFORE
  {
    WitnessRun(b, trace);
    WitnessRound(b);
    assert StaleIn(trace[0], BEFORE);
    assert StaleBefore(trace, |trace|, BEFORE);
  }

  /** It does go wrong: for this parent and this edit the loader's digest is refreshed to a former one. */
  method MissedRefresh() returns (final: Bundle, replacements: map<Digest, Digest>)
    ensures final.Valid() && LIBRARY in final.payload && LOADER in final.payload
    ensures final.payload[LIBRARY] == PRESENT && final.payload[LOADER] == PARENT[LOADER]
    ensures Refreshed(replacements, final.Current(LOADER)) != final.Current(LOADER)
  {
    WitnessNames();
    var b := Open([LIBRARY, LOADER], PARENT, [LIBRARY, LOADER], EDITED);
    ghost var trace;
    var r;
    r, replacements, trace := Propagate(b);
    TooLong(b, trace);
    WitnessOutcome(b, trace, replacements);
    final := r.value;
  }

  lemma TooLong(b: Bundle, trace: seq<Bundle>)
    requires Opened(b, PARENT, EDITED) && |trace| > 0 && trace[0] == b && IsPropagation(trace)
    ensures |trace| <= 2
  {
    WitnessRun(b, trace);
  }
}
