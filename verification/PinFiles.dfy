/**
The propagation of source pins from the file names on (`transform`, behind its edits): which
files are followed and which are rewritten, and what becomes of each pin, in terms of names,
the parent's files and the edited payload.
*/
module PinFiles {
  import opened Prelude
  import opened SourcePins

  const DIRECTORIES: set<string> := {"serving/", "tools/"}
  const REWRITTEN: set<string> := {".py", ".json"}
  const BINARY: set<string> := {".so", ".yaml"}

  /** The name is that of an overlay manifest. */
  ghost predicate IsManifest(name: string) {
    exists before: string :: name == before + "overlay-manifest.json"
  }

  /** A name under one of the directories, with one of these endings. */
  ghost predicate Named(name: string, endings: set<string>) {
    exists dir, stem: string, ending :: NamedSo(name, endings, dir, stem, ending)
  }

  predicate NamedSo(name: string, endings: set<string>, dir: string, stem: string, ending: string) {
    dir in DIRECTORIES && ending in endings && name == dir + stem + ending
  }

  ghost predicate RewrittenName(name: string) {
    Named(name, REWRITTEN) && !IsManifest(name)
  }

  ghost predicate FollowedName(name: string) {
    Named(name, REWRITTEN + BINARY) && !IsManifest(name)
  }

  // ----- Names -----

  lemma EndsWithIff(name: string, suffix: string)
    ensures EndsWith(name, suffix) <==> exists before: string :: name == before + suffix
  {
    if EndsWith(name, suffix) {
      assert name == name[..|name| - |suffix|] + suffix;
    }
    if before: string :| name == before + suffix {
      assert name[|before|..] == suffix;
    }
  }

  /** A directory that ends in a slash and an ending without one do not overlap. */
  lemma Between(name: string, dir: string, ending: string) returns (stem: string)
    requires dir <= name && EndsWith(name, ending) && |dir| > 0 && dir[|dir| - 1] == '/' && '/' !in ending
    ensures name == dir + stem + ending
  {
    var at := |name| - |ending|;
    assert forall k :: 0 <= k < |ending| ==> name[at + k] == ending[k] && ending[k] in ending;
    stem := name[|dir|..at];
    assert name == name[..|dir|] + name[|dir|..at] + name[at..];
  }

  lemma EndingFacts(ending: string)
    requires ending in REWRITTEN + BINARY
    ensures '/' !in ending && |ending| > 0
    ensures ending == ".py" || ending == ".json" || ending == ".so" || ending == ".yaml"
  {
  }

  lemma DirectoryFacts(dir: string)
    requires dir in DIRECTORIES
    ensures (dir == "serving/" || dir == "tools/") && dir[|dir| - 1] == '/'
  {
  }

  lemma NamedIff(name: string, endings: set<string>)
    requires endings <= REWRITTEN + BINARY
    ensures Named(name, endings) <==>
      ("serving/" <= name || "tools/" <= name) && exists ending :: ending in endings && EndsWith(name, ending)
  {
    if dir, stem: string, ending :| NamedSo(name, endings, dir, stem, ending) {
      DirectoryFacts(dir);
      EndsWithIff(name, ending);
      assert name == (dir + stem) + ending;
      assert name[..|dir|] == dir;
    }
    if ending :| ending in endings && EndsWith(name, ending) && ("serving/" <= name || "tools/" <= name) {
      EndingFacts(ending);
      var dir := if "serving/" <= name then "serving/" else "tools/";
      DirectoryFacts(dir);
      var stem := Between(name, dir, ending);
      assert NamedSo(name, endings, dir, stem, ending);
    }
  }

  /** The files whose pins are rewritten are the .py and .json files under serving/ and tools/. */
  lemma RewritableIff(name: string)
    ensures Rewritable(name) <==> RewrittenName(name)
  {
    NamedIff(name, REWRITTEN);
    EndsWithIff(name, "overlay-manifest.json");
    if EndsWith(name, ".py") || EndsWith(name, ".json") {
      assert EndsWith(name, if EndsWith(name, ".py") then ".py" else ".json");
    }
  }

  /** The files whose digests are followed are these and the .so and .yaml files there. */
  lemma TrackedIff(name: string)
    ensures Tracked(name) <==> FollowedName(name)
  {
    NamedIff(name, REWRITTEN + BINARY);
    EndsWithIff(name, "overlay-manifest.json");
    if ending :| ending in {".py", ".json", ".so", ".yaml"} && EndsWith(name, ending) {
      assert ending in REWRITTEN + BINARY;
    }
  }

  lemma LastCharacter(name: string, a: string, b: string)
    requires EndsWith(name, a) && EndsWith(name, b) && |a| > 0 && |b| > 0
    ensures a[|a| - 1] == b[|b| - 1]
  {
    assert name[|name| - |a|..][|a| - 1] == name[|name| - |b|..][|b| - 1];
  }

  /** A name has one of the four endings at most. */
  lemma OneEnding(name: string, a: string, b: string)
    requires a in REWRITTEN + BINARY && b in REWRITTEN + BINARY && EndsWith(name, a) && EndsWith(name, b)
    ensures a == b
  {
    EndingFacts(a);
    EndingFacts(b);
    LastCharacter(name, a, b);
  }

  lemma EndingDecides(name: string, dir: string, stem: string, ending: string)
    requires NamedSo(name, REWRITTEN + BINARY, dir, stem, ending)
    ensures Named(name, REWRITTEN) <==> ending in REWRITTEN
  {
    if ending in REWRITTEN {
      assert NamedSo(name, REWRITTEN, dir, stem, ending);
    }
    if dir2, stem2: string, ending2 :| NamedSo(name, REWRITTEN, dir2, stem2, ending2) {
      NamedEnds(name, dir, stem, ending);
      NamedEnds(name, dir2, stem2, ending2);
      OneEnding(name, ending, ending2);
    }
  }

  lemma NamedEnds(name: string, dir: string, stem: string, ending: string)
    requires name == dir + stem + ending
    ensures EndsWith(name, ending)
  {
    EndsWithIff(name, ending);
    assert name == (dir + stem) + ending;
  }

  /**
  For every directory, stem and ending: the file is followed if it is in the payload and is
  no manifest, and then it is rewritten if and only if it is a .py or .json file.
  */
  lemma OpenedByName(b: Bundle, parent: map<string, File>, payload: map<string, File>,
                     dir: string, stem: string, ending: string)
    requires Opened(b, parent, payload) && dir in {"serving/", "tools/"}
    requires ending in {".py", ".json", ".so", ".yaml"}
    ensures var name := dir + stem + ending;
      && (name in b.names <==> name in payload && !IsManifest(name))
      && (name in b.rewritable <==> name in payload && !IsManifest(name) && (ending == ".py" || ending == ".json"))
  {
    var name := dir + stem + ending;
    assert NamedSo(name, REWRITTEN + BINARY, dir, stem, ending);
    TrackedIff(name);
    RewritableIff(name);
    EndingDecides(name, dir, stem, ending);
  }

  /** Every followed name has that form. */
  lemma OpenedNamesOnly(b: Bundle, parent: map<string, File>, payload: map<string, File>, g: string)
    requires Opened(b, parent, payload) && g in b.names
    ensures exists dir: string, stem: string, ending: string ::
      dir in {"serving/", "tools/"} && ending in {".py", ".json", ".so", ".yaml"} && g == dir + stem + ending
    ensures g in payload && !IsManifest(g)
  {
    TrackedIff(g);
    var dir, stem: string, ending :| NamedSo(g, REWRITTEN + BINARY, dir, stem, ending);
    assert ending in {".py", ".json", ".so", ".yaml"} && dir in {"serving/", "tools/"};
  }

  // ----- Pins -----

  /** Token i of f pins g, with the digest of the edited file or of the parent's. */
  predicate PinsAtStart(parent: map<string, File>, payload: map<string, File>, f: string, i: nat, g: string)
    requires f in payload && g in payload
  {
    && i < |payload[f]|
    && (payload[f][i] == Pin(Sha(payload[g])) || (g in parent && payload[f][i] == Pin(Sha(parent[g]))))
  }

  predicate PinsAtEnd(final: map<string, File>, f: string, i: nat, g: string) {
    f in final && g in final && i < |final[f]| && final[f][i] == Pin(Sha(final[g]))
  }

  /** Every pin of a followed file, in a file that is rewritten, holds its final digest. */
  ghost predicate EndsRight(parent: map<string, File>, payload: map<string, File>, final: map<string, File>) {
    forall f, i: nat, g :: f in payload && g in payload && RewrittenName(f) && FollowedName(g) ==>
      (PinsAtStart(parent, payload, f, i, g) ==> PinsAtEnd(final, f, i, g))
  }

  /** Only files of these names are rewritten. */
  ghost predicate OthersStay(payload: map<string, File>, final: map<string, File>) {
    && final.Keys == payload.Keys
    && forall f <- payload :: !RewrittenName(f) ==> final[f] == payload[f]
  }

  lemma StartPin(b: Bundle, parent: map<string, File>, payload: map<string, File>, f: string, i: nat, g: string)
    requires Opened(b, parent, payload) && f in payload && g in payload
    requires RewrittenName(f) && FollowedName(g) && PinsAtStart(parent, payload, f, i, g)
    ensures PinsTo(b, f, i, g)
  {
    RewritableIff(f);
    TrackedIff(g);
  }

  lemma PinEndsRight(trace: seq<Bundle>, parent: map<string, File>, payload: map<string, File>,
                     f: string, i: nat, g: string)
    requires |trace| > 0 && IsPropagation(trace) && AllCoherent(trace) && Unchanging(trace[|trace| - 1])
    requires Opened(trace[0], parent, payload) && f in payload && g in payload
    requires RewrittenName(f) && FollowedName(g) && PinsAtStart(parent, payload, f, i, g)
    ensures PinsAtEnd(trace[|trace| - 1].payload, f, i, g)
  {
    StartPin(trace[0], parent, payload, f, i, g);
    PropagationIsRun(trace);
    FinalPinsAreRight(trace, |trace| - 1, f, i, g);
  }

  lemma {:induction false} RestStays(trace: seq<Bundle>, n: nat, f: string)
    requires IsPropagation(trace) && n < |trace| && f in trace[0].payload && f !in trace[0].rewritable
    ensures trace[n].payload.Keys == trace[0].payload.Keys && trace[n].rewritable == trace[0].rewritable
    ensures trace[n].payload[f] == trace[0].payload[f]
  {
    if n > 0 {
      RestStays(trace, n - 1, f);
      assert PropagatesAt(trace, n - 1);
    }
  }

  lemma {:induction false} KeysStay(trace: seq<Bundle>, n: nat)
    requires IsPropagation(trace) && n < |trace|
    ensures trace[n].payload.Keys == trace[0].payload.Keys
  {
    if n > 0 {
      KeysStay(trace, n - 1);
      assert PropagatesAt(trace, n - 1);
    }
  }

  lemma OtherFilesStay(trace: seq<Bundle>, parent: map<string, File>, payload: map<string, File>)
    requires |trace| > 0 && IsPropagation(trace) && Opened(trace[0], parent, payload)
    ensures OthersStay(payload, trace[|trace| - 1].payload)
  {
    KeysStay(trace, |trace| - 1);
    forall f <- payload | !RewrittenName(f) ensures trace[|trace| - 1].payload[f] == payload[f] {
      RewritableIff(f);
      RestStays(trace, |trace| - 1, f);
    }
  }

  /**
  From the edited payload to the propagated one. Files that are not .py or .json files under
  serving/ or tools/ are left as they were; after coherent rounds every pin in the others that
  held a former or present digest of a followed file holds its final one.
  */
  method PropagatePins(parentNames: seq<string>, parent: map<string, File>, payloadNames: seq<string>,
                       payload: map<string, File>)
    returns (r: Result<map<string, File>, Error>, replacements: map<Digest, Digest>, ghost trace: seq<Bundle>)
    requires forall g :: g in parentNames <==> g in parent
    requires forall g :: g in payloadNames <==> g in payload
    requires parent.Keys <= payload.Keys
    ensures |trace| > 0 && IsPropagation(trace) && Opened(trace[0], parent, payload)
    ensures r.Ok? ==> OthersStay(payload, r.value)
    ensures r.Ok? && AllCoherent(trace) ==> EndsRight(parent, payload, r.value)
    ensures Separate(trace[0]) ==> AllCoherent(trace)
  {
    var b := Open(parentNames, parent, payloadNames, payload);
    var final;
    final, replacements, trace := Propagate(b);
    if final.Err? {
      return Err(final.error), replacements, trace;
    }
    r := Ok(final.value.payload);
    OtherFilesStay(trace, parent, payload);
    forall f, i: nat, g | f in payload && g in payload && RewrittenName(f) && FollowedName(g) &&
                          PinsAtStart(parent, payload, f, i, g) && AllCoherent(trace)
      ensures PinsAtEnd(r.value, f, i, g)
    {
      PinEndsRight(trace, parent, payload, f, i, g);
    }
  }
}
