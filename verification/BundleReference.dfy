/**
 The bundle check said again as relations between trees, pins and patches, and
 the proof that it passes exactly under these conditions.
 */
module BundleReference {
  import opened Lists
  import opened Bytes
  import opened Paths
  import opened Bundle
  import opened Faithful

  // ----- Pins -----

  /** What a pin says of a path: the digest of the regular file that is there, or that there is
      nothing; in either case only directories lead to it. */
  ghost predicate Pinned(digest: seq<Byte> -> string, t: Tree, p: Path, pin: Pin)
  {
    && (forall k :: 0 < k < |p| ==> p[..k] !in t)
    && match pin
       case Some(d) => p in t && t[p].Regular? && digest(t[p].file.bytes) == d
       case None => forall q :: q in t ==> !(p <= q)
  }

  /** The comparison of a pinned path with its pin holds exactly then. */
  lemma MatchesIff(tool: Tool, t: Tree, p: Path, pin: Pin)
    ensures Matches(tool, Lookup(t, p), pin) <==>
      && (forall k :: 0 < k < |p| ==> p[..k] !in t)
      && match pin
         case Some(d) => p in t && t[p].Regular? && tool.digest(t[p].file.bytes) == d
         case None => forall q :: q in t ==> !(p <= q)
  {
    assert p[..|p|] == p;
    forall q | q in t ensures p <= q <==> p == q || p < q { }
  }

  /** A pin is null or 64 lowercase hexadecimal digits. */
  ghost predicate Hex64(pin: Pin)
  {
    pin.Some? ==> |pin.value| == 64 && forall i :: 0 <= i < 64 ==> pin.value[i] in "0123456789abcdef"
  }

  lemma ShaPinIff(pin: Pin)
    ensures ShaPin(pin) <==> Hex64(pin)
  {
    forall c: char ensures HexDigit(c) <==> c in "0123456789abcdef" { HexIff(c); }
  }

  lemma HexIff(c: char)
    ensures HexDigit(c) <==> c in "0123456789abcdef"
  {
    var s := "0123456789abcdef";
    if '0' <= c <= '9' { assert s[c as int - '0' as int] == c; }
    if 'a' <= c <= 'f' { assert s[c as int - 'a' as int + 10] == c; }
  }

  /** One pinned name of a component, in its checkout. */
  ghost predicate NamePinned(tool: Tool, c: Component, root: Tree, n: string)
    requires n in c.base && n in c.output
  {
    && RelativePath(n).Some? && Hex64(c.base[n]) && Hex64(c.output[n])
    && Pinned(tool.digest, root, RelativePath(n).value, c.base[n])
  }

  lemma BaseOkIff(tool: Tool, c: Component, root: Tree)
    ensures BaseOk(tool, c, root) <==>
      && c.base != map[] && c.base.Keys == c.output.Keys
      && forall n :: n in c.base ==> NamePinned(tool, c, root, n)
  {
    if c.base.Keys == c.output.Keys {
      forall n | n in c.base
        ensures NamePinned(tool, c, root, n) <==>
                && RelativePath(n).Some? && ShaPin(c.base[n]) && ShaPin(c.output[n])
                && Matches(tool, Lookup(root, RelativePath(n).value), c.base[n])
      {
        ShaPinIff(c.base[n]);
        ShaPinIff(c.output[n]);
        if RelativePath(n).Some? { MatchesIff(tool, root, RelativePath(n).value, c.base[n]); }
      }
    }
  }

  lemma PinsOkIff(tool: Tool, c: Component, s: Tree)
    ensures PinsOk(tool, c, s) <==>
      forall n :: n in c.output ==>
        RelativePath(n).Some? && Pinned(tool.digest, s, RelativePath(n).value, c.output[n])
  {
    forall n | n in c.output && RelativePath(n).Some?
      ensures Pinned(tool.digest, s, RelativePath(n).value, c.output[n]) <==>
              Matches(tool, Lookup(s, RelativePath(n).value), c.output[n])
    {
      MatchesIff(tool, s, RelativePath(n).value, c.output[n]);
    }
  }

  // ----- Patches -----

  /** The files of `t` at `ps` become those of `edited`, and no others change. */
  ghost predicate Replaced(t: Tree, ps: set<Path>, edited: map<Path, File>, t': Tree)
  {
    && (forall p :: p in ps ==> (p in t' <==> p in edited) && (p in t' ==> t'[p] == Regular(edited[p])))
    && (forall p :: p !in ps ==> (p in t' <==> p in t) && (p in t' ==> t'[p] == t[p]))
    && [] !in t' && (forall p, q :: p in t' && q in t' ==> !(p < q))
  }

  lemma ApplyIff(tool: Tool, t: Tree, payload: seq<Byte>, ps: set<Path>, t': Tree)
    ensures Apply(tool, t, payload, ps) == Some(t') <==>
      && tool.edit(payload, map p | p in t && p in ps :: t[p]).Some?
      && Replaced(t, ps, tool.edit(payload, map p | p in t && p in ps :: t[p]).value, t')
  {
    assert Restrict(t, ps) == map p | p in t && p in ps :: t[p];
    if tool.edit(payload, Restrict(t, ps)).Some? {
      ReplacedIff(t, ps, tool.edit(payload, Restrict(t, ps)).value, t');
    }
  }

  lemma ReplacedIff(t: Tree, ps: set<Path>, edited: map<Path, File>, t': Tree)
    ensures var result := (t - ps) + map p | p in edited && p in ps :: Regular(edited[p]);
      Replaced(t, ps, edited, t') <==> t' == result && WellFormed(result)
  {
    var result := (t - ps) + map p | p in edited && p in ps :: Regular(edited[p]);
    if Replaced(t, ps, edited, t') {
      forall p ensures p in result <==> p in t' { }
      assert result == t';
    }
  }

  /** A patch file of the bundle whose pin is its digest, which touches only pinned names of its
      component, takes the component's tree from `t` to `t'`. */
  ghost predicate Patches(m: Manifest, e: Entry, t: Tree, t': Tree)
  {
    && e.id != "" && e.component in m.components
    && RelativePath(e.file).Some? && RelativePath(e.file).value in m.files
    && var payload := m.files[RelativePath(e.file).value];
       && e.pin == Some(m.tool.digest(payload)) && Hex64(e.pin)
       && m.tool.numstat(payload).Some?
       && var names := m.tool.numstat(payload).value;
          && names != {}
          && (forall n :: n in names ==> RelativePath(n).Some? && n in m.components[e.component].base)
          && var ps := set n | n in names && RelativePath(n).Some? :: RelativePath(n).value;
             && m.tool.edit(payload, map p | p in t && p in ps :: t[p]).Some?
             && Replaced(t, ps, m.tool.edit(payload, map p | p in t && p in ps :: t[p]).value, t')
  }

  lemma EntryIff(m: Manifest, e: Entry, t: Tree, t': Tree)
    ensures Patches(m, e, t, t') <==> EntryOk(m, e) && Apply(m.tool, t, Payload(m, e).value, Touched(m, e)) == Some(t')
  {
    ShaPinIff(e.pin);
    if EntryOk(m, e) {
      ApplyIff(m.tool, t, Payload(m, e).value, Touched(m, e), t');
      assert m.tool.numstat(Payload(m, e).value).value <= m.components[e.component].base.Keys;
    }
    if Patches(m, e, t, t') {
      var names := m.tool.numstat(m.files[RelativePath(e.file).value]).value;
      assert names <= m.components[e.component].base.Keys;
      ApplyIff(m.tool, t, Payload(m, e).value, Touched(m, e), t');
    }
  }

  /** The trees before, between and after the patches: each entry changes the tree of its component
      and no other, and no id is used twice. */
  ghost predicate Trace(m: Manifest, es: seq<Entry>, trace: seq<map<string, Tree>>)
  {
    && |trace| == |es| + 1
    && (forall i :: 0 <= i < |trace| ==> m.components.Keys <= trace[i].Keys)
    && (forall i :: 0 <= i < |es| ==> Advances(m, es[i], trace[i], trace[i + 1]))
    && (forall i, j :: 0 <= i < j < |es| ==> es[i].id != es[j].id)
  }

  ghost predicate Advances(m: Manifest, e: Entry, trees: map<string, Tree>, trees': map<string, Tree>)
  {
    && e.component in trees && trees'.Keys == trees.Keys
    && Patches(m, e, trees[e.component], trees'[e.component])
    && forall c :: c in trees && c != e.component ==> trees'[c] == trees[c]
  }

  lemma StepIff(m: Manifest, trees: map<string, Tree>, e: Entry, trees': map<string, Tree>)
    requires m.components.Keys <= trees.Keys
    ensures StepEntry(m, trees, e) == Some(trees') <==> Advances(m, e, trees, trees')
  {
    if e.component in trees && trees'.Keys == trees.Keys {
      EntryIff(m, e, trees[e.component], trees'[e.component]);
      if Advances(m, e, trees, trees') { assert trees[e.component := trees'[e.component]] == trees'; }
    }
  }

  /** The patch loop ends with the last trees of a trace, if there is one. */
  lemma {:induction false} TraceEnds(m: Manifest, es: seq<Entry>, trace: seq<map<string, Tree>>)
    requires Trace(m, es, trace)
    ensures RunPatches(m, trace[0], es) == Some(trace[|es|])
  {
    if es != [] {
      var n := |es| - 1;
      TraceEnds(m, es[..n], trace[..n + 1]);
      StepIff(m, trace[n], es[n], trace[n + 1]);
      assert !IdUsed(es[..n], es[n].id);
    }
  }

  /** And otherwise it fails. */
  lemma {:induction false} TraceExists(m: Manifest, es: seq<Entry>, trees: map<string, Tree>)
      returns (trace: seq<map<string, Tree>>)
    requires m.components.Keys <= trees.Keys && RunPatches(m, trees, es).Some?
    ensures Trace(m, es, trace) && trace[0] == trees && RunPatches(m, trees, es).value == trace[|es|]
  {
    if es == [] {
      trace := [trees];
    } else {
      var n := |es| - 1;
      var before := TraceExists(m, es[..n], trees);
      var last := RunPatches(m, trees, es).value;
      StepIff(m, before[n], es[n], last);
      trace := before + [last];
      TraceSnoc(m, es[..n], before, es[n], last);
      assert es[..n] + [es[n]] == es;
    }
  }

  lemma TraceSnoc(m: Manifest, es: seq<Entry>, trace: seq<map<string, Tree>>, e: Entry, last: map<string, Tree>)
    requires Trace(m, es, trace) && Advances(m, e, trace[|es|], last) && !IdUsed(es, e.id)
    ensures Trace(m, es + [e], trace + [last])
  {
    var es', trace' := es + [e], trace + [last];
    forall i | 0 <= i < |es'| ensures Advances(m, es'[i], trace'[i], trace'[i + 1]) {
      if i < |es| { assert Advances(m, es[i], trace[i], trace[i + 1]); }
    }
  }

  // ----- The verdict -----

  /** What the check verifies of a component before any patch. */
  ghost predicate Prepared(tool: Tool, c: Component, root: Tree, shadow: Tree)
  {
    && c.base != map[] && c.base.Keys == c.output.Keys
    && (forall n :: n in c.base ==> NamePinned(tool, c, root, n))
    && shadow == map p | p in root && (exists n :: n in c.base && RelativePath(n) == Some(p)) :: root[p]
  }

  ghost predicate OutputPinned(tool: Tool, c: Component, t: Tree)
  {
    forall n :: n in c.output ==>
      RelativePath(n).Some? && Pinned(tool.digest, t, RelativePath(n).value, c.output[n])
  }

  /** A successful check: copies of the pinned files, patched entry by entry, meet the output pins. */
  ghost predicate Succeeds(m: Manifest, roots: map<string, Tree>, trace: seq<map<string, Tree>>)
  {
    && roots.Keys == m.components.Keys && m.components != map[] && m.patches != []
    && Trace(m, m.patches, trace) && trace[0].Keys == m.components.Keys
    && (forall c :: c in m.components ==> Prepared(m.tool, m.components[c], roots[c], trace[0][c]))
    && (forall c :: c in m.components ==>
          c in trace[|m.patches|] && OutputPinned(m.tool, m.components[c], trace[|m.patches|][c]))
  }

  lemma PreparedIff(tool: Tool, c: Component, root: Tree, shadow: Tree)
    ensures Prepared(tool, c, root, shadow) <==> BaseOk(tool, c, root) && shadow == Shadow(c, root)
  {
    BaseOkIff(tool, c, root);
    var copied := map p | p in root && (exists n :: n in c.base && RelativePath(n) == Some(p)) :: root[p];
    assert forall p :: p in PathSet(c.base.Keys) <==> exists n :: n in c.base && RelativePath(n) == Some(p);
    assert copied == Shadow(c, root);
  }

  lemma PassingSucceeds(m: Manifest, roots: map<string, Tree>) returns (trace: seq<map<string, Tree>>)
    requires Passes(m, roots)
    ensures Succeeds(m, roots, trace)
  {
    var shadows := ShadowTrees(m, roots);
    trace := TraceExists(m, m.patches, shadows);
    var final := trace[|m.patches|];
    forall c | c in m.components ensures Prepared(m.tool, m.components[c], roots[c], shadows[c]) {
      PreparedIff(m.tool, m.components[c], roots[c], shadows[c]);
    }
    forall c | c in m.components ensures OutputPinned(m.tool, m.components[c], final[c]) {
      PinsOkIff(m.tool, m.components[c], final[c]);
    }
  }

  lemma SucceedingPasses(m: Manifest, roots: map<string, Tree>, trace: seq<map<string, Tree>>)
    requires Succeeds(m, roots, trace)
    ensures Passes(m, roots)
  {
    AllPrepared(m, roots, trace[0]);
    TraceEnds(m, m.patches, trace);
    Verdict(m, roots, trace[|m.patches|]);
  }

  lemma Verdict(m: Manifest, roots: map<string, Tree>, final: map<string, Tree>)
    requires roots.Keys == m.components.Keys && m.components != map[] && m.patches != [] && BasesOk(m, roots)
    requires RunPatches(m, ShadowTrees(m, roots), m.patches) == Some(final)
    requires forall c :: c in m.components ==> c in final && OutputPinned(m.tool, m.components[c], final[c])
    ensures Passes(m, roots)
  {
    AllPinned(m, roots, final);
  }

  lemma AllPrepared(m: Manifest, roots: map<string, Tree>, shadows: map<string, Tree>)
    requires roots.Keys == shadows.Keys == m.components.Keys
    requires forall c :: c in m.components ==> Prepared(m.tool, m.components[c], roots[c], shadows[c])
    ensures BasesOk(m, roots) && shadows == ShadowTrees(m, roots)
  {
    forall c | c in m.components ensures shadows[c] == Shadow(m.components[c], roots[c]) {
      PreparedIff(m.tool, m.components[c], roots[c], shadows[c]);
    }
    SameShadows(m, roots, shadows);
    AllBases(m, roots, shadows);
  }

  lemma SameShadows(m: Manifest, roots: map<string, Tree>, shadows: map<string, Tree>)
    requires roots.Keys == shadows.Keys == m.components.Keys
    requires forall c :: c in m.components ==> shadows[c] == Shadow(m.components[c], roots[c])
    ensures shadows == ShadowTrees(m, roots)
  {
  }

  lemma AllBases(m: Manifest, roots: map<string, Tree>, shadows: map<string, Tree>)
    requires roots.Keys == shadows.Keys == m.components.Keys
    requires forall c :: c in m.components ==> Prepared(m.tool, m.components[c], roots[c], shadows[c])
    ensures BasesOk(m, roots)
  {
    forall c | c in m.components ensures BaseOk(m.tool, m.components[c], roots[c]) {
      PreparedIff(m.tool, m.components[c], roots[c], shadows[c]);
    }
  }

  lemma AllPinned(m: Manifest, roots: map<string, Tree>, final: map<string, Tree>)
    requires roots.Keys == final.Keys == m.components.Keys && BasesOk(m, roots)
    requires RunPatches(m, ShadowTrees(m, roots), m.patches) == Some(final)
    requires forall c :: c in m.components ==> OutputPinned(m.tool, m.components[c], final[c])
    ensures OutputsOk(m, final)
  {
    forall c | c in m.components ensures PinsOk(m.tool, m.components[c], final[c]) {
      PinsOkIff(m.tool, m.components[c], final[c]);
    }
    NamesNeverDecide(m, roots, final);
  }

  /** The bundle passes if and only if the check can succeed. */
  lemma PassesIff(m: Manifest, roots: map<string, Tree>)
    ensures Passes(m, roots) <==> exists trace :: Succeeds(m, roots, trace)
  {
    if Passes(m, roots) { var trace := PassingSucceeds(m, roots); }
    if trace :| Succeeds(m, roots, trace) { SucceedingPasses(m, roots, trace); }
  }

  // ----- What passing says of one name and one entry -----

  /** A pin that holds is determined by the tree. */
  lemma PinnedDetermines(digest: seq<Byte> -> string, t: Tree, p: Path, pin: Pin)
    requires Pinned(digest, t, p, pin)
    ensures forall d :: pin == Some(d) <==> p in t && t[p].Regular? && digest(t[p].file.bytes) == d
    ensures pin == None <==> forall q :: q in t ==> !(p <= q)
  {
    assert p <= p;
  }

  /** If the check passes, a base pin is the digest of the checkout's file at that path, or null
      exactly when nothing is there. */
  lemma PassMeansBase(m: Manifest, roots: map<string, Tree>, c: string, n: string)
    requires Passes(m, roots) && c in m.components && n in m.components[c].base
    ensures RelativePath(n).Some? && c in roots
    ensures var p, t := RelativePath(n).value, roots[c];
      && (forall d :: m.components[c].base[n] == Some(d) <==>
            p in t && t[p].Regular? && m.tool.digest(t[p].file.bytes) == d)
      && (m.components[c].base[n] == None <==> forall q :: q in t ==> !(p <= q))
  {
    BaseOkIff(m.tool, m.components[c], roots[c]);
    assert NamePinned(m.tool, m.components[c], roots[c], n);
    PinnedDetermines(m.tool.digest, roots[c], RelativePath(n).value, m.components[c].base[n]);
  }

  /** If the check passes, the patches applied to any full tree that agrees on the pinned names end
      in a tree of which the output pins say the same. */
  lemma PassMeansOutput(m: Manifest, roots: map<string, Tree>, fulls: map<string, Tree>, c: string, n: string)
    requires Passes(m, roots) && fulls.Keys == m.components.Keys
    requires forall c :: c in m.components ==> WellFormed(roots[c]) && Agrees(m.components[c], fulls[c], roots[c])
    requires c in m.components && n in m.components[c].output
    ensures RelativePath(n).Some? && RunPatches(m, fulls, m.patches).Some?
    ensures var p, t := RelativePath(n).value, RunPatches(m, fulls, m.patches).value[c];
      && (forall d :: m.components[c].output[n] == Some(d) <==>
            p in t && t[p].Regular? && m.tool.digest(t[p].file.bytes) == d)
      && (m.components[c].output[n] == None <==> forall q :: q in t ==> !(p <= q))
  {
    PassHoldsOfCheckouts(m, roots, fulls);
    var t := RunPatches(m, fulls, m.patches).value[c];
    PinsOkIff(m.tool, m.components[c], t);
    PinnedDetermines(m.tool.digest, t, RelativePath(n).value, m.components[c].output[n]);
  }

  /** If the check passes, every entry is a file of the bundle whose pin is the digest of its bytes,
      and these bytes list at least one path and pinned paths only; ids are distinct. */
  lemma PassMeansEntries(m: Manifest, roots: map<string, Tree>, i: nat)
    requires Passes(m, roots) && i < |m.patches|
    ensures var e := m.patches[i];
      && e.id != "" && (forall j :: 0 <= j < |m.patches| && j != i ==> m.patches[j].id != e.id)
      && e.component in m.components
      && RelativePath(e.file).Some? && RelativePath(e.file).value in m.files
      && e.pin == Some(m.tool.digest(m.files[RelativePath(e.file).value]))
      && m.tool.numstat(m.files[RelativePath(e.file).value]).Some?
      && var names := m.tool.numstat(m.files[RelativePath(e.file).value]).value;
         names != {} && names <= m.components[e.component].base.Keys
  {
    var trace := PassingSucceeds(m, roots);
    assert Advances(m, m.patches[i], trace[i], trace[i + 1]);
  }

  // ----- A bundle that passes -----

  function Zeros(n: nat): (s: string)
    ensures |s| == n && forall i :: 0 <= i < n ==> s[i] == '0'
  {
    if n == 0 then "" else Zeros(n - 1) + "0"
  }

  /** Every digest is 64 zeros, and every patch creates the empty file `a`. */
  function CreatingTool(): Tool
  {
    Tool((bytes: seq<Byte>) => Zeros(64), (bytes: seq<Byte>) => Some({"a"}),
         (bytes: seq<Byte>, t: Tree) => Some(map[["a"] := File([], false)]))
  }

  /** One component in which `a` is absent at first and present afterwards, and one patch `p`. */
  function CreatingBundle(): Manifest
  {
    Manifest(map["c" := Component(map["a" := None], map["a" := Some(Zeros(64))])],
             [Entry("id", "c", "p", Some(Zeros(64)))], map[["p"] := []], CreatingTool())
  }

  lemma SimpleName(c: char)
    requires c == 'a' || c == 'p'
    ensures RelativePath([c]) == Some([[c]])
  {
    var parts := [[c]];
    assert Permitted(parts[0]);
    JoinIsAccepted(parts);
    assert Join(parts) == [c];
  }

  /** It passes on an empty checkout. */
  lemma CreatingBundlePasses()
    ensures Passes(CreatingBundle(), map["c" := map[]])
  {
    var m, empty, full: Tree := CreatingBundle(), map[], map[["a"] := Regular(File([], false))];
    CreatesFile(empty, full);
    BaseAndOutput(empty, full);
    var trace := [map["c" := empty], map["c" := full]];
    assert Advances(m, m.patches[0], trace[0], trace[1]);
    OneStepTrace(m, m.patches, trace);
    SucceedingPasses(m, map["c" := empty], trace);
  }

  lemma OneStepTrace(m: Manifest, es: seq<Entry>, trace: seq<map<string, Tree>>)
    requires |es| == 1 && |trace| == 2 && Advances(m, es[0], trace[0], trace[1]) && m.components.Keys <= trace[0].Keys
    ensures Trace(m, es, trace)
  {
  }

  lemma CreatesFile(empty: Tree, full: Tree)
    requires empty == map[] && full == map[["a"] := Regular(File([], false))]
    ensures Patches(CreatingBundle(), CreatingBundle().patches[0], empty, full)
  {
    SimpleName('a');
    SimpleName('p');
    assert Hex64(Some(Zeros(64)));
  }

  lemma BaseAndOutput(empty: Tree, full: Tree)
    requires empty == map[] && full == map[["a"] := Regular(File([], false))]
    ensures var m := CreatingBundle();
      Prepared(m.tool, m.components["c"], empty, empty) && OutputPinned(m.tool, m.components["c"], full)
  {
    SimpleName('a');
    assert Hex64(Some(Zeros(64)));
    assert "a" in CreatingBundle().components["c"].base;
  }
}
