/**
 What passing the bundle check means for the checkouts themselves: the shadow
 run is a faithful projection of applying the patches to any full tree that
 agrees with it on the pinned files, and it does not depend on how the patches
 of different components are interleaved.
 */
module Faithful {
  import opened Lists
  import opened Bytes
  import opened Paths
  import opened Bundle

  // ----- Reordering -----

  function Filter(es: seq<Entry>, c: string): seq<Entry>
  {
    if es == [] then []
    else Filter(es[..|es| - 1], c) + if es[|es| - 1].component == c then [es[|es| - 1]] else []
  }

  lemma RunSnoc(m: Manifest, t: Tree, es: seq<Entry>, e: Entry, c: string)
    ensures RunComponent(m, t, es + [e], c) == StepOwn(m, RunComponent(m, t, es, c), e, c)
  {
    assert (es + [e])[..|es|] == es;
  }

  lemma {:induction false} RunFiltered(m: Manifest, t: Tree, es: seq<Entry>, c: string)
    ensures RunComponent(m, t, es, c) == RunComponent(m, t, Filter(es, c), c)
  {
    if es != [] {
      var n := |es| - 1;
      RunFiltered(m, t, es[..n], c);
      var own := Filter(es[..n], c);
      if es[n].component == c {
        RunSnoc(m, t, own, es[n], c);
      } else {
        assert own + [] == own;
      }
    }
  }

  /** Distinctness of ids as a property of the multiset of entries. */
  ghost predicate DistinctInBag(bag: multiset<Entry>)
  {
    && (forall x :: x in bag ==> bag[x] == 1)
    && (forall x, y :: x in bag && y in bag && x != y ==> x.id != y.id)
  }

  lemma {:induction false} DistinctIsBagProperty(es: seq<Entry>)
    ensures DistinctIds(es) <==> DistinctInBag(multiset(es))
  {
    if es != [] {
      var init, e := es[..|es| - 1], es[|es| - 1];
      assert es == init + [e];
      DistinctIsBagProperty(init);
      LastDistinct(es);
      BagStep(multiset(init), e);
      assert IdUsed(init, e.id) <==> exists x: Entry :: x in multiset(init) && x.id == e.id by {
        if x: Entry :| x in multiset(init) && x.id == e.id {
          var i :| 0 <= i < |init| && init[i] == x;
        }
        if i :| 0 <= i < |init| && init[i].id == e.id {
          assert init[i] in multiset(init);
        }
      }
    }
  }

  lemma BagStep(bag: multiset<Entry>, e: Entry)
    ensures DistinctInBag(bag + multiset{e}) <==> DistinctInBag(bag) && !exists x :: x in bag && x.id == e.id
  {
    var after := bag + multiset{e};
    assert forall x :: x in bag ==> x in after;
    assert e in after;
    if DistinctInBag(after) {
      forall x | x in bag ensures bag[x] == 1 && x.id != e.id { assert after[x] == 1; }
    }
  }

  lemma SameEntries(m: Manifest, ps: seq<Entry>, qs: seq<Entry>)
    requires multiset(ps) == multiset(qs)
    ensures DistinctIds(ps) <==> DistinctIds(qs)
    ensures EntriesOk(m, ps) ==> EntriesOk(m, qs)
  {
    DistinctIsBagProperty(ps);
    DistinctIsBagProperty(qs);
    if EntriesOk(m, ps) {
      forall i | 0 <= i < |qs| ensures EntryOk(m, qs[i]) {
        assert qs[i] in multiset(ps);
        var j :| 0 <= j < |ps| && ps[j] == qs[i];
      }
    }
  }

  /** Any reordering that keeps the order within each component gives the same verdict and the
      same final trees. */
  lemma OrderAcrossComponentsIsIrrelevant(m: Manifest, trees: map<string, Tree>, ps: seq<Entry>, qs: seq<Entry>)
    requires m.components.Keys <= trees.Keys
    requires multiset(ps) == multiset(qs) && forall c :: c in m.components ==> Filter(ps, c) == Filter(qs, c)
    ensures RunPatches(m, trees, ps) == RunPatches(m, trees, qs)
  {
    SameEntries(m, ps, qs);
    SameEntries(m, qs, ps);
    InterleavingProjects(m, trees, ps);
    InterleavingProjects(m, trees, qs);
    forall c | c in m.components ensures RunComponent(m, trees[c], ps, c) == RunComponent(m, trees[c], qs, c) {
      RunFiltered(m, trees[c], ps, c);
      RunFiltered(m, trees[c], qs, c);
    }
    if RunPatches(m, trees, ps).Some? {
      SameTrees(m, trees, ps, qs, RunPatches(m, trees, ps).value, RunPatches(m, trees, qs).value);
    }
  }

  lemma SameTrees(m: Manifest, trees: map<string, Tree>, ps: seq<Entry>, qs: seq<Entry>, a: map<string, Tree>,
      b: map<string, Tree>)
    requires m.components.Keys <= trees.Keys && Projects(m, trees, ps, a) && Projects(m, trees, qs, b)
    requires forall c :: c in m.components ==> RunComponent(m, trees[c], ps, c) == RunComponent(m, trees[c], qs, c)
    ensures a == b
  {
    forall c | c in trees ensures a[c] == b[c] {
      if c in m.components { assert Some(a[c]) == Some(b[c]); }
    }
  }

  // ----- Projection onto the pinned files -----

  /** `s` is the pinned part of the full tree `f`, and no unpinned file of `f` lies above or
      below a pinned path. */
  ghost predicate Shadowed(f: Tree, pinned: set<Path>, s: Tree)
  {
    && s == Restrict(f, pinned) && WellFormed(f)
    && forall q, n :: q in f && q !in pinned && n in pinned ==> !(q < n) && !(n < q)
  }

  /** One patch whose paths are pinned applies to the full tree exactly when it applies to the
      shadow, with the same effect on pinned files and none on the others. */
  lemma ApplyFaithful(tool: Tool, f: Tree, s: Tree, pinned: set<Path>, payload: seq<Byte>, ps: set<Path>)
    requires Shadowed(f, pinned, s) && ps <= pinned
    ensures var a, b := Apply(tool, s, payload, ps), Apply(tool, f, payload, ps);
      && (a.Some? <==> b.Some?)
      && (a.Some? ==> Shadowed(b.value, pinned, a.value) && b.value - pinned == f - pinned)
  {
    assert Restrict(s, ps) == Restrict(f, ps);
    match tool.edit(payload, Restrict(s, ps))
    case None =>
    case Some(edited) =>
      var patch := map p | p in edited && p in ps :: Regular(edited[p]);
      var s', f' := (s - ps) + patch, (f - ps) + patch;
      assert s' == Restrict(f', pinned);
      assert f' - pinned == f - pinned;
      SameShape(f, f', s', pinned);
  }

  /** The full tree stays free of clashes exactly when its pinned part does. */
  lemma SameShape(f: Tree, f': Tree, s': Tree, pinned: set<Path>)
    requires WellFormed(f) && f' - pinned == f - pinned && s' == Restrict(f', pinned)
    requires forall q, n :: q in f && q !in pinned && n in pinned ==> !(q < n) && !(n < q)
    ensures WellFormed(s') <==> WellFormed(f')
    ensures forall q, n :: q in f' && q !in pinned && n in pinned ==> !(q < n) && !(n < q)
  {
    forall q | q in f' && q !in pinned ensures q in f { assert q in f' - pinned; }
    if WellFormed(s') {
      assert [] in f' ==> [] in s' || [] in f;
      forall p, q | p in f' && q in f' ensures !(p < q) {
        if p in pinned && q in pinned { assert p in s' && q in s'; }
      }
    }
  }

  lemma {:induction false} ComponentFaithful(m: Manifest, f: Tree, s: Tree, es: seq<Entry>, c: string)
    requires c in m.components && Shadowed(f, PathSet(m.components[c].base.Keys), s)
    ensures var pinned := PathSet(m.components[c].base.Keys);
      var a, b := RunComponent(m, s, es, c), RunComponent(m, f, es, c);
      && (a.Some? <==> b.Some?)
      && (a.Some? ==> Shadowed(b.value, pinned, a.value) && b.value - pinned == f - pinned)
  {
    if es != [] {
      var init, e := es[..|es| - 1], es[|es| - 1];
      ComponentFaithful(m, f, s, init, c);
      if RunComponent(m, s, init, c).Some? && e.component == c && EntryOk(m, e) {
        var pinned := PathSet(m.components[c].base.Keys);
        assert Touched(m, e) <= pinned;
        var f', s' := RunComponent(m, f, init, c).value, RunComponent(m, s, init, c).value;
        ApplyFaithful(m.tool, f', s', pinned, Payload(m, e).value, Touched(m, e));
      }
    }
  }

  // ----- Base and output pins -----

  /** A supported lookup rules out files above the path and below it. */
  lemma LookupClear(t: Tree, path: Path)
    requires Lookup(t, path) != Unsupported && WellFormed(t)
    ensures forall q :: q in t ==> !(q < path) && !(path < q)
    ensures path in t <==> Lookup(t, path).Present?
    ensures path in t ==> t[path] == Regular(Lookup(t, path).file)
  {
    forall q | q in t ensures !(q < path) {
      if 0 < |q| < |path| {
        assert path[..|q|] !in t;
        assert path[..|q|] != q;
      }
    }
  }

  /** A full tree in which every pinned name reads as it does in the checkout that was checked. */
  ghost predicate Agrees(c: Component, f: Tree, root: Tree)
  {
    WellFormed(f) && forall n :: n in c.base && RelativePath(n).Some? ==>
        Lookup(f, RelativePath(n).value) == Lookup(root, RelativePath(n).value)
  }

  /** Both trees have the same at `p`, and the first has nothing above or below it. */
  ghost predicate ClearAt(f: Tree, root: Tree, p: Path)
  {
    && (p in f <==> p in root)
    && (p in f ==> f[p] == root[p])
    && (forall q :: q in f ==> !(q < p) && !(p < q))
  }

  lemma PinnedClear(tool: Tool, c: Component, f: Tree, root: Tree, p: Path)
    requires BaseOk(tool, c, root) && WellFormed(root) && Agrees(c, f, root) && p in PathSet(c.base.Keys)
    ensures ClearAt(f, root, p)
  {
    var n :| n in c.base && RelativePath(n) == Some(p);
    assert Matches(tool, Lookup(root, p), c.base[n]);
    assert Lookup(f, p) == Lookup(root, p);
    LookupClear(f, p);
    LookupClear(root, p);
  }

  lemma BaseShadowed(tool: Tool, c: Component, f: Tree, root: Tree)
    requires BaseOk(tool, c, root) && WellFormed(root) && Agrees(c, f, root)
    ensures Shadowed(f, PathSet(c.base.Keys), Shadow(c, root))
  {
    forall p | p in PathSet(c.base.Keys) ensures ClearAt(f, root, p) { PinnedClear(tool, c, f, root, p); }
    AllClear(f, root, PathSet(c.base.Keys));
  }

  lemma AllClear(f: Tree, root: Tree, pinned: set<Path>)
    requires WellFormed(f) && WellFormed(root) && forall p :: p in pinned ==> ClearAt(f, root, p)
    ensures Shadowed(f, pinned, Restrict(root, pinned))
  {
    assert Restrict(f, pinned) == Restrict(root, pinned);
  }

  /** A pinned path reads the same in the full tree and in its shadow. */
  lemma SameLookup(f: Tree, pinned: set<Path>, s: Tree, path: Path)
    requires Shadowed(f, pinned, s) && path in pinned
    ensures Lookup(f, path) == Lookup(s, path)
  {
    forall k | 0 < k < |path| ensures path[..k] in f <==> path[..k] in s {
      assert path[..k] < path;
    }
    assert path[..|path|] == path;
    forall q | q in f && path < q ensures q in s {
    }
  }

  // ----- The verdict -----

  /** Final check of one component's shadow: output pins, then the set of file names. */
  predicate PinsOk(tool: Tool, c: Component, s: Tree)
  {
    forall n :: n in c.output ==> RelativePath(n).Some? && Matches(tool, Lookup(s, RelativePath(n).value), c.output[n])
  }

  function FileNames(s: Tree): set<string>
  {
    set p | p in s && p != [] :: Join(p)
  }

  function PinnedNames(c: Component): set<string>
  {
    set n | n in c.output && c.output[n].Some?
  }

  /** A tree as a file system has it: the root is no file, and no component contains a slash. */
  ghost predicate Named(s: Tree)
  {
    forall p :: p in s ==> p != [] && forall i :: 0 <= i < |p| ==> '/' !in p[i]
  }

  /** Once the pins hold of any tree, the comparison of file names tests exactly that nothing was
      written outside the pinned paths. */
  lemma NamesDetectStrays(tool: Tool, c: Component, s: Tree)
    requires c.base.Keys == c.output.Keys && Named(s) && PinsOk(tool, c, s)
    ensures FileNames(s) == PinnedNames(c) <==> s.Keys <= PathSet(c.base.Keys)
  {
    if s.Keys <= PathSet(c.base.Keys) {
      NamesFollowFromPins(tool, c, s);
    }
    if FileNames(s) == PinnedNames(c) {
      forall p | p in s ensures p in PathSet(c.base.Keys) {
        var n := Join(p);
        assert n in FileNames(s);
        AcceptsExactly(n, RelativePath(n).value);
        SplitJoin(p);
        SplitJoin(RelativePath(n).value);
      }
    }
  }

  /** Once the pins hold of a tree with pinned paths only, so does the comparison of file names. */
  lemma NamesFollowFromPins(tool: Tool, c: Component, s: Tree)
    requires c.base.Keys == c.output.Keys && s.Keys <= PathSet(c.base.Keys) && PinsOk(tool, c, s)
    ensures FileNames(s) == PinnedNames(c)
  {
    forall p | p in s ensures p != [] && Join(p) in PinnedNames(c) {
      var n :| n in c.base && RelativePath(n) == Some(p);
      AcceptsExactly(n, p);
      assert Matches(tool, Lookup(s, p), c.output[n]);
      assert p[..|p|] == p;
    }
    forall n | n in PinnedNames(c) ensures n in FileNames(s) {
      var p := RelativePath(n).value;
      AcceptsExactly(n, p);
      assert Matches(tool, Lookup(s, p), c.output[n]);
    }
  }

  function ShadowTrees(m: Manifest, roots: map<string, Tree>): (r: map<string, Tree>)
    requires roots.Keys == m.components.Keys
    ensures r.Keys == m.components.Keys
  {
    map c | c in m.components :: Shadow(m.components[c], roots[c])
  }

  predicate BasesOk(m: Manifest, roots: map<string, Tree>)
    requires roots.Keys == m.components.Keys
  {
    forall c :: c in m.components ==> BaseOk(m.tool, m.components[c], roots[c])
  }

  predicate OutputsOk(m: Manifest, final: map<string, Tree>)
    requires final.Keys == m.components.Keys
  {
    forall c :: c in m.components ==>
        PinsOk(m.tool, m.components[c], final[c]) && FileNames(final[c]) == PinnedNames(m.components[c])
  }

  lemma {:induction false} OnlyPinned(m: Manifest, s: Tree, es: seq<Entry>, c: string)
    requires c in m.components && s.Keys <= PathSet(m.components[c].base.Keys) && RunComponent(m, s, es, c).Some?
    ensures RunComponent(m, s, es, c).value.Keys <= PathSet(m.components[c].base.Keys)
  {
    if es != [] { OnlyPinned(m, s, es[..|es| - 1], c); }
  }

  /** Since a patch is taken to write only the paths it lists, the comparison of file names does
      not decide: after any patches that apply, the output pins alone give the verdict. */
  lemma NamesNeverDecide(m: Manifest, roots: map<string, Tree>, final: map<string, Tree>)
    requires roots.Keys == m.components.Keys && BasesOk(m, roots)
        && RunPatches(m, ShadowTrees(m, roots), m.patches) == Some(final)
    ensures OutputsOk(m, final) <==> forall c :: c in m.components ==> PinsOk(m.tool, m.components[c], final[c])
  {
    var shadows := ShadowTrees(m, roots);
    InterleavingProjects(m, shadows, m.patches);
    forall c | c in m.components && PinsOk(m.tool, m.components[c], final[c])
        ensures FileNames(final[c]) == PinnedNames(m.components[c]) {
      OnlyPinned(m, shadows[c], m.patches, c);
      NamesFollowFromPins(m.tool, m.components[c], final[c]);
    }
  }

  /** The bundle passes on these checkouts. */
  predicate Passes(m: Manifest, roots: map<string, Tree>)
  {
    && roots.Keys == m.components.Keys && m.components != map[] && m.patches != []
    && BasesOk(m, roots)
    && RunPatches(m, ShadowTrees(m, roots), m.patches).Some?
    && OutputsOk(m, RunPatches(m, ShadowTrees(m, roots), m.patches).value)
  }

  lemma {:induction false} OnlyEntriesMatter(m: Manifest, ps: seq<Entry>, trees: map<string, Tree>, es: seq<Entry>)
    requires m.components.Keys <= trees.Keys
    ensures RunPatches(m.(patches := ps), trees, es) == RunPatches(m, trees, es)
  {
    if es != [] { OnlyEntriesMatter(m, ps, trees, es[..|es| - 1]); }
  }

  /** Any reordering that keeps the order within each component gets the same verdict from the whole check. */
  lemma OrderAcrossComponentsKeepsVerdict(m: Manifest, roots: map<string, Tree>, ps: seq<Entry>, qs: seq<Entry>)
    requires multiset(ps) == multiset(qs) && forall c :: c in m.components ==> Filter(ps, c) == Filter(qs, c)
    ensures Passes(m.(patches := ps), roots) <==> Passes(m.(patches := qs), roots)
  {
    assert |ps| == |multiset(ps)| == |multiset(qs)| == |qs|;
    if roots.Keys == m.components.Keys {
      var shadows := ShadowTrees(m, roots);
      OrderAcrossComponentsIsIrrelevant(m, shadows, ps, qs);
      VerdictOf(m, roots, ps, shadows);
      VerdictOf(m, roots, qs, shadows);
    }
  }

  lemma VerdictOf(m: Manifest, roots: map<string, Tree>, ps: seq<Entry>, shadows: map<string, Tree>)
    requires roots.Keys == m.components.Keys && shadows == ShadowTrees(m, roots)
    ensures Passes(m.(patches := ps), roots) <==>
      && m.components != map[] && ps != [] && BasesOk(m, roots)
      && RunPatches(m, shadows, ps).Some? && OutputsOk(m, RunPatches(m, shadows, ps).value)
  {
    var m' := m.(patches := ps);
    SameBases(m, m', roots);
    OnlyEntriesMatter(m, ps, shadows, ps);
    if RunPatches(m, shadows, ps).Some? { SameOutputs(m, m', RunPatches(m, shadows, ps).value); }
  }

  lemma SameBases(m: Manifest, m': Manifest, roots: map<string, Tree>)
    requires m'.components == m.components && m'.tool == m.tool && roots.Keys == m.components.Keys
    ensures BasesOk(m', roots) <==> BasesOk(m, roots)
    ensures ShadowTrees(m', roots) == ShadowTrees(m, roots)
  {
  }

  lemma SameOutputs(m: Manifest, m': Manifest, final: map<string, Tree>)
    requires m'.components == m.components && m'.tool == m.tool && final.Keys == m.components.Keys
    ensures OutputsOk(m', final) <==> OutputsOk(m, final)
  {
  }

  /** The patches applied to full trees: they succeed exactly when the shadow run does, unpinned
      files are untouched, and the pinned part is the shadow. */
  ghost predicate FaithfulRun(m: Manifest, fulls: map<string, Tree>, shadows: map<string, Tree>)
    requires fulls.Keys == shadows.Keys == m.components.Keys
  {
    var a, b := RunPatches(m, shadows, m.patches), RunPatches(m, fulls, m.patches);
    && (a.Some? <==> b.Some?)
    && (a.Some? ==> forall c :: c in m.components ==>
          var pinned := PathSet(m.components[c].base.Keys);
          Shadowed(b.value[c], pinned, a.value[c]) && b.value[c] - pinned == fulls[c] - pinned)
  }

  lemma ShadowRunIsFaithful(m: Manifest, roots: map<string, Tree>, fulls: map<string, Tree>)
    requires fulls.Keys == roots.Keys == m.components.Keys
    requires forall c :: c in m.components ==>
        BaseOk(m.tool, m.components[c], roots[c]) && WellFormed(roots[c]) && Agrees(m.components[c], fulls[c], roots[c])
    ensures FaithfulRun(m, fulls, ShadowTrees(m, roots))
  {
    var shadows := ShadowTrees(m, roots);
    InterleavingProjects(m, shadows, m.patches);
    InterleavingProjects(m, fulls, m.patches);
    forall c | c in m.components
      ensures RunComponent(m, shadows[c], m.patches, c).Some? <==> RunComponent(m, fulls[c], m.patches, c).Some?
      ensures RunComponent(m, shadows[c], m.patches, c).Some? ==>
                var pinned := PathSet(m.components[c].base.Keys);
                var b := RunComponent(m, fulls[c], m.patches, c).value;
                Shadowed(b, pinned, RunComponent(m, shadows[c], m.patches, c).value) && b - pinned == fulls[c] - pinned
    {
      BaseShadowed(m.tool, m.components[c], fulls[c], roots[c]);
      ComponentFaithful(m, fulls[c], shadows[c], m.patches, c);
    }
  }

  /** If the check passes, the ordered patches apply to every full tree that agrees with the
      checked one on the pinned names; the result matches every output pin and differs from
      the tree it started from in pinned files only. */
  lemma PassHoldsOfCheckouts(m: Manifest, roots: map<string, Tree>, fulls: map<string, Tree>)
    requires Passes(m, roots) && fulls.Keys == m.components.Keys
    requires forall c :: c in m.components ==> WellFormed(roots[c]) && Agrees(m.components[c], fulls[c], roots[c])
    ensures RunPatches(m, fulls, m.patches).Some?
    ensures forall c :: c in m.components ==>
      var pinned := PathSet(m.components[c].base.Keys);
      var result := RunPatches(m, fulls, m.patches).value[c];
      && PinsOk(m.tool, m.components[c], result)
      && Restrict(result, pinned) == RunPatches(m, ShadowTrees(m, roots), m.patches).value[c]
      && result - pinned == fulls[c] - pinned && WellFormed(result)
  {
    ShadowRunIsFaithful(m, roots, fulls);
    var shadows := RunPatches(m, ShadowTrees(m, roots), m.patches).value;
    var results := RunPatches(m, fulls, m.patches).value;
    forall c | c in m.components ensures PinsOk(m.tool, m.components[c], results[c]) {
      PinsCarryOver(m.tool, m.components[c], results[c], shadows[c]);
    }
  }

  lemma PinsCarryOver(tool: Tool, c: Component, f: Tree, s: Tree)
    requires c.base.Keys == c.output.Keys && Shadowed(f, PathSet(c.base.Keys), s) && PinsOk(tool, c, s)
    ensures PinsOk(tool, c, f)
  {
    forall n | n in c.output ensures Matches(tool, Lookup(f, RelativePath(n).value), c.output[n]) {
      SameLookup(f, PathSet(c.base.Keys), s, RelativePath(n).value);
    }
  }
}
