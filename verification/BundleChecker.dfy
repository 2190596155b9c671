/** `check_bundle` and its helpers as they run, proved against the verdict `Passes`. */
module BundleChecker {
  import opened Lists
  import opened Paths
  import opened Bundle
  import opened Faithful

  /** The JSON object hook: a repeated key is an error, otherwise every pair is kept. */
  method UniqueObject<V>(pairs: seq<(string, V)>) returns (r: Option<map<string, V>>)
    ensures r.Some? <==> forall i, j :: 0 <= i < j < |pairs| ==> pairs[i].0 != pairs[j].0
    ensures r.Some? ==> (forall i :: 0 <= i < |pairs| ==> pairs[i].0 in r.value && r.value[pairs[i].0] == pairs[i].1)
    ensures r.Some? ==> forall k :: k in r.value ==> exists i :: 0 <= i < |pairs| && pairs[i].0 == k
  {
    var value: map<string, V> := map[];
    for n := 0 to |pairs|
      invariant forall i, j :: 0 <= i < j < n ==> pairs[i].0 != pairs[j].0
      invariant forall i :: 0 <= i < n ==> pairs[i].0 in value && value[pairs[i].0] == pairs[i].1
      invariant forall k :: k in value ==> exists i :: 0 <= i < n && pairs[i].0 == k
    {
      if pairs[n].0 in value { return None; }
      value := value[pairs[n].0 := pairs[n].1];
    }
    return Some(value);
  }

  method OriginalFile(t: Tree, path: Path) returns (found: Found)
    ensures found == Lookup(t, path)
  {
    var k := 1;
    while k <= |path|
      invariant 1 <= k <= |path| + 1
      invariant forall j :: 0 < j < k ==> !(path[..j] in t && t[path[..j]].Symlink?)
    {
      if path[..k] in t && t[path[..k]].Symlink? { return Unsupported; }
      k := k + 1;
    }
    assert path[..|path|] == path;
    if exists j :: 0 < j < |path| && path[..j] in t { return Unsupported; }
    if path in t {
      return match t[path] case Regular(f) => Present(f) case Symlink => Unsupported;
    }
    if exists q :: q in t && path < q { return Unsupported; }
    return Absent;
  }

  lemma LookupFinds(t: Tree, path: Path)
    requires Lookup(t, path) != Unsupported
    ensures path in t <==> Lookup(t, path).Present?
    ensures path in t ==> t[path] == Regular(Lookup(t, path).file)
  {
  }

  predicate NameOk(tool: Tool, c: Component, root: Tree, n: string)
    requires n in c.base && c.base.Keys == c.output.Keys
  {
    && RelativePath(n).Some? && ShaPin(c.base[n]) && ShaPin(c.output[n])
    && Matches(tool, Lookup(root, RelativePath(n).value), c.base[n])
  }

  lemma PathSetStep(names: set<string>, n: string)
    requires RelativePath(n).Some?
    ensures PathSet(names + {n}) == PathSet(names) + {RelativePath(n).value}
  {
  }

  /** One pinned name: validate, read, compare, copy. */
  method CopyName(tool: Tool, c: Component, root: Tree, n: string, before: Tree) returns (ok: bool, shadow: Tree)
    requires n in c.base && c.base.Keys == c.output.Keys
    ensures ok == NameOk(tool, c, root, n)
    ensures ok ==> shadow == var p := RelativePath(n).value; if p in root then before[p := root[p]] else before
  {
    shadow := before;
    var path := RelativePath(n);
    if path.None? || !ShaPin(c.base[n]) || !ShaPin(c.output[n]) { return false, shadow; }
    var found := OriginalFile(root, path.value);
    if !Matches(tool, found, c.base[n]) { return false, shadow; }
    LookupFinds(root, path.value);
    if found.Present? {
      shadow := shadow[path.value := Regular(found.file)];
    }
    return true, shadow;
  }

  method CopyBase(tool: Tool, c: Component, root: Tree) returns (ok: bool, shadow: Tree)
    ensures ok == BaseOk(tool, c, root)
    ensures ok ==> shadow == Shadow(c, root)
  {
    shadow := map[];
    if c.base == map[] || c.base.Keys != c.output.Keys { return false, shadow; }
    var todo := c.base.Keys;
    ghost var done: set<string> := {};
    assert Restrict(root, PathSet(done)) == map[];
    while todo != {}
      invariant todo <= c.base.Keys && done == c.base.Keys - todo
      invariant forall n :: n in done ==> NameOk(tool, c, root, n)
      invariant shadow == Restrict(root, PathSet(done))
      decreases todo
    {
      var n :| n in todo;
      var good, copied := CopyName(tool, c, root, n, shadow);
      if !good { return false, shadow; }
      PathSetStep(done, n);
      CopyStep(root, PathSet(done), RelativePath(n).value);
      todo, shadow, done := todo - {n}, copied, done + {n};
    }
    assert done == c.base.Keys;
    return true, shadow;
  }

  lemma CopyStep(root: Tree, ps: set<Path>, p: Path)
    ensures Restrict(root, ps + {p}) == if p in root then Restrict(root, ps)[p := root[p]] else Restrict(root, ps)
  {
  }

  ghost predicate Prepared(tool: Tool, c: Component, root: Tree, shadow: Tree)
  {
    BaseOk(tool, c, root) && shadow == Shadow(c, root)
  }

  lemma AllPrepared(m: Manifest, roots: map<string, Tree>, shadows: map<string, Tree>)
    requires roots.Keys == m.components.Keys == shadows.Keys
    requires forall c :: c in m.components ==> Prepared(m.tool, m.components[c], roots[c], shadows[c])
    ensures BasesOk(m, roots) && shadows == ShadowTrees(m, roots)
  {
    forall c | c in m.components ensures shadows[c] == ShadowTrees(m, roots)[c] {
      assert Prepared(m.tool, m.components[c], roots[c], shadows[c]);
    }
  }

  method PrepareShadows(m: Manifest, roots: map<string, Tree>) returns (ok: bool, shadows: map<string, Tree>)
    requires roots.Keys == m.components.Keys
    ensures ok == BasesOk(m, roots)
    ensures ok ==> shadows == ShadowTrees(m, roots)
  {
    shadows := map[];
    var todo := m.components.Keys;
    while todo != {}
      invariant todo <= m.components.Keys && shadows.Keys == m.components.Keys - todo
      invariant forall c :: c in shadows ==> Prepared(m.tool, m.components[c], roots[c], shadows[c])
      decreases todo
    {
      var c :| c in todo;
      todo := todo - {c};
      var good, shadow := CopyBase(m.tool, m.components[c], roots[c]);
      if !good { return false, shadows; }
      shadows := shadows[c := shadow];
    }
    AllPrepared(m, roots, shadows);
    return true, shadows;
  }

  lemma NoNextStep(m: Manifest, trees: map<string, Tree>, es: seq<Entry>)
    requires m.components.Keys <= trees.Keys && es != [] && RunPatches(m, trees, es[..|es| - 1]).None?
    ensures RunPatches(m, trees, es).None?
  {
  }

  lemma {:induction false} FailureIsFinal(m: Manifest, trees: map<string, Tree>, es: seq<Entry>, i: nat)
    requires m.components.Keys <= trees.Keys && i <= |es| && RunPatches(m, trees, es[..i]).None?
    ensures RunPatches(m, trees, es).None?
    decreases |es| - i
  {
    if i == |es| {
      assert es[..i] == es;
    } else {
      assert es[..i + 1][..i] == es[..i];
      NoNextStep(m, trees, es[..i + 1]);
      FailureIsFinal(m, trees, es, i + 1);
    }
  }

  /** One entry: all checks, then the application. */
  method ApplyEntry(m: Manifest, trees: map<string, Tree>, e: Entry) returns (r: Option<map<string, Tree>>)
    requires m.components.Keys <= trees.Keys
    ensures r == StepEntry(m, trees, e)
  {
    if e.id == "" || e.component !in m.components { return None; }
    var payload := Payload(m, e);
    if payload.None? || !ShaPin(e.pin) { return None; }
    if e.pin != Some(m.tool.digest(payload.value)) { return None; }
    var names := m.tool.numstat(payload.value);
    if names.None? || names.value == {} || (exists n :: n in names.value && RelativePath(n).None?) { return None; }
    if !(names.value <= m.components[e.component].base.Keys) { return None; }
    var applied := Apply(m.tool, trees[e.component], payload.value, PathSet(names.value));
    if applied.None? { return None; }
    return Some(trees[e.component := applied.value]);
  }

  /** What `checked` lists: the id of every entry, in order. */
  function Identifiers(es: seq<Entry>): (ids: seq<string>)
    ensures |ids| == |es| && forall i :: 0 <= i < |es| ==> ids[i] == es[i].id
  {
    if es == [] then [] else Identifiers(es[..|es| - 1]) + [es[|es| - 1].id]
  }

  lemma IdentifiersStep(es: seq<Entry>, e: Entry)
    ensures Identifiers(es + [e]) == Identifiers(es) + [e.id]
  {
    assert (es + [e])[..|es|] == es;
  }

  /** The identifiers of the entries applied so far. */
  ghost predicate Taken(identifiers: set<string>, es: seq<Entry>)
  {
    forall id :: id in identifiers <==> IdUsed(es, id)
  }

  lemma TakenStep(identifiers: set<string>, es: seq<Entry>, e: Entry)
    requires Taken(identifiers, es)
    ensures Taken(identifiers + {e.id}, es + [e])
  {
    forall id ensures IdUsed(es + [e], id) <==> IdUsed(es, id) || id == e.id {
      if IdUsed(es, id) {
        var i :| 0 <= i < |es| && es[i].id == id;
        assert (es + [e])[i].id == id;
      }
      assert (es + [e])[|es|] == e;
    }
  }

  lemma PatchStep(m: Manifest, trees: map<string, Tree>, es: seq<Entry>, e: Entry, now: map<string, Tree>)
    requires m.components.Keys <= trees.Keys && RunPatches(m, trees, es) == Some(now)
    ensures RunPatches(m, trees, es + [e]) == if IdUsed(es, e.id) then None else StepEntry(m, now, e)
  {
    assert (es + [e])[..|es|] == es;
  }

  /** One iteration: the identifier check, then the entry. */
  method ApplyNext(m: Manifest, ghost shadows: map<string, Tree>, ghost done: seq<Entry>, identifiers: set<string>,
      trees: map<string, Tree>, e: Entry)
      returns (r: Option<map<string, Tree>>)
    requires m.components.Keys <= shadows.Keys && RunPatches(m, shadows, done) == Some(trees)
        && Taken(identifiers, done)
    ensures r == RunPatches(m, shadows, done + [e])
  {
    PatchStep(m, shadows, done, e, trees);
    if e.id in identifiers { return None; }
    r := ApplyEntry(m, trees, e);
  }

  method ApplyPatches(m: Manifest, shadows: map<string, Tree>)
      returns (r: Option<map<string, Tree>>, checked: seq<string>)
    requires m.components.Keys <= shadows.Keys
    ensures r == RunPatches(m, shadows, m.patches)
    ensures r.Some? ==> checked == Identifiers(m.patches)
  {
    var trees, identifiers: set<string> := shadows, {};
    checked := [];
    for i := 0 to |m.patches|
      invariant RunPatches(m, shadows, m.patches[..i]) == Some(trees)
      invariant Taken(identifiers, m.patches[..i])
      invariant checked == Identifiers(m.patches[..i])
    {
      var e := m.patches[i];
      assert m.patches[..i + 1] == m.patches[..i] + [e];
      var next := ApplyNext(m, shadows, m.patches[..i], identifiers, trees, e);
      if next.None? {
        FailureIsFinal(m, shadows, m.patches, i + 1);
        return None, checked;
      }
      TakenStep(identifiers, m.patches[..i], e);
      IdentifiersStep(m.patches[..i], e);
      trees, identifiers, checked := next.value, identifiers + {e.id}, checked + [e.id];
    }
    assert m.patches[..|m.patches|] == m.patches;
    return Some(trees), checked;
  }

  method CheckOutput(tool: Tool, c: Component, s: Tree) returns (ok: bool)
    requires forall n :: n in c.output ==> RelativePath(n).Some?
    ensures ok <==> PinsOk(tool, c, s) && FileNames(s) == PinnedNames(c)
  {
    var todo := c.output.Keys;
    while todo != {}
      invariant todo <= c.output.Keys
      invariant forall n :: n in c.output && n !in todo ==> Matches(tool, Lookup(s, RelativePath(n).value), c.output[n])
      decreases todo
    {
      var n :| n in todo;
      todo := todo - {n};
      var found := OriginalFile(s, RelativePath(n).value);
      if !Matches(tool, found, c.output[n]) { return false; }
    }
    return FileNames(s) == PinnedNames(c);
  }

  /** The whole check: a report listing the applied patches, exactly when the bundle passes. */
  method CheckBundle(m: Manifest, roots: map<string, Tree>) returns (report: Option<seq<string>>)
    ensures report.Some? <==> Passes(m, roots)
    ensures report.Some? ==> report.value == Identifiers(m.patches)
  {
    if m.components == map[] || m.patches == [] || roots.Keys != m.components.Keys { return None; }
    var ok, shadows := PrepareShadows(m, roots);
    if !ok { return None; }
    var final, checked := ApplyPatches(m, shadows);
    if final.None? { return None; }
    OutputNames(m, roots);
    ok := CheckOutputs(m, final.value);
    if !ok { return None; }
    return Some(checked);
  }

  lemma OutputNames(m: Manifest, roots: map<string, Tree>)
    requires roots.Keys == m.components.Keys && BasesOk(m, roots)
    ensures forall c :: c in m.components ==> forall n :: n in m.components[c].output ==> RelativePath(n).Some?
  {
    forall c, n | c in m.components && n in m.components[c].output ensures RelativePath(n).Some? {
      assert BaseOk(m.tool, m.components[c], roots[c]);
      assert n in m.components[c].base;
    }
  }

  method CheckOutputs(m: Manifest, final: map<string, Tree>) returns (ok: bool)
    requires final.Keys == m.components.Keys
    requires forall c :: c in m.components ==> forall n :: n in m.components[c].output ==> RelativePath(n).Some?
    ensures ok == OutputsOk(m, final)
  {
    var todo := m.components.Keys;
    while todo != {}
      invariant todo <= m.components.Keys
      invariant forall c :: c in m.components && c !in todo ==>
          PinsOk(m.tool, m.components[c], final[c]) && FileNames(final[c]) == PinnedNames(m.components[c])
      decreases todo
    {
      var c :| c in todo;
      todo := todo - {c};
      var good := CheckOutput(m.tool, m.components[c], final[c]);
      if !good { return false; }
    }
    return true;
  }
}
