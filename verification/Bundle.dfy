/**
 The vendor patch-bundle checker. Pinned files are copied from each component's
 checkout into a shadow tree, the ordered patches are applied to the shadows,
 and the result is compared with the output pins; the checkouts are not touched.
 */
module Bundle {
  import opened Lists
  import opened Bytes
  import opened Paths

  type Path = seq<string>
  datatype File = File(bytes: seq<Byte>, executable: bool)
  datatype Node = Regular(file: File) | Symlink
  /** Files and symlinks of a directory tree; directories are implied. */
  type Tree = map<Path, Node>

  /** The root is a directory, and no file or symlink lies below another one. */
  predicate WellFormed(t: Tree)
  {
    [] !in t && forall p, q :: p in t && q in t ==> !(p < q)
  }

  type Pin = Option<string>
  datatype Component = Component(base: map<string, Pin>, output: map<string, Pin>)
  datatype Entry = Entry(id: string, component: string, file: string, pin: Pin)

  /** What is outside the checker: SHA-256, the path list and the effect of a patch.
      `edit` sees and returns only the files at the patch's own paths. */
  datatype Tool = Tool(digest: seq<Byte> -> string,
                       numstat: seq<Byte> -> Option<set<string>>,
                       edit: (seq<Byte>, Tree) -> Option<map<Path, File>>)

  datatype Manifest = Manifest(components: map<string, Component>, patches: seq<Entry>, files: map<Path, seq<Byte>>,
      tool: Tool)

  predicate HexDigit(c: char) { '0' <= c <= '9' || 'a' <= c <= 'f' }
  predicate ShaPin(p: Pin) { p.Some? ==> |p.value| == 64 && forall i :: 0 <= i < |p.value| ==> HexDigit(p.value[i]) }

  function PathSet(names: set<string>): (r: set<Path>)
  {
    set n | n in names && RelativePath(n).Some? :: RelativePath(n).value
  }

  function Restrict(t: Tree, ps: set<Path>): Tree
  {
    map p | p in t && p in ps :: t[p]
  }

  // ----- Reading one pinned file -----

  datatype Found = Present(file: File) | Absent | Unsupported

  /** `original_file`: a symlink or a file on the way, or a directory at the end, is an error. */
  function Lookup(t: Tree, path: Path): Found
  {
    if exists k :: 0 < k <= |path| && path[..k] in t && t[path[..k]].Symlink? then Unsupported
    else if exists k :: 0 < k < |path| && path[..k] in t then Unsupported
    else if path in t then (match t[path] case Regular(f) => Present(f) case Symlink => Unsupported)
    else if exists q :: q in t && path < q then Unsupported
    else Absent
  }

  predicate Matches(tool: Tool, found: Found, pin: Pin)
  {
    match found
    case Present(f) => pin == Some(tool.digest(f.bytes))
    case Absent => pin == None
    case Unsupported => false
  }

  /** The base pins of one component hold of a checkout. */
  predicate BaseOk(tool: Tool, c: Component, root: Tree)
  {
    && c.base != map[] && c.base.Keys == c.output.Keys
    && forall n :: n in c.base ==>
         && RelativePath(n).Some? && ShaPin(c.base[n]) && ShaPin(c.output[n])
         && Matches(tool, Lookup(root, RelativePath(n).value), c.base[n])
  }

  /** The copies made into the shadow. */
  function Shadow(c: Component, root: Tree): Tree
  {
    Restrict(root, PathSet(c.base.Keys))
  }

  // ----- Applying patches -----

  /** `git apply`: local by construction; refused when files and directories would clash. */
  function Apply(tool: Tool, t: Tree, payload: seq<Byte>, ps: set<Path>): Option<Tree>
  {
    match tool.edit(payload, Restrict(t, ps))
    case None => None
    case Some(edited) =>
      var t' := (t - ps) + map p | p in edited && p in ps :: Regular(edited[p]);
      if WellFormed(t') then Some(t') else None
  }

  function Payload(m: Manifest, e: Entry): Option<seq<Byte>>
  {
    match RelativePath(e.file)
    case None => None
    case Some(p) => if p in m.files then Some(m.files[p]) else None
  }

  /** Everything the loop checks of one entry before applying it, bar the uniqueness of its id. */
  predicate EntryOk(m: Manifest, e: Entry)
  {
    && e.id != "" && e.component in m.components
    && Payload(m, e).Some? && ShaPin(e.pin) && e.pin == Some(m.tool.digest(Payload(m, e).value))
    && m.tool.numstat(Payload(m, e).value).Some?
    && var names := m.tool.numstat(Payload(m, e).value).value;
       names != {} && (forall n :: n in names ==> RelativePath(n).Some?) && names <= m.components[e.component].base.Keys
  }

  function Touched(m: Manifest, e: Entry): set<Path>
    requires Payload(m, e).Some? && m.tool.numstat(Payload(m, e).value).Some?
  {
    PathSet(m.tool.numstat(Payload(m, e).value).value)
  }

  predicate IdUsed(es: seq<Entry>, id: string)
  {
    exists i :: 0 <= i < |es| && es[i].id == id
  }

  predicate DistinctIds(es: seq<Entry>)
  {
    forall i, j :: 0 <= i < j < |es| ==> es[i].id != es[j].id
  }

  /** One iteration of the patch loop. */
  function StepEntry(m: Manifest, trees: map<string, Tree>, e: Entry): Option<map<string, Tree>>
    requires m.components.Keys <= trees.Keys
  {
    if !EntryOk(m, e) then None
    else
      match Apply(m.tool, trees[e.component], Payload(m, e).value, Touched(m, e))
      case None => None
      case Some(t) => Some(trees[e.component := t])
  }

  /** The patch loop over one tree per component. */
  function RunPatches(m: Manifest, trees: map<string, Tree>, es: seq<Entry>): Option<map<string, Tree>>
    requires m.components.Keys <= trees.Keys
    ensures RunPatches(m, trees, es).Some? ==> RunPatches(m, trees, es).value.Keys == trees.Keys
  {
    if es == [] then Some(trees)
    else
      var init, e := es[..|es| - 1], es[|es| - 1];
      match RunPatches(m, trees, init)
      case None => None
      case Some(now) =>
        if IdUsed(init, e.id) then None else StepEntry(m, now, e)
  }

  /** One entry as component `c` sees it. */
  function StepOwn(m: Manifest, now: Option<Tree>, e: Entry, c: string): Option<Tree>
  {
    if now.None? || e.component != c then now
    else if !EntryOk(m, e) then None
    else Apply(m.tool, now.value, Payload(m, e).value, Touched(m, e))
  }

  /** The patches of component `c` alone, applied in order to one tree. */
  function RunComponent(m: Manifest, t: Tree, es: seq<Entry>, c: string): Option<Tree>
  {
    if es == [] then Some(t)
    else
      StepOwn(m, RunComponent(m, t, es[..|es| - 1], c), es[|es| - 1], c)
  }

  predicate EntriesOk(m: Manifest, es: seq<Entry>)
  {
    forall i :: 0 <= i < |es| ==> EntryOk(m, es[i])
  }

  /** `trees'` is what each component's own patches make of `trees`. */
  ghost predicate Projects(m: Manifest, trees: map<string, Tree>, es: seq<Entry>, trees': map<string, Tree>)
    requires m.components.Keys <= trees.Keys
  {
    && trees'.Keys == trees.Keys
    && (forall c :: c in m.components ==> RunComponent(m, trees[c], es, c) == Some(trees'[c]))
    && (forall c :: c in trees && c !in m.components ==> trees'[c] == trees[c])
  }

  /** The interleaved loop succeeds exactly when ids are distinct, entries are in order and every
      component's own patches apply; each component's result is that of its own patches alone. */
  lemma {:induction false} InterleavingProjects(m: Manifest, trees: map<string, Tree>, es: seq<Entry>)
    requires m.components.Keys <= trees.Keys
    ensures RunPatches(m, trees, es).Some? <==>
              DistinctIds(es) && EntriesOk(m, es) && forall c :: c in m.components ==>
                  RunComponent(m, trees[c], es, c).Some?
    ensures RunPatches(m, trees, es).Some? ==> Projects(m, trees, es, RunPatches(m, trees, es).value)
  {
    if es != [] {
      var n := |es| - 1;
      var init, e := es[..n], es[n];
      InterleavingProjects(m, trees, init);
      LastDistinct(es);
      LastOk(m, es);
      OwnPrefix(m, es);
      if RunPatches(m, trees, init).Some? && !IdUsed(init, e.id) && EntryOk(m, e) {
        var now := RunPatches(m, trees, init).value;
        assert RunComponent(m, trees[e.component], init, e.component) == Some(now[e.component]);
        assert RunComponent(m, trees[e.component], es, e.component) ==
            Apply(m.tool, now[e.component], Payload(m, e).value, Touched(m, e));
        assert forall c :: c in m.components && c != e.component ==>
            RunComponent(m, trees[c], es, c) == RunComponent(m, trees[c], init, c);
      }
    }
  }

  lemma LastDistinct(es: seq<Entry>)
    requires es != []
    ensures DistinctIds(es) <==> DistinctIds(es[..|es| - 1]) && !IdUsed(es[..|es| - 1], es[|es| - 1].id)
  {
    assert forall i :: 0 <= i < |es| - 1 ==> es[..|es| - 1][i] == es[i];
  }

  lemma LastOk(m: Manifest, es: seq<Entry>)
    requires es != []
    ensures EntriesOk(m, es) <==> EntriesOk(m, es[..|es| - 1]) && EntryOk(m, es[|es| - 1])
  {
    var init, last := es[..|es| - 1], |es| - 1;
    assert forall i :: 0 <= i < last ==> init[i] == es[i];
    if EntriesOk(m, init) && EntryOk(m, es[last]) {
      forall i | 0 <= i < |es| ensures EntryOk(m, es[i]) {
        if i < last { assert EntryOk(m, init[i]); }
      }
    }
  }

  lemma OwnPrefix(m: Manifest, es: seq<Entry>)
    requires es != []
    ensures forall c, t :: RunComponent(m, t, es, c).Some? ==> RunComponent(m, t, es[..|es| - 1], c).Some?
  {
  }
}
