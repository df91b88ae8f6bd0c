/** Path lookups in a tree, one file replacement, and what both do to the walked manifest. */
module TreePaths {
  import opened Wrappers
  import opened Tree

  const NODE_MODULES := "node_modules"

  function Find(f: Forest, name: string): Option<Node> {
    match f
    case Nil => None
    case Cons(n, node, rest) => if n == name then Some(node) else Find(rest, name)
  }

  /** Opening every component of the path with O_DIRECTORY succeeds. */
  predicate IsDir(f: Forest, path: Path)
    decreases |path|
  {
    path == [] || match Find(f, path[0])
                  case Some(Dir(kids)) => IsDir(kids, path[1..])
                  case _ => false
  }

  /** The bytes read at a path. */
  function Lookup(f: Forest, path: Path): Option<Bytes>
    decreases |path|
  {
    if path == [] then None
    else match Find(f, path[0])
      case None => None
      case Some(File(raw)) => if |path| == 1 then Some(raw) else None
      case Some(Dir(kids)) => Lookup(kids, path[1..])
  }

  function Parent(path: Path): Path
    requires path != []
  {
    path[..|path| - 1]
  }

  // ---------- one replacement ----------

  /** Binds a name in one directory. */
  function Bind(f: Forest, name: string, node: Node): Forest {
    match f
    case Nil => Cons(name, node, Nil)
    case Cons(n, was, rest) =>
      if n == name then Cons(name, node, rest) else Cons(n, was, Bind(rest, name, node))
  }

  /** Renames a finished temporary over the target.  None when a parent is missing or the target is
      a directory: nothing is renamed then. */
  function Replace(f: Forest, path: Path, raw: Bytes): Option<Forest>
    requires path != []
    decreases |path|
  {
    match Find(f, path[0])
    case Some(Dir(kids)) =>
      if |path| == 1 then None
      else (match Replace(kids, path[1..], raw)
            case None => None
            case Some(k) => Some(Bind(f, path[0], Dir(k))))
    case _ => if |path| == 1 then Some(Bind(f, path[0], File(raw))) else None
  }

  lemma {:induction false} BindFinds(f: Forest, name: string, node: Node, other: string)
    ensures Find(Bind(f, name, node), other) == if other == name then Some(node) else Find(f, other)
    ensures Lists(Bind(f, name, node), other) <==> other == name || Lists(f, other)
    decreases f
  {
    if f.Cons? { BindFinds(f.rest, name, node, other); }
  }

  predicate WfNode(node: Node) { node.Dir? ==> Wf(node.kids) }

  lemma {:induction false} BindWf(f: Forest, name: string, node: Node)
    requires Wf(f) && WfNode(node)
    ensures Wf(Bind(f, name, node))
    decreases f
  {
    if f.Cons? {
      BindWf(f.rest, name, node);
      BindFinds(f.rest, name, node, f.name);
    }
  }

  lemma {:induction false} FindWf(f: Forest, name: string)
    requires Wf(f)
    ensures Find(f, name).Some? <==> Lists(f, name)
    ensures Find(f, name).Some? ==> WfNode(Find(f, name).value)
    decreases f
  {
    if f.Cons? { FindWf(f.rest, name); }
  }

  function NodeDirs(node: Option<Node>): nat {
    match node
    case Some(Dir(kids)) => 1 + Dirs(kids)
    case _ => 0
  }

  lemma {:induction false} BindDirs(f: Forest, name: string, node: Node)
    ensures Dirs(Bind(f, name, node)) + NodeDirs(Find(f, name)) == Dirs(f) + NodeDirs(Some(node))
    decreases f
  {
    match f
    case Nil =>
    case Cons(n, File(_), rest) => if n != name { BindDirs(rest, name, node); }
    case Cons(n, Dir(_), rest) => if n != name { BindDirs(rest, name, node); }
  }

  /** A replacement succeeds exactly when the parent is a directory and the target is not one. */
  lemma {:induction false} ReplaceSucceeds(f: Forest, path: Path, raw: Bytes)
    requires path != []
    ensures Replace(f, path, raw).Some? <==> IsDir(f, Parent(path)) && !IsDir(f, path)
    decreases |path|
  {
    if |path| == 1 {
      assert Parent(path) == [];
    } else {
      assert Parent(path)[0] == path[0];
      assert Parent(path)[1..] == Parent(path[1..]);
      match Find(f, path[0])
      case Some(Dir(kids)) => ReplaceSucceeds(kids, path[1..], raw);
      case _ =>
    }
  }

  /** A successful replacement changes what is read at its own path and nothing else: no other file,
      no directory, and not the number of directories. */
  lemma {:induction false} ReplaceKeeps(f: Forest, path: Path, raw: Bytes)
    requires path != [] && Wf(f) && Replace(f, path, raw).Some?
    ensures var g := Replace(f, path, raw).value; Wf(g) && Dirs(g) == Dirs(f)
    decreases |path|
  {
    FindWf(f, path[0]);
    match Find(f, path[0])
    case Some(Dir(kids)) =>
      ReplaceKeeps(kids, path[1..], raw);
      var k := Replace(kids, path[1..], raw).value;
      BindWf(f, path[0], Dir(k));
      BindDirs(f, path[0], Dir(k));
    case _ =>
      BindWf(f, path[0], File(raw));
      BindDirs(f, path[0], File(raw));
  }

  lemma {:induction false} ReplaceReads(f: Forest, path: Path, raw: Bytes, q: Path)
    requires path != [] && Replace(f, path, raw).Some?
    ensures var g := Replace(f, path, raw).value;
      Lookup(g, q) == (if q == path then Some(raw) else Lookup(f, q)) && (IsDir(g, q) <==> IsDir(f, q))
    decreases |path|
  {
    if q != [] {
      match Find(f, path[0])
      case Some(Dir(kids)) =>
        var k := Replace(kids, path[1..], raw).value;
        BindFinds(f, path[0], Dir(k), q[0]);
        if q[0] == path[0] {
          ReplaceReads(kids, path[1..], raw, q[1..]);
          assert q == [q[0]] + q[1..] && path == [path[0]] + path[1..];
        }
      case _ =>
        BindFinds(f, path[0], File(raw), q[0]);
        if q[0] == path[0] && |q| == 1 { assert q == path; }
    }
  }

  // ---------- the walk and the lookup agree ----------

  /** The manifest of a tree lists exactly the paths where a file can be read, with its entry. */
  lemma {:induction false} EntriesLookup(f: Forest, prefix: Path, q: Path)
    requires Wf(f)
    ensures prefix + q in Entries(f, prefix) <==> Lookup(f, q).Some?
    ensures Lookup(f, q).Some? ==> Entries(f, prefix)[prefix + q] == EntryOf(Lookup(f, q).value)
    decreases f, 0
  {
    if q == [] {
      if prefix + q in Entries(f, prefix) { EntriesUnder(f, prefix, prefix + q); }
    } else {
      match f
      case Nil =>
      case Cons(name, node, rest) =>
        EntriesLookup(rest, prefix, q);
        FindWf(rest, name);
        assert (prefix + q)[|prefix|] == q[0];
        if node.File? {
          if q[0] == name && |q| == 1 { assert q == [name]; }
          assert prefix + q == prefix + [name] ==> |q| == 1 && q[0] == name;
        } else {
          KidsLookup(node.kids, name, prefix, q);
        }
    }
  }

  lemma {:induction false} KidsLookup(kids: Forest, name: string, prefix: Path, q: Path)
    requires Wf(kids) && q != []
    ensures prefix + q in Entries(kids, prefix + [name]) <==> q[0] == name && Lookup(kids, q[1..]).Some?
    ensures q[0] == name && Lookup(kids, q[1..]).Some? ==>
              Entries(kids, prefix + [name])[prefix + q] == EntryOf(Lookup(kids, q[1..]).value)
    decreases kids, 1
  {
    if q[0] == name {
      assert prefix + q == prefix + [name] + q[1..];
      EntriesLookup(kids, prefix + [name], q[1..]);
    } else if prefix + q in Entries(kids, prefix + [name]) {
      assert (prefix + q)[..|prefix| + 1][|prefix|] == q[0];
      EntriesUnder(kids, prefix + [name], prefix + q);
    }
  }

  lemma EntriesAt(f: Forest, q: Path)
    requires Wf(f)
    ensures q in Entries(f, []) <==> Lookup(f, q).Some?
    ensures Lookup(f, q).Some? ==> Entries(f, [])[q] == EntryOf(Lookup(f, q).value)
  {
    assert [] + q == q;
    EntriesLookup(f, [], q);
  }

  /** One replacement moves the walked manifest in one entry only. */
  lemma ReplaceEntries(f: Forest, path: Path, raw: Bytes)
    requires path != [] && Wf(f) && Replace(f, path, raw).Some?
    ensures Wf(Replace(f, path, raw).value)
    ensures Entries(Replace(f, path, raw).value, []) == Entries(f, [])[path := EntryOf(raw)]
  {
    var g := Replace(f, path, raw).value;
    ReplaceKeeps(f, path, raw);
    forall q ensures q in Entries(g, []) <==> q in Entries(f, [])[path := EntryOf(raw)] {
      ReplaceReads(f, path, raw, q); EntriesAt(f, q); EntriesAt(g, q);
    }
    forall q | q in Entries(g, []) ensures Entries(g, [])[q] == Entries(f, [])[path := EntryOf(raw)][q] {
      ReplaceReads(f, path, raw, q); EntriesAt(f, q); EntriesAt(g, q);
    }
  }

  // ---------- preserved dependency material ----------

  /** The walk skips a top-level node_modules. */
  function Sources(f: Forest): Forest {
    match f
    case Nil => Nil
    case Cons(n, node, rest) => if n == NODE_MODULES then Sources(rest) else Cons(n, node, Sources(rest))
  }

  lemma {:induction false} SourcesFind(f: Forest, name: string)
    ensures Find(Sources(f), name) == if name == NODE_MODULES then None else Find(f, name)
    ensures Lists(Sources(f), name) <==> name != NODE_MODULES && Lists(f, name)
    decreases f
  {
    if f.Cons? { SourcesFind(f.rest, name); }
  }

  lemma {:induction false} SourcesWf(f: Forest)
    requires Wf(f)
    ensures Wf(Sources(f))
    decreases f
  {
    if f.Cons? { SourcesWf(f.rest); SourcesFind(f.rest, f.name); }
  }

  lemma {:induction false} SourcesBind(f: Forest, name: string, node: Node)
    requires name != NODE_MODULES
    ensures Sources(Bind(f, name, node)) == Bind(Sources(f), name, node)
    decreases f
  {
    if f.Cons? { SourcesBind(f.rest, name, node); }
  }

  lemma SourcesReplace(f: Forest, path: Path, raw: Bytes)
    requires path != [] && path[0] != NODE_MODULES
    ensures Replace(f, path, raw).Some? <==> Replace(Sources(f), path, raw).Some?
    ensures Replace(f, path, raw).Some? ==>
              Sources(Replace(f, path, raw).value) == Replace(Sources(f), path, raw).value
  {
    SourcesFind(f, path[0]);
    match Find(f, path[0])
    case Some(Dir(kids)) =>
      if |path| > 1 && Replace(kids, path[1..], raw).Some? {
        SourcesBind(f, path[0], Dir(Replace(kids, path[1..], raw).value));
      }
    case _ => SourcesBind(f, path[0], File(raw));
  }
}
