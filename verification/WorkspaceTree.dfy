/** File trees as they are mounted and read back (src/execution/node-webcontainer-adapter.ts:626-652). */
module WorkspaceTree {
  import opened Messages

  /** The segments of a relative path. */
  type Path = seq<string>

  type Content = string

  datatype Node = File(content: Content) | Directory(tree: Tree)

  /** A directory's entries, in insertion order. */
  datatype Tree = Empty | Entry(name: string, node: Node, rest: Tree)

  datatype Named = Named(path: Path, content: Content)

  /** tree[name] */
  function Get(tree: Tree, name: string): Option<Node> {
    match tree
    case Empty => None
    case Entry(n, node, rest) => if n == name then Some(node) else Get(rest, name)
  }

  /** tree[name] = node */
  function Put(tree: Tree, name: string, node: Node): Tree {
    match tree
    case Empty => Entry(name, node, Empty)
    case Entry(n, old_, rest) => if n == name then Entry(n, node, rest) else Entry(n, old_, Put(rest, name, node))
  }

  /** insertTreeFile from segment `i` on; None when the path collides with a file. */
  function Insert(tree: Tree, path: Path, i: nat, content: Content): Option<Tree>
    requires i < |path|
    decreases |path| - i
  {
    if i == |path| - 1 then Some(Put(tree, path[i], File(content)))
    else
      match Get(tree, path[i])
      case Some(File(_)) => None
      case Some(Directory(inner)) => InsertUnder(tree, path, i, content, inner)
      case None => InsertUnder(tree, path, i, content, Empty)
  }

  function InsertUnder(tree: Tree, path: Path, i: nat, content: Content, inner: Tree): Option<Tree>
    requires i < |path| - 1
    decreases |path| - i, 0
  {
    match Insert(inner, path, i + 1, content)
    case Some(t) => Some(Put(tree, path[i], Directory(t)))
    case None => None
  }

  /** The file at a path, from segment `i` on. */
  function Find(tree: Tree, path: Path, i: nat): Option<Content>
    requires i < |path|
    decreases |path| - i
  {
    match Get(tree, path[i])
    case None => None
    case Some(File(content)) => if i == |path| - 1 then Some(content) else None
    case Some(Directory(inner)) => if i == |path| - 1 then None else Find(inner, path, i + 1)
  }

  /** flattenTree */
  function Flatten(tree: Tree, prefix: Path, output: map<Path, Content>): map<Path, Content>
    decreases tree
  {
    match tree
    case Empty => output
    case Entry(name, File(content), rest) => Flatten(rest, prefix, output[prefix + [name] := content])
    case Entry(name, Directory(inner), rest) => Flatten(rest, prefix, Flatten(inner, prefix + [name], output))
  }

  // ---- Names are distinct in every directory ----

  predicate Distinct(tree: Tree) {
    match tree
    case Empty => true
    case Entry(name, node, rest) => Get(rest, name).None? && Distinct(rest) && (node.Directory? ==> Distinct(node.tree))
  }

  lemma {:induction false} GetPut(tree: Tree, name: string, node: Node, other: string)
    ensures Get(Put(tree, name, node), other) == if other == name then Some(node) else Get(tree, other)
  {
    match tree
    case Empty =>
    case Entry(_, _, rest) => GetPut(rest, name, node, other);
  }

  lemma {:induction false} PutDistinct(tree: Tree, name: string, node: Node)
    requires Distinct(tree) && (node.Directory? ==> Distinct(node.tree))
    ensures Distinct(Put(tree, name, node))
  {
    match tree
    case Empty =>
    case Entry(n, _, rest) =>
      if n != name {
        PutDistinct(rest, name, node);
        GetPut(rest, name, node, n);
      }
  }

  lemma {:induction false} GetDistinct(tree: Tree, name: string)
    requires Distinct(tree) && Get(tree, name).Some? && Get(tree, name).value.Directory?
    ensures Distinct(Get(tree, name).value.tree)
  {
    match tree
    case Entry(n, _, rest) => if n != name { GetDistinct(rest, name); }
  }

  // ---- What an insertion does ----

  /** From segment `i` on, `q` follows `path` to its end. */
  predicate AtOrUnder(path: Path, q: Path, i: nat)
    requires i < |path|
    decreases |path| - i
  {
    i < |q| && q[i] == path[i] && (i == |path| - 1 || AtOrUnder(path, q, i + 1))
  }

  lemma {:induction false} AtOrUnderIsPrefix(path: Path, q: Path, i: nat)
    requires i < |path| && i <= |q| && path[..i] == q[..i]
    ensures AtOrUnder(path, q, i) <==> path <= q
    decreases |path| - i
  {
    if i < |q| && q[i] == path[i] {
      assert path[..i + 1] == path[..i] + [path[i]] == q[..i + 1];
      if i < |path| - 1 { AtOrUnderIsPrefix(path, q, i + 1); } else { assert path == path[..i + 1]; }
    }
  }

  /** The inserted file is there, whatever was under its path is gone, and every other file is as it was. */
  lemma {:induction false} InsertFinds(tree: Tree, path: Path, i: nat, content: Content, q: Path)
    requires i < |path| && i < |q| && Insert(tree, path, i, content).Some?
    ensures Find(Insert(tree, path, i, content).value, q, i) ==
            if AtOrUnder(path, q, i) then (if |q| == |path| then Some(content) else None) else Find(tree, q, i)
    decreases |path| - i
  {
    if i == |path| - 1 {
      GetPut(tree, path[i], File(content), q[i]);
    } else {
      var inner := match Get(tree, path[i]) case Some(Directory(t)) => t case _ => Empty;
      var after := Insert(inner, path, i + 1, content).value;
      GetPut(tree, path[i], Directory(after), q[i]);
      if q[i] == path[i] && i < |q| - 1 {
        InsertFinds(inner, path, i + 1, content, q);
      }
    }
  }

  lemma {:induction false} InsertDistinct(tree: Tree, path: Path, i: nat, content: Content)
    requires i < |path| && Distinct(tree) && Insert(tree, path, i, content).Some?
    ensures Distinct(Insert(tree, path, i, content).value)
    decreases |path| - i
  {
    if i == |path| - 1 {
      PutDistinct(tree, path[i], File(content));
    } else {
      var inner := match Get(tree, path[i]) case Some(Directory(t)) => t case _ => Empty;
      if Get(tree, path[i]).Some? { GetDistinct(tree, path[i]); }
      InsertDistinct(inner, path, i + 1, content);
      PutDistinct(tree, path[i], Directory(Insert(inner, path, i + 1, content).value));
    }
  }

  /** An insertion collides only with a file on its way. */
  lemma {:induction false} CollidesWith(tree: Tree, path: Path, i: nat, content: Content) returns (j: nat)
    requires i < |path| && Insert(tree, path, i, content).None?
    ensures i < j < |path| && Find(tree, path[..j], i).Some?
    decreases |path| - i
  {
    match Get(tree, path[i])
    case Some(File(_)) => j := i + 1;
    case Some(Directory(inner)) => j := CollidesWith(inner, path, i + 1, content);
    case None => j := CollidesWith(Empty, path, i + 1, content);
  }

  /** A path that is a file has nothing under it. */
  lemma {:induction false} NothingUnder(tree: Tree, path: Path, q: Path, i: nat)
    requires i < |path| < |q| && path <= q && Find(tree, path, i).Some?
    ensures Find(tree, q, i).None?
    decreases |path| - i
  {
    assert q[i] == path[i];
    if i < |path| - 1 {
      match Get(tree, path[i])
      case Some(Directory(inner)) => NothingUnder(inner, path, q, i + 1);
    }
  }

  // ---- Flattening reads every file ----

  lemma {:induction false} FlattenFinds(tree: Tree, prefix: Path, output: map<Path, Content>, q: Path)
    requires Distinct(tree)
    ensures var under := |prefix| < |q| && q[..|prefix|] == prefix && Find(tree, q, |prefix|).Some?;
            && (q in Flatten(tree, prefix, output) <==> under || q in output)
            && (under ==> Flatten(tree, prefix, output)[q] == Find(tree, q, |prefix|).value)
            && (!under && q in output ==> Flatten(tree, prefix, output)[q] == output[q])
    decreases tree
  {
    var i := |prefix|;
    match tree
    case Empty =>
    case Entry(name, File(content), rest) =>
      var here := prefix + [name];
      FlattenFinds(rest, prefix, output[here := content], q);
      if i < |q| && q[..i] == prefix && q[i] == name {
        assert Find(rest, q, i).None?;
        if |q| == i + 1 { assert q == here; }
      }
    case Entry(name, Directory(inner), rest) =>
      var here := prefix + [name];
      var nested := Flatten(inner, here, output);
      FlattenFinds(inner, here, output, q);
      FlattenFinds(rest, prefix, nested, q);
      if i < |q| && q[..i] == prefix && q[i] == name {
        assert Find(rest, q, i).None?;
        assert q[..i + 1] == here;
      }
  }

  // ---- Mounting a snapshot ----

  /** A tree of the first `n` files, inserted in order; None when one collides. */
  function Mounted(files: seq<Named>, n: nat): Option<Tree>
    requires n <= |files| && forall k :: 0 <= k < |files| ==> files[k].path != []
  {
    if n == 0 then Some(Empty)
    else
      match Mounted(files, n - 1)
      case None => None
      case Some(tree) => Insert(tree, files[n - 1].path, 0, files[n - 1].content)
  }

  /** A snapshot names each file once. */
  predicate Snapshot(files: seq<Named>) {
    && (forall k :: 0 <= k < |files| ==> files[k].path != [])
    && (forall j, k :: 0 <= j < k < |files| ==> files[j].path != files[k].path)
  }

  function FileMap(files: seq<Named>, n: nat): map<Path, Content>
    requires n <= |files|
  {
    if n == 0 then map[] else FileMap(files, n - 1)[files[n - 1].path := files[n - 1].content]
  }

  /** No file's path runs through another file. */
  predicate PrefixFree(files: seq<Named>) {
    forall j, k :: 0 <= j < |files| && 0 <= k < |files| && j != k ==> !(files[j].path <= files[k].path)
  }

  lemma {:induction false} FileMapHolds(files: seq<Named>, n: nat, q: Path) returns (k: nat)
    requires Snapshot(files) && n <= |files|
    ensures k <= n && (k < n <==> q in FileMap(files, n))
    ensures k < n ==> files[k].path == q && FileMap(files, n)[q] == files[k].content
    ensures k == n ==> forall m :: 0 <= m < n ==> files[m].path != q
  {
    if n == 0 {
      k := 0;
    } else if files[n - 1].path == q {
      k := n - 1;
    } else {
      k := FileMapHolds(files, n - 1, q);
      if k == n - 1 { k := n; }
    }
  }

  lemma {:induction false} FileMapOne(files: seq<Named>, n: nat, q: Path)
    requires Snapshot(files) && 0 < n <= |files|
    ensures q in FileMap(files, n) <==> q == files[n - 1].path || q in FileMap(files, n - 1)
    ensures q in FileMap(files, n) ==>
              FileMap(files, n)[q] == if q == files[n - 1].path then files[n - 1].content else FileMap(files, n - 1)[q]
  {
  }

  /** Nothing of the first files is a proper part of the path of the last, or runs through it. */
  lemma {:induction false} NothingClashes(files: seq<Named>, n: nat, q: Path)
    requires Snapshot(files) && PrefixFree(files) && 0 < n <= |files| && q != files[n - 1].path
    requires q <= files[n - 1].path || files[n - 1].path <= q
    ensures q !in FileMap(files, n - 1)
  {
    var k := FileMapHolds(files, n - 1, q);
  }

  /** While no path runs through another, every insertion succeeds and the tree holds exactly the files. */
  lemma {:induction false} MountedHolds(files: seq<Named>, n: nat, q: Path)
    requires Snapshot(files) && PrefixFree(files) && n <= |files| && q != []
    ensures Mounted(files, n).Some? && Distinct(Mounted(files, n).value)
    ensures Find(Mounted(files, n).value, q, 0) == if q in FileMap(files, n) then Some(FileMap(files, n)[q]) else None
  {
    if n > 0 {
      MountedHolds(files, n - 1, q);
      var tree, path, content := Mounted(files, n - 1).value, files[n - 1].path, files[n - 1].content;
      if Insert(tree, path, 0, content).None? {
        var j := CollidesWith(tree, path, 0, content);
        MountedHolds(files, n - 1, path[..j]);
        NothingClashes(files, n, path[..j]);
        assert false;
      }
      InsertDistinct(tree, path, 0, content);
      MountedOne(files, n, tree, q);
    }
  }

  lemma {:induction false} MountedOne(files: seq<Named>, n: nat, tree: Tree, q: Path)
    requires Snapshot(files) && PrefixFree(files) && 0 < n <= |files| && q != []
    requires Insert(tree, files[n - 1].path, 0, files[n - 1].content).Some?
    requires Find(tree, q, 0) == if q in FileMap(files, n - 1) then Some(FileMap(files, n - 1)[q]) else None
    ensures Find(Insert(tree, files[n - 1].path, 0, files[n - 1].content).value, q, 0)
            == if q in FileMap(files, n) then Some(FileMap(files, n)[q]) else None
  {
    var path := files[n - 1].path;
    InsertFinds(tree, path, 0, files[n - 1].content, q);
    AtOrUnderIsPrefix(path, q, 0);
    FileMapOne(files, n, q);
    if path <= q && path != q { NothingClashes(files, n, q); }
  }

  lemma {:induction false} FlattenMounted(files: seq<Named>, n: nat)
    requires Snapshot(files) && PrefixFree(files) && n <= |files|
    ensures Mounted(files, n).Some? && Flatten(Mounted(files, n).value, [], map[]) == FileMap(files, n)
  {
    MountedHolds(files, n, [""]);
    var flat := Flatten(Mounted(files, n).value, [], map[]);
    forall q: Path
      ensures q in flat <==> q in FileMap(files, n)
      ensures q in flat ==> flat[q] == FileMap(files, n)[q]
    {
      FlattenFinds(Mounted(files, n).value, [], map[], q);
      if q != [] { MountedHolds(files, n, q); } else { var k := FileMapHolds(files, n, q); }
    }
  }

  /** Where one path runs through another, the mount fails or what it reads back lacks a file. */
  lemma {:induction false} ClashesLoseFiles(files: seq<Named>, j: nat, k: nat)
    requires Snapshot(files) && j < |files| && k < |files| && j != k && files[j].path <= files[k].path
    requires Mounted(files, |files|).Some? && Distinct(Mounted(files, |files|).value)
    ensures Flatten(Mounted(files, |files|).value, [], map[]) != FileMap(files, |files|)
  {
    var tree, p, q := Mounted(files, |files|).value, files[j].path, files[k].path;
    assert p != q;
    FlattenFinds(tree, [], map[], p);
    FlattenFinds(tree, [], map[], q);
    if Find(tree, p, 0).Some? { NothingUnder(tree, p, q, 0); }
    var a := FileMapHolds(files, |files|, p);
    var b := FileMapHolds(files, |files|, q);
  }

  lemma {:induction false} MountedDistinct(files: seq<Named>, n: nat)
    requires n <= |files| && (forall k :: 0 <= k < |files| ==> files[k].path != []) && Mounted(files, n).Some?
    ensures Distinct(Mounted(files, n).value)
  {
    if n > 0 {
      MountedDistinct(files, n - 1);
      InsertDistinct(Mounted(files, n - 1).value, files[n - 1].path, 0, files[n - 1].content);
    }
  }

  /** A snapshot survives being mounted and read back exactly when no file's path runs through another file. */
  lemma {:induction false} MountsExactly(files: seq<Named>)
    requires Snapshot(files)
    ensures Mounted(files, |files|).Some? && Flatten(Mounted(files, |files|).value, [], map[])
            == FileMap(files, |files|)
            <==> PrefixFree(files)
  {
    if PrefixFree(files) {
      FlattenMounted(files, |files|);
    } else {
      var j, k :| 0 <= j < |files| && 0 <= k < |files| && j != k && files[j].path <= files[k].path;
      if Mounted(files, |files|).Some? {
        MountedDistinct(files, |files|);
        ClashesLoseFiles(files, j, k);
      }
    }
  }

  // ---- Which of the two it is: refused, or a file lost ----

  /** The path of one of the first `n` files runs through an earlier one. */
  predicate RunsThroughEarlier(files: seq<Named>, n: nat)
    requires n <= |files|
  {
    exists j, k :: 0 <= j < k < n && files[j].path <= files[k].path
  }

  /** Whatever a mounted tree finds is one of its files. */
  lemma {:induction false} FoundWasMounted(files: seq<Named>, n: nat, q: Path) returns (k: nat)
    requires n <= |files| && (forall k :: 0 <= k < |files| ==> files[k].path != []) && q != []
    requires Mounted(files, n).Some? && Find(Mounted(files, n).value, q, 0).Some?
    ensures k < n && files[k].path == q
  {
    var tree, path, content := Mounted(files, n - 1).value, files[n - 1].path, files[n - 1].content;
    InsertFinds(tree, path, 0, content, q);
    AtOrUnderIsPrefix(path, q, 0);
    if path == q { k := n - 1; } else { k := FoundWasMounted(files, n - 1, q); }
  }

  /** Once a file is mounted, it or a file its path runs through stays. */
  lemma {:induction false} SomethingStays(files: seq<Named>, n: nat, j: nat) returns (p: Path)
    requires j < n <= |files| && (forall k :: 0 <= k < |files| ==> files[k].path != []) && Mounted(files, n).Some?
    ensures p != [] && p <= files[j].path && Find(Mounted(files, n).value, p, 0).Some?
    decreases n
  {
    var tree, path, content := Mounted(files, n - 1).value, files[n - 1].path, files[n - 1].content;
    p := files[j].path;
    if j < n - 1 { p := SomethingStays(files, n - 1, j); }
    InsertFinds(tree, path, 0, content, p);
    AtOrUnderIsPrefix(path, p, 0);
    if j < n - 1 && path <= p {
      p := path;
      InsertFinds(tree, path, 0, content, p);
      AtOrUnderIsPrefix(path, p, 0);
    }
  }

  /** A file on the way of a path stops its insertion. */
  lemma {:induction false} Blocked(tree: Tree, p: Path, path: Path, i: nat, content: Content)
    requires i < |p| < |path| && p <= path && Find(tree, p, i).Some?
    ensures Insert(tree, path, i, content).None?
    decreases |path| - i
  {
    assert p[i] == path[i];
    match Get(tree, path[i])
    case Some(File(_)) =>
    case Some(Directory(inner)) => Blocked(inner, p, path, i + 1, content);
  }

  lemma {:induction false} BlockedAfter(files: seq<Named>, n: nat, j: nat)
    requires Snapshot(files) && j < n < |files| && files[j].path <= files[n].path
    ensures Mounted(files, n + 1).None?
  {
    if Mounted(files, n).Some? {
      var p := SomethingStays(files, n, j);
      assert files[j].path != files[n].path;
      Blocked(Mounted(files, n).value, p, files[n].path, 0, files[n].content);
    }
  }

  lemma {:induction false} CollisionIsEarlier(files: seq<Named>, n: nat)
    requires Snapshot(files) && 0 < n <= |files| && Mounted(files, n - 1).Some? && Mounted(files, n).None?
    ensures RunsThroughEarlier(files, n)
  {
    var tree, path, content := Mounted(files, n - 1).value, files[n - 1].path, files[n - 1].content;
    var j := CollidesWith(tree, path, 0, content);
    var k := FoundWasMounted(files, n - 1, path[..j]);
    assert files[k].path <= files[n - 1].path;
  }

  lemma {:induction false} RefusedFrom(files: seq<Named>, n: nat)
    requires Snapshot(files) && n <= |files|
    ensures Mounted(files, n).None? <==> RunsThroughEarlier(files, n)
  {
    if n > 0 {
      RefusedFrom(files, n - 1);
      if Mounted(files, n).None? {
        if Mounted(files, n - 1).Some? { CollisionIsEarlier(files, n); }
      } else if RunsThroughEarlier(files, n) {
        var j, k :| 0 <= j < k < n && files[j].path <= files[k].path;
        assert k == n - 1;
        BlockedAfter(files, n - 1, j);
      }
    }
  }

  /** A mount is refused exactly when a file's path runs through an earlier file. */
  lemma {:induction false} MountRefusedExactly(files: seq<Named>)
    requires Snapshot(files)
    ensures Mounted(files, |files|).None? <==> RunsThroughEarlier(files, |files|)
  {
    RefusedFrom(files, |files|);
  }

  /** Every file comes before those whose paths run through it, as in a list sorted by path. */
  predicate PrefixesFirst(files: seq<Named>) {
    forall j, k :: 0 <= j < |files| && 0 <= k < |files| && j != k && files[j].path <= files[k].path ==> j < k
  }

  /** Such a list never loses a file: it is mounted whole, or refused exactly when two paths clash. */
  lemma {:induction false} SortedNeverLoses(files: seq<Named>)
    requires Snapshot(files) && PrefixesFirst(files)
    ensures Mounted(files, |files|).None? <==> !PrefixFree(files)
    ensures Mounted(files, |files|).Some? ==>
              Flatten(Mounted(files, |files|).value, [], map[]) == FileMap(files, |files|)
  {
    MountRefusedExactly(files);
    MountsExactly(files);
    if !PrefixFree(files) {
      var j, k :| 0 <= j < |files| && 0 <= k < |files| && j != k && files[j].path <= files[k].path;
      assert RunsThroughEarlier(files, |files|);
    }
  }

  const OUTER := Named(["a"], "outer")
  const INNER := Named(["a", "b"], "inner")

  /** Of two files whose paths clash, the shorter first is refused, and the longer first is lost. */
  lemma {:induction false} ClashesEitherWay()
    ensures Mounted([OUTER, INNER], 2).None?
    ensures Mounted([INNER, OUTER], 2).Some?
    ensures Flatten(Mounted([INNER, OUTER], 2).value, [], map[]) == map[["a"] := "outer"]
  {
    assert Mounted([OUTER, INNER], 1) == Some(Entry("a", File("outer"), Empty));
    assert Mounted([INNER, OUTER], 1) == Some(Entry("a", Directory(Entry("b", File("inner"), Empty)), Empty));
    var only := Entry("a", File("outer"), Empty);
    assert Mounted([INNER, OUTER], 2) == Some(only);
    assert [] + ["a"] == ["a"] && Flatten(only, [], map[]) == Flatten(Empty, [], map[["a"] := "outer"]);
  }
}
