/**
 * The changes a run's output amounts to (src/execution/node-webcontainer-adapter.ts:425-469;
 * src/execution/wasi-preview1-pack.ts:260-285).
 */
module WorkspaceChanges {
  import opened Messages
  import opened WorkspaceTree

  const MAX_CHANGES: nat := 512
  const MAX_CHANGED_BYTES: nat := 8 * 1024 * 1024

  const EXCLUDED_SEGMENTS: set<string> := {".airship", ".git", "node_modules"}

  /** A workspace file, or the mounted copy of one. */
  datatype Revised = Revised(content: Content, revision: string)

  type Files = map<Path, Revised>

  datatype Change =
    | Create(path: Path, content: Content)
    | Modify(path: Path, content: Content, expectedRevision: string)
    | Delete(path: Path, expectedRevision: string)

  predicate Excluded(path: Path) {
    exists i :: 0 <= i < |path| && path[i] in EXCLUDED_SEGMENTS
  }

  /** Under the folder attached from the device, which is at `mount` if that is under the root. */
  predicate Attached(mount: Option<Path>, path: Path) {
    mount.Some? && mount.value <= path
  }

  /** A path is excluded by any of its segments, wherever it stands. */
  lemma {:induction false} ExcludedBySegment(p: Path, q: Path, segment: string)
    ensures Excluded(p + q) <==> Excluded(p) || Excluded(q)
    ensures Excluded([segment]) <==> segment == ".airship" || segment == ".git" || segment == "node_modules"
    ensures !Excluded([])
  {
    if i :| 0 <= i < |p| && p[i] in EXCLUDED_SEGMENTS { assert (p + q)[i] == p[i]; }
    if i :| 0 <= i < |q| && q[i] in EXCLUDED_SEGMENTS { assert (p + q)[|p| + i] == q[i]; }
    if segment in EXCLUDED_SEGMENTS { assert [segment][0] == segment; }
  }

  /** The attached folder is the mount and all that is under it. */
  lemma {:induction false} AttachedIsUnder(mount: Path, path: Path)
    ensures Attached(Some(mount), path) <==> exists rest :: path == mount + rest
    ensures !Attached(None, path)
  {
    if mount <= path { assert path == mount + path[|mount|..]; }
  }

  /** What the run's output asks of the file at a path. */
  function Wanted(mounted: Files, exported: map<Path, Content>, path: Path): Option<Change> {
    if path in exported && !Excluded(path) then
      if path !in mounted then Some(Create(path, exported[path]))
      else if mounted[path].content == exported[path] then None
      else Some(Modify(path, exported[path], mounted[path].revision))
    else if path in mounted && path !in exported then Some(Delete(path, mounted[path].revision))
    else None
  }

  /** The last change of a path. */
  function ChangeOf(changes: seq<Change>, path: Path): Option<Change> {
    if changes == [] then None
    else if changes[|changes| - 1].path == path then Some(changes[|changes| - 1])
    else ChangeOf(changes[..|changes| - 1], path)
  }

  predicate OnePerPath(changes: seq<Change>) {
    changes == [] ||
    (ChangeOf(changes[..|changes| - 1], changes[|changes| - 1].path).None? && OnePerPath(changes[..|changes| - 1]))
  }

  /** Exactly the changes wanted, each once, in some order. */
  ghost predicate Exact(changes: seq<Change>, mounted: Files, exported: map<Path, Content>) {
    OnePerPath(changes) && forall path :: ChangeOf(changes, path) == Wanted(mounted, exported, path)
  }

  function ChangedBytes(bytes: Content -> nat, changes: seq<Change>): nat {
    if changes == [] then 0
    else
      var last := changes[|changes| - 1];
      ChangedBytes(bytes, changes[..|changes| - 1]) + if last.Delete? then 0 else bytes(last.content)
  }

  lemma {:induction false} ChangeOfOne(changes: seq<Change>, c: Change, path: Path)
    ensures ChangeOf(changes + [c], path) == if c.path == path then Some(c) else ChangeOf(changes, path)
  {
    assert (changes + [c])[..|changes|] == changes;
  }

  lemma {:induction false} OnePerPathOne(changes: seq<Change>, c: Change)
    requires OnePerPath(changes) && ChangeOf(changes, c.path).None?
    ensures OnePerPath(changes + [c])
  {
    assert (changes + [c])[..|changes|] == changes;
  }

  lemma {:induction false} ChangedBytesOne(bytes: Content -> nat, changes: seq<Change>, c: Change)
    ensures ChangedBytes(bytes, changes + [c])
            == ChangedBytes(bytes, changes) + if c.Delete? then 0 else bytes(c.content)
  {
    assert (changes + [c])[..|changes|] == changes;
  }

  /** A change is in the list exactly when it is the one of its path. */
  lemma {:induction false} ChangeOfIn(changes: seq<Change>, c: Change)
    requires OnePerPath(changes)
    ensures c in changes <==> ChangeOf(changes, c.path) == Some(c)
  {
    if changes != [] {
      var init, last := changes[..|changes| - 1], changes[|changes| - 1];
      ChangeOfIn(init, c);
      assert changes == init + [last];
      assert c in changes <==> c in init || c == last;
    }
  }

  // ---- Collecting ----

  datatype Collected = Collected(changes: seq<Change>) | AttachedFolder | TooManyChanges | DeltaTooLarge

  /** The changes of the exported files that are not in `rest`, and of no other path. */
  ghost predicate ExportedDone(changes: seq<Change>, mounted: Files, exported: map<Path, Content>, rest: set<Path>) {
    && OnePerPath(changes)
    && forall path :: ChangeOf(changes, path) ==
                      if path in exported && path !in rest then Wanted(mounted, exported, path) else None
  }

  ghost predicate DeletedDone(changes: seq<Change>, mounted: Files, exported: map<Path, Content>, rest: set<Path>) {
    && OnePerPath(changes)
    && forall path :: ChangeOf(changes, path) ==
                      if path in exported || path !in rest then Wanted(mounted, exported, path) else None
  }

  lemma {:induction false} ExportedNext(changes: seq<Change>, mounted: Files, exported: map<Path, Content>,
        rest: set<Path>, path: Path, after: seq<Change>)
    requires ExportedDone(changes, mounted, exported, rest) && path in rest && path in exported
    requires match Wanted(mounted, exported, path) case Some(c) => after == changes + [c] case None => after == changes
    ensures ExportedDone(after, mounted, exported, rest - {path})
  {
    assert ChangeOf(changes, path).None?;
    if Wanted(mounted, exported, path).Some? {
      var c := Wanted(mounted, exported, path).value;
      OnePerPathOne(changes, c);
      forall other ensures ChangeOf(after, other) == if c.path == other then Some(c) else ChangeOf(changes, other) {
        ChangeOfOne(changes, c, other);
      }
    }
  }

  lemma {:induction false} DeletedNext(changes: seq<Change>, mounted: Files, exported: map<Path, Content>,
        rest: set<Path>, path: Path, after: seq<Change>)
    requires DeletedDone(changes, mounted, exported, rest) && path in rest && path in mounted
    requires after == if path in exported then changes else changes + [Delete(path, mounted[path].revision)]
    ensures DeletedDone(after, mounted, exported, rest - {path})
  {
    if path !in exported {
      var c := Delete(path, mounted[path].revision);
      assert ChangeOf(changes, path).None?;
      OnePerPathOne(changes, c);
      forall other ensures ChangeOf(after, other) == if c.path == other then Some(c) else ChangeOf(changes, other) {
        ChangeOfOne(changes, c, other);
      }
    }
  }

  /** The first loop of collectWorkspaceChanges, over the exported files. */
  method ExportedChanges(mounted: Files, exported: map<Path, Content>, mount: Option<Path>, bytes: Content -> nat)
      returns (attached: bool, changes: seq<Change>, changedBytes: nat)
    ensures attached <==> exists path :: path in exported && !Excluded(path) && Attached(mount, path)
    ensures !attached ==> ExportedDone(changes, mounted, exported, {}) && changedBytes == ChangedBytes(bytes, changes)
  {
    changes, changedBytes := [], 0;
    var rest := exported.Keys;
    while rest != {}
      invariant rest <= exported.Keys
      invariant ExportedDone(changes, mounted, exported, rest) && changedBytes == ChangedBytes(bytes, changes)
      invariant forall path :: path in exported && path !in rest && !Excluded(path) ==> !Attached(mount, path)
      decreases |rest|
    {
      var relative :| relative in rest;
      var content := exported[relative];
      ghost var before := changes;
      if !Excluded(relative) {
        if Attached(mount, relative) { return true, changes, changedBytes; }
        if relative !in mounted {
          ChangedBytesOne(bytes, changes, Create(relative, content));
          changes := changes + [Create(relative, content)];
          changedBytes := changedBytes + bytes(content);
        } else if mounted[relative].content != content {
          ChangedBytesOne(bytes, changes, Modify(relative, content, mounted[relative].revision));
          changes := changes + [Modify(relative, content, mounted[relative].revision)];
          changedBytes := changedBytes + bytes(content);
        }
      }
      ExportedNext(before, mounted, exported, rest, relative, changes);
      rest := rest - {relative};
    }
    attached := false;
  }

  /** The second loop, over the mounted files. */
  method DeletedFiles(mounted: Files, exported: map<Path, Content>, changed: seq<Change>) returns (deleted: seq<Change>)
    requires ExportedDone(changed, mounted, exported, {})
    ensures Exact(changed + deleted, mounted, exported)
    ensures forall i :: 0 <= i < |deleted| ==> deleted[i].Delete?
  {
    deleted := [];
    var rest := mounted.Keys;
    assert changed + [] == changed;
    while rest != {}
      invariant rest <= mounted.Keys
      invariant DeletedDone(changed + deleted, mounted, exported, rest)
      invariant forall i :: 0 <= i < |deleted| ==> deleted[i].Delete?
      decreases |rest|
    {
      var path :| path in rest;
      ghost var before := deleted;
      if path !in exported {
        deleted := deleted + [Delete(path, mounted[path].revision)];
        assert changed + deleted == changed + before + [Delete(path, mounted[path].revision)];
      }
      DeletedNext(changed + before, mounted, exported, rest, path, changed + deleted);
      rest := rest - {path};
    }
  }

  lemma {:induction false} DeletesAreFree(bytes: Content -> nat, changed: seq<Change>, deleted: seq<Change>)
    requires forall i :: 0 <= i < |deleted| ==> deleted[i].Delete?
    ensures ChangedBytes(bytes, changed + deleted) == ChangedBytes(bytes, changed)
  {
    if deleted == [] {
      assert changed + [] == changed;
    } else {
      var init, last := deleted[..|deleted| - 1], deleted[|deleted| - 1];
      DeletesAreFree(bytes, changed, init);
      ChangedBytesOne(bytes, changed + init, last);
      assert changed + deleted == (changed + init) + [last];
    }
  }

  /** collectWorkspaceChanges: what the export asks of the workspace, exactly, or a refusal of the whole of it. */
  method CollectWorkspaceChanges(mounted: Files, exported: map<Path, Content>, mount: Option<Path>,
        bytes: Content -> nat)
      returns (r: Collected, ghost all: seq<Change>)
    ensures r == AttachedFolder <==> exists path :: path in exported && !Excluded(path) && Attached(mount, path)
    ensures r != AttachedFolder ==> Exact(all, mounted, exported)
    ensures r == TooManyChanges ==> |all| > MAX_CHANGES
    ensures r == DeltaTooLarge ==> ChangedBytes(bytes, all) > MAX_CHANGED_BYTES
    ensures r.Collected? ==> r.changes == all && |all| <= MAX_CHANGES && ChangedBytes(bytes, all) <= MAX_CHANGED_BYTES
  {
    var attached, changes, changedBytes := ExportedChanges(mounted, exported, mount, bytes);
    all := changes;
    if attached { return AttachedFolder, all; }
    var deleted := DeletedFiles(mounted, exported, changes);
    DeletesAreFree(bytes, changes, deleted);
    changes := changes + deleted;
    all := changes;
    if |changes| > MAX_CHANGES { return TooManyChanges, all; }
    if changedBytes > MAX_CHANGED_BYTES { return DeltaTooLarge, all; }
    r := Collected(changes);
  }

  // ---- The second implementation ----

  datatype Reconciled = Reconciled(changed: seq<Change>, deleted: seq<Change>) | Refused

  /** A returned file that has no business in the workspace root. */
  predicate Allowed(mount: Option<Path>, path: Path) {
    !Excluded(path) && !Attached(mount, path)
  }

  const MAX_RETURNED_FILE_BYTES: nat := 512 * 1024
  const MAX_RETURNED_BYTES: nat := 4 * 1024 * 1024

  /** A returned file under its own name; its path in the workspace root, if the name leads to one. */
  datatype Returned = Returned(name: string, path: Option<Path>, content: Content)

  predicate RelativeName(name: string) {
    name != "" && name[0] != '/' && '\\' !in name
  }

  /** A returned file that may be written back. */
  predicate InPlace(file: Returned, mount: Option<Path>, bytes: Content -> nat) {
    && RelativeName(file.name) && bytes(file.content) <= MAX_RETURNED_FILE_BYTES
    && file.path.Some? && file.path.value != [] && Allowed(mount, file.path.value)
  }

  function ReturnedBytes(files: seq<Returned>, n: nat, bytes: Content -> nat): nat
    requires n <= |files|
  {
    if n == 0 then 0 else ReturnedBytes(files, n - 1, bytes) + bytes(files[n - 1].content)
  }

  lemma {:induction false} ReturnedBytesGrow(files: seq<Returned>, n: nat, m: nat, bytes: Content -> nat)
    requires n <= m <= |files|
    ensures ReturnedBytes(files, n, bytes) <= ReturnedBytes(files, m, bytes)
    decreases m
  {
    if n < m { ReturnedBytesGrow(files, n, m - 1, bytes); }
  }

  /** The returned files under their paths. */
  function Placed(files: seq<Returned>): (r: seq<Named>)
    ensures |r| == |files|
  {
    seq(|files|, k requires 0 <= k < |files| =>
      Named(if files[k].path.Some? then files[k].path.value else [], files[k].content))
  }

  /** Each in place, no path twice, and within the limit together. */
  predicate Acceptable(files: seq<Returned>, mount: Option<Path>, bytes: Content -> nat) {
    && (forall k :: 0 <= k < |files| ==> InPlace(files[k], mount, bytes))
    && Snapshot(Placed(files)) && ReturnedBytes(files, |files|, bytes) <= MAX_RETURNED_BYTES
  }

  predicate NamedAmong(files: seq<Named>, n: nat, path: Path)
    requires n <= |files|
  {
    exists k :: 0 <= k < n && files[k].path == path
  }

  /** The first `n` returned files have been read. */
  ghost predicate ReadUpTo(files: seq<Returned>, n: nat, mount: Option<Path>, bytes: Content -> nat,
        returned: map<Path, Content>)
    requires n <= |files|
  {
    && (forall k :: 0 <= k < n ==> InPlace(files[k], mount, bytes))
    && returned == FileMap(Placed(files), n)
    && (forall j, k :: 0 <= j < k < n ==> Placed(files)[j].path != Placed(files)[k].path)
    && (forall path :: path in returned <==> NamedAmong(Placed(files), n, path))
    && (forall path :: path in returned ==> Allowed(mount, path))
  }

  lemma {:induction false} ReadOne(files: seq<Returned>, n: nat, mount: Option<Path>, bytes: Content -> nat,
        returned: map<Path, Content>)
    requires n < |files| && ReadUpTo(files, n, mount, bytes, returned) && InPlace(files[n], mount, bytes)
    requires files[n].path.value !in returned
    ensures ReadUpTo(files, n + 1, mount, bytes, returned[files[n].path.value := files[n].content])
  {
    var placed, next := Placed(files), returned[files[n].path.value := files[n].content];
    forall path ensures path in next <==> NamedAmong(placed, n + 1, path) {
      if path == placed[n].path { assert NamedAmong(placed, n + 1, path); }
      if NamedAmong(placed, n, path) {
        var k :| 0 <= k < n && placed[k].path == path;
        assert 0 <= k < n + 1;
      }
    }
    forall j | 0 <= j < n ensures placed[j].path != placed[n].path { assert NamedAmong(placed, n, placed[j].path); }
  }

  /** The checks of one returned file. */
  method CheckReturned(file: Returned, mount: Option<Path>, bytes: Content -> nat) returns (ok: bool)
    ensures ok <==> InPlace(file, mount, bytes)
  {
    if file.name == "" || file.name[0] == '/' || '\\' in file.name { return false; }
    if bytes(file.content) > MAX_RETURNED_FILE_BYTES { return false; }
    if file.path.None? || file.path.value == [] { return false; }
    ok := !Attached(mount, file.path.value) && !Excluded(file.path.value);
  }

  lemma {:induction false} AcceptableAll(files: seq<Returned>, mount: Option<Path>, bytes: Content -> nat,
        returned: map<Path, Content>)
    requires ReadUpTo(files, |files|, mount, bytes, returned)
    requires ReturnedBytes(files, |files|, bytes) <= MAX_RETURNED_BYTES
    ensures Acceptable(files, mount, bytes)
  {
    assert forall k :: 0 <= k < |files| && InPlace(files[k], mount, bytes) ==> Placed(files)[k].path != [];
  }

  lemma {:induction false} TakenTwice(files: seq<Returned>, n: nat, mount: Option<Path>, bytes: Content -> nat,
        returned: map<Path, Content>)
    requires n < |files| && ReadUpTo(files, n, mount, bytes, returned)
    requires files[n].path.Some? && files[n].path.value in returned
    ensures !Acceptable(files, mount, bytes)
  {
    assert NamedAmong(Placed(files), n, files[n].path.value) && Placed(files)[n].path == files[n].path.value;
  }

  /** The returned files by path; none if one is out of place or comes twice, or they are too large. */
  method ReadReturned(returnedFiles: seq<Returned>, mount: Option<Path>, bytes: Content -> nat)
      returns (r: Option<map<Path, Content>>)
    ensures r.Some? <==> Acceptable(returnedFiles, mount, bytes)
    ensures r.Some? ==> r.value == FileMap(Placed(returnedFiles), |returnedFiles|)
    ensures r.Some? ==> forall path :: path in r.value ==> Allowed(mount, path)
  {
    var returned: map<Path, Content> := map[];
    var returnedBytes := 0;
    for i := 0 to |returnedFiles|
      invariant ReadUpTo(returnedFiles, i, mount, bytes, returned)
      invariant returnedBytes == ReturnedBytes(returnedFiles, i, bytes) <= MAX_RETURNED_BYTES
    {
      var file := returnedFiles[i];
      var ok := CheckReturned(file, mount, bytes);
      if !ok { return None; }
      returnedBytes := returnedBytes + bytes(file.content);
      ReturnedBytesGrow(returnedFiles, i + 1, |returnedFiles|, bytes);
      if returnedBytes > MAX_RETURNED_BYTES { return None; }
      var path := file.path.value;
      if path in returned {
        TakenTwice(returnedFiles, i, mount, bytes, returned);
        return None;
      }
      ReadOne(returnedFiles, i, mount, bytes, returned);
      returned := returned[path := file.content];
    }
    AcceptableAll(returnedFiles, mount, bytes, returned);
    r := Some(returned);
  }

  /** The returned files whose content is not the mounted one. */
  method ChangedFiles(mounted: Files, returned: map<Path, Content>) returns (changed: seq<Change>)
    requires forall path :: path in returned ==> !Excluded(path)
    ensures ExportedDone(changed, mounted, returned, {})
    ensures forall i :: 0 <= i < |changed| ==> !changed[i].Delete?
  {
    changed := [];
    var rest := returned.Keys;
    while rest != {}
      invariant rest <= returned.Keys
      invariant ExportedDone(changed, mounted, returned, rest)
      invariant forall i :: 0 <= i < |changed| ==> !changed[i].Delete?
      decreases |rest|
    {
      var path :| path in rest;
      ghost var before := changed;
      if path !in mounted {
        changed := changed + [Create(path, returned[path])];
      } else if mounted[path].content != returned[path] {
        changed := changed + [Modify(path, returned[path], mounted[path].revision)];
      }
      ExportedNext(before, mounted, returned, rest, path, changed);
      rest := rest - {path};
    }
  }

  /** reconcileWorkspace, before it writes: what differs, then what is gone. */
  method ReconcileReturned(mounted: Files, returnedFiles: seq<Returned>, mount: Option<Path>, bytes: Content -> nat)
      returns (r: Reconciled)
    ensures r.Reconciled? <==> Acceptable(returnedFiles, mount, bytes)
    ensures r.Reconciled? ==> Exact(r.changed + r.deleted, mounted, FileMap(Placed(returnedFiles), |returnedFiles|))
    ensures r.Reconciled? ==> forall path :: path in FileMap(Placed(returnedFiles), |returnedFiles|) ==>
                                             Allowed(mount, path)
    ensures r.Reconciled? ==> forall i :: 0 <= i < |r.changed| ==> !r.changed[i].Delete?
    ensures r.Reconciled? ==> forall i :: 0 <= i < |r.deleted| ==> r.deleted[i].Delete?
  {
    var returned := ReadReturned(returnedFiles, mount, bytes);
    if returned.None? { return Refused; }
    assert forall path :: path in returned.value ==> Allowed(mount, path);
    var changed := ChangedFiles(mounted, returned.value);
    var deleted := DeletedFiles(mounted, returned.value, changed);
    r := Reconciled(changed, deleted);
  }
}
