/**
 * The workspace as an object, and the loops that adopt changes into it
 * (src/workspace/memory.ts:14-75; src/execution/node-webcontainer-adapter.ts:402-496;
 * src/execution/wasi-preview1-pack.ts:284-303).
 */
module WorkspacePort {
  import opened Messages
  import opened WorkspaceTree
  import opened WorkspaceChanges
  import opened WorkspaceAdoption

  class Workspace {
    const env: Env
    var files: Files
    var calls: nat
    ghost var effects: seq<Effect>

    ghost function Abs(): World
      reads this
    {
      World(files, calls, effects)
    }

    constructor (env: Env, files: Files)
      ensures this.env == env && Abs() == World(files, 0, [])
    {
      this.env, this.files, calls, effects := env, files, 0, [];
    }

    method Read(path: Path) returns (file: Option<Revised>)
      modifies this
      ensures Abs() == Served(env, old(Abs())) && file == Lookup(files, path)
    {
      files, calls := env.others(calls, files), calls + 1;
      file := if path in files then Some(files[path]) else None;
    }

    /** A write under an expected revision, or under the expectation that there is no file. */
    method Write(path: Path, content: Content, expectedRevision: Option<string>) returns (ok: bool)
      modifies this
      ensures var c := if expectedRevision.Some? then Modify(path, content, expectedRevision.value)
              else Create(path, content);
              var w := Served(env, old(Abs()));
              && ok == Accepts(c, Lookup(w.files, path))
              && Abs() == if ok then Done(env, w, c) else w
    {
      files, calls := env.others(calls, files), calls + 1;
      if expectedRevision.None? && path in files { return false; }
      if expectedRevision.Some? && (path !in files || files[path].revision != expectedRevision.value) { return false; }
      var file := Revised(content, env.revisions(calls));
      effects := effects + [Effect(path, Lookup(files, path), Some(file))];
      files := files[path := file];
      ok := true;
    }

    method Remove(path: Path, expectedRevision: string) returns (ok: bool)
      modifies this
      ensures var c, w := Delete(path, expectedRevision), Served(env, old(Abs()));
              && ok == Accepts(c, Lookup(w.files, path))
              && Abs() == if ok then Done(env, w, c) else w
    {
      files, calls := env.others(calls, files), calls + 1;
      if path in files && files[path].revision != expectedRevision { return false; }
      effects := effects + [Effect(path, Lookup(files, path), None)];
      files := files - {path};
      ok := true;
    }

    /** Whether a change finds what it expects. */
    method Check(change: Change) returns (failure: Option<Failure>)
      modifies this
      ensures Stage(Abs(), failure) == Checking(Patient(env), Stage(old(Abs()), None), change)
    {
      var current := Read(change.path);
      if change.Create? {
        if current.Some? { return Some(PreflightConflict(change.path)); }
      } else if current.None? || current.value.revision != change.expectedRevision {
        return Some(PreflightConflict(change.path));
      }
      failure := None;
    }

    /** One round of the preflight loop. */
    method Preflight(change: Change) returns (failure: Option<Failure>)
      modifies this
      ensures Stage(Abs(), failure) == Checking(env, Stage(old(Abs()), None), change)
    {
      if !env.active(calls) { return Some(Interrupted); }
      failure := Check(change);
    }

    /** The write or removal of a change. */
    method Make(change: Change) returns (failure: Option<Failure>)
      modifies this
      ensures Stage(Abs(), failure) == Applying(Patient(env), Stage(old(Abs()), None), change)
    {
      var ok;
      if change.Delete? {
        ok := Remove(change.path, change.expectedRevision);
      } else {
        ok := Write(change.path, change.content, if change.Create? then None else Some(change.expectedRevision));
      }
      failure := if ok then None else Some(Conflict(change.path));
    }

    /** One round of the adoption loop. */
    method Adopt(change: Change) returns (failure: Option<Failure>)
      modifies this
      ensures Stage(Abs(), failure) == Applying(env, Stage(old(Abs()), None), change)
    {
      if !env.active(calls) { return Some(Interrupted); }
      failure := Make(change);
    }

    /** adoptWorkspaceChanges */
    method AdoptWorkspaceChanges(changes: seq<Change>) returns (failure: Option<Failure>)
      modifies this
      ensures Stage(Abs(), failure) == Adopted(env, old(Abs()), changes)
    {
      for i := 0 to |changes|
        invariant Stage(Abs(), None) == Checked(env, old(Abs()), changes, i)
      {
        failure := Preflight(changes[i]);
        if failure.Some? {
          ChecksStop(env, old(Abs()), changes, i + 1);
          return;
        }
      }
      ghost var start := Abs();
      for i := 0 to |changes|
        invariant Stage(Abs(), None) == Applied(env, start, changes, i)
      {
        failure := Adopt(changes[i]);
        if failure.Some? {
          ApplicationsStop(env, start, changes, i + 1);
          return;
        }
      }
      failure := None;
    }

    /** The first `n` of all changes are checked, without interruption. */
    ghost predicate HasChecked(start: World, all: seq<Change>, n: nat, failure: Option<Failure>)
      requires n <= |all|
      reads this
    {
      Stage(Abs(), failure) == Checked(Patient(env), start, all, n)
    }

    /** ... and made. */
    ghost predicate HasMade(start: World, all: seq<Change>, n: nat, failure: Option<Failure>)
      requires n <= |all|
      reads this
    {
      Stage(Abs(), failure) == Applied(Patient(env), start, all, n)
    }

    method CheckNext(change: Change, ghost start: World, ghost all: seq<Change>, ghost n: nat)
        returns (failure: Option<Failure>)
      requires n < |all| && all[n] == change && HasChecked(start, all, n, None)
      modifies this
      ensures HasChecked(start, all, if failure.Some? then |all| else n + 1, failure)
    {
      failure := Check(change);
      if failure.Some? { ChecksStop(Patient(env), start, all, n + 1); }
    }

    method MakeNext(change: Change, ghost start: World, ghost all: seq<Change>, ghost n: nat)
        returns (failure: Option<Failure>)
      requires n < |all| && all[n] == change && HasMade(start, all, n, None)
      modifies this
      ensures HasMade(start, all, if failure.Some? then |all| else n + 1, failure)
    {
      failure := Make(change);
      if failure.Some? { ApplicationsStop(Patient(env), start, all, n + 1); }
    }

    /** One of the write-back's preflight loops, over the changes from the `n`th on. */
    method CheckEach(changes: seq<Change>, ghost start: World, ghost all: seq<Change>, ghost n: nat)
        returns (failure: Option<Failure>)
      requires n + |changes| <= |all| && changes == all[n..n + |changes|] && HasChecked(start, all, n, None)
      modifies this
      ensures HasChecked(start, all, if failure.Some? then |all| else n + |changes|, failure)
    {
      for i := 0 to |changes|
        invariant HasChecked(start, all, n + i, None)
      {
        failure := CheckNext(changes[i], start, all, n + i);
        if failure.Some? { return; }
      }
      failure := None;
    }

    /** One of its writing loops. */
    method MakeEach(changes: seq<Change>, ghost start: World, ghost all: seq<Change>, ghost n: nat)
        returns (failure: Option<Failure>)
      requires n + |changes| <= |all| && changes == all[n..n + |changes|] && HasMade(start, all, n, None)
      modifies this
      ensures HasMade(start, all, if failure.Some? then |all| else n + |changes|, failure)
    {
      for i := 0 to |changes|
        invariant HasMade(start, all, n + i, None)
      {
        failure := MakeNext(changes[i], start, all, n + i);
        if failure.Some? { return; }
      }
      failure := None;
    }

    /** Both preflight loops, and then both writing ones. */
    method WriteAll(changed: seq<Change>, deleted: seq<Change>) returns (failure: Option<Failure>)
      modifies this
      ensures Stage(Abs(), failure) == Adopted(Patient(env), old(Abs()), changed + deleted)
    {
      ghost var all, first := changed + deleted, Abs();
      failure := CheckEach(changed, first, all, 0);
      if failure.Some? { return; }
      failure := CheckEach(deleted, first, all, |changed|);
      if failure.Some? { return; }
      ghost var start := Abs();
      failure := MakeEach(changed, start, all, 0);
      if failure.Some? { return; }
      failure := MakeEach(deleted, start, all, |changed|);
    }

    /** reconcileWorkspace's write-back: the adoption of what changed and then what is gone, never interrupted. */
    method WriteBack(changed: seq<Change>, deleted: seq<Change>, requested: bool, exitCode: int)
        returns (failure: Option<Failure>)
      modifies this
      ensures Stage(Abs(), failure)
              == if requested && exitCode == 0 then Adopted(Patient(env), old(Abs()), changed + deleted)
                 else Stage(old(Abs()), None)
    {
      if !requested || exitCode != 0 { return None; }
      failure := WriteAll(changed, deleted);
    }

    /** assertWorkspaceSnapshotCurrent: the files that may be mounted are still the mounted revisions. */
    method SnapshotIsCurrent(mounted: Files, mount: Option<Path>) returns (current: bool)
      modifies this
      ensures Abs() == Served(env, old(Abs()))
      ensures current <==>
              forall path :: RevisionAt(mounted, path) == if Allowed(mount, path) then RevisionAt(files, path) else None
    {
      files, calls := env.others(calls, files), calls + 1;
      var listed := map path | path in files && Allowed(mount, path) :: files[path].revision;
      var snapshot := map path | path in mounted :: mounted[path].revision;
      current := listed == snapshot;
      forall path
        ensures RevisionAt(mounted, path) == (if path in snapshot then Some(snapshot[path]) else None)
        ensures (if Allowed(mount, path) then RevisionAt(files, path) else None)
                == (if path in listed then Some(listed[path]) else None)
      {
      }
      if !current {
        if forall path :: path in listed <==> path in snapshot {
          var path :| path in listed && listed[path] != snapshot[path];
          assert RevisionAt(mounted, path) == Some(snapshot[path]);
        }
      }
    }
  }

  function RevisionAt(files: Files, path: Path): Option<string> {
    if path in files then Some(files[path].revision) else None
  }

  /** After a failure the loops are over. */
  lemma {:induction false} ChecksStop(env: Env, w: World, changes: seq<Change>, n: nat)
    requires n <= |changes| && Checked(env, w, changes, n).failure.Some?
    ensures Checked(env, w, changes, |changes|) == Checked(env, w, changes, n)
    decreases |changes| - n
  {
    if n < |changes| {
      assert Checked(env, w, changes, n + 1) == Checked(env, w, changes, n);
      ChecksStop(env, w, changes, n + 1);
    }
  }

  lemma {:induction false} ApplicationsStop(env: Env, w: World, changes: seq<Change>, n: nat)
    requires n <= |changes| && Applied(env, w, changes, n).failure.Some?
    ensures Applied(env, w, changes, |changes|) == Applied(env, w, changes, n)
    decreases |changes| - n
  {
    if n < |changes| {
      assert Applied(env, w, changes, n + 1) == Applied(env, w, changes, n);
      ApplicationsStop(env, w, changes, n + 1);
    }
  }

  function Always(n: nat): bool {
    true
  }

  /** The same environment to an operation that nobody takes back. */
  function Patient(env: Env): Env {
    env.(active := Always)
  }

  /**
   * With nobody else writing, the write-back of acceptable files makes the files that may be
   * mounted exactly the returned ones and leaves the rest alone.
   */
  lemma {:induction false} WriteBackExact(env: Env, w: World, mounted: Files, mount: Option<Path>,
        returnedFiles: seq<Returned>, bytes: Content -> nat, changes: seq<Change>)
    requires Alone(env) && MountedFrom(mounted, w.files, mount) && Acceptable(returnedFiles, mount, bytes)
    requires Exact(changes, mounted, FileMap(Placed(returnedFiles), |returnedFiles|))
    ensures Adopted(Patient(env), w, changes).failure.None?
    ensures forall path :: ContentAt(Adopted(Patient(env), w, changes).world.files, path) ==
                           var returned := FileMap(Placed(returnedFiles), |returnedFiles|);
                           if path in returned then Some(returned[path])
                           else if Allowed(mount, path) then None else ContentAt(w.files, path)
  {
    var returned := FileMap(Placed(returnedFiles), |returnedFiles|);
    forall path | path in returned ensures Allowed(mount, path) {
      var k := FileMapHolds(Placed(returnedFiles), |returnedFiles|, path);
    }
    AdoptionExact(Patient(env), w, mounted, mount, returned, changes);
  }
}
