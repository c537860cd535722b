/**
 * Adopting a run's changes into a workspace that others write to as well
 * (src/execution/node-webcontainer-adapter.ts:471-496; src/workspace/memory.ts:41-82).
 */
module WorkspaceAdoption {
  import opened Messages
  import opened WorkspaceTree
  import opened WorkspaceChanges

  /** What one write or removal found at its path, and what it left there. */
  datatype Effect = Effect(path: Path, before: Option<Revised>, after: Option<Revised>)

  /** The files, the number of calls served, and what the calls of this page did. */
  datatype World = World(files: Files, calls: nat, effects: seq<Effect>)

  /**
   * What a page cannot decide: what other writers have made of the files by the time a call is
   * served, the revision a write is given, and whether the operation is still wanted.
   */
  datatype Env = Env(others: (nat, Files) -> Files, revisions: nat -> string, active: nat -> bool)

  function Lookup(files: Files, path: Path): Option<Revised> {
    if path in files then Some(files[path]) else None
  }

  /** The world as the next call finds it. */
  function Served(env: Env, w: World): World {
    w.(files := env.others(w.calls, w.files), calls := w.calls + 1)
  }

  /** What a change expects at its path. */
  predicate Expects(c: Change, found: Option<Revised>) {
    match c
    case Create(_, _) => found.None?
    case Modify(_, _, revision) => found.Some? && found.value.revision == revision
    case Delete(_, revision) => found.Some? && found.value.revision == revision
  }

  /** checkRevision, for a write or a removal: a file that is gone is removed already. */
  predicate Accepts(c: Change, found: Option<Revised>) {
    Expects(c, found) || (c.Delete? && found.None?)
  }

  /** The file a change leaves, written under a new revision. */
  function Left(c: Change, revision: string): Option<Revised> {
    if c.Delete? then None else Some(Revised(c.content, revision))
  }

  function With(files: Files, path: Path, file: Option<Revised>): Files {
    if file.Some? then files[path := file.value] else files - {path}
  }

  /** A write or a removal that is accepted. */
  function Done(env: Env, w: World, c: Change): World {
    var left := Left(c, env.revisions(w.calls));
    World(With(w.files, c.path, left), w.calls, w.effects + [Effect(c.path, Lookup(w.files, c.path), left)])
  }

  datatype Failure = Interrupted | PreflightConflict(path: Path) | Conflict(path: Path)

  datatype Stage = Stage(world: World, failure: Option<Failure>)

  // ---- One change at a time ----

  function Checking(env: Env, s: Stage, c: Change): Stage {
    if s.failure.Some? then s
    else if !env.active(s.world.calls) then Stage(s.world, Some(Interrupted))
    else
      var w := Served(env, s.world);
      Stage(w, if Expects(c, Lookup(w.files, c.path)) then None else Some(PreflightConflict(c.path)))
  }

  function Applying(env: Env, s: Stage, c: Change): Stage {
    if s.failure.Some? then s
    else if !env.active(s.world.calls) then Stage(s.world, Some(Interrupted))
    else
      var w := Served(env, s.world);
      if Accepts(c, Lookup(w.files, c.path)) then Stage(Done(env, w, c), None) else Stage(w, Some(Conflict(c.path)))
  }

  function Checked(env: Env, w: World, changes: seq<Change>, n: nat): Stage
    requires n <= |changes|
  {
    if n == 0 then Stage(w, None) else Checking(env, Checked(env, w, changes, n - 1), changes[n - 1])
  }

  function Applied(env: Env, w: World, changes: seq<Change>, n: nat): Stage
    requires n <= |changes|
  {
    if n == 0 then Stage(w, None) else Applying(env, Applied(env, w, changes, n - 1), changes[n - 1])
  }

  function Adopted(env: Env, w: World, changes: seq<Change>): Stage {
    var preflight := Checked(env, w, changes, |changes|);
    if preflight.failure.Some? then preflight else Applied(env, preflight.world, changes, |changes|)
  }

  // ---- Whatever others do ----

  lemma {:induction false} CheckedWritesNothing(env: Env, w: World, changes: seq<Change>, n: nat)
    requires n <= |changes|
    ensures Checked(env, w, changes, n).world.effects == w.effects
    ensures Checked(env, w, changes, n).failure.Some? ==> !Checked(env, w, changes, n).failure.value.Conflict?
  {
    if n > 0 { CheckedWritesNothing(env, w, changes, n - 1); }
  }

  /** An effect does what its change says, to what its change expects. */
  predicate Faithful(c: Change, e: Effect) {
    && e.path == c.path && Accepts(c, e.before)
    && (c.Delete? ==> e.after.None?) && (!c.Delete? ==> e.after.Some? && e.after.value.content == c.content)
  }

  /** The effects of the first changes, one each, in their order. */
  predicate EffectsOf(changes: seq<Change>, n: nat, effects: seq<Effect>)
    requires n <= |changes|
  {
    |effects| <= n && forall k :: 0 <= k < |effects| ==> Faithful(changes[k], effects[k])
  }

  lemma {:induction false} AppliedFaithfully(env: Env, w: World, changes: seq<Change>, n: nat)
      returns (effects: seq<Effect>)
    requires n <= |changes|
    ensures Applied(env, w, changes, n).world.effects == w.effects + effects && EffectsOf(changes, n, effects)
    ensures Applied(env, w, changes, n).failure.None? ==> |effects| == n
  {
    if n == 0 {
      effects := [];
      assert w.effects + [] == w.effects;
    } else {
      var before := Applied(env, w, changes, n - 1);
      effects := AppliedFaithfully(env, w, changes, n - 1);
      var c, u := changes[n - 1], Served(env, before.world);
      if before.failure.None? && env.active(before.world.calls) && Accepts(c, Lookup(u.files, c.path)) {
        var e := Effect(c.path, Lookup(u.files, c.path), Left(c, env.revisions(u.calls)));
        assert w.effects + effects + [e] == w.effects + (effects + [e]);
        effects := effects + [e];
      }
    }
  }

  /**
   * Whatever other writers do meanwhile: a conflict found in preflight writes nothing, and what
   * is written or removed is the changes in order up to a failure, each over the very revision
   * that was mounted, or over nothing where nothing was.
   */
  lemma {:induction false} AdoptedFaithfully(env: Env, w: World, changes: seq<Change>) returns (effects: seq<Effect>)
    ensures Adopted(env, w, changes).world.effects == w.effects + effects && EffectsOf(changes, |changes|, effects)
    ensures Adopted(env, w, changes).failure.None? ==> |effects| == |changes|
    ensures Adopted(env, w, changes).failure.Some? && Adopted(env, w, changes).failure.value.PreflightConflict? ==>
            effects == []
  {
    var preflight := Checked(env, w, changes, |changes|);
    CheckedWritesNothing(env, w, changes, |changes|);
    if preflight.failure.Some? {
      effects := [];
      assert w.effects + [] == w.effects;
    } else {
      effects := AppliedFaithfully(env, preflight.world, changes, |changes|);
      AppliedFailure(env, preflight.world, changes, |changes|);
    }
  }

  lemma {:induction false} AppliedFailure(env: Env, w: World, changes: seq<Change>, n: nat)
    requires n <= |changes|
    ensures Applied(env, w, changes, n).failure.Some? ==> !Applied(env, w, changes, n).failure.value.PreflightConflict?
  {
    if n > 0 { AppliedFailure(env, w, changes, n - 1); }
  }

  // ---- Alone ----

  /** Nobody else writes. */
  ghost predicate Alone(env: Env) {
    forall n, files :: env.others(n, files) == files
  }

  /** Nobody takes the operation back. */
  ghost predicate Unhurried(env: Env) {
    forall n :: env.active(n)
  }

  lemma {:induction false} CheckedAlone(env: Env, w: World, changes: seq<Change>, n: nat)
    requires n <= |changes| && Alone(env) && Unhurried(env)
    ensures Checked(env, w, changes, n).world.files == w.files
    ensures Checked(env, w, changes, n).failure.None? <==>
            forall k :: 0 <= k < n ==> Expects(changes[k], Lookup(w.files, changes[k].path))
  {
    if n > 0 {
      CheckedAlone(env, w, changes, n - 1);
      var before := Checked(env, w, changes, n - 1);
      if before.failure.Some? {
        var k :| 0 <= k < n - 1 && !Expects(changes[k], Lookup(w.files, changes[k].path));
      }
    }
  }

  function ContentAt(files: Files, path: Path): Option<Content> {
    if path in files then Some(files[path].content) else None
  }

  /** What a path holds once its change, if it has one, is made. */
  function Meant(c: Option<Change>, was: Option<Content>): Option<Content> {
    match c
    case None => was
    case Some(Delete(_, _)) => None
    case Some(other) => Some(other.content)
  }

  /** The first changes find what they expect. */
  predicate AllExpected(files: Files, changes: seq<Change>, n: nat)
    requires n <= |changes|
  {
    forall k :: 0 <= k < n ==> Expects(changes[k], Lookup(files, changes[k].path))
  }

  /** The first `n` changes are made, as far as one path goes. */
  predicate MadeAt(s: Stage, was: Files, changes: seq<Change>, n: nat, path: Path)
    requires n <= |changes|
  {
    && s.failure.None?
    && (ChangeOf(changes[..n], path).None? ==> Lookup(s.world.files, path) == Lookup(was, path))
    && ContentAt(s.world.files, path) == Meant(ChangeOf(changes[..n], path), ContentAt(was, path))
  }

  lemma {:induction false} AppliedAlone(env: Env, w: World, changes: seq<Change>, n: nat, path: Path)
    requires n <= |changes| && Alone(env) && Unhurried(env) && OnePerPath(changes)
    requires AllExpected(w.files, changes, n)
    ensures MadeAt(Applied(env, w, changes, n), w.files, changes, n, path)
    decreases n
  {
    if n > 0 {
      var c, before := changes[n - 1], Applied(env, w, changes, n - 1);
      AppliedAlone(env, w, changes, n - 1, path);
      assert Expects(c, Lookup(before.world.files, c.path)) by {
        AppliedAlone(env, w, changes, n - 1, c.path);
        PrefixOnePerPath(changes, n);
      }
      MadeNext(env, before, w.files, changes, n, path);
    }
  }

  lemma {:induction false} MadeNext(env: Env, before: Stage, was: Files, changes: seq<Change>, n: nat, path: Path)
    requires 0 < n <= |changes| && Alone(env) && Unhurried(env) && MadeAt(before, was, changes, n - 1, path)
    requires Expects(changes[n - 1], Lookup(before.world.files, changes[n - 1].path))
    ensures MadeAt(Applying(env, before, changes[n - 1]), was, changes, n, path)
  {
    ApplyingAlone(env, before, changes[n - 1], path);
    ChangeOfNext(changes, n, path);
  }

  lemma {:induction false} ChangeOfNext(changes: seq<Change>, n: nat, path: Path)
    requires 0 < n <= |changes|
    ensures ChangeOf(changes[..n], path)
            == if changes[n - 1].path == path then Some(changes[n - 1]) else ChangeOf(changes[..n - 1], path)
  {
    assert changes[..n][..n - 1] == changes[..n - 1] && changes[..n][n - 1] == changes[n - 1];
  }

  lemma {:induction false} ApplyingAlone(env: Env, s: Stage, c: Change, path: Path)
    requires Alone(env) && Unhurried(env) && s.failure.None? && Expects(c, Lookup(s.world.files, c.path))
    ensures Applying(env, s, c).failure.None?
    ensures c.path != path ==> Lookup(Applying(env, s, c).world.files, path) == Lookup(s.world.files, path)
    ensures ContentAt(Applying(env, s, c).world.files, path)
            == if c.path == path then Meant(Some(c), None) else ContentAt(s.world.files, path)
  {
    assert Served(env, s.world).files == s.world.files;
  }

  lemma {:induction false} PrefixOnePerPath(changes: seq<Change>, n: nat)
    requires 0 < n <= |changes| && OnePerPath(changes)
    ensures ChangeOf(changes[..n - 1], changes[n - 1].path).None?
  {
    var init := changes[..|changes| - 1];
    if n < |changes| {
      PrefixOnePerPath(init, n);
      assert init[..n - 1] == changes[..n - 1];
    }
  }

  /** The files of a snapshot are all those that may be mounted, each as it was. */
  ghost predicate MountedFrom(mounted: Files, files: Files, mount: Option<Path>) {
    forall path :: Lookup(mounted, path) == if Allowed(mount, path) then Lookup(files, path) else None
  }

  lemma {:induction false} WantedIsExpected(mounted: Files, files: Files, mount: Option<Path>, exported: map<Path,
        Content>, path: Path)
    requires MountedFrom(mounted, files, mount) && Wanted(mounted, exported, path).Some?
    requires path in exported && !Excluded(path) ==> !Attached(mount, path)
    ensures Expects(Wanted(mounted, exported, path).value, Lookup(files, path))
    ensures Wanted(mounted, exported, path).value.path == path
  {
    assert Lookup(mounted, path) == if Allowed(mount, path) then Lookup(files, path) else None;
    if path in exported && !Excluded(path) { assert Allowed(mount, path); }
  }

  /**
   * With nobody else writing, adopting the changes, in any order, makes the files that may be
   * mounted exactly the exported ones and leaves every other file alone.
   */
  lemma {:induction false} AdoptionExact(env: Env, w: World, mounted: Files, mount: Option<Path>, exported: map<Path,
        Content>, changes: seq<Change>)
    requires Alone(env) && Unhurried(env) && MountedFrom(mounted, w.files, mount)
    requires Exact(changes, mounted, exported)
    requires forall path :: path in exported && !Excluded(path) ==> !Attached(mount, path)
    ensures Adopted(env, w, changes).failure.None?
    ensures forall path :: ContentAt(Adopted(env, w, changes).world.files, path) ==
                           if Allowed(mount, path) then (if path in exported then Some(exported[path]) else None)
                           else ContentAt(w.files, path)
  {
    forall k | 0 <= k < |changes| ensures Expects(changes[k], Lookup(w.files, changes[k].path)) {
      ChangeOfIn(changes, changes[k]);
      assert ChangeOf(changes, changes[k].path) == Wanted(mounted, exported, changes[k].path);
      WantedIsExpected(mounted, w.files, mount, exported, changes[k].path);
    }
    CheckedAlone(env, w, changes, |changes|);
    var start := Checked(env, w, changes, |changes|).world;
    AppliedAlone(env, start, changes, |changes|, []);
    forall path
      ensures ContentAt(Adopted(env, w, changes).world.files, path) ==
              if Allowed(mount, path) then (if path in exported then Some(exported[path]) else None)
                  else ContentAt(w.files, path)
    {
      AppliedAlone(env, start, changes, |changes|, path);
      assert changes[..|changes|] == changes;
      assert ChangeOf(changes, path) == Wanted(mounted, exported, path);
      MeantIsExported(mounted, w.files, mount, exported, path);
    }
  }

  lemma {:induction false} MeantIsExported(mounted: Files, files: Files, mount: Option<Path>, exported: map<Path,
        Content>, path: Path)
    requires MountedFrom(mounted, files, mount)
    requires path in exported && !Excluded(path) ==> !Attached(mount, path)
    ensures Meant(Wanted(mounted, exported, path), ContentAt(files, path)) ==
            if Allowed(mount, path) then (if path in exported then Some(exported[path]) else None)
                else ContentAt(files, path)
  {
    assert Lookup(mounted, path) == if Allowed(mount, path) then Lookup(files, path) else None;
  }

  /**
   * Alone, an adoption succeeds exactly when every change finds what it expects, and one that
   * fails leaves every file as it was.
   */
  lemma {:induction false} AloneAllOrNothing(env: Env, w: World, changes: seq<Change>)
    requires Alone(env) && Unhurried(env) && OnePerPath(changes)
    ensures Adopted(env, w, changes).failure.None? <==>
            forall k :: 0 <= k < |changes| ==> Expects(changes[k], Lookup(w.files, changes[k].path))
    ensures Adopted(env, w, changes).failure.Some? ==>
              && Adopted(env, w, changes).world.files == w.files
              && Adopted(env, w, changes).failure.value.PreflightConflict?
  {
    CheckedAlone(env, w, changes, |changes|);
    CheckedFailure(env, w, changes, |changes|);
    var preflight := Checked(env, w, changes, |changes|);
    if preflight.failure.None? { AppliedAlone(env, preflight.world, changes, |changes|, []); }
  }

  lemma {:induction false} CheckedFailure(env: Env, w: World, changes: seq<Change>, n: nat)
    requires n <= |changes| && Unhurried(env)
    ensures Checked(env, w, changes, n).failure.Some? ==> Checked(env, w, changes, n).failure.value.PreflightConflict?
  {
    if n > 0 { CheckedFailure(env, w, changes, n - 1); }
  }

  // ---- Not alone: part of the changes may stay ----

  /** The call that would make a change is not made, or is refused. */
  predicate Stops(env: Env, w: World, c: Change) {
    !env.active(w.calls) || !Accepts(c, Lookup(env.others(w.calls, w.files), c.path))
  }

  /** The first `n` changes are made and the next is not. */
  predicate StopsAfter(env: Env, w: World, changes: seq<Change>, n: nat)
    requires n < |changes|
  {
    Applied(env, w, changes, n).failure.None? && Stops(env, Applied(env, w, changes, n).world, changes[n])
  }

  lemma {:induction false} StopsOnce(env: Env, w: World, changes: seq<Change>, n: nat, m: nat)
    requires n < m <= |changes| && StopsAfter(env, w, changes, n)
    ensures Applied(env, w, changes, m).failure.Some?
    ensures Applied(env, w, changes, m).world.effects == Applied(env, w, changes, n).world.effects
    decreases m
  {
    if n + 1 < m { StopsOnce(env, w, changes, n, m - 1); }
  }

  lemma {:induction false} FindStop(env: Env, w: World, changes: seq<Change>, m: nat) returns (n: nat)
    requires m <= |changes| && Applied(env, w, changes, m).failure.Some?
    ensures n < m && StopsAfter(env, w, changes, n)
  {
    if Applied(env, w, changes, m - 1).failure.Some? {
      n := FindStop(env, w, changes, m - 1);
    } else {
      n := m - 1;
    }
  }

  /** Every change made is one effect. */
  lemma {:induction false} EffectsCount(env: Env, w: World, changes: seq<Change>, n: nat)
    requires n <= |changes| && Applied(env, w, changes, n).failure.None?
    ensures |Applied(env, w, changes, n).world.effects| == |w.effects| + n
  {
    if n > 0 { EffectsCount(env, w, changes, n - 1); }
  }

  /**
   * Exactly when an adoption fails with part of its changes made: the preflight passed, some
   * changes were made, and then others had changed a file under the next one, or the operation
   * was taken back.
   */
  lemma {:induction false} PartStaysExactly(env: Env, w: World, changes: seq<Change>)
    ensures Adopted(env, w, changes).failure.Some? && Adopted(env, w, changes).world.effects != w.effects <==>
            && Checked(env, w, changes, |changes|).failure.None?
            && exists n :: 0 < n < |changes| && StopsAfter(env, Checked(env, w, changes, |changes|).world, changes, n)
  {
    var preflight := Checked(env, w, changes, |changes|);
    CheckedWritesNothing(env, w, changes, |changes|);
    if preflight.failure.None? {
      var start := preflight.world;
      var end := Applied(env, start, changes, |changes|);
      if end.failure.Some? {
        var n := FindStop(env, start, changes, |changes|);
        EffectsCount(env, start, changes, n);
        StopsOnce(env, start, changes, n, |changes|);
      }
      forall n | 0 < n < |changes| && StopsAfter(env, start, changes, n)
        ensures end.failure.Some? && |end.world.effects| == |w.effects| + n
      {
        EffectsCount(env, start, changes, n);
        StopsOnce(env, start, changes, n, |changes|);
      }
    }
  }

  const TWO_FILES: seq<Change> := [Create(["a"], "mine"), Create(["b"], "mine")]

  function Racing(at: nat, files: Files): Files {
    if at == 3 then files[["b"] := Revised("theirs", "r9")] else files
  }

  /**
   * A file another writer creates after the preflight stops the adoption with the first of two
   * files already written.
   */
  lemma {:induction false} ARaceLeavesAPart(env: Env)
    requires env.others == Racing && Unhurried(env)
    ensures Adopted(env, World(map[], 0, []), TWO_FILES).failure == Some(Conflict(["b"]))
    ensures ContentAt(Adopted(env, World(map[], 0, []), TWO_FILES).world.files, ["a"]) == Some("mine")
  {
    var changes := TWO_FILES;
    var w := World(map[], 0, []);
    var w1, w2 := Served(env, w), Served(env, Served(env, w));
    assert Checked(env, w, changes, 1) == Stage(w1, None) by { assert Checked(env, w, changes, 0) == Stage(w, None); }
    assert Checked(env, w, changes, 2) == Stage(w2, None);
    var s1 := Applied(env, w2, changes, 1);
    assert Applied(env, w2, changes, 0) == Stage(w2, None);
    assert s1 == Stage(Done(env, Served(env, w2), changes[0]), None);
    assert s1.world.calls == 3;
    assert Applied(env, w2, changes, 2) == Applying(env, s1, changes[1]);
  }
}
