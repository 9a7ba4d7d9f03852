/** What the checkpoint of a batch holds, and what a rollback after a session restores. */
module Rollback {
  import opened Wrappers
  import opened Strings
  import opened Paths
  import opened Workspace

  // ----- the checkpoint of a batch -----

  predicate WouldCheckpoint(target: Target, world: World, policy: Policy) {
    Proceeds(policy, target) && world.git.StashOutput?
  }

  lemma CheckpointStep(p: Progress, target: Target, world: World, policy: Policy)
    ensures Step(p, target, world, policy).checkpoint ==
      if p.checkpoint.None? && WouldCheckpoint(target, world, policy)
      then Some(Checkpoint(world.git.out, p.files))
      else p.checkpoint
  {
  }

  lemma {:induction false} NoCheckpointTaken(
    targets: seq<Target>, worlds: seq<World>, policy: Policy, files: Files, n: nat)
    requires |targets| == |worlds| && n <= |targets|
    requires forall j :: 0 <= j < n ==> !WouldCheckpoint(targets[j], worlds[j], policy)
    ensures Run(targets[..n], worlds[..n], policy, files).checkpoint == None
    decreases n
  {
    if n > 0 {
      NoCheckpointTaken(targets, worlds, policy, files, n - 1);
      RunExtends(targets, worlds, policy, files, n - 1);
      CheckpointStep(
        Run(targets[..n - 1], worlds[..n - 1], policy, files), targets[n - 1], worlds[n - 1], policy);
    }
  }

  lemma CheckpointKept(
    targets: seq<Target>, worlds: seq<World>, policy: Policy, files: Files, i: nat, taken: Checkpoint)
    requires |targets| == |worlds| && i < |targets|
    requires Run(targets[..i], worlds[..i], policy, files).checkpoint == Some(taken)
    ensures Run(targets[..i + 1], worlds[..i + 1], policy, files).checkpoint == Some(taken)
  {
    RunExtends(targets, worlds, policy, files, i);
    CheckpointStep(Run(targets[..i], worlds[..i], policy, files), targets[i], worlds[i], policy);
  }

  lemma {:induction false} CheckpointStays(
    targets: seq<Target>, worlds: seq<World>, policy: Policy, files: Files, m: nat, n: nat,
    taken: Checkpoint)
    requires |targets| == |worlds| && m <= n <= |targets|
    requires Run(targets[..m], worlds[..m], policy, files).checkpoint == Some(taken)
    ensures Run(targets[..n], worlds[..n], policy, files).checkpoint == Some(taken)
    decreases n
  {
    if m < n {
      var i := n - 1;
      CheckpointStays(targets, worlds, policy, files, m, i, taken);
      CheckpointKept(targets, worlds, policy, files, i, taken);
    }
  }

  /** The recorded id is what git printed between white space, and HEAD if it printed nothing else. */
  lemma CheckpointIdExactly(left: string, id: string, right: string, moment: Files)
    requires AllSpace(left) && AllSpace(right) && IsTrimmed(id)
    ensures Checkpoint(left + id + right, moment).Id() == if id == "" then "HEAD" else id
  {
    TrimSpaceExactly(left, id, right);
  }

  /**
   * A batch takes at most one checkpoint: that of the first edit that proceeds while git can stash,
   * and git holds the tracked files as that edit found them.
   */
  lemma CheckpointOfBatch(
    targets: seq<Target>, worlds: seq<World>, policy: Policy, files: Files, index: Files, k: nat)
    requires |targets| == |worlds| && k < |targets| && WouldCheckpoint(targets[k], worlds[k], policy)
    requires forall j :: 0 <= j < k ==> !WouldCheckpoint(targets[j], worlds[j], policy)
    requires Truthful(worlds[k].git.out, Run(targets[..k], worlds[..k], policy, files).files, index)
    ensures var then_, taken := Run(targets[..k], worlds[..k], policy, files).files,
                                Run(targets, worlds, policy, files).checkpoint;
      && taken == Some(Checkpoint(worlds[k].git.out, then_))
      && taken.value.Tree(index) == Tracked(then_, index)
  {
    NoCheckpointTaken(targets, worlds, policy, files, k);
    RunExtends(targets, worlds, policy, files, k);
    CheckpointStep(Run(targets[..k], worlds[..k], policy, files), targets[k], worlds[k], policy);
    CheckpointStays(targets, worlds, policy, files, k + 1, |targets|,
      Checkpoint(worlds[k].git.out, Run(targets[..k], worlds[..k], policy, files).files));
    assert targets[..|targets|] == targets && worlds[..|targets|] == worlds;
  }

  /**
   * If git can stash at the first edit that proceeds, the checkpoint holds every tracked path as it
   * was before the batch, and nothing of the untracked ones.
   */
  lemma FirstAttemptCapturesStart(
    targets: seq<Target>, worlds: seq<World>, policy: Policy, files: Files, index: Files, k: nat)
    requires |targets| == |worlds| && k < |targets| && WouldCheckpoint(targets[k], worlds[k], policy)
    requires forall j :: 0 <= j < k ==> !Proceeds(policy, targets[j])
    requires Truthful(worlds[k].git.out, files, index)
    ensures var taken := Run(targets, worlds, policy, files).checkpoint;
      taken == Some(Checkpoint(worlds[k].git.out, files))
      && forall p :: Lookup(taken.value.Tree(index), p) == if p in index then Lookup(files, p) else None
  {
    NothingProceeds(targets[..k], worlds[..k], policy, files);
    CheckpointOfBatch(targets, worlds, policy, files, index, k);
  }

  lemma {:induction false} NothingProceeds(
    targets: seq<Target>, worlds: seq<World>, policy: Policy, files: Files)
    requires |targets| == |worlds|
    requires forall j :: 0 <= j < |targets| ==> !Proceeds(policy, targets[j])
    ensures Run(targets, worlds, policy, files).files == files
    decreases |targets|
  {
    if targets != [] {
      NothingProceeds(targets[..|targets| - 1], worlds[..|targets| - 1], policy, files);
    }
  }

  // ----- which sessions have a checkpoint -----

  ghost predicate StashesBy(targets: seq<Target>, worlds: seq<World>, policy: Policy, n: nat)
    requires n <= |targets| == |worlds|
  {
    exists k :: 0 <= k < n && WouldCheckpoint(targets[k], worlds[k], policy)
  }

  ghost predicate Stashes(run: BatchRun) {
    StashesBy(ResolveAll(run.edits, run.worlds), run.worlds, run.policy, |run.edits|)
  }

  lemma StashesNext(targets: seq<Target>, worlds: seq<World>, policy: Policy, n: nat)
    requires n < |targets| == |worlds|
    ensures StashesBy(targets, worlds, policy, n + 1)
            <==> StashesBy(targets, worlds, policy, n) || WouldCheckpoint(targets[n], worlds[n], policy)
  {
  }

  lemma {:induction false} StashesUpTo(targets: seq<Target>, worlds: seq<World>, policy: Policy, files: Files, n: nat)
    requires n <= |targets| == |worlds|
    ensures Run(targets[..n], worlds[..n], policy, files).checkpoint.Some? <==> StashesBy(targets, worlds, policy, n)
    decreases n
  {
    if n > 0 {
      StashesUpTo(targets, worlds, policy, files, n - 1);
      StashesNext(targets, worlds, policy, n - 1);
      RunExtends(targets, worlds, policy, files, n - 1);
      CheckpointStep(
        Run(targets[..n - 1], worlds[..n - 1], policy, files), targets[n - 1], worlds[n - 1], policy);
    }
  }

  lemma BatchStashes(run: BatchRun, files: Files)
    ensures Batch(run.edits, run.worlds, run.policy, files).checkpoint.Some? <==> Stashes(run)
  {
    var targets := ResolveAll(run.edits, run.worlds);
    if run.policy == Explain || run.policy == Plan {
      assert forall t :: !Proceeds(run.policy, t);
    } else {
      StashesUpTo(targets, run.worlds, run.policy, files, |targets|);
      assert targets[..|targets|] == targets && run.worlds[..|targets|] == run.worlds;
    }
  }

  ghost predicate AnyStashes(batches: seq<BatchRun>) {
    var n := |batches|;
    n > 0 && (AnyStashes(batches[..n - 1]) || Stashes(batches[n - 1]))
  }

  /** A session has a checkpoint to roll back to exactly when some batch of it took one. */
  lemma {:induction false} SessionStashes(s: Session, batches: seq<BatchRun>)
    ensures Play(s, batches).last.Some? <==> s.last.Some? || AnyStashes(batches)
    decreases |batches|
  {
    var n := |batches|;
    if n > 0 {
      SessionStashes(s, batches[..n - 1]);
      BatchStashes(batches[n - 1], Play(s, batches[..n - 1]).files);
    }
  }

  // ----- what a rollback restores -----

  predicate Hidden(path: string, now: Files, index: Files, ignored: (Files, string) -> bool) {
    ignored(now + index, path)
  }

  /** Paths a rollback is responsible for: inside the work tree and not hidden when git cleans up. */
  predicate Covered(path: string, now: Files, index: Files, ignored: (Files, string) -> bool) {
    path in index || (Cleanable(path) && !Hidden(path, now, index, ignored))
  }

  /** Path by path: tracked ones come from the index, other covered ones go, the rest stays. */
  lemma RollbackByPath(now: Files, index: Files, ignored: (Files, string) -> bool, p: string)
    ensures Lookup(RolledBack(now, index, ignored), p)
         == if Covered(p, now, index, ignored) then Lookup(index, p) else Lookup(now, p)
  {
  }

  /**
   * An untracked file survives exactly if it lies outside the work tree, belongs to git itself, or is
   * ignored; every tracked path comes from the index.
   */
  lemma RollbackSpares(now: Files, index: Files, ignored: (Files, string) -> bool, p: string)
    ensures p in index ==> Lookup(RolledBack(now, index, ignored), p) == Some(index[p])
    ensures p !in index && p in now ==>
      var kept := Lookup(RolledBack(now, index, ignored), p);
      kept == if Rooted(p) || [".."] <= Components(p) || ".git" in Components(p) || ignored(now + index, p)
              then Some(now[p]) else None
    ensures p !in index && p !in now ==> Lookup(RolledBack(now, index, ignored), p) == None
  {
    GitGuardIsComponentTest(p);
  }

  /** Rolling back `now` gives every path it is responsible for the content it had in `before`. */
  ghost predicate Restores(before: Files, now: Files, index: Files, ignored: (Files, string) -> bool) {
    forall p :: Covered(p, now, index, ignored) ==> Lookup(RolledBack(now, index, ignored), p) == Lookup(before, p)
  }

  /**
   * What can be checked beforehand: no tracked path differs from the index, and every untracked path
   * inside the work tree is hidden by the ignore rules, whatever else the tree comes to hold.
   */
  ghost predicate CleanTree(before: Files, index: Files, ignored: (Files, string) -> bool) {
    && (forall p :: p in index ==> Lookup(before, p) == Some(index[p]))
    && (forall p, now: Files :: p in before && p !in index && Cleanable(p) ==> Hidden(p, now, index, ignored))
  }

  /** A rollback restores, whatever happened in between, exactly from a clean tree. */
  lemma RestoresExactly(before: Files, index: Files, ignored: (Files, string) -> bool)
    ensures (forall now :: Restores(before, now, index, ignored)) <==> CleanTree(before, index, ignored)
  {
    if forall now :: Restores(before, now, index, ignored) {
      forall p | p in index ensures Lookup(before, p) == Some(index[p]) {
        assert Restores(before, before, index, ignored);
        RollbackByPath(before, index, ignored, p);
      }
      forall p, now: Files | p in before && p !in index && Cleanable(p) ensures Hidden(p, now, index, ignored) {
        assert Restores(before, now, index, ignored);
        RollbackByPath(now, index, ignored, p);
      }
    }
    if CleanTree(before, index, ignored) {
      forall now ensures Restores(before, now, index, ignored) {
        CleanRestores(before, now, index, ignored);
      }
    }
  }

  lemma CleanRestores(before: Files, now: Files, index: Files, ignored: (Files, string) -> bool)
    requires CleanTree(before, index, ignored)
    ensures Restores(before, now, index, ignored)
  {
    forall p | Covered(p, now, index, ignored)
      ensures Lookup(RolledBack(now, index, ignored), p) == Lookup(before, p)
    {
      RollbackByPath(now, index, ignored, p);
      assert p in before && p !in index && Cleanable(p) ==> Hidden(p, now, index, ignored);
    }
  }

  /**
   * A whole session: any number of batches under any policies, with any failures, of which at least
   * one took a checkpoint. In a repository with tracked files, when git works, the rollback succeeds;
   * from a clean tree it restores what was there before the session; and whatever the tree was, every
   * tracked path ends as in the index, so a pending change to it is lost.
   */
  lemma SessionRollback(before: Files, batches: seq<BatchRun>, index: Files, ignored: (Files, string) -> bool)
    requires index != map[] && AnyStashes(batches)
    ensures RollsBack(before, Play(Session(before, None), batches), index, ignored)
  {
    SessionStashes(Session(before, None), batches);
    CheckpointRollsBack(before, Play(Session(before, None), batches), index, ignored);
  }

  /**
   * How the rollback after a session ends. It succeeds exactly when git works on a repository with
   * tracked files and some batch took a checkpoint; without a repository or a checkpoint, and when
   * nothing is tracked, it reports so and touches no file; a git command that fails leaves what it left.
   */
  lemma RollbackExactly(
    before: Files, batches: seq<BatchRun>, index: Files, ignored: (Files, string) -> bool, git: RollbackWorld)
    ensures var s := Play(Session(before, None), batches);
      var r := RollbackOutcome(s.files, index, ignored, s.last, git);
      && (r.0 == None <==> git == Working && AnyStashes(batches) && index != map[])
      && (git == OutsideRepository ==> r == (Some(NotARepository), s.files))
      && (git != OutsideRepository && !AnyStashes(batches) ==> r == (Some(NoCheckpoint), s.files))
      && (git != OutsideRepository && AnyStashes(batches) && index == map[] ==> r == (Some(CheckoutFailed), s.files))
      && (AnyStashes(batches) && index != map[] ==>
            && (git.CheckoutBroken? ==> r == (Some(CheckoutFailed), git.left))
            && (git.CleanBroken? ==> r == (Some(CleanFailed), git.left)))
  {
    SessionStashes(Session(before, None), batches);
  }

  /** Before any batch a rollback changes nothing, even when git works. */
  lemma NothingToRollBack(before: Files, index: Files, ignored: (Files, string) -> bool)
    ensures RollbackOutcome(before, index, ignored, Play(Session(before, None), []).last, Working)
         == (Some(NoCheckpoint), before)
  {
    RollbackExactly(before, [], index, ignored, Working);
  }

  ghost predicate RollsBack(before: Files, s: Session, index: Files, ignored: (Files, string) -> bool) {
    var r := RollbackOutcome(s.files, index, ignored, s.last, Working);
    && r == (None, RolledBack(s.files, index, ignored))
    && (CleanTree(before, index, ignored) ==> Restores(before, s.files, index, ignored))
    && (forall p :: p in index ==> Lookup(r.1, p) == Some(index[p]))
  }

  lemma CheckpointRollsBack(before: Files, s: Session, index: Files, ignored: (Files, string) -> bool)
    requires index != map[] && s.last.Some?
    ensures RollsBack(before, s, index, ignored)
  {
    if CleanTree(before, index, ignored) {
      CleanRestores(before, s.files, index, ignored);
    }
    forall p | p in index ensures Lookup(RolledBack(s.files, index, ignored), p) == Some(index[p]) {
      RollbackByPath(s.files, index, ignored, p);
    }
  }

  /**
   * A pending change to a tracked file is lost in a rollback, whatever the batch did and although
   * the stash taken at its start holds the change.
   */
  lemma PendingChangeLost(
    targets: seq<Target>, worlds: seq<World>, policy: Policy, before: Files, index: Files,
    ignored: (Files, string) -> bool, k: nat, p: string)
    requires |targets| == |worlds| && k < |targets| && WouldCheckpoint(targets[k], worlds[k], policy)
    requires forall j :: 0 <= j < k ==> !Proceeds(policy, targets[j])
    requires TrimSpace(worlds[k].git.out) != "" && p in before && p in index && before[p] != index[p]
    ensures var batch := Run(targets, worlds, policy, before);
      && batch.checkpoint.Some? && Lookup(batch.checkpoint.value.Tree(index), p) == Some(before[p])
      && Lookup(RolledBack(batch.files, index, ignored), p) == Some(index[p])
  {
    FirstAttemptCapturesStart(targets, worlds, policy, before, index, k);
    RollbackByPath(Run(targets, worlds, policy, before).files, index, ignored, p);
  }

  /** A concrete tree on which a rollback does not bring back what was there. */
  lemma RollbackIsNotUndo()
    ensures var index, before: Files := map["a.go" := "committed"], map["a.go" := "pending"];
      !Restores(before, before, index, (_, _) => false)
  {
    var index, before: Files := map["a.go" := "committed"], map["a.go" := "pending"];
    assert "committed"[0] != "pending"[0];
    RollbackByPath(before, index, (_, _) => false, "a.go");
    assert Covered("a.go", before, index, (_, _) => false);
  }
}
