/**
 * `ApplyEditsWithPolicy` and the git checkpoint around it: proposed edits reach the files of the
 * work tree subject to an execution policy. Files are keyed by cleaned path. Terminal replies, git
 * and every I/O call are inputs.
 */
module Workspace {
  import opened Wrappers
  import opened Strings
  import opened Paths
  import opened EditParser

  datatype Policy = Explain | Plan | Approve | SafeAuto | Autopilot

  type Files = map<string, string>

  function Lookup(files: Files, path: string): Option<string> {
    if path in files then Some(files[path]) else None
  }

  /** The file map with one path's content replaced, created or removed. */
  function With(files: Files, path: string, content: Option<string>): Files {
    match content
    case Some(text) => files[path := text]
    case None => files - {path}
  }

  /** `git stash create`: its output names the stash, or is empty when there is nothing to stash. */
  datatype GitProbe = NoRepository | StashFailed | StashOutput(out: string)

  /** A failed `os.WriteFile` may leave anything behind. */
  datatype WriteOutcome = Stored | Broken(left: Option<string>)

  /** What the outside world answers while one edit is handled. */
  datatype World = World(reply: string, git: GitProbe, dirsMade: bool, readable: bool, write: WriteOutcome)

  datatype ApplyError =
    | DirsFailed(path: string)
    | WriteFailed(path: string)
    | ReadFailed(path: string)
    | ChunkNotFound(path: string)
    | PatchFailed(path: string)

  /** The tracked part of a tree. */
  function Tracked(files: Files, index: Files): Files {
    map p | p in files && p in index :: files[p]
  }

  /** What `git stash create` printed, and the files at that moment. */
  datatype Checkpoint = Checkpoint(out: string, moment: Files) {
    /** The stored id: the new stash, or `HEAD` if there was nothing to stash. */
    function Id(): string {
      if TrimSpace(out) == "" then "HEAD" else TrimSpace(out)
    }

    /** What git holds under that id: a stash keeps tracked paths only; without one, all are as in the index. */
    function Tree(index: Files): Files {
      if TrimSpace(out) == "" then index else Tracked(moment, index)
    }
  }

  /** Git finds nothing to stash only if no tracked path differs from the index. */
  predicate Truthful(out: string, files: Files, index: Files) {
    TrimSpace(out) == "" ==> Tracked(files, index) == index
  }

  /** The user's answer to the confirmation prompt; just pressing return confirms unprotected files. */
  predicate Confirms(isProtected: bool, reply: string) {
    var choice := ToLower(TrimSpace(reply));
    choice == "y" || choice == "yes" || (!isProtected && choice == "")
  }

  /** An edit with its cleaned path, whether that is a protected file, and the user's answer. */
  datatype Target = Target(path: string, isProtected: bool, confirmed: bool, edit: ProposedEdit)

  function Resolve(edit: ProposedEdit, reply: string): Target {
    var path := Clean(edit.filePath);
    var isProtected := IsProtectedFile(path);
    Target(path, isProtected, Confirms(isProtected, reply), edit)
  }

  function ResolveAll(edits: seq<ProposedEdit>, worlds: seq<World>): (targets: seq<Target>)
    requires |edits| == |worlds|
    ensures |targets| == |edits|
  {
    seq(|edits|, k requires 0 <= k < |edits| => Resolve(edits[k], worlds[k].reply))
  }

  predicate IsBlocked(policy: Policy, target: Target) {
    policy == SafeAuto && target.isProtected
  }

  predicate ShouldApply(policy: Policy, target: Target) {
    policy == SafeAuto || policy == Autopilot || (policy == Approve && target.confirmed)
  }

  predicate Proceeds(policy: Policy, target: Target) {
    !IsBlocked(policy, target) && ShouldApply(policy, target)
  }

  /** What became of one edit. */
  datatype Outcome = Applied | Blocked | Declined | Failed(error: ApplyError)

  datatype Change = Change(files: Files, outcome: Outcome)

  /** The first occurrence of the old text replaced, if there is one. */
  function Patch(content: string, edit: ProposedEdit): Option<string> {
    if IndexOf(content, edit.oldText) < 0 then None
    else Some(ReplaceFirst(content, edit.oldText, edit.newText))
  }

  /** The file operations for one edit whose application was decided. */
  function ChangeFile(files: Files, path: string, edit: ProposedEdit, world: World): Change {
    match edit.action
    case Write =>
      if !world.dirsMade then Change(files, Failed(DirsFailed(path)))
      else if world.write.Broken? then Change(With(files, path, world.write.left), Failed(WriteFailed(path)))
      else Change(With(files, path, Some(edit.newText)), Applied)
    case Edit =>
      if !world.readable || path !in files then Change(files, Failed(ReadFailed(path)))
      else
        match Patch(files[path], edit)
        case None => Change(files, Failed(ChunkNotFound(path)))
        case Some(text) =>
          if world.write.Broken? then Change(With(files, path, world.write.left), Failed(PatchFailed(path)))
          else Change(With(files, path, Some(text)), Applied)
  }

  /** One edit under a policy: guardrail, prompt, file operations. */
  function HandleFile(files: Files, target: Target, world: World, policy: Policy): Change {
    if IsBlocked(policy, target) then Change(files, Blocked)
    else if !ShouldApply(policy, target) then Change(files, Declined)
    else ChangeFile(files, target.path, target.edit, world)
  }

  /** The first edit that proceeds and finds git willing takes the batch's checkpoint. */
  function NextCheckpoint(
    taken: Option<Checkpoint>, files: Files, target: Target, world: World, policy: Policy)
    : Option<Checkpoint>
  {
    if taken.None? && Proceeds(policy, target) && world.git.StashOutput?
    then Some(Checkpoint(world.git.out, files))
    else taken
  }

  /** The accounts of a batch: the file map, the returned counts and errors, the batch's checkpoint. */
  datatype Progress = Progress(
    files: Files, applied: nat, blocked: nat, errs: seq<ApplyError>, checkpoint: Option<Checkpoint>)
  {
    function Count(change: Change, taken: Option<Checkpoint>): Progress {
      match change.outcome
      case Applied => Progress(change.files, applied + 1, blocked, errs, taken)
      case Blocked => Progress(change.files, applied, blocked + 1, errs, taken)
      case Declined => Progress(change.files, applied, blocked, errs, taken)
      case Failed(e) => Progress(change.files, applied, blocked, errs + [e], taken)
    }
  }

  function Step(p: Progress, target: Target, world: World, policy: Policy): Progress {
    p.Count(HandleFile(p.files, target, world, policy), NextCheckpoint(p.checkpoint, p.files, target, world, policy))
  }

  /** The loop over the edits of a batch. */
  function Run(targets: seq<Target>, worlds: seq<World>, policy: Policy, files: Files): Progress
    requires |targets| == |worlds|
  {
    var n := |targets|;
    if n == 0 then Progress(files, 0, 0, [], None)
    else
      Step(Run(targets[..n - 1], worlds[..n - 1], policy, files), targets[n - 1], worlds[n - 1], policy)
  }

  lemma RunExtends(
    targets: seq<Target>, worlds: seq<World>, policy: Policy, files: Files, i: nat)
    requires |targets| == |worlds| && i < |targets|
    ensures Run(targets[..i + 1], worlds[..i + 1], policy, files)
         == Step(Run(targets[..i], worlds[..i], policy, files), targets[i], worlds[i], policy)
  {
    assert targets[..i + 1][..i] == targets[..i] && worlds[..i + 1][..i] == worlds[..i];
  }

  /** What is known of one handled edit: the change, and which checkpoint is the last one now. */
  ghost predicate Handled(
    files: Files, target: Target, world: World, policy: Policy, created: bool, last: Option<Checkpoint>,
    change: Change, created': bool, last': Option<Checkpoint>)
  {
    var first := !created && Proceeds(policy, target) && world.git.StashOutput?;
    && change == HandleFile(files, target, world, policy)
    && created' == (created || first)
    && last' == if first then NextCheckpoint(None, files, target, world, policy) else last
  }

  /** The last checkpoint, when the batch may have taken one. */
  function LastOf(taken: Option<Checkpoint>, before: Option<Checkpoint>): Option<Checkpoint> {
    if taken.Some? then taken else before
  }

  lemma LoopStep(
    targets: seq<Target>, worlds: seq<World>, policy: Policy, files: Files, i: nat, p: Progress, c: Change,
    before: Option<Checkpoint>, created': bool, last': Option<Checkpoint>)
    returns (q: Progress)
    requires |targets| == |worlds| && i < |targets| && p == Run(targets[..i], worlds[..i], policy, files)
    requires Handled(p.files, targets[i], worlds[i], policy, p.checkpoint.Some?, LastOf(p.checkpoint, before),
                     c, created', last')
    ensures q == Run(targets[..i + 1], worlds[..i + 1], policy, files)
    ensures q.files == c.files && created' == q.checkpoint.Some? && last' == LastOf(q.checkpoint, before)
    ensures q.applied == p.applied + if c.outcome.Applied? then 1 else 0
    ensures q.blocked == p.blocked + if c.outcome.Blocked? then 1 else 0
    ensures q.errs == p.errs + if c.outcome.Failed? then [c.outcome.error] else []
  {
    RunExtends(targets, worlds, policy, files, i);
    q := Step(p, targets[i], worlds[i], policy);
  }

  /** A whole batch, with the two read-only policies. */
  function Batch(edits: seq<ProposedEdit>, worlds: seq<World>, policy: Policy, files: Files): Progress
    requires |edits| == |worlds|
  {
    if policy == Explain || policy == Plan then Progress(files, 0, |edits|, [], None)
    else Run(ResolveAll(edits, worlds), worlds, policy, files)
  }

  /** What `git checkout` and `git clean` do during a rollback. */
  datatype RollbackWorld = OutsideRepository | CheckoutBroken(left: Files) | CleanBroken(left: Files) | Working

  datatype RollbackError = NotARepository | NoCheckpoint | CheckoutFailed | CleanFailed

  /** `git clean` only looks inside the work tree and leaves git's own files alone. */
  predicate Cleanable(path: string) {
    && !Rooted(path)
    && (Components(path) == [] || Components(path)[0] != "..")
    && !IsGitMetadata(path)
  }

  /** `git checkout -- .` followed by `git clean -fd` under the ignore rules then in force. */
  function RolledBack(files: Files, index: Files, ignored: (Files, string) -> bool): Files {
    var checkedOut := files + index;
    map p | p in checkedOut && (p in index || !Cleanable(p) || ignored(checkedOut, p)) :: checkedOut[p]
  }

  /** `RollbackGitCheckpoint`: the error and the files. What the checkpoint captured is never read. */
  function RollbackOutcome(
    files: Files, index: Files, ignored: (Files, string) -> bool, last: Option<Checkpoint>, git: RollbackWorld)
    : (Option<RollbackError>, Files)
  {
    if git.OutsideRepository? then (Some(NotARepository), files)
    else if last.None? then (Some(NoCheckpoint), files)
    else if index == map[] then (Some(CheckoutFailed), files)
    else
      match git
      case CheckoutBroken(left) => (Some(CheckoutFailed), left)
      case CleanBroken(left) => (Some(CleanFailed), left)
      case _ => (None, RolledBack(files, index, ignored))
  }

  // ----- sessions -----

  /** One call of `ApplyEditsWithPolicy` with what the world answers. */
  datatype BatchCall = BatchCall(edits: seq<ProposedEdit>, worlds: seq<World>, policy: Policy)

  type BatchRun = b: BatchCall | |b.edits| == |b.worlds| witness BatchCall([], [], Plan)

  datatype Session = Session(files: Files, last: Option<Checkpoint>)

  /** Any number of batches, one after the other. */
  function Play(s: Session, batches: seq<BatchRun>): Session
  {
    var n := |batches|;
    if n == 0 then s
    else
      var before, run := Play(s, batches[..n - 1]), batches[n - 1];
      var b := Batch(run.edits, run.worlds, run.policy, before.files);
      Session(b.files, LastOf(b.checkpoint, before.last))
  }

  class WorkTree {
    var files: Files
    var index: Files
    /** The paths `.gitignore` files hide, which depend on the tree. */
    const ignored: (Files, string) -> bool
    var lastCheckpoint: Option<Checkpoint>

    constructor (files: Files, index: Files, ignored: (Files, string) -> bool)
      ensures this.files == files && this.index == index && this.ignored == ignored && lastCheckpoint == None
    {
      this.files, this.index, this.ignored, lastCheckpoint := files, index, ignored, None;
    }

    /** `CreateGitCheckpoint`: remembers the checkpoint, changes no file. */
    method CreateGitCheckpoint(git: GitProbe) returns (cp: Option<Checkpoint>)
      modifies this`lastCheckpoint
      ensures cp.Some? <==> git.StashOutput?
      ensures cp.Some? ==> cp.value == Checkpoint(git.out, files) && cp.value.Id() != ""
      ensures lastCheckpoint == if cp.Some? then cp else old(lastCheckpoint)
    {
      match git
      case NoRepository => cp := None;
      case StashFailed => cp := None;
      case StashOutput(out) =>
        cp := Some(Checkpoint(out, files));
        lastCheckpoint := cp;
    }

    method ApplyEditsWithPolicy(edits: seq<ProposedEdit>, worlds: seq<World>, policy: Policy)
      returns (applied: nat, blocked: nat, errs: seq<ApplyError>)
      requires |edits| == |worlds|
      modifies this`files, this`lastCheckpoint
      ensures var b := Batch(edits, worlds, policy, old(files));
        && files == b.files && applied == b.applied && blocked == b.blocked && errs == b.errs
        && lastCheckpoint == LastOf(b.checkpoint, old(lastCheckpoint))
    {
      applied, blocked, errs := 0, 0, [];
      if |edits| == 0 {
        return;
      }
      if policy == Explain || policy == Plan {
        return 0, |edits|, [];
      }
      var checkpointCreated := false;
      ghost var targets := ResolveAll(edits, worlds);
      ghost var p := Progress(files, 0, 0, [], None);
      for i := 0 to |edits|
        invariant p == Run(targets[..i], worlds[..i], policy, old(files))
        invariant files == p.files && applied == p.applied && blocked == p.blocked && errs == p.errs
        invariant checkpointCreated == p.checkpoint.Some?
        invariant lastCheckpoint == LastOf(p.checkpoint, old(lastCheckpoint))
      {
        var created, outcome := HandleEdit(edits[i], worlds[i], policy, checkpointCreated);
        checkpointCreated := created;
        p := LoopStep(targets, worlds, policy, old(files), i, p, Change(files, outcome),
          old(lastCheckpoint), created, lastCheckpoint);
        match outcome {
          case Applied => applied := applied + 1;
          case Blocked => blocked := blocked + 1;
          case Declined =>
          case Failed(e) => errs := errs + [e];
        }
      }
      assert targets[..|edits|] == targets && worlds[..|edits|] == worlds;
    }

    /** One iteration of the loop over the edits. */
    method HandleEdit(edit: ProposedEdit, world: World, policy: Policy, checkpointCreated: bool)
      returns (created: bool, outcome: Outcome)
      modifies this`files, this`lastCheckpoint
      ensures Handled(old(files), Resolve(edit, world.reply), world, policy, checkpointCreated, old(lastCheckpoint),
                      Change(files, outcome), created, lastCheckpoint)
    {
      created := checkpointCreated;
      var path := Clean(edit.filePath);
      var isProtected := IsProtectedFile(path);
      if isProtected && policy == SafeAuto {
        return created, Blocked;
      }
      var shouldApply := false;
      match policy {
        case SafeAuto => shouldApply := true;
        case Autopilot => shouldApply := true;
        case Approve => shouldApply := Confirms(isProtected, world.reply);
        case _ =>
      }
      if !shouldApply {
        return created, Declined;
      }
      if !created {
        var cp := CreateGitCheckpoint(world.git);
        created := cp.Some?;
      }
      outcome := ApplyChange(path, edit, world);
    }

    method ApplyChange(path: string, edit: ProposedEdit, world: World) returns (outcome: Outcome)
      modifies this`files
      ensures Change(files, outcome) == ChangeFile(old(files), path, edit, world)
    {
      if edit.action == Write {
        if !world.dirsMade {
          return Failed(DirsFailed(path));
        }
        if world.write.Broken? {
          files := With(files, path, world.write.left);
          return Failed(WriteFailed(path));
        }
        files := files[path := edit.newText];
        return Applied;
      }
      if !world.readable || path !in files {
        return Failed(ReadFailed(path));
      }
      var original := files[path];
      if IndexOf(original, edit.oldText) < 0 {
        return Failed(ChunkNotFound(path));
      }
      var patched := ReplaceFirst(original, edit.oldText, edit.newText);
      if world.write.Broken? {
        files := With(files, path, world.write.left);
        return Failed(PatchFailed(path));
      }
      files := files[path := patched];
      return Applied;
    }

    /** `RollbackGitCheckpoint`: needs a checkpoint but never reads what it captured. */
    method RollbackGitCheckpoint(git: RollbackWorld) returns (error: Option<RollbackError>)
      modifies this`files
      ensures (error, files) == RollbackOutcome(old(files), index, ignored, lastCheckpoint, git)
      ensures error in {Some(NotARepository), Some(NoCheckpoint)} ==> files == old(files)
      ensures git.OutsideRepository? <==> error == Some(NotARepository)
      ensures !git.OutsideRepository? && lastCheckpoint == None <==> error == Some(NoCheckpoint)
      ensures error == Some(CheckoutFailed) ==> files == if index == map[] then old(files) else git.left
      ensures error == Some(CleanFailed) ==> git == CleanBroken(files)
      ensures error == None <==> git.Working? && lastCheckpoint.Some? && index != map[]
    {
      if git.OutsideRepository? {
        return Some(NotARepository);
      }
      if lastCheckpoint.None? {
        return Some(NoCheckpoint);
      }
      if index == map[] {
        return Some(CheckoutFailed);
      }
      if git.CheckoutBroken? {
        files := git.left;
        return Some(CheckoutFailed);
      }
      files := files + index;
      if git.CleanBroken? {
        files := git.left;
        return Some(CleanFailed);
      }
      files := map p | p in files && (p in index || !Cleanable(p) || ignored(files, p)) :: files[p];
      return None;
    }
  }
}
