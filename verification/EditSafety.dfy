/** What a batch of edits can and cannot do, and what a rollback undoes. */
module EditSafety {
  import opened Wrappers
  import opened Strings
  import opened Paths
  import opened BlockRegex
  import opened EditParser
  import opened Workspace

  // ----- frame properties -----

  /** One edit touches its own cleaned path at most, and only if it proceeds. */
  lemma StepFrame(before: Progress, target: Target, world: World, policy: Policy, p: string)
    requires p != target.path || !Proceeds(policy, target)
    ensures Lookup(Step(before, target, world, policy).files, p) == Lookup(before.files, p)
  {
  }

  /** A path changes only if some edit of the batch names it and proceeds. */
  lemma {:induction false} RunFrame(
    targets: seq<Target>, worlds: seq<World>, policy: Policy, files: Files, p: string)
    requires |targets| == |worlds|
    requires forall k :: 0 <= k < |targets| ==> p != targets[k].path || !Proceeds(policy, targets[k])
    ensures Lookup(Run(targets, worlds, policy, files).files, p) == Lookup(files, p)
  {
    RunFrameUpTo(targets, worlds, policy, files, p, |targets|);
    assert targets[..|targets|] == targets && worlds[..|targets|] == worlds;
  }

  lemma {:induction false} RunFrameUpTo(
    targets: seq<Target>, worlds: seq<World>, policy: Policy, files: Files, p: string, n: nat)
    requires |targets| == |worlds| && n <= |targets|
    requires forall k :: 0 <= k < n ==> p != targets[k].path || !Proceeds(policy, targets[k])
    ensures Lookup(Run(targets[..n], worlds[..n], policy, files).files, p) == Lookup(files, p)
    decreases n
  {
    if n > 0 {
      RunFrameUpTo(targets, worlds, policy, files, p, n - 1);
      RunExtends(targets, worlds, policy, files, n - 1);
      StepFrame(Run(targets[..n - 1], worlds[..n - 1], policy, files), targets[n - 1], worlds[n - 1], policy, p);
    }
  }

  /** Under safe-auto no protected file changes, whatever is proposed and whatever fails. */
  lemma SafeAutoProtects(edits: seq<ProposedEdit>, worlds: seq<World>, files: Files, p: string)
    requires |edits| == |worlds| && IsProtectedFile(p)
    ensures Lookup(Batch(edits, worlds, SafeAuto, files).files, p) == Lookup(files, p)
  {
    var targets := ResolveAll(edits, worlds);
    forall k | 0 <= k < |targets| ensures p != targets[k].path || !Proceeds(SafeAuto, targets[k]) {
      assert targets[k] == Resolve(edits[k], worlds[k].reply);
    }
    RunFrame(targets, worlds, SafeAuto, files, p);
  }

  predicate SaysYes(world: World) {
    ToLower(TrimSpace(world.reply)) in {"y", "yes"}
  }

  /** Under approve, a protected file changes only if an edit naming it was confirmed explicitly. */
  lemma ApproveAsks(edits: seq<ProposedEdit>, worlds: seq<World>, files: Files, p: string)
    requires |edits| == |worlds| && IsProtectedFile(p)
    requires Lookup(Batch(edits, worlds, Approve, files).files, p) != Lookup(files, p)
    ensures exists k :: 0 <= k < |edits| && Clean(edits[k].filePath) == p && SaysYes(worlds[k])
  {
    var targets := ResolveAll(edits, worlds);
    if forall k :: 0 <= k < |edits| ==> Clean(edits[k].filePath) != p || !SaysYes(worlds[k]) {
      forall k | 0 <= k < |targets| ensures p != targets[k].path || !Proceeds(Approve, targets[k]) {
        assert targets[k] == Resolve(edits[k], worlds[k].reply);
      }
      RunFrame(targets, worlds, Approve, files, p);
    }
  }

  // ----- what one more edit does -----

  predicate Writes(policy: Policy) {
    policy != Explain && policy != Plan
  }

  lemma BatchSnoc(
    edits: seq<ProposedEdit>, worlds: seq<World>, policy: Policy, files: Files, e: ProposedEdit, w: World)
    requires |edits| == |worlds| && Writes(policy)
    ensures Batch(edits + [e], worlds + [w], policy, files)
         == Step(Batch(edits, worlds, policy, files), Resolve(e, w.reply), w, policy)
  {
    var n, all, ws := |edits|, edits + [e], worlds + [w];
    var targets := ResolveAll(all, ws);
    assert targets[..n] == ResolveAll(edits, worlds);
    assert targets[n] == Resolve(e, w.reply) && ws[..n] == worlds && ws[n] == w;
  }

  /** The reply, without white space around it, is the word in small or capital letters. */
  ghost predicate Says(reply: string, word: string) {
    exists left, core, right ::
      reply == left + core + right && AllSpace(left) && AllSpace(right) && IsTrimmed(core) && Spells(core, word)
  }

  lemma SaysExactly(reply: string, word: string)
    requires forall i :: 0 <= i < |word| ==> 'a' <= word[i] <= 'z'
    ensures ToLower(TrimSpace(reply)) == word <==> Says(reply, word)
  {
    LowerWordExactly(TrimSpace(reply), word);
    var left, right := TrimSpaceSplits(reply);
    if l, core, r :| reply == l + core + r && AllSpace(l) && AllSpace(r) && IsTrimmed(core) && Spells(core, word) {
      TrimSpaceExactly(l, core, r);
    }
  }

  /**
   * Which edits proceed: all under autopilot, those of unprotected paths under safe-auto, those
   * answered yes under approve, where an empty answer will do for an unprotected path.
   */
  lemma ProceedsExactly(policy: Policy, e: ProposedEdit, reply: string)
    ensures var isProtected := IsProtectedFile(Clean(e.filePath));
      Proceeds(policy, Resolve(e, reply))
      <==> match policy
           case Autopilot => true
           case SafeAuto => !isProtected
           case Approve => Says(reply, "y") || Says(reply, "yes") || (!isProtected && Says(reply, ""))
           case _ => false
  {
    SaysExactly(reply, "");
    SaysExactly(reply, "y");
    SaysExactly(reply, "yes");
  }

  /** `q` is what becomes of `p`, the batch so far, when the edit `e` comes next. */
  ghost predicate Follows(
    edits: seq<ProposedEdit>, worlds: seq<World>, policy: Policy, files: Files, e: ProposedEdit, w: World,
    p: Progress, q: Progress)
  {
    && |edits| == |worlds| && Writes(policy)
    && p == Batch(edits, worlds, policy, files)
    && q == Batch(edits + [e], worlds + [w], policy, files)
  }

  /** One more edit was applied, and left these files. */
  ghost predicate Applies(p: Progress, q: Progress, files: Files) {
    q.files == files && q.applied == p.applied + 1 && q.blocked == p.blocked && q.errs == p.errs
  }

  /** One more edit failed; its path has this content now, every other path the one it had. */
  ghost predicate Fails(p: Progress, q: Progress, error: ApplyError, path: string, left: Option<string>) {
    && q.applied == p.applied && q.blocked == p.blocked && q.errs == p.errs + [error]
    && Lookup(q.files, path) == left
    && forall other :: other != path ==> Lookup(q.files, other) == Lookup(p.files, other)
  }

  /**
   * An edit block that proceeds replaces the first occurrence of its old text: what stands around it
   * stays, no other file changes, and exactly one more edit counts as applied.
   */
  lemma EditReplaces(
    edits: seq<ProposedEdit>, worlds: seq<World>, policy: Policy, files: Files, e: ProposedEdit, w: World,
    p: Progress, q: Progress, pre: string, post: string)
    requires Follows(edits, worlds, policy, files, e, w, p, q) && Proceeds(policy, Resolve(e, w.reply))
    requires e.action == Edit && w.readable && w.write.Stored?
    requires Lookup(p.files, Clean(e.filePath)) == Some(pre + e.oldText + post)
    requires var content := pre + e.oldText + post; forall i :: 0 <= i < |pre| ==> !(e.oldText <= content[i..])
    ensures Applies(p, q, p.files[Clean(e.filePath) := pre + e.newText + post])
  {
    BatchSnoc(edits, worlds, policy, files, e, w);
    ReplaceFirstExactly(pre, e.oldText, post, e.newText);
    StepPatches(p, Resolve(e, w.reply), w, policy, pre + e.newText + post);
  }

  lemma StepPatches(p: Progress, target: Target, w: World, policy: Policy, after: string)
    requires Proceeds(policy, target) && target.edit.action == Edit && w.readable && w.write.Stored?
    requires target.path in p.files && Patch(p.files[target.path], target.edit) == Some(after)
    ensures Applies(p, Step(p, target, w, policy), p.files[target.path := after])
  {
  }

  /** If the old text does not occur, the file stays and the edit fails for that reason. */
  lemma EditNotFound(
    edits: seq<ProposedEdit>, worlds: seq<World>, policy: Policy, files: Files, e: ProposedEdit, w: World,
    p: Progress, q: Progress, content: string)
    requires Follows(edits, worlds, policy, files, e, w, p, q) && Proceeds(policy, Resolve(e, w.reply))
    requires e.action == Edit && w.readable && Lookup(p.files, Clean(e.filePath)) == Some(content)
    requires forall i :: 0 <= i <= |content| ==> !(e.oldText <= content[i..])
    ensures Fails(p, q, ChunkNotFound(Clean(e.filePath)), Clean(e.filePath), Some(content))
  {
    BatchSnoc(edits, worlds, policy, files, e, w);
    NotContainedExactly(content, e.oldText);
    StepMisses(p, Resolve(e, w.reply), w, policy);
  }

  lemma StepMisses(p: Progress, target: Target, w: World, policy: Policy)
    requires Proceeds(policy, target) && target.edit.action == Edit && w.readable && target.path in p.files
    requires IndexOf(p.files[target.path], target.edit.oldText) < 0
    ensures Fails(p, Step(p, target, w, policy), ChunkNotFound(target.path), target.path,
                  Some(p.files[target.path]))
  {
  }

  /** An edit block whose file is missing or unreadable fails, and one that cannot be written back leaves the debris. */
  lemma EditBreaks(
    edits: seq<ProposedEdit>, worlds: seq<World>, policy: Policy, files: Files, e: ProposedEdit, w: World,
    p: Progress, q: Progress)
    requires Follows(edits, worlds, policy, files, e, w, p, q) && Proceeds(policy, Resolve(e, w.reply))
    requires e.action == Edit
    ensures var path := Clean(e.filePath);
      && (!w.readable || path !in p.files ==> Fails(p, q, ReadFailed(path), path, Lookup(p.files, path)))
      && (w.readable && path in p.files && Contains(p.files[path], e.oldText) && w.write.Broken? ==>
            Fails(p, q, PatchFailed(path), path, w.write.left))
  {
    BatchSnoc(edits, worlds, policy, files, e, w);
    var target := Resolve(e, w.reply);
    if target.path in p.files {
      ContainsExactly(p.files[target.path], e.oldText);
    }
    StepBreaks(p, target, w, policy);
  }

  lemma StepBreaks(p: Progress, target: Target, w: World, policy: Policy)
    requires Proceeds(policy, target) && target.edit.action == Edit
    ensures !w.readable || target.path !in p.files ==>
      Fails(p, Step(p, target, w, policy), ReadFailed(target.path), target.path, Lookup(p.files, target.path))
    ensures w.readable && target.path in p.files && IndexOf(p.files[target.path], target.edit.oldText) >= 0
            && w.write.Broken? ==>
      Fails(p, Step(p, target, w, policy), PatchFailed(target.path), target.path, w.write.left)
  {
  }

  /** A write block that proceeds creates or replaces its file, unless the directories or the write fail. */
  lemma WriteCreates(
    edits: seq<ProposedEdit>, worlds: seq<World>, policy: Policy, files: Files, e: ProposedEdit, w: World,
    p: Progress, q: Progress)
    requires Follows(edits, worlds, policy, files, e, w, p, q) && Proceeds(policy, Resolve(e, w.reply))
    requires e.action == Write
    ensures var path := Clean(e.filePath);
      && (!w.dirsMade ==> Fails(p, q, DirsFailed(path), path, Lookup(p.files, path)))
      && (w.dirsMade && w.write.Stored? ==> Applies(p, q, p.files[path := e.newText]))
      && (w.dirsMade && w.write.Broken? ==> Fails(p, q, WriteFailed(path), path, w.write.left))
  {
    BatchSnoc(edits, worlds, policy, files, e, w);
    StepWrites(p, Resolve(e, w.reply), w, policy);
  }

  lemma StepWrites(p: Progress, target: Target, w: World, policy: Policy)
    requires Proceeds(policy, target) && target.edit.action == Write
    ensures !w.dirsMade ==>
      Fails(p, Step(p, target, w, policy), DirsFailed(target.path), target.path, Lookup(p.files, target.path))
    ensures w.dirsMade && w.write.Stored? ==>
      Applies(p, Step(p, target, w, policy), p.files[target.path := target.edit.newText])
    ensures w.dirsMade && w.write.Broken? ==>
      Fails(p, Step(p, target, w, policy), WriteFailed(target.path), target.path, w.write.left)
  {
  }

  /**
   * From the text of a response to the disk: a search and replace block, printed with safe texts for
   * a file in which its old text occurs, replaces the first occurrence there and does nothing else.
   */
  lemma BlockPatchesFile(
    left: string, name: string, right: string, old_: string, new_: string, path: string, body: string,
    files: Files, w: World, pre: string, post: string)
    requires AllSpace(left) && AllSpace(right) && IsTrimmed(name) && path == left + name + right
    requires path != "" && '\n' !in path && '\r' !in path
    requires body == "```edit:" + path + "\n<<<<<<< SEARCH\n" + old_ + "\n=======\n" + new_ + "\n>>>>>>> REPLACE\n"
    requires !Contains(body, "```write:") && !Contains(old_, "\n=======\n") && !HasSuffix(old_, "\n=======")
    requires !Contains(new_, "\n>>>>>>> REPLACE\n```")
    requires w.readable && w.write.Stored? && Lookup(files, Clean(name)) == Some(pre + old_ + post)
    requires var content := pre + old_ + post; forall i :: 0 <= i < |pre| ==> !(old_ <= content[i..])
    ensures |Proposed(body + "```")| == 1
    ensures Applies(Progress(files, 0, 0, [], None), Batch(Proposed(body + "```"), [w], Autopilot, files),
                    files[Clean(name) := pre + new_ + post])
  {
    EditBlockIsRead(left, name, right, old_, new_, path, body);
    PatchesAlone(ProposedEdit(name, old_, new_, Edit), files, w, pre, post);
  }

  lemma FirstOfBatch(e: ProposedEdit, w: World, files: Files, p: Progress, q: Progress)
    requires p == Progress(files, 0, 0, [], None) && q == Batch([e], [w], Autopilot, files)
    ensures Follows([], [], Autopilot, files, e, w, p, q) && Proceeds(Autopilot, Resolve(e, w.reply))
  {
    var none: seq<ProposedEdit>, nothing: seq<World> := [], [];
    assert none + [e] == [e] && nothing + [w] == [w];
    assert Batch(none, nothing, Autopilot, files) == p;
  }

  lemma PatchesAlone(e: ProposedEdit, files: Files, w: World, pre: string, post: string)
    requires e.action == Edit && w.readable && w.write.Stored?
    requires Lookup(files, Clean(e.filePath)) == Some(pre + e.oldText + post)
    requires var content := pre + e.oldText + post; forall i :: 0 <= i < |pre| ==> !(e.oldText <= content[i..])
    ensures Applies(Progress(files, 0, 0, [], None), Batch([e], [w], Autopilot, files),
                    files[Clean(e.filePath) := pre + e.newText + post])
  {
    var p, q := Progress(files, 0, 0, [], None), Batch([e], [w], Autopilot, files);
    FirstOfBatch(e, w, files, p, q);
    EditReplaces([], [], Autopilot, files, e, w, p, q, pre, post);
  }

  /** An edit that does not proceed changes nothing; only safe-auto counts it, as blocked. */
  lemma EditStops(
    edits: seq<ProposedEdit>, worlds: seq<World>, policy: Policy, files: Files, e: ProposedEdit, w: World,
    p: Progress, q: Progress)
    requires Follows(edits, worlds, policy, files, e, w, p, q) && !Proceeds(policy, Resolve(e, w.reply))
    ensures q.files == p.files && q.applied == p.applied && q.errs == p.errs && q.checkpoint == p.checkpoint
    ensures q.blocked == p.blocked + if policy == SafeAuto then 1 else 0
  {
    BatchSnoc(edits, worlds, policy, files, e, w);
  }

  // ----- every edit is accounted for -----

  function DeclinedCount(targets: seq<Target>, policy: Policy): nat
  {
    var n := |targets|;
    if n == 0 then 0
    else
      DeclinedCount(targets[..n - 1], policy)
      + if policy == Approve && !targets[n - 1].confirmed then 1 else 0
  }

  function ProtectedCount(targets: seq<Target>): nat {
    var n := |targets|;
    if n == 0 then 0
    else ProtectedCount(targets[..n - 1]) + if targets[n - 1].isProtected then 1 else 0
  }

  lemma StepConserves(p: Progress, target: Target, world: World, policy: Policy)
    requires policy != Explain && policy != Plan
    ensures var r := Step(p, target, world, policy);
      && r.applied + r.blocked + |r.errs|
         == p.applied + p.blocked + |p.errs|
            + (if policy == Approve && !target.confirmed then 0 else 1)
      && r.blocked == p.blocked + (if policy == SafeAuto && target.isProtected then 1 else 0)
  {
  }

  lemma {:induction false} RunConserves(
    targets: seq<Target>, worlds: seq<World>, policy: Policy, files: Files)
    requires |targets| == |worlds| && policy != Explain && policy != Plan
    ensures var r := Run(targets, worlds, policy, files);
      && r.applied + r.blocked + |r.errs| + DeclinedCount(targets, policy) == |targets|
      && r.blocked == if policy == SafeAuto then ProtectedCount(targets) else 0
    decreases |targets|
  {
    var n := |targets|;
    if n > 0 {
      RunConserves(targets[..n - 1], worlds[..n - 1], policy, files);
      StepConserves(
        Run(targets[..n - 1], worlds[..n - 1], policy, files), targets[n - 1], worlds[n - 1], policy);
    }
  }

  /**
   * Under every policy and every pattern of failures, applied, blocked, failed and declined edits
   * add up to the batch; exactly the protected ones are blocked under safe-auto, none under approve
   * and autopilot, all under the two read-only policies, which also leave every file alone.
   */
  lemma BatchConserves(edits: seq<ProposedEdit>, worlds: seq<World>, policy: Policy, files: Files)
    requires |edits| == |worlds|
    ensures var r := Batch(edits, worlds, policy, files);
      && r.applied + r.blocked + |r.errs| + DeclinedCount(ResolveAll(edits, worlds), policy) == |edits|
      && (policy == Explain || policy == Plan ==> r.blocked == |edits| && r.files == files && r.checkpoint == None)
      && (policy == SafeAuto ==> r.blocked == ProtectedCount(ResolveAll(edits, worlds)))
      && (policy == Approve || policy == Autopilot ==> r.blocked == 0)
  {
    if policy == Explain || policy == Plan {
      NothingDeclined(ResolveAll(edits, worlds), policy);
    } else {
      RunConserves(ResolveAll(edits, worlds), worlds, policy, files);
    }
  }

  lemma {:induction false} NothingDeclined(targets: seq<Target>, policy: Policy)
    requires policy != Approve
    ensures DeclinedCount(targets, policy) == 0
    decreases |targets|
  {
    if targets != [] {
      NothingDeclined(targets[..|targets| - 1], policy);
    }
  }

  // ----- autopilot refines a fold per path -----

  predicate Healthy(world: World) {
    world.dirsMade && world.readable && world.write.Stored?
  }

  /** The content of one path after one more edit. */
  function ReplayStep(target: Target, p: string, before: Option<string>): Option<string> {
    if target.path != p then before
    else if target.edit.action == Write then Some(target.edit.newText)
    else if before.Some? && Patch(before.value, target.edit).Some? then Patch(before.value, target.edit)
    else before
  }

  /** The content of one path after the edits that name it, in order. */
  function Replay(targets: seq<Target>, p: string, content: Option<string>): Option<string> {
    var n := |targets|;
    if n == 0 then content else ReplayStep(targets[n - 1], p, Replay(targets[..n - 1], p, content))
  }

  /** Without I/O errors an autopilot batch acts on every path separately. */
  lemma {:induction false} AutopilotReplays(
    targets: seq<Target>, worlds: seq<World>, files: Files, p: string)
    requires |targets| == |worlds| && forall k :: 0 <= k < |worlds| ==> Healthy(worlds[k])
    ensures Lookup(Run(targets, worlds, Autopilot, files).files, p) == Replay(targets, p, Lookup(files, p))
  {
    AutopilotUpTo(targets, worlds, files, p, |targets|);
    assert targets[..|targets|] == targets && worlds[..|targets|] == worlds;
  }

  lemma {:induction false} AutopilotUpTo(
    targets: seq<Target>, worlds: seq<World>, files: Files, p: string, n: nat)
    requires |targets| == |worlds| && n <= |targets| && forall k :: 0 <= k < |worlds| ==> Healthy(worlds[k])
    ensures Lookup(Run(targets[..n], worlds[..n], Autopilot, files).files, p)
         == Replay(targets[..n], p, Lookup(files, p))
    decreases n
  {
    if n > 0 {
      AutopilotUpTo(targets, worlds, files, p, n - 1);
      RunExtends(targets, worlds, Autopilot, files, n - 1);
      assert targets[..n][..n - 1] == targets[..n - 1];
      AutopilotStep(Run(targets[..n - 1], worlds[..n - 1], Autopilot, files), targets[n - 1], worlds[n - 1], p);
    }
  }

  lemma AutopilotStep(before: Progress, target: Target, world: World, p: string)
    requires Healthy(world)
    ensures Lookup(Step(before, target, world, Autopilot).files, p) == ReplayStep(target, p, Lookup(before.files, p))
  {
  }

  /** Edit `k` is the last of these that names the path. */
  ghost predicate LastTo(targets: seq<Target>, p: string, k: int) {
    && 0 <= k < |targets| && targets[k].path == p
    && forall j :: k < j < |targets| ==> targets[j].path != p
  }

  lemma {:induction false} ReplayLastWrite(targets: seq<Target>, p: string, content: Option<string>, k: nat)
    requires LastTo(targets, p, k) && targets[k].edit.action == Write
    ensures Replay(targets, p, content) == Some(targets[k].edit.newText)
    decreases |targets|
  {
    var n := |targets|;
    if k < n - 1 {
      ReplayLastWrite(targets[..n - 1], p, content, k);
    }
  }

  lemma {:induction false} ReplayAppend(targets: seq<Target>, more: seq<Target>, p: string, content: Option<string>)
    ensures Replay(targets + more, p, content) == Replay(more, p, Replay(targets, p, content))
    decreases |more|
  {
    if more == [] {
      assert targets + more == targets;
    } else {
      assert (targets + more)[..|targets + more| - 1] == targets + more[..|more| - 1];
      ReplayAppend(targets, more[..|more| - 1], p, content);
    }
  }

  lemma {:induction false} ReplayOther(targets: seq<Target>, p: string, content: Option<string>)
    requires forall k :: 0 <= k < |targets| ==> targets[k].path != p
    ensures Replay(targets, p, content) == content
    decreases |targets|
  {
    if targets != [] {
      ReplayOther(targets[..|targets| - 1], p, content);
    }
  }

  lemma ReplayWrites(targets: seq<Target>, p: string, before: Option<string>)
    requires forall k :: 0 <= k < |targets| ==> targets[k].edit.action == Write
    ensures forall k :: LastTo(targets, p, k) ==> Replay(targets, p, before) == Some(targets[k].edit.newText)
    ensures (forall k :: 0 <= k < |targets| ==> targets[k].path != p) ==> Replay(targets, p, before) == before
  {
    forall k | LastTo(targets, p, k) ensures Replay(targets, p, before) == Some(targets[k].edit.newText) {
      ReplayLastWrite(targets, p, before, k);
    }
    if forall k :: 0 <= k < |targets| ==> targets[k].path != p {
      ReplayOther(targets, p, before);
    }
  }

  /**
   * The content `after` of a file in terms of the edits and writes proposed: the last write decides;
   * without one, the edits replayed in order do.
   */
  ghost predicate DecidedBy(
    edits: seq<Target>, writes: seq<Target>, p: string, before: Option<string>, after: Option<string>)
  {
    && (forall k :: LastTo(writes, p, k) ==> after == Some(writes[k].edit.newText))
    && ((forall k :: 0 <= k < |writes| ==> writes[k].path != p) ==> after == Replay(edits, p, before))
  }

  lemma EditsThenWrites(edits: seq<Target>, writes: seq<Target>, worlds: seq<World>, files: Files, p: string)
    requires |edits + writes| == |worlds| && forall k :: 0 <= k < |worlds| ==> Healthy(worlds[k])
    requires forall k :: 0 <= k < |writes| ==> writes[k].edit.action == Write
    ensures DecidedBy(edits, writes, p, Lookup(files, p),
                      Lookup(Run(edits + writes, worlds, Autopilot, files).files, p))
  {
    AutopilotReplays(edits + writes, worlds, files, p);
    ReplayAppend(edits, writes, p, Lookup(files, p));
    ReplayWrites(writes, p, Replay(edits, p, Lookup(files, p)));
  }

  /**
   * From any response text to disk: a file named by a write block ends with the text of the last such
   * block, even when edit blocks for it come later in the response; any other file ends as the
   * in-order replay of its edit blocks.
   */
  lemma ResponseDecidesFile(response: string, worlds: seq<World>, files: Files, p: string)
    requires |Proposed(response)| == |worlds| && forall k :: 0 <= k < |worlds| ==> Healthy(worlds[k])
    ensures var edits, writes := ToEdits(Edit, Scan(EDIT_BLOCK, response)), ToEdits(Write, Scan(WRITE_BLOCK, response));
      var n := |edits|;
      && Proposed(response) == edits + writes
      && DecidedBy(ResolveAll(edits, worlds[..n]), ResolveAll(writes, worlds[n..]), p, Lookup(files, p),
           Lookup(Batch(Proposed(response), worlds, Autopilot, files).files, p))
  {
    var edits, writes := ToEdits(Edit, Scan(EDIT_BLOCK, response)), ToEdits(Write, Scan(WRITE_BLOCK, response));
    ToEditsAction(Write, Scan(WRITE_BLOCK, response));
    SplitBatch(edits, writes, worlds, files, p);
  }

  lemma SplitBatch(edits: seq<ProposedEdit>, writes: seq<ProposedEdit>, worlds: seq<World>, files: Files, p: string)
    requires |edits| + |writes| == |worlds| && forall k :: 0 <= k < |worlds| ==> Healthy(worlds[k])
    requires forall k :: 0 <= k < |writes| ==> writes[k].action == Write
    ensures DecidedBy(ResolveAll(edits, worlds[..|edits|]), ResolveAll(writes, worlds[|edits|..]), p, Lookup(files, p),
              Lookup(Batch(edits + writes, worlds, Autopilot, files).files, p))
  {
    ResolveConcat(edits, writes, worlds);
    EditsThenWrites(
      ResolveAll(edits, worlds[..|edits|]), ResolveAll(writes, worlds[|edits|..]), worlds, files, p);
  }

  /** For a printed document these are its blocks. */
  lemma DocumentDecidesFile(d: Document, worlds: seq<World>, files: Files, p: string)
    requires DocumentOk(d) && forall k :: 0 <= k < |worlds| ==> Healthy(worlds[k])
    requires |PartsOf(d.segments, Edit)| + |PartsOf(d.segments, Write)| == |worlds|
    ensures var edits, writes := PartsOf(d.segments, Edit), PartsOf(d.segments, Write);
      var n := |edits|;
      && Proposed(RenderDocument(d)) == edits + writes
      && DecidedBy(ResolveAll(edits, worlds[..n]), ResolveAll(writes, worlds[n..]), p, Lookup(files, p),
           Lookup(Batch(edits + writes, worlds, Autopilot, files).files, p))
  {
    RoundTrip(d);
    PartsHaveAction(d.segments, Write);
    SplitBatch(PartsOf(d.segments, Edit), PartsOf(d.segments, Write), worlds, files, p);
  }

  lemma ResolveConcat(edits: seq<ProposedEdit>, writes: seq<ProposedEdit>, worlds: seq<World>)
    requires |edits| + |writes| == |worlds|
    ensures ResolveAll(edits + writes, worlds)
         == ResolveAll(edits, worlds[..|edits|]) + ResolveAll(writes, worlds[|edits|..])
  {
    var n, all := |edits|, edits + writes;
    assert forall k :: 0 <= k < n ==> all[k] == edits[k] && worlds[..n][k] == worlds[k];
    assert forall k :: n <= k < |all| ==> all[k] == writes[k - n] && worlds[n..][k - n] == worlds[k];
  }
}
