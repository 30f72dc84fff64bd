/** Removing a managed worktree and its branch while other processes move refs. */
module WorktreeRemoval {
  import opened Common
  import opened WorktreeRegistry

  type Path = string
  type Refs = map<Branch, Commit>

  /** What this process itself did to the repository. */
  datatype Effect =
    | TreeRemoved(path: Path)
    | TreeAdded(path: Path, branch: Branch)
    | RefDeleted(branch: Branch, commit: Commit)
    | RefCreated(branch: Branch, commit: Commit)

  /**
   * A repository. Every command first meets the refs that other processes have left; they move refs
   * at will, but the worktree and its HEAD are this process's own.
   */
  class Git {
    var refs: Refs
    var trees: map<Path, Branch>
    ghost var log: seq<Effect>

    /** git worktree remove [--force] path */
    method RemoveTree(others: Refs, path: Path, exits: bool) returns (ok: bool)
      modifies this
      ensures refs == others
      ensures ok <==> exits && path in old(trees)
      ensures trees == if ok then old(trees) - {path} else old(trees)
      ensures log == if ok then old(log) + [TreeRemoved(path)] else old(log)
    {
      refs := others;
      ok := exits && path in trees;
      if ok {
        trees := trees - {path};
        log := log + [TreeRemoved(path)];
      }
    }

    /** git update-ref -d ref expected: deletes only while the ref is at the expected commit. */
    method DeleteRef(others: Refs, branch: Branch, expected: Commit, exits: bool) returns (ok: bool)
      modifies this
      ensures trees == old(trees)
      ensures ok <==> exits && branch in others && others[branch] == expected
      ensures refs == if ok then others - {branch} else others
      ensures log == if ok then old(log) + [RefDeleted(branch, others[branch])] else old(log)
    {
      refs := others;
      ok := exits && branch in refs && refs[branch] == expected;
      if ok {
        log := log + [RefDeleted(branch, refs[branch])];
        refs := refs - {branch};
      }
    }

    /** git update-ref ref commit 0...0: creates only while there is no such ref. */
    method CreateRef(others: Refs, branch: Branch, commit: Commit, exits: bool) returns (ok: bool)
      modifies this
      ensures trees == old(trees)
      ensures ok <==> exits && branch !in others
      ensures refs == if ok then others[branch := commit] else others
      ensures log == if ok then old(log) + [RefCreated(branch, commit)] else old(log)
    {
      refs := others;
      ok := exits && branch !in refs;
      if ok {
        refs := refs[branch := commit];
        log := log + [RefCreated(branch, commit)];
      }
    }

    /** git show-ref --hash --verify */
    method ShowRef(others: Refs, branch: Branch) returns (commit: Option<Commit>)
      modifies this
      ensures trees == old(trees) && log == old(log) && refs == others
      ensures commit == if branch in others then Some(others[branch]) else None
    {
      refs := others;
      commit := if branch in refs then Some(refs[branch]) else None;
    }

    /** git worktree add path branch */
    method AddTree(others: Refs, path: Path, branch: Branch, exits: bool) returns (ok: bool)
      modifies this
      ensures refs == others
      ensures ok <==> exits && branch in others && path !in old(trees)
      ensures trees == if ok then old(trees)[path := branch] else old(trees)
      ensures log == if ok then old(log) + [TreeAdded(path, branch)] else old(log)
    {
      refs := others;
      ok := exits && branch in refs && path !in trees;
      if ok {
        trees := trees[path := branch];
        log := log + [TreeAdded(path, branch)];
      }
    }

    /** git rev-parse --verify HEAD^{commit} in the worktree */
    method Head(others: Refs, path: Path) returns (commit: Option<Commit>)
      modifies this
      ensures trees == old(trees) && log == old(log) && refs == others
      ensures commit == if path in trees && trees[path] in others then Some(others[trees[path]]) else None
    {
      refs := others;
      commit := if path in trees && trees[path] in refs then Some(refs[trees[path]]) else None;
    }

    /** git symbolic-ref --short HEAD in the worktree */
    method Branch(others: Refs, path: Path) returns (branch: Option<Branch>)
      modifies this
      ensures trees == old(trees) && log == old(log) && refs == others
      ensures branch == if path in trees then Some(trees[path]) else None
    {
      refs := others;
      branch := if path in trees then Some(trees[path]) else None;
    }
  }

  // ---- removeWorktree

  datatype Outcome = TreeGone | FailedRetained(branch: Branch) | FailedUncertain

  /** The refs each command meets, and whether the commands that may fail for other reasons do. */
  datatype RemovalWeather = RemovalWeather(
    refsAt: nat -> Refs,
    removeExits: bool,
    deleteExits: bool,
    createExits: bool,
    addExits: bool)

  const RECOVERY_PREFIX := "-recovery-"
  const MAXIMUM_BRANCH := 255

  function Min(a: int, b: int): int {
    if a < b then a else b
  }

  /** The original branch cut to fit, with the first twelve digits of the commit appended. */
  function RecoveryBranch(branch: Branch, head: Commit): Branch {
    var suffix := RECOVERY_PREFIX + head[..Min(12, |head|)];
    branch[..Min(|branch|, MAXIMUM_BRANCH - |suffix|)] + suffix
  }

  /** Everything removal itself may do to the repository. */
  ghost predicate Allowed(e: Effect, path: Path, branch: Branch, head: Commit, outcome: Outcome) {
    match e
    case TreeRemoved(p) => p == path
    case TreeAdded(p, b) => p == path && (b == branch || b == RecoveryBranch(branch, head))
    case RefDeleted(b, commit) => b == branch && commit == head && outcome == TreeGone
    case RefCreated(b, commit) => b == RecoveryBranch(branch, head) && commit == head
  }

  /** The worktree is checked out on the branch, and the branch was at the commit when the verifying command ran. */
  ghost predicate CheckedOut(trees: map<Path, Branch>, weather: RemovalWeather, at: nat, path: Path, branch: Branch, head: Commit) {
    && path in trees && trees[path] == branch
    && branch in weather.refsAt(at) && weather.refsAt(at)[branch] == head
  }

  /** The verifying command: the second where the worktree could not be removed, and otherwise the seventh. */
  ghost function VerifiedAt(log: seq<Effect>, path: Path): nat {
    if TreeRemoved(path) in log then 6 else 1
  }

  method VerifyRestored(git: Git, weather: RemovalWeather, at: nat, path: Path, branch: Branch, head: Commit)
    returns (ok: bool)
    modifies git
    ensures git.trees == old(git.trees) && git.log == old(git.log)
    ensures ok <==> CheckedOut(git.trees, weather, at, path, branch, head)
  {
    var commit := git.Head(weather.refsAt(at), path);
    var checkedOut := git.Branch(weather.refsAt(at + 1), path);
    ok := commit == Some(head) && checkedOut == Some(branch);
  }

  /** The branch is at the commit when the command runs. */
  predicate RefIsAt(weather: RemovalWeather, at: nat, branch: Branch, head: Commit) {
    branch in weather.refsAt(at) && weather.refsAt(at)[branch] == head
  }

  predicate TreeGoes(weather: RemovalWeather, trees: map<Path, Branch>, path: Path) {
    weather.removeExits && path in trees
  }

  predicate RefGoes(weather: RemovalWeather, branch: Branch, head: Commit) {
    weather.deleteExits && RefIsAt(weather, 1, branch, head)
  }

  /** The recovery branch is made. */
  predicate Recreated(weather: RemovalWeather, branch: Branch, head: Commit) {
    !RefIsAt(weather, 2, branch, head) && weather.createExits && RecoveryBranch(branch, head) !in weather.refsAt(3)
  }

  /** The branch that has the commit again: itself, if nobody moved it, or else the recovery branch, new or as it was left. */
  function GivenBack(weather: RemovalWeather, branch: Branch, head: Commit): Option<Branch> {
    if RefIsAt(weather, 2, branch, head) then Some(branch)
    else if Recreated(weather, branch, head) || RefIsAt(weather, 4, RecoveryBranch(branch, head), head) then Some(RecoveryBranch(branch, head))
    else None
  }

  predicate AddedBack(weather: RemovalWeather, branch: Branch, head: Commit) {
    var b := GivenBack(weather, branch, head);
    b.Some? && weather.addExits && b.value in weather.refsAt(5)
  }

  /** The branch on which the work is checked out again after a failed removal, if it is. */
  function RetainedOn(weather: RemovalWeather, trees: map<Path, Branch>, path: Path, branch: Branch, head: Commit): Option<Branch> {
    if !TreeGoes(weather, trees, path) then
      if path in trees && trees[path] == branch && RefIsAt(weather, 1, branch, head) then Some(branch) else None
    else if AddedBack(weather, branch, head) && RefIsAt(weather, 6, GivenBack(weather, branch, head).value, head) then GivenBack(weather, branch, head)
    else None
  }

  /** What recovery does to the repository. */
  function RestoreLog(weather: RemovalWeather, path: Path, branch: Branch, head: Commit): seq<Effect> {
    (if Recreated(weather, branch, head) then [RefCreated(RecoveryBranch(branch, head), head)] else [])
    + if AddedBack(weather, branch, head) then [TreeAdded(path, GivenBack(weather, branch, head).value)] else []
  }

  /** And removal as a whole. */
  function RemovalLog(weather: RemovalWeather, trees: map<Path, Branch>, path: Path, branch: Branch, head: Commit): seq<Effect> {
    if !TreeGoes(weather, trees, path) then []
    else [TreeRemoved(path)] + if RefGoes(weather, branch, head) then [RefDeleted(branch, head)] else RestoreLog(weather, path, branch, head)
  }

  /** The branch could not be deleted: the commit is given a branch again, and checked out again. */
  method Restore(git: Git, weather: RemovalWeather, path: Path, branch: Branch, head: Commit) returns (outcome: Outcome)
    requires path !in git.trees
    modifies git
    ensures git.log == old(git.log) + RestoreLog(weather, path, branch, head)
    ensures git.trees == if AddedBack(weather, branch, head) then old(git.trees)[path := GivenBack(weather, branch, head).value] else old(git.trees)
    ensures outcome ==
              if AddedBack(weather, branch, head) && RefIsAt(weather, 6, GivenBack(weather, branch, head).value, head)
              then FailedRetained(GivenBack(weather, branch, head).value) else FailedUncertain
  {
    hide RecoveryBranch;
    var original := git.ShowRef(weather.refsAt(2), branch);
    var recovery := branch;
    if original != Some(head) {
      recovery := RecoveryBranch(branch, head);
      var created := git.CreateRef(weather.refsAt(3), recovery, head, weather.createExits);
      if !created {
        var existing := git.ShowRef(weather.refsAt(4), recovery);
        if existing != Some(head) {
          return FailedUncertain;
        }
      }
    }
    var restored := git.AddTree(weather.refsAt(5), path, recovery, weather.addExits);
    if !restored {
      return FailedUncertain;
    }
    var verified := VerifyRestored(git, weather, 6, path, recovery, head);
    outcome := if verified then FailedRetained(recovery) else FailedUncertain;
  }

  /**
   * The worktree goes first, then the branch if it is still at the expected commit. When it is not, the
   * expected commit is given a branch again and checked out again.
   */
  method RemoveWorktree(git: Git, weather: RemovalWeather, path: Path, branch: Branch, head: Commit)
    returns (outcome: Outcome)
    modifies git
    ensures git.log == old(git.log) + RemovalLog(weather, old(git.trees), path, branch, head)
    ensures outcome ==
              if TreeGoes(weather, old(git.trees), path) && RefGoes(weather, branch, head) then TreeGone
              else match RetainedOn(weather, old(git.trees), path, branch, head) case Some(b) => FailedRetained(b) case None => FailedUncertain
    ensures outcome == TreeGone ==> path !in git.trees
    ensures outcome.FailedRetained? ==>
              && outcome.branch in {branch, RecoveryBranch(branch, head)}
              && CheckedOut(git.trees, weather, VerifiedAt(git.log[|old(git.log)|..], path), path, outcome.branch, head)
  {
    hide RecoveryBranch, RestoreLog, Recreated;
    ghost var before, trees := git.log, git.trees;
    var removed := git.RemoveTree(weather.refsAt(0), path, weather.removeExits);
    if !removed {
      var intact := VerifyRestored(git, weather, 1, path, branch, head);
      return if intact then FailedRetained(branch) else FailedUncertain;
    }
    var deleted := git.DeleteRef(weather.refsAt(1), branch, head, weather.deleteExits);
    if deleted {
      assert git.log[|before|..] == [TreeRemoved(path), RefDeleted(branch, head)];
      return TreeGone;
    }
    outcome := Restore(git, weather, path, branch, head);
    assert git.log == before + ([TreeRemoved(path)] + RestoreLog(weather, path, branch, head));
    assert git.log[|before|..][0] == TreeRemoved(path);
  }

  /** The name of the recovery branch: the branch, cut where it has to be, and twelve digits of the commit. */
  lemma {:induction false} RecoveryBranchIs(branch: Branch, head: Commit)
    requires |head| >= 12
    ensures var name := RecoveryBranch(branch, head); var suffix := "-recovery-" + head[..12];
            && |name| <= 255 && name[|name| - 22..] == suffix && name[..|name| - 22] <= branch
            && (|branch| + 22 <= 255 ==> name == branch + suffix) && (|branch| + 22 > 255 ==> |name| == 255)
            && (name == branch <==> |branch| == 255 && branch[233..] == suffix)
  {
    var suffix := "-recovery-" + head[..12];
    var n := if |branch| < 233 then |branch| else 233;
    assert RecoveryBranch(branch, head) == branch[..n] + suffix && |suffix| == 22;
    if |branch| == 255 && branch[233..] == suffix {
      assert branch == branch[..233] + branch[233..];
    }
  }

  /** Only a removal that answers so has deleted a branch, and every effect is on this worktree, its branch and the recovery branch. */
  lemma {:induction false} RemovalIsAllowed(weather: RemovalWeather, trees: map<Path, Branch>, path: Path, branch: Branch, head: Commit, outcome: Outcome)
    requires outcome == TreeGone <==> TreeGoes(weather, trees, path) && RefGoes(weather, branch, head)
    ensures forall e :: e in RemovalLog(weather, trees, path, branch, head) ==> Allowed(e, path, branch, head, outcome)
    ensures outcome == TreeGone <==> RefDeleted(branch, head) in RemovalLog(weather, trees, path, branch, head)
    ensures outcome != TreeGone ==> forall b, c :: RefDeleted(b, c) !in RemovalLog(weather, trees, path, branch, head)
  {
    hide RecoveryBranch, Recreated;
  }

  // ---- observations and authority

  datatype Remote = Unavailable | Available(commit: Option<Commit>)

  datatype Observation = Observation(
    head: Commit,
    branch: Branch,
    trackedClean: bool,
    untrackedClean: bool,
    trackedChangeCount: nat,
    untrackedFileCount: nat,
    unpublishedCommitCount: nat,
    changedPaths: seq<string>,
    truncated: bool,
    publishState: string,
    remote: Remote,
    diskUsageBytes: nat)

  /** The part of an observation that its digest covers: all but the disk usage. */
  function Stable(o: Observation): Observation {
    o.(diskUsageBytes := 0)
  }

  datatype RemovalFacts = RemovalFacts(
    runTerminal: bool,
    activeAttempt: bool,
    expectedHead: Commit,
    observation: Observation,
    reachable: bool)

  /** mayRemove: None to remove, or the reason to retain. */
  function MayRemove(f: RemovalFacts): Option<RetentionReason> {
    if !f.runTerminal then Some(RunNotTerminal)
    else if f.activeAttempt then Some(ActiveAttempt)
    else if f.observation.head != f.expectedHead then Some(HeadChanged)
    else if !f.observation.trackedClean then Some(TrackedChanges)
    else if !f.observation.untrackedClean then Some(UntrackedFiles)
    else if f.observation.remote.Unavailable? then Some(RemoteUnavailable)
    else if !f.reachable then Some(UnpublishedHead)
    else None
  }

  /** What removal demands, in the order in which a reason is looked for. */
  function Demands(f: RemovalFacts): seq<(bool, RetentionReason)> {
    [(f.runTerminal, RunNotTerminal), (!f.activeAttempt, ActiveAttempt), (f.observation.head == f.expectedHead, HeadChanged),
     (f.observation.trackedClean, TrackedChanges), (f.observation.untrackedClean, UntrackedFiles),
     (f.observation.remote.Available?, RemoteUnavailable), (f.reachable, UnpublishedHead)]
  }

  /** Work is kept for the first demand that is not met, and removed when all are. */
  lemma {:induction false} FirstUnmetDemandKeeps(f: RemovalFacts, i: nat)
    ensures MayRemove(f) == None <==> forall j :: 0 <= j < 7 ==> Demands(f)[j].0
    ensures i < 7 ==> (MayRemove(f) == Some(Demands(f)[i].1) <==> !Demands(f)[i].0 && forall j :: 0 <= j < i ==> Demands(f)[j].0)
  {
    var demands := Demands(f);
    assert |demands| == 7 && demands[0].0 == f.runTerminal && demands[1].0 == !f.activeAttempt && demands[2].0 == (f.observation.head == f.expectedHead);
    assert demands[3].0 == f.observation.trackedClean && demands[4].0 == f.observation.untrackedClean;
    assert demands[5].0 == f.observation.remote.Available? && demands[6].0 == f.reachable;
  }

  datatype Claims =
    | CommittedCleanup(runnerId: string, runId: string, worktreeKey: string, expectedHead: Commit,
                       runTerminal: bool, noActiveAttempt: bool)
    | RetainedWorkDiscard(runnerId: string, runId: string, worktreeKey: string, expectedHead: Commit,
                          ownerMemberId: string, retainedWorkId: string, observationRevision: nat,
                          observationDigest: Digest, remoteIdentity: string, remoteRef: string)
    | OtherClaims

  /** What the awaits of cleanup and discard answer. Claims are those of a verified, unexpired token. */
  datatype Weather = Weather(
    claims: Result<Claims>,
    initial: Option<Observation>,
    beforeConsume: Option<Observation>,
    consumed: Result<()>,
    beforeRemoval: Option<Observation>,
    removal: RemovalWeather,
    restored: Option<Observation>,
    freshId: string,
    summary: Observation -> string)

  /** The hash of an observation, and the ancestry of commits. */
  datatype Facts = Facts(sha256: Observation -> Digest, isAncestor: (Commit, Commit) -> bool)

  function DigestOf(facts: Facts, o: Observation): Digest {
    facts.sha256(Stable(o))
  }

  /** Two looks at a worktree that differ in nothing but its disk usage count as the same observation. */
  lemma {:induction false} DiskUsageIsIgnored(facts: Facts, o: Observation, diskUsageBytes: nat)
    ensures DigestOf(facts, o.(diskUsageBytes := diskUsageBytes)) == DigestOf(facts, o)
  {
    assert Stable(o.(diskUsageBytes := diskUsageBytes)) == Stable(o);
  }

  /** headReachableFromRemote */
  predicate Reachable(facts: Facts, o: Observation) {
    o.remote.Available? && o.remote.commit.Some? && facts.isAncestor(o.head, o.remote.commit.value)
  }

  predicate CleanupClaims(row: Row, claims: Result<Claims>) {
    && claims.Ok? && claims.value.CommittedCleanup?
    && claims.value.runnerId == row.identity.runnerId
    && claims.value.runId == row.identity.runId
    && claims.value.worktreeKey == row.identity.worktreeKey
  }

  datatype Decision =
    | Refuse(code: string)
    | KeepWork(observation: Observation, reason: RetentionReason)
    | RemoveAt(observation: Observation)

  /** Everything cleanup decides before it touches the repository. */
  function DecideCleanup(facts: Facts, row: Row, w: Weather): Decision {
    if w.initial == None then Refuse("WORKTREE_OBSERVATION_FAILED")
    else if !CleanupClaims(row, w.claims) then KeepWork(w.initial.value, AuthorityUnavailable)
    else
      var initial, claims := w.initial.value, w.claims.value;
      var first := MayRemove(RemovalFacts(claims.runTerminal, !claims.noActiveAttempt, claims.expectedHead, initial, Reachable(facts, initial)));
      if first.Some? then KeepWork(initial, first.value)
      else if w.beforeConsume == None then KeepWork(initial, CleanupFailed)
      else if DigestOf(facts, w.beforeConsume.value) != DigestOf(facts, initial) then
        KeepWork(w.beforeConsume.value, HeadChanged)
      else if w.consumed.Err? then KeepWork(w.beforeConsume.value, AuthorityUnavailable)
      else if w.beforeRemoval == None then KeepWork(w.beforeConsume.value, CleanupFailed)
      else if DigestOf(facts, w.beforeRemoval.value) != DigestOf(facts, w.beforeConsume.value) then
        KeepWork(w.beforeRemoval.value, HeadChanged)
      else
        var last := MayRemove(RemovalFacts(true, false, claims.expectedHead, w.beforeRemoval.value, Reachable(facts, w.beforeRemoval.value)));
        if last.Some? then KeepWork(w.beforeRemoval.value, last.value) else RemoveAt(w.beforeRemoval.value)
  }

  /** The tree is clean, at the commit the authority names, and that commit is published. */
  ghost predicate CleanAndPublished(facts: Facts, o: Observation, head: Commit) {
    && o.head == head && o.trackedClean && o.untrackedClean
    && o.remote.Available? && o.remote.commit.Some? && facts.isAncestor(head, o.remote.commit.value)
  }

  /**
   * Cleanup removes exactly when the owner's authority over this worktree is for a finished run without
   * an attempt, the authority was consumed between two observations of the same digest, and both the
   * first and the last observation are clean, at the claimed commit, and published.
   */
  lemma {:induction false} CleanupRemovesIff(facts: Facts, row: Row, w: Weather, o: Observation)
    ensures DecideCleanup(facts, row, w) == RemoveAt(o) <==>
            && w.claims == Ok(CommittedCleanup(row.identity.runnerId, row.identity.runId, row.identity.worktreeKey, o.head, true, true))
            && w.initial.Some? && CleanAndPublished(facts, w.initial.value, o.head)
            && w.beforeConsume.Some? && w.consumed.Ok? && w.beforeRemoval == Some(o)
            && DigestOf(facts, w.initial.value) == DigestOf(facts, w.beforeConsume.value) == DigestOf(facts, o)
            && CleanAndPublished(facts, o, o.head)
  {
    hide DigestOf;
  }

  /** The demands on an observation, for the claims of a cleanup. */
  function FirstReason(facts: Facts, claims: Claims, o: Observation): Option<RetentionReason>
    requires claims.CommittedCleanup?
  {
    MayRemove(RemovalFacts(claims.runTerminal, !claims.noActiveAttempt, claims.expectedHead, o, Reachable(facts, o)))
  }

  function LastReason(facts: Facts, claims: Claims, o: Observation): Option<RetentionReason>
    requires claims.CommittedCleanup?
  {
    MayRemove(RemovalFacts(true, false, claims.expectedHead, o, Reachable(facts, o)))
  }

  /**
   * Every way in which cleanup keeps the work, with the observation and the reason it records, the ways in the
   * order of its awaits: each is met only by a call that was not kept by an earlier one.
   */
  lemma {:induction false} CleanupKeepsIff(facts: Facts, row: Row, w: Weather, o: Observation, reason: RetentionReason)
    ensures DecideCleanup(facts, row, w) == Refuse("WORKTREE_OBSERVATION_FAILED") <==> w.initial == None
    ensures DecideCleanup(facts, row, w) == KeepWork(o, reason) <==>
              && w.initial.Some?
              && var first := w.initial.value;
              if !CleanupClaims(row, w.claims) then o == first && reason == AuthorityUnavailable
              else if FirstReason(facts, w.claims.value, first).Some? then o == first && FirstReason(facts, w.claims.value, first) == Some(reason)
              else if w.beforeConsume == None then o == first && reason == CleanupFailed
              else
                var second := w.beforeConsume.value;
                if DigestOf(facts, second) != DigestOf(facts, first) then o == second && reason == HeadChanged
                else if w.consumed.Err? then o == second && reason == AuthorityUnavailable
                else if w.beforeRemoval == None then o == second && reason == CleanupFailed
                else
                  var third := w.beforeRemoval.value;
                  && o == third
                  && if DigestOf(facts, third) != DigestOf(facts, second) then reason == HeadChanged
                     else LastReason(facts, w.claims.value, third) == Some(reason)
  {
    hide DigestOf, MayRemove, Reachable, CleanupClaims;
  }

  predicate DiscardClaims(row: Row, claims: Result<Claims>) {
    && claims.Ok? && claims.value.RetainedWorkDiscard? && row.state == Retained
    && claims.value.runnerId == row.identity.runnerId
    && claims.value.ownerMemberId == row.identity.ownerMemberId
    && claims.value.runId == row.identity.runId
    && claims.value.worktreeKey == row.identity.worktreeKey
    && Some(claims.value.retainedWorkId) == row.retainedWorkId
    && claims.value.observationRevision == row.observationRevision
    && Some(claims.value.observationDigest) == row.observationDigest
    && claims.value.remoteIdentity == row.identity.remoteIdentity
    && claims.value.remoteRef == row.identity.remoteRef
  }

  predicate MatchesClaim(facts: Facts, o: Option<Observation>, claims: Claims)
    requires claims.RetainedWorkDiscard?
  {
    o.Some? && o.value.head == claims.expectedHead && DigestOf(facts, o.value) == claims.observationDigest
  }

  /** discard: KeepWork here records the changed observation and then reports the failure. */
  function DecideDiscard(facts: Facts, row: Row, w: Weather): Decision {
    if w.claims.Err? then Refuse(w.claims.code)
    else if !DiscardClaims(row, w.claims) then Refuse("WORKTREE_AUTHORIZATION_MISMATCH")
    else if !MatchesClaim(facts, w.beforeConsume, w.claims.value) then
      if w.beforeConsume.Some? then KeepWork(w.beforeConsume.value, HeadChanged) else Refuse("WORKTREE_OBSERVATION_CHANGED")
    else if w.consumed.Err? then Refuse(w.consumed.code)
    else if !MatchesClaim(facts, w.beforeRemoval, w.claims.value) then
      if w.beforeRemoval.Some? then KeepWork(w.beforeRemoval.value, HeadChanged) else Refuse("WORKTREE_OBSERVATION_CHANGED")
    else RemoveAt(w.beforeRemoval.value)
  }

  /**
   * Discard removes exactly at the digest, revision and commit that the owner's claim names, which are
   * those of the row, observed unchanged before and after the claim was consumed.
   */
  lemma {:induction false} DiscardRemovesIff(facts: Facts, row: Row, w: Weather, o: Observation)
    ensures DecideDiscard(facts, row, w) == RemoveAt(o) <==>
            && row.state == Retained && row.retainedWorkId.Some?
            && w.claims == Ok(RetainedWorkDiscard(row.identity.runnerId, row.identity.runId, row.identity.worktreeKey, o.head,
                                                  row.identity.ownerMemberId, row.retainedWorkId.value, row.observationRevision,
                                                  DigestOf(facts, o), row.identity.remoteIdentity, row.identity.remoteRef))
            && w.consumed.Ok? && w.beforeConsume.Some? && w.beforeRemoval == Some(o) && w.beforeConsume.value.head == o.head
            && Some(DigestOf(facts, w.beforeConsume.value)) == Some(DigestOf(facts, o)) == row.observationDigest
  {
    hide DigestOf;
  }

  /** Discard records a changed observation, before or after the claim was consumed, and nothing else. */
  lemma {:induction false} DiscardKeepsIff(facts: Facts, row: Row, w: Weather, o: Observation, reason: RetentionReason)
    ensures DecideDiscard(facts, row, w) == KeepWork(o, reason) <==>
              && DiscardClaims(row, w.claims) && reason == HeadChanged && !MatchesClaim(facts, Some(o), w.claims.value)
              && (w.beforeConsume == Some(o)
                  || (MatchesClaim(facts, w.beforeConsume, w.claims.value) && w.consumed.Ok? && w.beforeRemoval == Some(o)))
    ensures DecideDiscard(facts, row, w) == Refuse("WORKTREE_AUTHORIZATION_MISMATCH") <== w.claims.Ok? && !DiscardClaims(row, w.claims)
    ensures w.claims.Err? ==> DecideDiscard(facts, row, w) == Refuse(w.claims.code)
  {
    hide DigestOf;
  }

  // ---- the manager

  datatype Disposition = RemovedWork(head: Commit, published: Commit) | RetainedWork(row: Row)

  function Disposed(stored: Result<Row>): Result<Disposition> {
    match stored case Ok(row) => Ok(RetainedWork(row)) case Err(code) => Err(code)
  }

  /** retain */
  function Kept(facts: Facts, rows: seq<Row>, key: string, o: Observation, reason: RetentionReason, w: Weather): Answer {
    Respond(rows, RetainCall(key, Observed(o.head, reason, DigestOf(facts, o), w.summary(o)), w.freshId))
  }

  /** Work that was given back on a branch: the row is rebound to it, and then retained as the work is observed. */
  function Restoration(facts: Facts, rows: seq<Row>, key: string, original: Branch, branch: Branch, w: Weather): (seq<Row>, Result<Disposition>) {
    var rebound := Respond(rows, RebindCall(key, original, branch));
    var bound := if branch == original then rows else rebound.0;
    if branch != original && rebound.1.Err? then (bound, Err(rebound.1.code))
    else if w.restored == None then (bound, Err("WORKTREE_CLEANUP_UNCERTAIN"))
    else
      var answer := Kept(facts, bound, key, w.restored.value, CleanupFailed, w);
      (answer.0, Disposed(answer.1))
  }

  /** The branch was deleted. */
  predicate Gone(trees: map<Path, Branch>, row: Row, o: Observation, w: Weather) {
    TreeGoes(w.removal, trees, row.identity.worktreePath) && RefGoes(w.removal, row.branchRef, o.head)
  }

  function GivenBackOn(trees: map<Path, Branch>, row: Row, o: Observation, w: Weather): Option<Branch> {
    RetainedOn(w.removal, trees, row.identity.worktreePath, row.branchRef, o.head)
  }

  /** The table after removal was tried: marked by the last call, or as restored, or as it was. */
  function AfterRemoval(facts: Facts, rows: seq<Row>, trees: map<Path, Branch>, row: Row, o: Observation, w: Weather, last: Call): seq<Row>
    requires !last.ReserveCall?
  {
    if Gone(trees, row, o, w) then Respond(rows, last).0
    else match GivenBackOn(trees, row, o, w)
      case Some(branch) => Restoration(facts, rows, KeyOf(last).value, row.branchRef, branch, w).0
      case None => rows
  }

  class WorktreeManager {
    const git: Git
    const registry: LocalWorktreeRegistry
    const facts: Facts

    constructor (git: Git, registry: LocalWorktreeRegistry, facts: Facts)
      ensures this.git == git && this.registry == registry && this.facts == facts
    {
      this.git, this.registry, this.facts := git, registry, facts;
    }

    /** Records an observation in the row of the worktree. */
    method Keep(key: string, o: Observation, reason: RetentionReason, w: Weather) returns (r: Result<Disposition>)
      requires TableOk(registry.rows)
      modifies registry
      ensures TableOk(registry.rows)
      ensures var answer := Kept(facts, old(registry.rows), key, o, reason, w);
              registry.rows == answer.0 && r == Disposed(answer.1)
    {
      hide TableOk, Respond;
      var stored := registry.Retain(key, Observed(o.head, reason, DigestOf(facts, o), w.summary(o)), w.freshId);
      match stored
      case Ok(row) => r := Ok(RetainedWork(row));
      case Err(code) => r := Err(code);
    }

    /**
     * cleanup. The repository is touched only when the decision is to remove; the branch is gone only if
     * it was at the observed commit, and then the row is marked removed at that commit or the call fails.
     */
    method Cleanup(key: string, w: Weather) returns (r: Result<Disposition>)
      requires TableOk(registry.rows)
      modifies git, registry
      ensures TableOk(registry.rows)
      ensures var k := ByKey(old(registry.rows), key);
              match (if k.Some? then DecideCleanup(facts, old(registry.rows)[k.value], w) else Refuse("WORKTREE_NOT_FOUND"))
              case Refuse(code) => r == Err(code) && git.log == old(git.log) && registry.rows == old(registry.rows)
              case KeepWork(o, reason) =>
                && git.log == old(git.log)
                && (registry.rows, r) == (Kept(facts, old(registry.rows), key, o, reason, w).0,
                                          Disposed(Kept(facts, old(registry.rows), key, o, reason, w).1))
                && (r.Ok? ==> r.value.RetainedWork? && r.value.row.state == Retained && r.value.row.retainedReason == Some(reason))
              case RemoveAt(o) =>
                var row := old(registry.rows)[k.value];
                && git.log == old(git.log) + RemovalLog(w.removal, old(git.trees), row.identity.worktreePath, row.branchRef, o.head)
                && registry.rows == AfterRemoval(facts, old(registry.rows), old(git.trees), row, o, w, MarkRemovedCall(key, o.head))
                && (Gone(old(git.trees), row, o, w) ==> row.identity.worktreePath !in git.trees)
                && (r.Ok? && r.value.RemovedWork? ==>
                      && Gone(old(git.trees), row, o, w)
                      && r.value.head == o.head && o.remote == Available(Some(r.value.published)))
                && (r.Ok? && r.value.RetainedWork? ==>
                      && GivenBackOn(old(git.trees), row, o, w) == Some(r.value.row.branchRef)
                      && CheckedOut(git.trees, w.removal, VerifiedAt(git.log[|old(git.log)|..], row.identity.worktreePath),
                                    row.identity.worktreePath, r.value.row.branchRef, o.head))
                && (r.Err? && IsCommit(o.head) && InUse(row) ==> !Gone(old(git.trees), row, o, w))
                && (Gone(old(git.trees), row, o, w) || GivenBackOn(old(git.trees), row, o, w).Some? || r == Err("WORKTREE_CLEANUP_UNCERTAIN"))
    {
      hide TableOk, Respond, DecideCleanup, IsCommit, InUse, CheckedOut, DigestOf, RecoveryBranch, Gone, GivenBackOn, AfterRemoval, RemovalLog, Kept;
      var index := registry.FindByKey(key);
      if index == None {
        return Err("WORKTREE_NOT_FOUND");
      }
      var row := registry.rows[index.value];
      match DecideCleanup(facts, row, w) {
        case Refuse(code) => return Err(code);
        case KeepWork(o, reason) =>
          r := Keep(key, o, reason, w);
          KeptAnswer(facts, old(registry.rows), key, o, reason, w);
          return;
        case RemoveAt(o) =>
          CleanupRemovesIff(facts, row, w, o);
          assert o.remote.Available? && o.remote.commit.Some?;
          r := RemoveAndRecord(key, index.value, o, w);
      }
    }

    /**
     * discard. Work is discarded only when the decision is to remove, and then the branch was at the
     * claimed commit; a call that fails has deleted no branch. The head of every observation is a commit,
     * and the claims are of a retained row, so the row can always be marked.
     */
    method Discard(key: string, w: Weather) returns (r: Result<Commit>)
      requires TableOk(registry.rows)
      modifies git, registry
      ensures TableOk(registry.rows)
      ensures var k := ByKey(old(registry.rows), key);
              match (if k.Some? then DecideDiscard(facts, old(registry.rows)[k.value], w) else Refuse("WORKTREE_NOT_FOUND"))
              case Refuse(code) => r == Err(code) && git.log == old(git.log) && registry.rows == old(registry.rows)
              case KeepWork(o, reason) =>
                && r == Err("WORKTREE_OBSERVATION_CHANGED") && git.log == old(git.log)
                && registry.rows == Kept(facts, old(registry.rows), key, o, reason, w).0
              case RemoveAt(o) =>
                var row := old(registry.rows)[k.value];
                && git.log == old(git.log) + RemovalLog(w.removal, old(git.trees), row.identity.worktreePath, row.branchRef, o.head)
                && registry.rows == AfterRemoval(facts, old(registry.rows), old(git.trees), row, o, w, MarkDiscardedCall(key, o.head))
                && (Gone(old(git.trees), row, o, w) ==> row.identity.worktreePath !in git.trees)
                && (r.Ok? ==> Gone(old(git.trees), row, o, w) && r.value == o.head)
                && (IsCommit(o.head) && Gone(old(git.trees), row, o, w) ==> r.Ok?)
                && (!Gone(old(git.trees), row, o, w) ==> r == Err("WORKTREE_DISCARD_FAILED"))
    {
      hide TableOk, Respond, DecideDiscard, CheckedOut, DigestOf, RecoveryBranch, IsCommit, RemovalLog, Kept, RetainedOn, TreeGoes, RefGoes, Restoration;
      var index := registry.FindByKey(key);
      if index == None {
        return Err("WORKTREE_NOT_FOUND");
      }
      var row := registry.rows[index.value];
      match DecideDiscard(facts, row, w) {
        case Refuse(code) => return Err(code);
        case KeepWork(o, reason) =>
          var kept := Keep(key, o, reason, w);
          return Err("WORKTREE_OBSERVATION_CHANGED");
        case RemoveAt(o) =>
          DiscardRemovesIff(facts, row, w, o);
          if IsCommit(o.head) {
            RecordedIff(registry.rows, index.value, o.head);
          }
          var outcome := RemoveWorktree(git, w.removal, row.identity.worktreePath, row.branchRef, o.head);
          if outcome != TreeGone {
            if outcome.FailedRetained? {
              var recorded := RecordRestored(key, row.branchRef, outcome.branch, w);
            }
            return Err("WORKTREE_DISCARD_FAILED");
          }
          var stored := registry.MarkDiscarded(key, o.head);
          r := if stored.Ok? then Ok(o.head) else Err(stored.code);
      }
    }

    /** The work was given back: the row follows its branch and is retained again. */
    method RecordRestored(key: string, original: Branch, branch: Branch, w: Weather) returns (r: Result<Disposition>)
      requires TableOk(registry.rows)
      modifies registry
      ensures TableOk(registry.rows)
      ensures (registry.rows, r) == Restoration(facts, old(registry.rows), key, original, branch, w)
      ensures r.Ok? && ByKey(old(registry.rows), key).Some? &&
              old(registry.rows)[ByKey(old(registry.rows), key).value].branchRef == original ==>
                r.value.RetainedWork? && r.value.row.branchRef == branch && r.value.row.state == Retained
    {
      hide TableOk, Respond, Kept;
      if branch != original {
        var rebound := registry.RebindBranch(key, original, branch);
        if rebound.Err? {
          return Err(rebound.code);
        }
        ReboundAnswer(old(registry.rows), key, original, branch);
      }
      if w.restored == None {
        return Err("WORKTREE_CLEANUP_UNCERTAIN");
      }
      ghost var rows := registry.rows;
      r := Keep(key, w.restored.value, CleanupFailed, w);
      KeptAnswer(facts, rows, key, w.restored.value, CleanupFailed, w);
    }

    /** The second half of cleanup: the removal, and what the row then says. */
    method RemoveAndRecord(key: string, k: nat, o: Observation, w: Weather) returns (r: Result<Disposition>)
      requires TableOk(registry.rows) && ByKey(registry.rows, key) == Some(k)
      requires o.remote.Available? && o.remote.commit.Some?
      modifies git, registry
      ensures TableOk(registry.rows)
      ensures var row := old(registry.rows)[k];
              && git.log == old(git.log) + RemovalLog(w.removal, old(git.trees), row.identity.worktreePath, row.branchRef, o.head)
              && registry.rows == AfterRemoval(facts, old(registry.rows), old(git.trees), row, o, w, MarkRemovedCall(key, o.head))
              && (Gone(old(git.trees), row, o, w) ==> row.identity.worktreePath !in git.trees)
              && (r.Ok? && r.value.RemovedWork? ==>
                    && Gone(old(git.trees), row, o, w)
                    && r.value.head == o.head && o.remote == Available(Some(r.value.published)))
              && (r.Ok? && r.value.RetainedWork? ==>
                    && GivenBackOn(old(git.trees), row, o, w) == Some(r.value.row.branchRef)
                    && CheckedOut(git.trees, w.removal, VerifiedAt(git.log[|old(git.log)|..], row.identity.worktreePath),
                                  row.identity.worktreePath, r.value.row.branchRef, o.head))
              && (r.Err? && IsCommit(o.head) && InUse(row) ==> !Gone(old(git.trees), row, o, w))
              && (Gone(old(git.trees), row, o, w) || GivenBackOn(old(git.trees), row, o, w).Some? || r == Err("WORKTREE_CLEANUP_UNCERTAIN"))
    {
      hide TableOk, Respond, CheckedOut, DigestOf, RecoveryBranch, IsCommit, InUse, RemovalLog, RetainedOn, TreeGoes, RefGoes, Restoration, Kept;
      var row := registry.rows[k];
      if IsCommit(o.head) {
        RecordedIff(registry.rows, k, o.head);
      }
      ghost var trees := git.trees;
      var outcome := RemoveWorktree(git, w.removal, row.identity.worktreePath, row.branchRef, o.head);
      assert outcome == TreeGone <==> Gone(trees, row, o, w);
      assert outcome.FailedRetained? ==> GivenBackOn(trees, row, o, w) == Some(outcome.branch);
      match outcome {
        case FailedUncertain => return Err("WORKTREE_CLEANUP_UNCERTAIN");
        case FailedRetained(branch) =>
          r := RecordRestored(key, row.branchRef, branch, w);
          RestorationKeeps(facts, old(registry.rows), key, row.branchRef, branch, w);
        case TreeGone =>
          var stored := registry.MarkRemoved(key, o.head);
          r := if stored.Ok? then Ok(RemovedWork(o.head, o.remote.commit.value)) else Err(stored.code);
      }
    }
  }

  lemma {:induction false} RestorationKeeps(facts: Facts, rows: seq<Row>, key: string, original: Branch, branch: Branch, w: Weather)
    ensures var r := Restoration(facts, rows, key, original, branch, w).1; r.Ok? ==> r.value.RetainedWork?
  {
    hide Respond, Kept;
  }

  lemma {:induction false} KeptAnswer(facts: Facts, rows: seq<Row>, key: string, o: Observation, reason: RetentionReason, w: Weather)
    ensures var answer := Kept(facts, rows, key, o, reason, w).1;
            answer.Ok? ==>
              && ByKey(rows, key).Some?
              && answer.value.branchRef == rows[ByKey(rows, key).value].branchRef
              && answer.value.state == Retained && answer.value.retainedReason == Some(reason)
  {
    hide Respond;
    RetainedAnswer(rows, key, Observed(o.head, reason, DigestOf(facts, o), w.summary(o)), w.freshId);
  }

  lemma {:induction false} RetainedAnswer(rows: seq<Row>, key: string, observed: Observed, id: string)
    ensures var answer := Respond(rows, RetainCall(key, observed, id)).1;
            answer.Ok? ==>
              && ByKey(rows, key).Some?
              && answer.value.branchRef == rows[ByKey(rows, key).value].branchRef
              && answer.value.state == Retained && answer.value.retainedReason == Some(observed.reason)
  {
    hide Storable;
  }

  lemma {:induction false} ReboundAnswer(rows: seq<Row>, key: string, expected: Branch, branch: Branch)
    ensures var answer := Respond(rows, RebindCall(key, expected, branch));
            answer.1.Ok? ==>
              ByKey(answer.0, key).Some? && answer.0[ByKey(answer.0, key).value].branchRef == branch
  {
    var k := ByKey(rows, key);
    var answer := Respond(rows, RebindCall(key, expected, branch));
    if answer.1.Ok? {
      SameKeys(rows, answer.0, key, 0);
    }
  }

  lemma {:induction false} SameKeys(rows: seq<Row>, next: seq<Row>, key: string, start: nat)
    requires |next| == |rows| && start <= |rows|
    requires forall i :: 0 <= i < |rows| ==> next[i].identity.worktreeKey == rows[i].identity.worktreeKey
    ensures ByKey(next, key, start) == ByKey(rows, key, start)
    decreases |rows| - start
  {
    if start < |rows| {
      SameKeys(rows, next, key, start + 1);
    }
  }
}
