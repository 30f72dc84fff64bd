/** The table of managed worktrees: one row per run, a state machine of conditional statements. */
module WorktreeRegistry {
  import opened Common

  type Commit = string
  type Branch = string
  type Digest = string

  datatype WorktreeState = Creating | Ready | Retained | Removed | Discarded

  datatype RetentionReason =
    | RunNotTerminal
    | ActiveAttempt
    | TrackedChanges
    | UntrackedFiles
    | UnpublishedHead
    | RemoteUnavailable
    | HeadChanged
    | CleanupFailed
    | AuthorityUnavailable

  /** What is fixed when the row is inserted. */
  datatype Identity = Identity(
    runId: string,
    worktreeKey: string,
    projectId: string,
    repositoryId: string,
    runnerId: string,
    ownerMemberId: string,
    repositoryRoot: string,
    worktreePath: string,
    baseCommit: Commit,
    remoteName: string,
    remoteIdentity: string,
    remoteRef: string)

  datatype Row = Row(
    identity: Identity,
    branchRef: Branch,
    state: WorktreeState,
    pinnedRunRevision: Option<nat>,
    currentHead: Option<Commit>,
    published: Option<(Commit, nat)>,
    retainedWorkId: Option<string>,
    retainedReason: Option<RetentionReason>,
    observationRevision: nat,
    observationDigest: Option<Digest>,
    summary: Option<string>)

  datatype Observed = Observed(head: Commit, reason: RetentionReason, digest: Digest, summary: string)

  const MAXIMUM_SUMMARY := 32_768

  // ---- CHECK constraints of the columns that statements set

  predicate IsHex(s: string) {
    forall i :: 0 <= i < |s| ==> '0' <= s[i] <= '9' || 'a' <= s[i] <= 'f'
  }

  predicate IsCommit(s: string) {
    (|s| == 40 || |s| == 64) && IsHex(s)
  }

  predicate IsDigest(s: string) {
    |s| == 64 && IsHex(s)
  }

  predicate IsWorkId(s: string) {
    1 <= |s| <= 128
  }

  predicate Storable(observed: Observed, id: string) {
    IsCommit(observed.head) && IsDigest(observed.digest) && |observed.summary| <= MAXIMUM_SUMMARY && IsWorkId(id)
  }

  // ---- queries

  function ByRun(rows: seq<Row>, runId: string, start: nat := 0): (r: Option<nat>)
    requires start <= |rows|
    ensures r.Some? ==> start <= r.value < |rows| && rows[r.value].identity.runId == runId
    ensures r == None ==> forall i :: start <= i < |rows| ==> rows[i].identity.runId != runId
    decreases |rows| - start
  {
    if start == |rows| then None
    else if rows[start].identity.runId == runId then Some(start)
    else ByRun(rows, runId, start + 1)
  }

  function ByKey(rows: seq<Row>, key: string, start: nat := 0): (r: Option<nat>)
    requires start <= |rows|
    ensures r.Some? ==> start <= r.value < |rows| && rows[r.value].identity.worktreeKey == key
    ensures r == None ==> forall i :: start <= i < |rows| ==> rows[i].identity.worktreeKey != key
    decreases |rows| - start
  {
    if start == |rows| then None
    else if rows[start].identity.worktreeKey == key then Some(start)
    else ByKey(rows, key, start + 1)
  }

  /** UNIQUE columns. */
  predicate Collides(row: Row, other: Row) {
    || row.identity.runId == other.identity.runId
    || row.identity.worktreeKey == other.identity.worktreeKey
    || row.identity.worktreePath == other.identity.worktreePath
    || row.branchRef == other.branchRef
    || (row.retainedWorkId.Some? && row.retainedWorkId == other.retainedWorkId)
  }

  predicate Insertable(rows: seq<Row>, row: Row) {
    forall i :: 0 <= i < |rows| ==> !Collides(row, rows[i])
  }

  predicate Updatable(rows: seq<Row>, k: nat, row: Row) {
    forall i :: 0 <= i < |rows| && i != k ==> !Collides(row, rows[i])
  }

  // ---- statements

  type Answer = (seq<Row>, Result<Row>)

  /** The request for a run's worktree names the same assignment; the key itself is not compared. */
  predicate SameReservation(row: Row, identity: Identity, branch: Branch) {
    row.identity.(worktreeKey := identity.worktreeKey) == identity && row.branchRef == branch
  }

  function Reserve(rows: seq<Row>, identity: Identity, branch: Branch): Answer {
    match ByRun(rows, identity.runId)
    case Some(i) =>
      (rows, if SameReservation(rows[i], identity, branch) then Ok(rows[i]) else Err("WORKTREE_ASSIGNMENT_CONFLICT"))
    case None =>
      var row := Row(identity, branch, Creating, None, None, None, None, None, 0, None, None);
      if Insertable(rows, row) then (rows + [row], Ok(row)) else (rows, Err("WORKTREE_ASSIGNMENT_CONFLICT"))
  }

  /** UPDATE of one row, rolled back when a constraint fails. */
  function Update(rows: seq<Row>, k: nat, row: Row, checked: bool): Answer
    requires k < |rows|
  {
    if checked && Updatable(rows, k, row) then (rows[k := row], Ok(row)) else (rows, Err("WORKTREE_STATE_FAILED"))
  }

  predicate InUse(row: Row) {
    row.state == Ready || row.state == Retained
  }

  function RetainedRow(row: Row, observed: Observed, id: string): Row {
    row.(state := Retained,
         currentHead := Some(observed.head),
         retainedWorkId := Some(if row.retainedWorkId.Some? then row.retainedWorkId.value else id),
         retainedReason := Some(observed.reason),
         observationRevision := row.observationRevision + 1,
         observationDigest := Some(observed.digest),
         summary := Some(observed.summary))
  }

  // ---- every sequence of calls

  datatype Call =
    | ReserveCall(identity: Identity, branch: Branch)
    | MarkReadyCall(key: string, head: Commit)
    | MarkPinnedCall(key: string, revision: nat)
    | RecordPublishedCall(key: string, head: Commit, at: nat)
    | RebindCall(key: string, expected: Branch, branch: Branch)
    | RetainCall(key: string, observed: Observed, id: string)
    | MarkRemovedCall(key: string, head: Commit)
    | MarkDiscardedCall(key: string, head: Commit)

  /** The row an UPDATE writes where its WHERE clause holds, and whether its CHECK constraints hold. */
  function Written(row: Row, call: Call): Option<(Row, bool)> {
    match call
    case ReserveCall(_, _) => None
    case MarkReadyCall(_, head) =>
      if row.state == Creating then Some((row.(state := Ready, currentHead := Some(head)), IsCommit(head))) else None
    case MarkPinnedCall(_, revision) =>
      if row.state == Ready && row.pinnedRunRevision == None
      then Some((row.(pinnedRunRevision := Some(revision)), revision > 0)) else None
    case RecordPublishedCall(_, head, at) =>
      if InUse(row)
      then Some((row.(currentHead := Some(head), published := Some((head, at))), IsCommit(head))) else None
    case RebindCall(_, expected, branch) =>
      if InUse(row) && row.branchRef == expected
      then Some((row.(branchRef := branch), 1 <= |branch| <= 255)) else None
    case RetainCall(_, observed, id) =>
      if InUse(row) then
        var next := RetainedRow(row, observed, id);
        Some((next, Storable(observed, next.retainedWorkId.value)))
      else None
    case MarkRemovedCall(_, head) =>
      if InUse(row) then Some((row.(state := Removed, currentHead := Some(head)), IsCommit(head))) else None
    case MarkDiscardedCall(_, head) =>
      if row.state == Retained then Some((row.(state := Discarded, currentHead := Some(head)), IsCommit(head))) else None
  }

  function KeyOf(call: Call): Option<string> {
    match call
    case ReserveCall(_, _) => None
    case MarkReadyCall(key, _) => Some(key)
    case MarkPinnedCall(key, _) => Some(key)
    case RecordPublishedCall(key, _, _) => Some(key)
    case RebindCall(key, _, _) => Some(key)
    case RetainCall(key, _, _) => Some(key)
    case MarkRemovedCall(key, _) => Some(key)
    case MarkDiscardedCall(key, _) => Some(key)
  }

  /** The two statements that accept a row that already says the same. */
  predicate Repeats(row: Row, call: Call) {
    || (call.MarkReadyCall? && row.state == Ready && row.currentHead == Some(call.head))
    || (call.MarkPinnedCall? && row.pinnedRunRevision == Some(call.revision))
  }

  function Respond(rows: seq<Row>, call: Call): Answer {
    if call.ReserveCall? then Reserve(rows, call.identity, call.branch)
    else match ByKey(rows, KeyOf(call).value)
      case None => (rows, Err("WORKTREE_STATE_CONFLICT"))
      case Some(k) =>
        match Written(rows[k], call)
        case Some((row, checked)) => Update(rows, k, row, checked)
        case None => (rows, if Repeats(rows[k], call) then Ok(rows[k]) else Err("WORKTREE_STATE_CONFLICT"))
  }

  function Run(calls: seq<Call>): seq<Row> {
    if calls == [] then [] else Respond(Run(calls[..|calls| - 1]), calls[|calls| - 1]).0
  }

  /** What every stored row satisfies. */
  ghost predicate RowOk(row: Row) {
    && (row.state == Creating <==> row.currentHead == None)
    && (row.state == Retained ==>
          && row.retainedWorkId.Some? && row.retainedWorkId.value != ""
          && row.observationDigest.Some? && row.observationDigest.value != ""
          && row.retainedReason.Some? && row.summary.Some?
          && row.observationRevision >= 1)
    && (row.retainedWorkId.Some? ==> row.retainedWorkId.value != "")
    && (row.observationRevision >= 1 <==> row.retainedWorkId.Some?)
    && (row.state in {Creating, Ready} ==> row.observationRevision == 0)
    && (row.state == Discarded ==> row.observationRevision >= 1)
  }

  ghost predicate TableOk(rows: seq<Row>) {
    && (forall i :: 0 <= i < |rows| ==> RowOk(rows[i]))
    && (forall i, j :: 0 <= i < j < |rows| ==> !Collides(rows[i], rows[j]))
  }

  function Rank(state: WorktreeState): nat {
    match state
    case Creating => 0
    case Ready => 1
    case Retained => 2
    case Removed => 3
    case Discarded => 3
  }

  predicate Final(state: WorktreeState) {
    state == Removed || state == Discarded
  }

  predicate KeepsWork(state: WorktreeState) {
    state == Retained || state == Discarded
  }

  /** How a row may look later: what is set stays set, counters rise, final rows never change. */
  ghost predicate Evolves(row: Row, later: Row) {
    && later.identity == row.identity
    && (Final(row.state) ==> later == row)
    && Rank(row.state) <= Rank(later.state)
    && (KeepsWork(later.state) && !KeepsWork(row.state) ==> row.observationRevision < later.observationRevision)
    && row.observationRevision <= later.observationRevision
    && (row.pinnedRunRevision.Some? ==> later.pinnedRunRevision == row.pinnedRunRevision)
    && (row.retainedWorkId.Some? ==> later.retainedWorkId == row.retainedWorkId)
    && (row.published.Some? ==> later.published.Some?)
  }

  lemma {:induction false} EvolvesOn(a: Row, b: Row, c: Row)
    requires Evolves(a, b) && Evolves(b, c)
    ensures Evolves(a, c)
  {
  }

  /** What one call does to the row it names. */
  ghost predicate StepsTo(row: Row, call: Call, next: Row) {
    && Evolves(row, next)
    && (next.state == Discarded && row.state != Discarded ==> row.state == Retained)
    && (next.observationRevision == row.observationRevision ||
        (call.RetainCall? && next.observationRevision == row.observationRevision + 1))
    && (call.RetainCall? && next != row ==> next.state == Retained && next.observationRevision == row.observationRevision + 1)
    && (next.branchRef != row.branchRef ==> call.RebindCall? && call.branch == next.branchRef && InUse(row))
  }

  lemma {:induction false} UpdateKeepsTable(rows: seq<Row>, k: nat, row: Row, checked: bool)
    requires TableOk(rows) && k < |rows| && (checked ==> RowOk(row))
    ensures TableOk(Update(rows, k, row, checked).0)
  {
    hide RowOk;
    if checked && Updatable(rows, k, row) {
      var next := rows[k := row];
      forall i, j | 0 <= i < j < |next| ensures !Collides(next[i], next[j]) {
        if i == k {
          assert !Collides(row, rows[j]);
        } else if j == k {
          assert !Collides(row, rows[i]);
        }
      }
    }
  }

  lemma {:induction false} InsertKeepsTable(rows: seq<Row>, row: Row)
    requires TableOk(rows) && RowOk(row) && Insertable(rows, row)
    ensures TableOk(rows + [row])
  {
    hide RowOk;
    var next := rows + [row];
    forall i, j | 0 <= i < j < |next| ensures !Collides(next[i], next[j]) {
      if j == |rows| {
        assert !Collides(row, rows[i]);
      }
    }
  }

  lemma {:induction false} WrittenIsOk(row: Row, call: Call)
    requires RowOk(row) && Written(row, call).Some? && Written(row, call).value.1
    ensures RowOk(Written(row, call).value.0)
    ensures StepsTo(row, call, Written(row, call).value.0)
  {
    hide IsHex;
  }

  lemma {:induction false} Stays(row: Row, call: Call)
    ensures StepsTo(row, call, row)
  {
  }

  lemma {:induction false} RespondKeepsOk(rows: seq<Row>, call: Call)
    requires TableOk(rows)
    ensures var next := Respond(rows, call).0;
            && TableOk(next) && |rows| <= |next|
            && forall i :: 0 <= i < |rows| ==> StepsTo(rows[i], call, next[i])
  {
    hide StepsTo, Written, IsCommit, Storable;
    var next := Respond(rows, call).0;
    forall i | 0 <= i < |rows| ensures StepsTo(rows[i], call, rows[i]) {
      Stays(rows[i], call);
    }
    if call.ReserveCall? {
      if next != rows {
        InsertKeepsTable(rows, next[|rows|]);
      }
    } else {
      var k := ByKey(rows, KeyOf(call).value);
      if k.Some? && Written(rows[k.value], call).Some? {
        var (row, checked) := Written(rows[k.value], call).value;
        assert RowOk(rows[k.value]);
        if checked {
          WrittenIsOk(rows[k.value], call);
        }
        UpdateKeepsTable(rows, k.value, row, checked);
      }
    }
  }

  /** Over every sequence of calls the table keeps its constraints, so a retained row can be projected. */
  lemma {:induction false} EveryTableIsOk(calls: seq<Call>)
    ensures TableOk(Run(calls))
  {
    hide Respond;
    if calls != [] {
      EveryTableIsOk(calls[..|calls| - 1]);
      RespondKeepsOk(Run(calls[..|calls| - 1]), calls[|calls| - 1]);
    }
  }

  /** Over every sequence of calls, each row evolves from what it was after any first part of them, call by call. */
  lemma {:induction false} RowsEvolve(calls: seq<Call>, n: nat, i: nat)
    requires n <= |calls| && i < |Run(calls[..n])|
    ensures i < |Run(calls)| && Evolves(Run(calls[..n])[i], Run(calls)[i])
    ensures n < |calls| ==> i < |Run(calls[..n + 1])| && StepsTo(Run(calls[..n])[i], calls[n], Run(calls[..n + 1])[i])
    decreases |calls| - n
  {
    hide Respond, Evolves;
    if n == |calls| {
      assert calls[..n] == calls;
      EvolvesToItself(Run(calls)[i]);
    } else {
      assert calls[..n + 1][..n] == calls[..n];
      EveryTableIsOk(calls[..n]);
      RespondKeepsOk(Run(calls[..n]), calls[n]);
      var next := Run(calls[..n + 1]);
      assert StepsTo(Run(calls[..n])[i], calls[n], next[i]);
      RowsEvolve(calls, n + 1, i);
      EvolvesOn(Run(calls[..n])[i], next[i], Run(calls)[i]);
    }
  }

  lemma {:induction false} EvolvesToItself(row: Row)
    ensures Evolves(row, row)
  {
  }

  /** Whenever a worktree is retained, its projection has an id, a digest and a revision. */
  lemma {:induction false} RetainedCanBeProjected(rows: seq<Row>, key: string, observed: Observed, id: string)
    requires TableOk(rows) && Respond(rows, RetainCall(key, observed, id)).1.Ok?
    ensures var row := Respond(rows, RetainCall(key, observed, id)).1.value;
            && row.retainedWorkId.Some? && row.retainedWorkId.value != ""
            && row.observationDigest == Some(observed.digest) && observed.digest != ""
            && row.observationRevision >= 1 && row.retainedReason == Some(observed.reason)
            && row.currentHead == Some(observed.head)
  {
    hide IsHex;
  }

  /** Of a row found by its key, markRemoved is refused only when it is not in use, and markDiscarded when it is not retained. */
  lemma {:induction false} RecordedIff(rows: seq<Row>, k: nat, head: Commit)
    requires TableOk(rows) && k < |rows| && IsCommit(head)
    ensures var row := rows[k]; var key := row.identity.worktreeKey;
            && ByKey(rows, key) == Some(k)
            && Respond(rows, MarkRemovedCall(key, head)) ==
                 (if InUse(row) then (rows[k := row.(state := Removed, currentHead := Some(head))], Ok(row.(state := Removed, currentHead := Some(head))))
                  else (rows, Err("WORKTREE_STATE_CONFLICT")))
            && Respond(rows, MarkDiscardedCall(key, head)) ==
                 (if row.state == Retained then (rows[k := row.(state := Discarded, currentHead := Some(head))], Ok(row.(state := Discarded, currentHead := Some(head))))
                  else (rows, Err("WORKTREE_STATE_CONFLICT")))
  {
    hide IsCommit, RowOk;
    assert forall i, j :: 0 <= i < j < |rows| ==> rows[i].identity.worktreeKey != rows[j].identity.worktreeKey;
    var row := rows[k];
    forall i | 0 <= i < |rows| && i != k
      ensures !Collides(row.(state := Removed, currentHead := Some(head)), rows[i])
      ensures !Collides(row.(state := Discarded, currentHead := Some(head)), rows[i])
    {
      assert if i < k then !Collides(rows[i], row) else !Collides(row, rows[i]);
    }
  }

  // ---- the table as the object it is

  class LocalWorktreeRegistry {
    var rows: seq<Row>

    constructor ()
      ensures rows == [] && TableOk(rows)
    {
      rows := [];
    }

    method FindByRun(runId: string) returns (index: Option<nat>)
      ensures index == ByRun(rows, runId)
    {
      var i := 0;
      while i < |rows|
        invariant 0 <= i <= |rows|
        invariant ByRun(rows, runId, i) == ByRun(rows, runId)
      {
        if rows[i].identity.runId == runId {
          return Some(i);
        }
        i := i + 1;
      }
      index := None;
    }

    method FindByKey(key: string) returns (index: Option<nat>)
      ensures index == ByKey(rows, key)
    {
      var i := 0;
      while i < |rows|
        invariant 0 <= i <= |rows|
        invariant ByKey(rows, key, i) == ByKey(rows, key)
      {
        if rows[i].identity.worktreeKey == key {
          return Some(i);
        }
        i := i + 1;
      }
      index := None;
    }

    method ReserveRow(identity: Identity, branch: Branch) returns (r: Result<Row>)
      requires TableOk(rows)
      modifies this
      ensures TableOk(rows)
      ensures (rows, r) == Reserve(old(rows), identity, branch)
    {
      hide TableOk;
      RespondKeepsOk(rows, ReserveCall(identity, branch));
      var existing := FindByRun(identity.runId);
      if existing.Some? {
        return if SameReservation(rows[existing.value], identity, branch)
               then Ok(rows[existing.value]) else Err("WORKTREE_ASSIGNMENT_CONFLICT");
      }
      var row := Row(identity, branch, Creating, None, None, None, None, None, 0, None, None);
      if !Insertable(rows, row) {
        return Err("WORKTREE_ASSIGNMENT_CONFLICT");
      }
      rows := rows + [row];
      r := Ok(row);
    }

    /** Writes one row, unless a constraint fails. */
    method Write(k: nat, row: Row, checked: bool) returns (r: Result<Row>)
      requires k < |rows|
      modifies this
      ensures (rows, r) == Update(old(rows), k, row, checked)
    {
      if !checked || !Updatable(rows, k, row) {
        return Err("WORKTREE_STATE_FAILED");
      }
      rows := rows[k := row];
      r := Ok(row);
    }

    method MarkReady(key: string, head: Commit) returns (r: Result<Row>)
      requires TableOk(rows)
      modifies this
      ensures TableOk(rows)
      ensures (rows, r) == Respond(old(rows), MarkReadyCall(key, head))
    {
      hide TableOk, IsCommit, IsDigest;
      RespondKeepsOk(rows, MarkReadyCall(key, head));
      var index := FindByKey(key);
      if index == None {
        return Err("WORKTREE_STATE_CONFLICT");
      }
      var current := rows[index.value];
      if !(current.state == Creating) {
        return if current.state == Ready && current.currentHead == Some(head) then Ok(current) else Err("WORKTREE_STATE_CONFLICT");
      }
      r := Write(index.value, current.(state := Ready, currentHead := Some(head)), IsCommit(head));
    }

    method MarkPinned(key: string, revision: nat) returns (r: Result<Row>)
      requires TableOk(rows)
      modifies this
      ensures TableOk(rows)
      ensures (rows, r) == Respond(old(rows), MarkPinnedCall(key, revision))
    {
      hide TableOk, IsCommit, IsDigest;
      RespondKeepsOk(rows, MarkPinnedCall(key, revision));
      var index := FindByKey(key);
      if index == None {
        return Err("WORKTREE_STATE_CONFLICT");
      }
      var current := rows[index.value];
      if !(current.state == Ready && current.pinnedRunRevision == None) {
        return if current.pinnedRunRevision == Some(revision) then Ok(current) else Err("WORKTREE_STATE_CONFLICT");
      }
      r := Write(index.value, current.(pinnedRunRevision := Some(revision)), revision > 0);
    }

    method RecordPublished(key: string, head: Commit, at: nat) returns (r: Result<Row>)
      requires TableOk(rows)
      modifies this
      ensures TableOk(rows)
      ensures (rows, r) == Respond(old(rows), RecordPublishedCall(key, head, at))
    {
      hide TableOk, IsCommit, IsDigest;
      RespondKeepsOk(rows, RecordPublishedCall(key, head, at));
      var index := FindByKey(key);
      if index == None {
        return Err("WORKTREE_STATE_CONFLICT");
      }
      var current := rows[index.value];
      if !(InUse(current)) {
        return Err("WORKTREE_STATE_CONFLICT");
      }
      r := Write(index.value, current.(currentHead := Some(head), published := Some((head, at))), IsCommit(head));
    }

    method RebindBranch(key: string, expected: Branch, branch: Branch) returns (r: Result<Row>)
      requires TableOk(rows)
      modifies this
      ensures TableOk(rows)
      ensures (rows, r) == Respond(old(rows), RebindCall(key, expected, branch))
    {
      hide TableOk, IsCommit, IsDigest;
      RespondKeepsOk(rows, RebindCall(key, expected, branch));
      var index := FindByKey(key);
      if index == None {
        return Err("WORKTREE_STATE_CONFLICT");
      }
      var current := rows[index.value];
      if !(InUse(current) && current.branchRef == expected) {
        return Err("WORKTREE_STATE_CONFLICT");
      }
      r := Write(index.value, current.(branchRef := branch), 1 <= |branch| <= 255);
    }

    method Retain(key: string, observed: Observed, freshId: string) returns (r: Result<Row>)
      requires TableOk(rows)
      modifies this
      ensures TableOk(rows)
      ensures (rows, r) == Respond(old(rows), RetainCall(key, observed, freshId))
    {
      hide TableOk, IsCommit, IsDigest;
      RespondKeepsOk(rows, RetainCall(key, observed, freshId));
      var index := FindByKey(key);
      if index == None {
        return Err("WORKTREE_STATE_CONFLICT");
      }
      var current := rows[index.value];
      if !(InUse(current)) {
        return Err("WORKTREE_STATE_CONFLICT");
      }
      var workId := if current.retainedWorkId.Some? then current.retainedWorkId.value else freshId;
      r := Write(index.value, RetainedRow(current, observed, workId), Storable(observed, workId));
    }

    method MarkRemoved(key: string, head: Commit) returns (r: Result<Row>)
      requires TableOk(rows)
      modifies this
      ensures TableOk(rows)
      ensures (rows, r) == Respond(old(rows), MarkRemovedCall(key, head))
    {
      hide TableOk, IsCommit, IsDigest;
      RespondKeepsOk(rows, MarkRemovedCall(key, head));
      var index := FindByKey(key);
      if index == None {
        return Err("WORKTREE_STATE_CONFLICT");
      }
      var current := rows[index.value];
      if !(InUse(current)) {
        return Err("WORKTREE_STATE_CONFLICT");
      }
      r := Write(index.value, current.(state := Removed, currentHead := Some(head)), IsCommit(head));
    }

    method MarkDiscarded(key: string, head: Commit) returns (r: Result<Row>)
      requires TableOk(rows)
      modifies this
      ensures TableOk(rows)
      ensures (rows, r) == Respond(old(rows), MarkDiscardedCall(key, head))
    {
      hide TableOk, IsCommit, IsDigest;
      RespondKeepsOk(rows, MarkDiscardedCall(key, head));
      var index := FindByKey(key);
      if index == None {
        return Err("WORKTREE_STATE_CONFLICT");
      }
      var current := rows[index.value];
      if !(current.state == Retained) {
        return Err("WORKTREE_STATE_CONFLICT");
      }
      r := Write(index.value, current.(state := Discarded, currentHead := Some(head)), IsCommit(head));
    }
  }
}
