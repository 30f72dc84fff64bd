/** What a row of the worktree table says: it is the story of the calls that were accepted on it. */
module WorktreeHistory {
  import opened Common
  import opened WorktreeRegistry
  import opened WorktreeRemoval

  // ---- which calls are accepted

  /** The same assignment: only the key may differ. */
  predicate SameAssignment(a: Identity, b: Identity) {
    && a.runId == b.runId && a.projectId == b.projectId && a.repositoryId == b.repositoryId && a.runnerId == b.runnerId
    && a.ownerMemberId == b.ownerMemberId && a.repositoryRoot == b.repositoryRoot && a.worktreePath == b.worktreePath
    && a.baseCommit == b.baseCommit && a.remoteName == b.remoteName && a.remoteIdentity == b.remoteIdentity && a.remoteRef == b.remoteRef
  }

  ghost predicate HasRun(rows: seq<Row>, runId: string) {
    exists i :: 0 <= i < |rows| && rows[i].identity.runId == runId
  }

  ghost predicate Assigned(rows: seq<Row>, identity: Identity, branch: Branch) {
    exists i :: 0 <= i < |rows| && SameAssignment(rows[i].identity, identity) && rows[i].branchRef == branch
  }

  /** The key, the path or the branch belongs to another run. */
  ghost predicate Occupied(rows: seq<Row>, identity: Identity, branch: Branch) {
    exists i :: 0 <= i < |rows| &&
                (|| rows[i].identity.worktreeKey == identity.worktreeKey || rows[i].identity.worktreePath == identity.worktreePath
                 || rows[i].branchRef == branch)
  }

  /** reserve: accepted for the assignment the run has, or for a run that has none where nothing it needs is occupied. */
  lemma {:induction false} ReserveAnswers(rows: seq<Row>, identity: Identity, branch: Branch)
    requires TableOk(rows)
    ensures var (next, r) := Reserve(rows, identity, branch);
            && (r.Ok? <==> Assigned(rows, identity, branch) || (!HasRun(rows, identity.runId) && !Occupied(rows, identity, branch)))
            && (r.Err? ==> r == Err("WORKTREE_ASSIGNMENT_CONFLICT") && next == rows)
            && (r.Ok? ==>
                  && SameAssignment(r.value.identity, identity) && r.value.branchRef == branch && r.value in next
                  && if HasRun(rows, identity.runId) then next == rows
                     else next == rows + [r.value] && r.value == Row(identity, branch, Creating, None, None, None, None, None, 0, None, None))
  {
    hide RowOk;
    var run := ByRun(rows, identity.runId);
    if run.Some? {
      var i := run.value;
      assert rows[i] in rows;
      forall j | 0 <= j < |rows| && SameAssignment(rows[j].identity, identity) ensures j == i {
        assert if i < j then !Collides(rows[i], rows[j]) else i == j || !Collides(rows[j], rows[i]);
      }
      assert SameReservation(rows[i], identity, branch) <==> SameAssignment(rows[i].identity, identity) && rows[i].branchRef == branch by {
        SameReservationIff(rows[i], identity, branch);
      }
    } else {
      var row := Row(identity, branch, Creating, None, None, None, None, None, 0, None, None);
      assert (rows + [row])[|rows|] == row;
      assert Occupied(rows, identity, branch) <==> !Insertable(rows, row);
    }
  }

  lemma {:induction false} SameReservationIff(row: Row, identity: Identity, branch: Branch)
    ensures SameReservation(row, identity, branch) <==> SameAssignment(row.identity, identity) && row.branchRef == branch
  {
  }

  /** The states in which a call other than reserve is accepted, and what it has to bring. */
  ghost predicate Accepts(rows: seq<Row>, k: nat, call: Call)
    requires k < |rows| && !call.ReserveCall?
  {
    var row := rows[k];
    match call
    case MarkReadyCall(_, head) => (row.state == Creating && IsCommit(head)) || (row.state == Ready && row.currentHead == Some(head))
    case MarkPinnedCall(_, revision) =>
      (row.state == Ready && row.pinnedRunRevision == None && revision > 0) || row.pinnedRunRevision == Some(revision)
    case RecordPublishedCall(_, head, _) => row.state in {Ready, Retained} && IsCommit(head)
    case RebindCall(_, expected, branch) =>
      && row.state in {Ready, Retained} && row.branchRef == expected && 1 <= |branch| <= 255
      && forall i :: 0 <= i < |rows| && i != k ==> rows[i].branchRef != branch
    case RetainCall(_, observed, id) =>
      var workId := if row.retainedWorkId.Some? then row.retainedWorkId.value else id;
      && row.state in {Ready, Retained} && IsCommit(observed.head) && IsDigest(observed.digest) && |observed.summary| <= 32_768
      && 1 <= |workId| <= 128 && forall i :: 0 <= i < |rows| && i != k ==> rows[i].retainedWorkId != Some(workId)
    case MarkRemovedCall(_, head) => row.state in {Ready, Retained} && IsCommit(head)
    case MarkDiscardedCall(_, head) => row.state == Retained && IsCommit(head)
  }

  /** The rows its UPDATE selects by state; the rest is refused by a CHECK or a UNIQUE constraint. */
  predicate Selects(row: Row, call: Call) {
    match call
    case ReserveCall(_, _) => false
    case MarkReadyCall(_, _) => row.state == Creating
    case MarkPinnedCall(_, _) => row.state == Ready && row.pinnedRunRevision == None
    case RebindCall(_, expected, _) => row.state in {Ready, Retained} && row.branchRef == expected
    case MarkDiscardedCall(_, _) => row.state == Retained
    case _ => row.state in {Ready, Retained}
  }

  lemma {:induction false} UpdatableIff(rows: seq<Row>, k: nat, row: Row)
    requires TableOk(rows) && k < |rows| && row.identity == rows[k].identity
    ensures Updatable(rows, k, row) <==>
              forall i :: 0 <= i < |rows| && i != k ==>
                rows[i].branchRef != row.branchRef && (row.retainedWorkId.Some? ==> rows[i].retainedWorkId != row.retainedWorkId)
    ensures row.branchRef == rows[k].branchRef ==> forall i :: 0 <= i < |rows| && i != k ==> rows[i].branchRef != row.branchRef
    ensures row.retainedWorkId == rows[k].retainedWorkId && row.retainedWorkId.Some? ==>
              forall i :: 0 <= i < |rows| && i != k ==> rows[i].retainedWorkId != row.retainedWorkId
  {
    hide RowOk;
    forall i | 0 <= i < |rows| && i != k ensures !Collides(rows[k], rows[i]) {
      assert if i < k then !Collides(rows[i], rows[k]) else !Collides(rows[k], rows[i]);
    }
  }

  lemma {:induction false} KeyIsOf(rows: seq<Row>, k: nat)
    requires TableOk(rows) && k < |rows|
    ensures ByKey(rows, rows[k].identity.worktreeKey) == Some(k)
  {
    hide RowOk;
    var j := ByKey(rows, rows[k].identity.worktreeKey).value;
    assert if j < k then !Collides(rows[j], rows[k]) else j == k || !Collides(rows[k], rows[j]);
  }

  /** A call is accepted exactly so; then it answers the row as it is afterwards, and touches no other; refused, it changes nothing. */
  lemma {:induction false} AcceptedIff(rows: seq<Row>, k: nat, call: Call)
    requires TableOk(rows) && k < |rows| && KeyOf(call) == Some(rows[k].identity.worktreeKey)
    ensures var (next, r) := Respond(rows, call);
            && (r.Ok? <==> Accepts(rows, k, call))
            && |next| == |rows| && (forall i :: 0 <= i < |rows| && i != k ==> next[i] == rows[i])
            && (r.Ok? ==> r.value == next[k])
            && (r.Err? ==> next == rows && r == Err(if Selects(rows[k], call) then "WORKTREE_STATE_FAILED" else "WORKTREE_STATE_CONFLICT"))
  {
    hide IsHex, RowOk, TableOk, Updatable;
    KeyIsOf(rows, k);
    if Written(rows[k], call).Some? {
      UpdatableIff(rows, k, Written(rows[k], call).value.0);
    }
  }

  lemma {:induction false} UnknownIsRefused(rows: seq<Row>, call: Call)
    requires KeyOf(call).Some? && forall i :: 0 <= i < |rows| ==> rows[i].identity.worktreeKey != KeyOf(call).value
    ensures Respond(rows, call) == (rows, Err("WORKTREE_STATE_CONFLICT"))
  {
  }

  const HEX := "0123456789abcdef"

  ghost predicate HexDigit(c: char) {
    exists d :: 0 <= d < 16 && c == HEX[d]
  }

  /** A commit is forty or sixty-four of the sixteen lower-case digits. */
  lemma {:induction false} CommitIff(s: string)
    ensures IsCommit(s) <==> |s| in {40, 64} && forall i :: 0 <= i < |s| ==> HexDigit(s[i])
  {
    hide HexDigit;
    forall i | 0 <= i < |s| ensures '0' <= s[i] <= '9' || 'a' <= s[i] <= 'f' <==> HexDigit(s[i]) {
      HexDigitIff(s[i]);
    }
  }

  lemma {:induction false} HexDigitIff(c: char)
    ensures '0' <= c <= '9' || 'a' <= c <= 'f' <==> HexDigit(c)
  {
    if '0' <= c <= '9' {
      assert HEX[c as int - '0' as int] == c;
    } else if 'a' <= c <= 'f' {
      assert HEX[10 + (c as int - 'a' as int)] == c;
    }
  }

  // ---- the story of a row

  /** The call is accepted on the row at an index. */
  ghost predicate AcceptedOn(rows: seq<Row>, call: Call, i: nat) {
    i < |rows| && KeyOf(call) == Some(rows[i].identity.worktreeKey) && Respond(rows, call).1.Ok?
  }

  /** The calls that were accepted on the row at an index, after the one that inserted it. */
  ghost function Story(calls: seq<Call>, i: nat): seq<Call> {
    if calls == [] then []
    else
      var before, call := calls[..|calls| - 1], calls[|calls| - 1];
      Story(before, i) + if AcceptedOn(Run(before), call, i) then [call] else []
  }

  /** The head that a call names. */
  function HeadOf(call: Call): Option<Commit> {
    match call
    case MarkReadyCall(_, head) => Some(head)
    case RecordPublishedCall(_, head, _) => Some(head)
    case RetainCall(_, observed, _) => Some(observed.head)
    case MarkRemovedCall(_, head) => Some(head)
    case MarkDiscardedCall(_, head) => Some(head)
    case _ => None
  }

  function LastHead(story: seq<Call>): Option<Commit> {
    if story == [] then None
    else if HeadOf(story[|story| - 1]).Some? then HeadOf(story[|story| - 1]) else LastHead(story[..|story| - 1])
  }

  function LastRetain(story: seq<Call>): Option<Observed> {
    if story == [] then None
    else if story[|story| - 1].RetainCall? then Some(story[|story| - 1].observed) else LastRetain(story[..|story| - 1])
  }

  function Retains(story: seq<Call>): nat {
    if story == [] then 0 else Retains(story[..|story| - 1]) + if story[|story| - 1].RetainCall? then 1 else 0
  }

  /** The id drawn for the first retain. */
  function FirstId(story: seq<Call>): Option<string> {
    if story == [] then None
    else
      var first := FirstId(story[..|story| - 1]);
      if first == None && story[|story| - 1].RetainCall? then Some(story[|story| - 1].id) else first
  }

  function LastPublished(story: seq<Call>): Option<(Commit, nat)> {
    if story == [] then None
    else
      var last := story[|story| - 1];
      if last.RecordPublishedCall? then Some((last.head, last.at)) else LastPublished(story[..|story| - 1])
  }

  /** All accepted pins name one revision. */
  function LastPinned(story: seq<Call>): Option<nat> {
    if story == [] then None
    else if story[|story| - 1].MarkPinnedCall? then Some(story[|story| - 1].revision) else LastPinned(story[..|story| - 1])
  }

  function LastBranch(branch: Branch, story: seq<Call>): Branch {
    if story == [] then branch
    else if story[|story| - 1].RebindCall? then story[|story| - 1].branch else LastBranch(branch, story[..|story| - 1])
  }

  function LastState(story: seq<Call>): WorktreeState {
    if story == [] then Creating
    else match story[|story| - 1]
      case MarkReadyCall(_, _) => Ready
      case RetainCall(_, _, _) => Retained
      case MarkRemovedCall(_, _) => Removed
      case MarkDiscardedCall(_, _) => Discarded
      case _ => LastState(story[..|story| - 1])
  }

  /** A row as its identity, its first branch and its story make it. */
  function Told(identity: Identity, branch: Branch, story: seq<Call>): Row {
    var last := LastRetain(story);
    Row(identity, LastBranch(branch, story), LastState(story), LastPinned(story), LastHead(story), LastPublished(story), FirstId(story),
        if last.Some? then Some(last.value.reason) else None, Retains(story),
        if last.Some? then Some(last.value.digest) else None, if last.Some? then Some(last.value.summary) else None)
  }

  lemma {:induction false} ToldNext(identity: Identity, branch: Branch, story: seq<Call>, call: Call)
    ensures var row, next := Told(identity, branch, story), Told(identity, branch, story + [call]);
            && (Written(row, call).Some? ==> next == Written(row, call).value.0)
            && (Written(row, call) == None && Repeats(row, call) ==> next == row)
  {
    hide IsCommit, Storable;
    var both := story + [call];
    assert both[..|both| - 1] == story && both[|both| - 1] == call;
  }

  lemma {:induction false} AcceptedRow(rows: seq<Row>, k: nat, call: Call)
    requires TableOk(rows) && AcceptedOn(rows, call, k)
    ensures match Written(rows[k], call)
            case Some((row, _)) => Respond(rows, call).0[k] == row
            case None => Respond(rows, call).0[k] == rows[k] && Repeats(rows[k], call)
  {
    hide TableOk, Updatable, Written, Repeats;
    KeyIsOf(rows, k);
  }

  lemma {:induction false} ToldOn(identity: Identity, branch: Branch, story: seq<Call>, rows: seq<Row>, k: nat, call: Call)
    requires TableOk(rows) && k < |rows| && rows[k] == Told(identity, branch, story) && AcceptedOn(rows, call, k)
    ensures Respond(rows, call).0[k] == Told(identity, branch, story + [call])
  {
    hide TableOk, Respond, Told, Written, Repeats, AcceptedOn;
    AcceptedRow(rows, k, call);
    ToldNext(identity, branch, story, call);
  }

  lemma {:induction false} NoStoryBefore(calls: seq<Call>, i: nat)
    requires i >= |Run(calls)|
    ensures Story(calls, i) == []
  {
    hide Respond;
    if calls != [] {
      var before := calls[..|calls| - 1];
      EveryTableIsOk(before);
      RespondKeepsOk(Run(before), calls[|calls| - 1]);
      NoStoryBefore(before, i);
    }
  }

  /**
   * In every history each row was inserted by an accepted reserve, and says since then what the calls accepted on it say:
   * the head and the publication last named, the branch last bound, the one revision pinned, how often it was retained,
   * the reason, digest and summary of the last time, the id of the first, and the state of the last call that sets one.
   */
  lemma {:induction false} EveryRowIsItsStory(calls: seq<Call>, i: nat) returns (n: nat)
    requires i < |Run(calls)|
    ensures n < |calls| && calls[n].ReserveCall? && i == |Run(calls[..n])|
    ensures Run(calls)[i] == Told(calls[n].identity, calls[n].branch, Story(calls, i))
  {
    hide Told, Respond, Reserve, AcceptedOn;
    var before, call := calls[..|calls| - 1], calls[|calls| - 1];
    var rows := Run(before);
    EveryTableIsOk(before);
    if i < |rows| {
      n := EveryRowIsItsStory(before, i);
      assert before[..n] == calls[..n];
      OneStep(rows, call, i);
      if AcceptedOn(rows, call, i) {
        ToldOn(calls[n].identity, calls[n].branch, Story(before, i), rows, i, call);
      } else {
        assert Story(calls, i) == Story(before, i) + [] == Story(before, i);
      }
    } else {
      n := |calls| - 1;
      NoStoryBefore(before, i);
      Inserted(rows, call, i);
      NotAcceptedYet(rows, call, i);
      assert Story(calls, i) == [] + [];
    }
  }

  lemma {:induction false} NotAcceptedYet(rows: seq<Row>, call: Call, i: nat)
    requires i >= |rows|
    ensures !AcceptedOn(rows, call, i)
  {
  }

  /** A call changes a row only where it is accepted on it. */
  lemma {:induction false} OneStep(rows: seq<Row>, call: Call, i: nat)
    requires TableOk(rows) && i < |rows|
    ensures i < |Respond(rows, call).0| && (!AcceptedOn(rows, call, i) ==> Respond(rows, call).0[i] == rows[i])
  {
    hide TableOk, Written, Updatable, Accepts;
    if !call.ReserveCall? {
      var k := ByKey(rows, KeyOf(call).value);
      if k.Some? {
        AcceptedIff(rows, k.value, call);
      }
    }
  }

  lemma {:induction false} Inserted(rows: seq<Row>, call: Call, i: nat)
    requires TableOk(rows) && |rows| <= i < |Respond(rows, call).0|
    ensures call.ReserveCall? && i == |rows| && Respond(rows, call).0[i] == Told(call.identity, call.branch, [])
  {
    hide TableOk, Written, Updatable, Accepts;
    if !call.ReserveCall? {
      var k := ByKey(rows, KeyOf(call).value);
      if k.Some? {
        AcceptedIff(rows, k.value, call);
      }
      assert false;
    }
  }

  // ---- work that was given back

  /** The accepted rebinding, and the accepted retention, of the row at an index. */
  lemma {:induction false} BindsAndRetains(rows: seq<Row>, k: nat, call: Call)
    requires TableOk(rows) && k < |rows| && KeyOf(call) == Some(rows[k].identity.worktreeKey) && Accepts(rows, k, call)
    ensures var row, next := rows[k], Respond(rows, call).0;
            && TableOk(next) && next == rows[k := next[k]] && Respond(rows, call).1 == Ok(next[k]) && next[k].identity == row.identity
            && (call.RebindCall? ==> next[k] == row.(branchRef := call.branch))
            && (call.RetainCall? ==> next[k] == RetainedRow(row, call.observed, call.id))
  {
    hide TableOk, Accepts, Updatable, RowOk, StepsTo;
    AcceptedIff(rows, k, call);
    RespondKeepsOk(rows, call);
    AcceptedRow(rows, k, call);
    assert Respond(rows, call).0 == rows[k := Respond(rows, call).0[k]];
    KeptIdentity(rows, k, call);
  }

  lemma {:induction false} KeptIdentity(rows: seq<Row>, k: nat, call: Call)
    requires TableOk(rows) && k < |rows|
    ensures k < |Respond(rows, call).0| && Respond(rows, call).0[k].identity == rows[k].identity
  {
    hide TableOk, Respond, RowOk;
    RespondKeepsOk(rows, call);
    assert StepsTo(rows[k], call, Respond(rows, call).0[k]);
  }

  /**
   * After a failed removal whose branch was given back: the row follows the branch where it may be bound to it, and is
   * then retained as CLEANUP_FAILED where the work can be observed and stored; no other row changes.
   */
  lemma {:induction false} RestoredRow(facts: Facts, rows: seq<Row>, k: nat, branch: Branch, w: Weather)
    requires TableOk(rows) && k < |rows|
    ensures var row := rows[k]; var key := row.identity.worktreeKey;
            var (next, r) := Restoration(facts, rows, key, row.branchRef, branch, w);
            var binds, bound := branch == row.branchRef || Accepts(rows, k, RebindCall(key, row.branchRef, branch)), rows[k := row.(branchRef := branch)];
            && (!binds ==> r.Err? && next == rows)
            && (binds && w.restored == None ==> r == Err("WORKTREE_CLEANUP_UNCERTAIN") && next == bound)
            && (binds && w.restored.Some? ==>
                  var o := w.restored.value; var observed := Observed(o.head, CleanupFailed, DigestOf(facts, o), w.summary(o));
                  if Accepts(bound, k, RetainCall(key, observed, w.freshId)) then
                    next == rows[k := RetainedRow(row.(branchRef := branch), observed, w.freshId)] && r == Ok(RetainedWork(next[k]))
                  else r.Err? && next == bound)
  {
    hide TableOk, Accepts, Respond, DigestOf, RetainedRow;
    var row := rows[k];
    var key := row.identity.worktreeKey;
    var bound := rows[k := row.(branchRef := branch)];
    if branch == row.branchRef {
      assert bound == rows;
    } else {
      AcceptedIff(rows, k, RebindCall(key, row.branchRef, branch));
      if Accepts(rows, k, RebindCall(key, row.branchRef, branch)) {
        BindsAndRetains(rows, k, RebindCall(key, row.branchRef, branch));
      }
    }
    if (branch == row.branchRef || Accepts(rows, k, RebindCall(key, row.branchRef, branch))) && w.restored.Some? {
      var o := w.restored.value;
      var call := RetainCall(key, Observed(o.head, CleanupFailed, DigestOf(facts, o), w.summary(o)), w.freshId);
      AcceptedIff(bound, k, call);
      if Accepts(bound, k, call) {
        BindsAndRetains(bound, k, call);
      }
    }
  }

  /**
   * The row after a removal was tried, whatever the last call was: the state and the commit of that call where the branch
   * is gone; bound to the branch that was given back; or as it was. Other rows stay as they are.
   */
  lemma {:induction false} RowAfterRemoval(facts: Facts, rows: seq<Row>, trees: map<Path, Branch>, k: nat, o: Observation, w: Weather, last: Call)
    requires TableOk(rows) && k < |rows| && (last.MarkRemovedCall? || last.MarkDiscardedCall?)
    requires KeyOf(last) == Some(rows[k].identity.worktreeKey)
    ensures var row, next := rows[k], AfterRemoval(facts, rows, trees, rows[k], o, w, last); var back := GivenBackOn(trees, row, o, w);
            && |next| == |rows| && (forall i :: 0 <= i < |rows| && i != k ==> next[i] == rows[i])
            && (Gone(trees, row, o, w) && Accepts(rows, k, last) ==>
                  next[k] == row.(state := if last.MarkRemovedCall? then Removed else Discarded, currentHead := Some(last.head)))
            && (Gone(trees, row, o, w) && !Accepts(rows, k, last) ==> next == rows)
            && (!Gone(trees, row, o, w) && back == None ==> next == rows)
            && (!Gone(trees, row, o, w) && back.Some?
                && (back.value == row.branchRef || Accepts(rows, k, RebindCall(row.identity.worktreeKey, row.branchRef, back.value))) ==>
                  next[k].branchRef == back.value && next[k].state in {row.state, Retained})
  {
    hide TableOk, Accepts, Gone, GivenBackOn, Restoration, DigestOf;
    var row := rows[k];
    if Gone(trees, row, o, w) {
      AcceptedIff(rows, k, last);
      if Accepts(rows, k, last) {
        MarksAt(rows, k, last);
      }
    } else if GivenBackOn(trees, row, o, w).Some? {
      RestoredRow(facts, rows, k, GivenBackOn(trees, row, o, w).value, w);
    }
  }

  lemma {:induction false} MarksAt(rows: seq<Row>, k: nat, last: Call)
    requires TableOk(rows) && k < |rows| && (last.MarkRemovedCall? || last.MarkDiscardedCall?)
    requires KeyOf(last) == Some(rows[k].identity.worktreeKey) && Accepts(rows, k, last)
    ensures k < |Respond(rows, last).0|
    ensures Respond(rows, last).0[k] == rows[k].(state := if last.MarkRemovedCall? then Removed else Discarded, currentHead := Some(last.head))
  {
    hide TableOk, Respond, Accepts, IsCommit;
    AcceptedIff(rows, k, last);
    AcceptedRow(rows, k, last);
  }
}
