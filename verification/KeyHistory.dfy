/** Credential keys over whole runs: how many calls a rotation takes, and what every history keeps. */
module KeyHistory {
  import opened Common
  import opened KeyRotation

  // ---- how many calls a rotation takes

  function Calls(m: Master, c: CredentialClass, rows: ClassRows, batch: nat, key: Key, keyId: KeyId, k: nat): ClassRows {
    if k == 0 then rows else Rotate(m, c, Calls(m, c, rows, batch, key, keyId, k - 1), batch, key, keyId, Survives).0
  }

  ghost predicate Along(m: Master, c: CredentialClass, begun: ClassRows, now: ClassRows, clears: Clears, a: nat, p: nat, position: nat) {
    && begun.rotation.Some? && KeysFit(m, c, now, clears, a, p)
    && Advanced(begun, now, 0, position) && Position(now.credentials, Cursor(now)) == position
  }

  lemma {:induction false} BeginsFromNone(m: Master, c: CredentialClass, rows: ClassRows, clears: Clears, key: Key, keyId: KeyId)
    returns (begun: ClassRows, a: nat, p: nat)
    requires ClassOk(m, c, rows, clears) && rows.keys != [] && rows.rotation == None
    ensures Begin(m, c, rows, key, keyId) == Ok(begun) && Along(m, c, begun, begun, clears, a, p, 0)
    ensures begun.credentials == rows.credentials && begun.completed == rows.completed
    ensures a < |rows.keys| && KeyInState(rows.keys, Active) == Some(a)
    ensures begun.rotation == Some(Rotation(rows.keys[a].version, rows.keys[a].version + 1, 0, 0, 1))
  {
    hide Wrapped, RowOk, Begin;
    a, p :| KeysFit(m, c, rows, clears, a, p);
    Began(m, c, rows, clears, a, key, keyId);
    ActiveFound(rows.keys, a);
    begun, p := Begin(m, c, rows, key, keyId).value, |rows.keys|;
    PositionIs(begun.credentials, 0, 0);
  }

  /** Where no row is revoked, no batch meets a revoked row. */
  lemma {:induction false} NeverStopped(credentials: seq<Credential>, from: nat, end: nat)
    requires NoneRevoked(credentials)
    ensures NoneRevokedBetween(credentials, from, end) && (end < |credentials| ==> !credentials[end].revoked)
  {
  }

  lemma {:induction false} FitInRange(m: Master, c: CredentialClass, rows: ClassRows, clears: Clears, a: nat, p: nat)
    requires KeysFit(m, c, rows, clears, a, p)
    ensures a < |rows.keys| && p < |rows.keys|
  {
    hide Conserved, Wrapped;
  }

  lemma {:induction false} StillRotating(m: Master, c: CredentialClass, begun: ClassRows, now: ClassRows, clears: Clears, a: nat, p: nat, position: nat)
    requires Along(m, c, begun, now, clears, a, p, position)
    ensures now.rotation.Some?
  {
  }

  /** One call that does not complete, from one position to the next. */
  lemma {:induction false} CallAdvances(m: Master, c: CredentialClass, begun: ClassRows, now: ClassRows, clears: Clears, a: nat, p: nat, position: nat, batch: nat)
    requires Along(m, c, begun, now, clears, a, p, position) && NoneRevoked(begun.credentials)
    requires batch > 0 && position + batch < |begun.credentials|
    ensures Along(m, c, begun, Continue(m, c, now, batch, Survives).0, clears, a, p, position + batch)
  {
    hide KeysFit, RewrapRows, RotationKeys, Switch, AllOpen, Position, NoneRevoked;
    RevokedStay(begun, now, 0, position);
    var end := BatchIsOk(m, c, now, clears, a, p, batch);
    assert NoneRevoked(now.credentials);
    NeverStopped(now.credentials, position, end);
    AdvancedTwice(begun, now, Continue(m, c, now, batch, Survives).0, 0, position, end);
  }

  lemma {:induction false} CallCompletes(m: Master, c: CredentialClass, begun: ClassRows, now: ClassRows, clears: Clears, a: nat, p: nat, position: nat, batch: nat)
    returns (after: ClassRows)
    requires Along(m, c, begun, now, clears, a, p, position) && NoneRevoked(begun.credentials)
    requires batch > 0 && position + batch >= |begun.credentials|
    ensures after.rotation.Some? && Advanced(begun, after, 0, |begun.credentials|)
    ensures Continue(m, c, now, batch, Survives).0 == Switch(after) && KeysFit(m, c, Switch(after), clears, p, p)
  {
    hide KeysFit, RewrapRows, RotationKeys, Switch, AllOpen, Position, NoneRevoked;
    FitInRange(m, c, now, clears, a, p);
    RevokedStay(begun, now, 0, position);
    var end := BatchIsOk(m, c, now, clears, a, p, batch);
    assert NoneRevoked(now.credentials);
    NeverStopped(now.credentials, position, end);
    after := RewrapRows(c, now, position, batch, now.keys[a].wrapped.clear, now.keys[p].wrapped.clear, now.keys[p].id).0;
    AdvancedTwice(begun, now, after, 0, position, end);
  }

  /** k * batch, by addition. */
  function Batches(k: nat, batch: nat): nat {
    if k == 0 then 0 else Batches(k - 1, batch) + batch
  }

  lemma {:induction false} BatchesIs(k: nat, batch: nat)
    ensures Batches(k, batch) == k * batch
  {
    if k > 0 {
      BatchesIs(k - 1, batch);
      assert k * batch == (k - 1) * batch + batch;
    }
  }

  /** Before the k-th call, k - 1 batches are done. */
  lemma {:induction false} BeforeCall(m: Master, c: CredentialClass, rows: ClassRows, begun: ClassRows, clears: Clears, a: nat, p: nat,
                                      batch: nat, key: Key, keyId: KeyId, k: nat)
    returns (now: ClassRows)
    requires begun.rotation.Some? && Begin(m, c, rows, key, keyId) == Ok(begun) && Along(m, c, begun, begun, clears, a, p, 0)
    requires NoneRevoked(begun.credentials) && 0 < batch <= 1000
    requires k > 0 && (k == 1 || Batches(k - 1, batch) < |begun.credentials|)
    ensures Begin(m, c, Calls(m, c, rows, batch, key, keyId, k - 1), key, keyId) == Ok(now) && now.rotation.Some?
    ensures Along(m, c, begun, now, clears, a, p, Batches(k - 1, batch))
  {
    hide Along, Continue, NoneRevoked;
    now := begun;
    if k > 1 {
      var before := BeforeCall(m, c, rows, begun, clears, a, p, batch, key, keyId, k - 1);
      CallAdvances(m, c, begun, before, clears, a, p, Batches(k - 2, batch), batch);
      now := Calls(m, c, rows, batch, key, keyId, k - 1);
      assert now == Continue(m, c, before, batch, Survives).0;
      StillRotating(m, c, begun, now, clears, a, p, Batches(k - 1, batch));
    }
  }

  lemma {:induction false} AnswerOfCall(m: Master, c: CredentialClass, rows: ClassRows, clears: Clears, batch: nat, key: Key, keyId: KeyId, k: nat)
    requires ClassOk(m, c, rows, clears) && rows.keys != [] && rows.rotation == None && NoneRevoked(rows.credentials)
    requires 0 < batch <= 1000 && k > 0 && (k == 1 || Batches(k - 1, batch) < |rows.credentials|)
    ensures var active, n, done := KeyInState(rows.keys, Active), |rows.credentials|, Batches(k, batch);
            active.Some?
            && Rotate(m, c, Calls(m, c, rows, batch, key, keyId, k - 1), batch, key, keyId, Survives).1
               == Some(Ok(Progress(done >= n, if done < n then done else n, rows.keys[active.value].version + 1)))
  {
    hide ClassOk, Continue, NoneRevoked, Begin, KeysFit, Position;
    var begun, a, p := BeginsFromNone(m, c, rows, clears, key, keyId);
    var now := BeforeCall(m, c, rows, begun, clears, a, p, batch, key, keyId, k);
    RevokedStay(begun, now, 0, Batches(k - 1, batch));
    ContinueConserves(m, c, now, clears, a, p, batch, Survives);
    NeverStopped(now.credentials, Batches(k - 1, batch), Batches(k, batch));
  }

  /** The rotation is over, every row was resealed exactly once, and the new key is the one active key. */
  ghost predicate RotatedOnce(rows: ClassRows, last: ClassRows) {
    var active := KeyInState(rows.keys, Active);
    && active.Some? && last.rotation == None && |last.credentials| == |rows.credentials|
    && (forall i :: 0 <= i < |rows.credentials| ==>
          RowAdvanced(rows.credentials[i], last.credentials[i], rows.keys[active.value].version + 1))
    && (exists p: nat :: OneActive(last.keys, p) && last.keys[p].version == rows.keys[active.value].version + 1)
  }

  lemma {:induction false} SwitchRotates(m: Master, c: CredentialClass, rows: ClassRows, begun: ClassRows, after: ClassRows, clears: Clears, a: nat, p: nat)
    requires Advanced(begun, after, 0, |begun.credentials|) && KeysFit(m, c, Switch(after), clears, p, p)
    requires begun.credentials == rows.credentials && a < |rows.keys| && KeyInState(rows.keys, Active) == Some(a)
    requires begun.rotation == Some(Rotation(rows.keys[a].version, rows.keys[a].version + 1, 0, 0, 1))
    requires p < |begun.keys| && begun.keys[p].version == rows.keys[a].version + 1
    ensures RotatedOnce(rows, Switch(after)) && ClassOk(m, c, Switch(after), clears)
  {
    hide RowAdvanced, Conserved, Wrapped, DistinctVersions, OthersSettled;
    var last := Switch(after);
    assert OneActive(last.keys, p);
    assert last.keys[p] == SwitchedKey(begun.keys[p], begun.rotation.value.from, begun.rotation.value.to);
  }

  lemma {:induction false} NewVersion(m: Master, c: CredentialClass, rows: ClassRows, clears: Clears, a: nat, p: nat)
    requires rows.rotation.Some? && KeysFit(m, c, rows, clears, a, p)
    ensures p < |rows.keys| && rows.keys[p].version == rows.rotation.value.to
  {
  }

  lemma {:induction false} LastCall(m: Master, c: CredentialClass, rows: ClassRows, clears: Clears, batch: nat, key: Key, keyId: KeyId, k: nat)
    requires ClassOk(m, c, rows, clears) && rows.keys != [] && rows.rotation == None && NoneRevoked(rows.credentials)
    requires 0 < batch <= 1000 && k > 0 && (k == 1 || Batches(k - 1, batch) < |rows.credentials|) && Batches(k, batch) >= |rows.credentials|
    ensures var last := Calls(m, c, rows, batch, key, keyId, k); ClassOk(m, c, last, clears) && RotatedOnce(rows, last)
  {
    hide Continue, NoneRevoked, Begin, Switch, Advanced, KeysFit, ClassOk, RotatedOnce;
    var begun, a, p := BeginsFromNone(m, c, rows, clears, key, keyId);
    var now := BeforeCall(m, c, rows, begun, clears, a, p, batch, key, keyId, k);
    var after := CallCompletes(m, c, begun, now, clears, a, p, Batches(k - 1, batch), batch);
    NewVersion(m, c, begun, clears, a, p);
    SwitchRotates(m, c, rows, begun, after, clears, a, p);
  }

  /** With n credentials, none revoked, the k-th call of a rotation has processed k batches, and says it is completed at ceil(n / batch). */
  lemma {:induction false} CallAnswers(m: Master, c: CredentialClass, rows: ClassRows, clears: Clears, batch: nat, key: Key, keyId: KeyId, k: nat)
    requires ClassOk(m, c, rows, clears) && rows.keys != [] && rows.rotation == None && NoneRevoked(rows.credentials)
    requires 0 < batch <= 1000 && k > 0 && (k == 1 || (k - 1) * batch < |rows.credentials|)
    ensures var active := KeyInState(rows.keys, Active); var n := |rows.credentials|;
            active.Some?
            && Rotate(m, c, Calls(m, c, rows, batch, key, keyId, k - 1), batch, key, keyId, Survives).1
               == Some(Ok(Progress(k * batch >= n, if k * batch < n then k * batch else n, rows.keys[active.value].version + 1)))
  {
    hide *;
    BatchesIs(k, batch);
    BatchesIs(k - 1, batch);
    AnswerOfCall(m, c, rows, clears, batch, key, keyId, k);
  }

  lemma {:induction false} RotationTakesCeilingCalls(m: Master, c: CredentialClass, rows: ClassRows, clears: Clears, batch: nat,
                                                     key: Key, keyId: KeyId, k: nat)
    requires ClassOk(m, c, rows, clears) && rows.keys != [] && rows.rotation == None && NoneRevoked(rows.credentials)
    requires 0 < batch <= 1000 && k > 0 && (k == 1 || (k - 1) * batch < |rows.credentials|) && k * batch >= |rows.credentials|
    ensures var last := Calls(m, c, rows, batch, key, keyId, k); ClassOk(m, c, last, clears) && RotatedOnce(rows, last)
  {
    hide *;
    BatchesIs(k, batch);
    BatchesIs(k - 1, batch);
    LastCall(m, c, rows, clears, batch, key, keyId, k);
  }
}
