/** Two credentials of one class, and what a rotation, a late write, a revocation and a slow put do to them. */
module CredentialExamples {
  import opened Common
  import opened KeyRotation
  import opened CredentialWorlds

  const MASTER := Master("master key", "master")
  const ALICE := "alice"
  const BOB := "bob"
  const OLD_KEY: Key := "old"
  const NEW_KEY: Key := "new"

  function OldKeyRow(): KeyRow {
    KeyRow("key-1", 1, MASTER.id, WrapKey(MASTER, Provider, 1, "key-1", OLD_KEY), Active)
  }

  function NewKeyRow(): KeyRow {
    KeyRow("key-2", 2, MASTER.id, WrapKey(MASTER, Provider, 2, "key-2", NEW_KEY), Pending)
  }

  /** A row under the old key at its first revision. */
  function First(id: CredentialId, owner: string, clear: Cleartext): Credential {
    SealedRow(Provider, OldKeyRow(), OLD_KEY, id, owner, 1, clear)
  }

  function TwoRows(): ClassRows {
    ClassRows([OldKeyRow()], [First(1, ALICE, "a"), First(2, BOB, "b")], None, [])
  }

  lemma {:induction false} On(history: seq<Step>, step: Step)
    ensures Reached(MASTER, history + [step]) == NextWorld(Reached(MASTER, history), step)
    ensures LastPut(MASTER, history + [step]) == NextClears(Reached(MASTER, history), LastPut(MASTER, history), step)
    ensures AllNeeded(MASTER, history + [step]) <==> AllNeeded(MASTER, history) && StoresNeeded(Reached(MASTER, history), step)
  {
    assert (history + [step])[..|history + [step]| - 1] == history;
  }

  /** The class on its own; all says whether every row stored was under the key it needed. */
  ghost predicate At(history: seq<Step>, rows: ClassRows, clears: Clears, all: bool) {
    && Reached(MASTER, history).master == MASTER && Reached(MASTER, history).classes == map[Provider := rows]
    && LastPut(MASTER, history) == clears && (AllNeeded(MASTER, history) <==> all)
  }

  /** The next call on the class. */
  lemma {:induction false} Does(history: seq<Step>, rows: ClassRows, clears: Clears, all: bool, step: Step)
    requires At(history, rows, clears, all) && OnRows(step) && step.c == Provider
    ensures At(history + [step], NextRows(MASTER, rows, step), clears, all)
    ensures Reached(MASTER, history + [step]).flights == Reached(MASTER, history).flights
  {
    hide Reached, LastPut, AllNeeded, NextRows;
    On(history, step);
    assert map[Provider := rows][Provider := NextRows(MASTER, rows, step)] == map[Provider := NextRows(MASTER, rows, step)];
  }

  /** A put goes as far as its await. */
  lemma {:induction false} Seals(history: seq<Step>, rows: ClassRows, clears: Clears, all: bool, owner: string, expected: nat, clear: Cleartext,
                                 id: CredentialId, f: Flight)
    requires At(history, rows, clears, all) && Seal(MASTER, Provider, rows, owner, expected, clear, id) == Ok(f)
    ensures At(history + [SealCredential(Provider, owner, expected, clear, id)], rows, clears, all)
    ensures Reached(MASTER, history + [SealCredential(Provider, owner, expected, clear, id)]).flights == Reached(MASTER, history).flights + [f]
  {
    hide Reached, LastPut, AllNeeded, Seal;
    On(history, SealCredential(Provider, owner, expected, clear, id));
  }

  /** Its transaction. */
  lemma {:induction false} Lands(history: seq<Step>, rows: ClassRows, clears: Clears, all: bool, k: nat, f: Flight, next: ClassRows)
    requires At(history, rows, clears, all) && k < |Reached(MASTER, history).flights| && Reached(MASTER, history).flights[k] == f
    requires f.credentialClass == Provider && f.landed == InAir && Land(rows, f) == (next, Ok((f.row.id, f.row.revision)))
    ensures At(history + [StoreCredential(k)], next, clears[(Provider, f.row.id) := f.row.sealed.clear],
               all && NeededKey(MASTER, Provider, rows, f.row.id) == Some(f.row.sealed.key))
  {
    hide Reached, LastPut, AllNeeded, Land, NeededKey;
    On(history, StoreCredential(k));
    assert map[Provider := rows][Provider := next] == map[Provider := next];
  }

  // ---- the class with its first key, and two credentials

  function NoRows(): ClassRows {
    ClassRows([OldKeyRow()], [], None, [])
  }

  const FIRST_KEY := [InitializeClass(Provider, OLD_KEY, "key-1")]

  lemma {:induction false} FirstKey()
    ensures At(FIRST_KEY, NoRows(), map[], true) && Reached(MASTER, FIRST_KEY).flights == []
  {
    assert Reached(MASTER, []) == World(MASTER, map[], []) && LastPut(MASTER, []) == map[] && AllNeeded(MASTER, []);
    On([], FIRST_KEY[0]);
    assert [] + [FIRST_KEY[0]] == FIRST_KEY;
    assert [] + [OldKeyRow()] == [OldKeyRow()];
  }

  /** The put of an owner that has no row. */
  function FirstFlight(id: CredentialId, owner: string, clear: Cleartext): Flight {
    Flight(Provider, true, 0, First(id, owner, clear), InAir)
  }

  lemma {:induction false} SealsFirst(rows: ClassRows, owner: string, clear: Cleartext, id: CredentialId)
    requires rows.keys == [OldKeyRow()] && OwnerIndex(rows.credentials, owner) == None
    ensures Seal(MASTER, Provider, rows, owner, 0, clear, id) == Ok(FirstFlight(id, owner, clear))
  {
    assert KeyInState(rows.keys, Active) == Some(0);
    assert ActiveKey(MASTER, Provider, rows.keys) == Some((OldKeyRow(), OLD_KEY));
  }

  lemma {:induction false} LandsFirst(rows: ClassRows, owner: string, clear: Cleartext, id: CredentialId)
    requires OwnerIndex(rows.credentials, owner) == None && Position(rows.credentials, id) == |rows.credentials|
    requires rows.credentials != [] ==> rows.credentials[|rows.credentials| - 1].id != id
    ensures Land(rows, FirstFlight(id, owner, clear)) == (rows.(credentials := rows.credentials + [First(id, owner, clear)]), Ok((id, 1)))
  {
    var row := First(id, owner, clear);
    assert rows.credentials[..|rows.credentials|] + [row] + rows.credentials[|rows.credentials|..] == rows.credentials + [row];
    assert Inserted(rows.credentials, row) == Some(rows.credentials + [row]);
  }

  /** A put with nothing between its halves, of an owner without a row, after all the others. */
  lemma {:induction false} Writes(history: seq<Step>, rows: ClassRows, clears: Clears, owner: string, clear: Cleartext, id: CredentialId)
    returns (longer: seq<Step>)
    requires At(history, rows, clears, true)
    requires rows.keys == [OldKeyRow()] && rows.rotation == None && OwnerIndex(rows.credentials, owner) == None
    requires Position(rows.credentials, id) == |rows.credentials| && (rows.credentials != [] ==> rows.credentials[|rows.credentials| - 1].id != id)
    ensures At(longer, rows.(credentials := rows.credentials + [First(id, owner, clear)]), clears[(Provider, id) := clear], true)
  {
    hide Seal, Land, At, First;
    var f := FirstFlight(id, owner, clear);
    SealsFirst(rows, owner, clear, id);
    LandsFirst(rows, owner, clear, id);
    FirstHas(id, owner, clear);
    OldIsNeeded(rows, id);
    var sealed := history + [SealCredential(Provider, owner, 0, clear, id)];
    Seals(history, rows, clears, true, owner, 0, clear, id, f);
    var k := |Reached(MASTER, history).flights|;
    longer := sealed + [StoreCredential(k)];
    Lands(sealed, rows, clears, true, k, f, rows.(credentials := rows.credentials + [First(id, owner, clear)]));
  }

  lemma {:induction false} OldIsNeeded(rows: ClassRows, id: CredentialId)
    requires rows.keys == [OldKeyRow()] && rows.rotation == None
    ensures NeededKey(MASTER, Provider, rows, id) == Some(OLD_KEY)
  {
    assert ActiveKey(MASTER, Provider, rows.keys) == Some((OldKeyRow(), OLD_KEY));
  }

  lemma {:induction false} FirstHas(id: CredentialId, owner: string, clear: Cleartext)
    ensures var row := First(id, owner, clear);
            row.id == id && row.owner == owner && row.revision == 1 && row.sealed.key == OLD_KEY && row.sealed.clear == clear
  {
  }

  lemma {:induction false} TwoAreSealed() returns (h: seq<Step>)
    ensures At(h, TwoRows(), map[(Provider, 1) := "a", (Provider, 2) := "b"], true)
  {
    hide At, First;
    FirstKey();
    var one := NoRows().(credentials := [First(1, ALICE, "a")]);
    FirstHas(1, ALICE, "a");
    h := Writes(FIRST_KEY, NoRows(), map[], ALICE, "a", 1);
    assert [] + [First(1, ALICE, "a")] == one.credentials;
    h := Writes(h, one, map[(Provider, 1) := "a"], BOB, "b", 2);
    assert one.credentials + [First(2, BOB, "b")] == TwoRows().credentials;
  }

  // ---- one row rotated

  /** Alice's row under the new key. */
  function Rotated(): Credential {
    Credential(1, ALICE, "key-2", 2, Box(NEW_KEY, CredentialAad(1, Provider, ALICE, 2, 2), "a"), 2, false)
  }

  function HalfWay(): ClassRows {
    ClassRows([OldKeyRow(), NewKeyRow()], [Rotated(), First(2, BOB, "b")], Some(Rotation(1, 2, 1, 1, 2)), [])
  }

  function Begun(): ClassRows {
    TwoRows().(keys := [OldKeyRow(), NewKeyRow()], rotation := Some(Rotation(1, 2, 0, 0, 1)))
  }

  lemma {:induction false} BeginsRotation()
    ensures Begin(MASTER, Provider, TwoRows(), NEW_KEY, "key-2") == Ok(Begun())
  {
    assert [OldKeyRow()] + [NewKeyRow()] == [OldKeyRow(), NewKeyRow()];
  }

  lemma {:induction false} KeysAreKnown(rows: ClassRows)
    requires rows.keys == [OldKeyRow(), NewKeyRow()] && rows.rotation.Some? && rows.rotation.value.from == 1 && rows.rotation.value.to == 2
    ensures RotationKeys(MASTER, Provider, rows) == Some((OLD_KEY, NEW_KEY, "key-2"))
    ensures ActiveKey(MASTER, Provider, rows.keys) == Some((OldKeyRow(), OLD_KEY))
  {
    assert KeyAtVersion(rows.keys, 1) == Some(0) && KeyAtVersion(rows.keys, 2) == Some(1);
  }

  lemma {:induction false} RotatesOne()
    ensures Rotate(MASTER, Provider, TwoRows(), 1, NEW_KEY, "key-2", Survives) == (HalfWay(), Some(Ok(Progress(false, 1, 2))))
  {
    BeginsRotation();
    hide Begin, RotationKeys;
    KeysAreKnown(Begun());
    assert Begun().credentials[0 := Rotated()] == HalfWay().credentials;
    assert RewrapAt(Provider, Begun(), 0, OLD_KEY, NEW_KEY, "key-2") == Some(HalfWay());
    assert RewrapRows(Provider, Begun(), 0, 1, OLD_KEY, NEW_KEY, "key-2") == (HalfWay(), true);
  }

  /** Between two calls of a rotation the rotated credential does not open, and the other one does. */
  lemma {:induction false} RotatedRowIsUnreadable() returns (h: seq<Step>)
    ensures At(h, HalfWay(), map[(Provider, 1) := "a", (Provider, 2) := "b"], true)
    ensures OpenCredential(MASTER, Provider, HalfWay(), 0) == None
    ensures OpenCredential(MASTER, Provider, HalfWay(), 1) == Some("b")
  {
    var sealed := TwoAreSealed();
    var step := RotateClass(Provider, 1, NEW_KEY, "key-2", Survives);
    RotatesOne();
    KeysAreKnown(HalfWay());
    hide Rotate, At, ActiveKey;
    Does(sealed, TwoRows(), map[(Provider, 1) := "a", (Provider, 2) := "b"], true, step);
    h := sealed + [step];
  }

  // ---- a write behind the cursor

  function LateFlight(): Flight {
    Flight(Provider, false, 2, SealedRow(Provider, OldKeyRow(), OLD_KEY, 1, ALICE, 3, "late"), InAir)
  }

  function WrittenBehind(): ClassRows {
    HalfWay().(credentials := [LateFlight().row, First(2, BOB, "b")])
  }

  lemma {:induction false} WritesBehind()
    ensures Seal(MASTER, Provider, HalfWay(), ALICE, 2, "late", 3) == Ok(LateFlight())
    ensures Land(HalfWay(), LateFlight()) == (WrittenBehind(), Ok((1, 3)))
    ensures NeededKey(MASTER, Provider, HalfWay(), 1) == Some(NEW_KEY)
  {
    hide ActiveKey, RotationKeys;
    KeysAreKnown(HalfWay());
    assert OwnerIndex(HalfWay().credentials, ALICE) == Some(0) && KeyInState(HalfWay().keys, Active) == Some(0);
    assert HalfWay().credentials[0 := WrittenBehind().credentials[0]] == WrittenBehind().credentials;
  }

  lemma {:induction false} BehindFails()
    ensures Rotate(MASTER, Provider, WrittenBehind(), 10, NEW_KEY, "key-3", Survives).1 == Some(Err(FAILED))
  {
    hide RotationKeys, AllOpen;
    var rows := WrittenBehind();
    KeysAreKnown(rows);
    assert rows.credentials[0].id == 1 && rows.credentials[1].id == 2;
    assert Position(rows.credentials[1..], 1) == 0;
    assert Position(rows.credentials, 1) == 1;
    var (after, ok) := RewrapRows(Provider, rows, 1, 10, OLD_KEY, NEW_KEY, "key-2");
    LeavesFirst(rows);
  }

  lemma {:induction false} LeavesFirst(rows: ClassRows)
    requires rows.rotation.Some? && |rows.credentials| == 2 && rows.credentials[0].sealed.key == OLD_KEY
    ensures !AllOpen(Provider, RewrapRows(Provider, rows, 1, 10, OLD_KEY, NEW_KEY, "key-2").0.credentials, NEW_KEY)
  {
    hide RewrapRow;
    var after := RewrapRows(Provider, rows, 1, 10, OLD_KEY, NEW_KEY, "key-2").0;
    assert after.credentials[0] == rows.credentials[0];
    assert OpenBox(after.credentials[0].sealed, NEW_KEY, AadOf(Provider, after.credentials[0])) == None;
  }

  /** A write that is accepted during a rotation, on the row already rotated, and the rotation that can no longer be completed. */
  lemma {:induction false} LateWriteBlocksRotation() returns (h: seq<Step>)
    ensures At(h, WrittenBehind(), map[(Provider, 1) := "late", (Provider, 2) := "b"], false)
    ensures Rotate(MASTER, Provider, WrittenBehind(), 10, NEW_KEY, "key-3", Survives).1 == Some(Err(FAILED))
  {
    var clears := map[(Provider, 1) := "a", (Provider, 2) := "b"];
    h := RotatedRowIsUnreadable();
    WritesBehind();
    BehindFails();
    hide Rotate, At, Seal, Land, NeededKey;
    var k := |Reached(MASTER, h).flights|;
    Seals(h, HalfWay(), clears, true, ALICE, 2, "late", 3, LateFlight());
    h := h + [SealCredential(Provider, ALICE, 2, "late", 3)];
    Lands(h, HalfWay(), clears, true, k, LateFlight(), WrittenBehind());
    h := h + [StoreCredential(k)];
    assert clears[(Provider, 1) := "late"] == map[(Provider, 1) := "late", (Provider, 2) := "b"];
  }

  // ---- a rotation during a put

  function NewKeyActive(): KeyRow {
    NewKeyRow().(state := Active)
  }

  /** The rotation of an empty class, completed in one call. */
  function EmptyRotated(): ClassRows {
    ClassRows([OldKeyRow().(state := Retired), NewKeyActive()], [], None, [Rotation(1, 2, 0, 0, 2)])
  }

  lemma {:induction false} RotatesEmpty()
    ensures Rotate(MASTER, Provider, NoRows(), 1, NEW_KEY, "key-2", Survives) == (EmptyRotated(), Some(Ok(Progress(true, 0, 2))))
  {
    hide RotationKeys;
    var begun := ClassRows([OldKeyRow(), NewKeyRow()], [], Some(Rotation(1, 2, 0, 0, 1)), []);
    assert [OldKeyRow()] + [NewKeyRow()] == [OldKeyRow(), NewKeyRow()];
    assert Begin(MASTER, Provider, NoRows(), NEW_KEY, "key-2") == Ok(begun);
    KeysAreKnown(begun);
    assert RewrapRows(Provider, begun, 0, 1, OLD_KEY, NEW_KEY, "key-2") == (begun, true);
    assert Switched(begun.keys, 1, 2) == EmptyRotated().keys;
    assert begun.completed + [Rotation(1, 2, 0, 0, 2)] == EmptyRotated().completed;
  }

  /** The put lands in it. */
  function StrandedRows(): ClassRows {
    EmptyRotated().(credentials := [First(1, ALICE, "a")])
  }

  lemma {:induction false} NewIsActive()
    ensures ActiveKey(MASTER, Provider, EmptyRotated().keys) == Some((NewKeyActive(), NEW_KEY))
  {
    assert KeyInState(EmptyRotated().keys, Active) == Some(1);
  }

  lemma {:induction false} StrandedIsUnreadable()
    ensures NeededKey(MASTER, Provider, EmptyRotated(), 1) == Some(NEW_KEY)
    ensures OpenCredential(MASTER, Provider, StrandedRows(), 0) == None && StrandedRows().rotation == None && !StrandedRows().credentials[0].revoked
    ensures Stranded(MASTER, Provider, StrandedRows(), 0)
  {
    hide ActiveKey;
    NewIsActive();
    assert Position(StrandedRows().credentials, 0) == 0;
    assert StrandedAt(MASTER, Provider, StrandedRows(), 0, 1, 1);
  }

  /**
   * A put seals, a rotation begins and completes before its transaction, and the put is accepted under the retired
   * key: no rotation is open and the credential does not open; nor does any call complete another rotation.
   */
  lemma {:induction false} SlowPutIsStranded() returns (h: seq<Step>)
    ensures At(h, StrandedRows(), map[(Provider, 1) := "a"], false)
    ensures StrandedRows().rotation == None && !StrandedRows().credentials[0].revoked
    ensures OpenCredential(MASTER, Provider, StrandedRows(), 0) == None
    ensures forall batch, key, keyId, death :: Rotate(MASTER, Provider, StrandedRows(), batch, key, keyId, death).0.completed == StrandedRows().completed
  {
    var rotate := RotateClass(Provider, 1, NEW_KEY, "key-2", Survives);
    var f := FirstFlight(1, ALICE, "a");
    FirstKey();
    SealsFirst(NoRows(), ALICE, "a", 1);
    RotatesEmpty();
    LandsFirst(EmptyRotated(), ALICE, "a", 1);
    StrandedIsUnreadable();
    FirstHas(1, ALICE, "a");
    assert [] + [First(1, ALICE, "a")] == StrandedRows().credentials;
    hide Rotate, At, Seal, Land, NeededKey, First, Stranded, OpenCredential;
    Seals(FIRST_KEY, NoRows(), map[], true, ALICE, 0, "a", 1, f);
    h := FIRST_KEY + [SealCredential(Provider, ALICE, 0, "a", 1)];
    Does(h, NoRows(), map[], true, rotate);
    h := h + [rotate];
    Lands(h, EmptyRotated(), map[], true, 0, f, StrandedRows());
    h := h + [StoreCredential(0)];
    forall batch, key, keyId, death
      ensures Rotate(MASTER, Provider, StrandedRows(), batch, key, keyId, death).0.completed == StrandedRows().completed
    {
      RotateLeavesStranded(MASTER, Provider, StrandedRows(), batch, key, keyId, death, 0);
    }
  }

  // ---- a revocation

  function OneRevoked(): ClassRows {
    TwoRows().(credentials := [First(1, ALICE, "a").(revoked := true, revision := 2), First(2, BOB, "b")])
  }

  lemma {:induction false} RevokedFails()
    ensures Rotate(MASTER, Provider, OneRevoked(), 10, NEW_KEY, "key-2", Survives).1 == Some(Err(FAILED))
  {
    hide RotationKeys;
    assert [OldKeyRow()] + [NewKeyRow()] == [OldKeyRow(), NewKeyRow()];
    var begun := OneRevoked().(keys := [OldKeyRow(), NewKeyRow()], rotation := Some(Rotation(1, 2, 0, 0, 1)));
    assert Begin(MASTER, Provider, OneRevoked(), NEW_KEY, "key-2") == Ok(begun);
    KeysAreKnown(begun);
    assert Position(begun.credentials, 0) == 0;
    assert RewrapAt(Provider, begun, 0, OLD_KEY, NEW_KEY, "key-2") == None;
  }

  /** One revocation, and the class key is not rotated any more. */
  lemma {:induction false} OneRevocationStopsRotation() returns (h: seq<Step>)
    ensures At(h, OneRevoked(), map[(Provider, 1) := "a", (Provider, 2) := "b"], true)
    ensures Rotate(MASTER, Provider, OneRevoked(), 10, NEW_KEY, "key-2", Survives).1 == Some(Err(FAILED))
  {
    h := TwoAreSealed();
    RevokedFails();
    hide Rotate, At;
    Does(h, TwoRows(), map[(Provider, 1) := "a", (Provider, 2) := "b"], true, RevokeOwner(Provider, ALICE));
    h := h + [RevokeOwner(Provider, ALICE)];
    assert Revoke(TwoRows(), ALICE).credentials == OneRevoked().credentials;
  }
}
