/** Histories of the credential store: writing, revoking, rotating class keys and rotating the master key. */
module CredentialWorlds {
  import opened Common
  import opened KeyRotation

  /** flights are the puts that have sealed, in the order in which they did; some still await their transaction. */
  datatype World = World(master: Master, classes: map<CredentialClass, ClassRows>, flights: seq<Flight>)

  function RowsOf(w: World, c: CredentialClass): ClassRows {
    if c in w.classes then w.classes[c] else ClassRows([], [], None, [])
  }

  function WithRows(w: World, c: CredentialClass, rows: ClassRows): World {
    w.(classes := w.classes[c := rows])
  }

  /** The first key of a class, unless one is active. */
  function Initialize(m: Master, c: CredentialClass, rows: ClassRows, key: Key, keyId: KeyId): ClassRows {
    if KeyInState(rows.keys, Active).Some? || KeyAtVersion(rows.keys, 1).Some? then rows
    else rows.(keys := rows.keys + [KeyRow(keyId, 1, m.id, WrapKey(m, c, 1, keyId, key), Active)])
  }

  /** All classes in one transaction, or none; then the manager's master key. */
  function RotateMaster(w: World, next: Master, keyIds: CredentialClass -> KeyId): (World, Result<()>) {
    if next.id == w.master.id then (w, Err("MASTER_ROTATION_INPUT_INVALID"))
    else if exists c :: c in w.classes && w.classes[c].rotation.Some? then (w, Err("MASTER_ROTATION_BUSY"))
    else if exists c :: c in w.classes && MasterRewrap(w.master, next, c, w.classes[c], keyIds(c)) == None then (w, Err("MASTER_ROTATION_FAILED"))
    else (World(next, map c | c in w.classes :: MasterRewrap(w.master, next, c, w.classes[c], keyIds(c)).value, w.flights), Ok(()))
  }

  /** SealCredential and StoreCredential are the two halves of a put: anything may happen between them. */
  datatype Step =
    | InitializeClass(c: CredentialClass, key: Key, keyId: KeyId)
    | SealCredential(c: CredentialClass, owner: string, expected: nat, clear: Cleartext, newId: CredentialId)
    | StoreCredential(flight: nat)
    | RevokeOwner(c: CredentialClass, owner: string)
    | RotateClass(c: CredentialClass, batch: nat, key: Key, keyId: KeyId, death: Death)
    | RotateMasterKey(next: Master, keyIds: CredentialClass -> KeyId)

  /** The steps of one call on one class. */
  ghost predicate OnRows(step: Step) {
    step.InitializeClass? || step.RevokeOwner? || step.RotateClass?
  }

  ghost function NextRows(m: Master, rows: ClassRows, step: Step): ClassRows
    requires OnRows(step)
  {
    match step
    case InitializeClass(c, key, keyId) => Initialize(m, c, rows, key, keyId)
    case RevokeOwner(_, owner) => Revoke(rows, owner)
    case RotateClass(c, batch, key, keyId, death) => Rotate(m, c, rows, batch, key, keyId, death).0
  }

  /** A put goes as far as its await. */
  function TakeOff(w: World, c: CredentialClass, owner: string, expected: nat, clear: Cleartext, newId: CredentialId): World {
    match Seal(w.master, c, RowsOf(w, c), owner, expected, clear, newId)
    case Err(_) => w
    case Ok(f) => w.(flights := w.flights + [f])
  }

  /** A put that awaits its transaction. */
  predicate InFlight(w: World, k: nat) {
    k < |w.flights| && w.flights[k].landed == InAir
  }

  function Landing(w: World, k: nat): (ClassRows, Result<(CredentialId, nat)>)
    requires InFlight(w, k)
  {
    Land(RowsOf(w, w.flights[k].credentialClass), w.flights[k])
  }

  function TouchDown(w: World, k: nat): World {
    if !InFlight(w, k) then w
    else
      var f := w.flights[k];
      var (rows, answer) := Landing(w, k);
      WithRows(w, f.credentialClass, rows).(flights := w.flights[k := f.(landed := if answer.Ok? then Accepted else Refused)])
  }

  ghost function NextWorld(w: World, step: Step): World {
    match step
    case SealCredential(c, owner, expected, clear, newId) => TakeOff(w, c, owner, expected, clear, newId)
    case StoreCredential(k) => TouchDown(w, k)
    case RotateMasterKey(next, keyIds) => RotateMaster(w, next, keyIds).0
    case _ => WithRows(w, step.c, NextRows(w.master, RowsOf(w, step.c), step))
  }

  /** A step by which a put is accepted. */
  ghost predicate Stores(w: World, step: Step) {
    step.StoreCredential? && InFlight(w, step.flight) && Landing(w, step.flight).1.Ok?
  }

  /** What was last put under every id. */
  ghost function NextClears(w: World, clears: Clears, step: Step): Clears {
    if !Stores(w, step) then clears
    else
      var f := w.flights[step.flight];
      clears[(f.credentialClass, f.row.id) := f.row.sealed.clear]
  }

  ghost function Reached(master: Master, history: seq<Step>): World {
    if history == [] then World(master, map[], [])
    else NextWorld(Reached(master, history[..|history| - 1]), history[|history| - 1])
  }

  ghost function LastPut(master: Master, history: seq<Step>): Clears {
    if history == [] then map[]
    else
      var before := history[..|history| - 1];
      NextClears(Reached(master, before), LastPut(master, before), history[|history| - 1])
  }

  /** The key under which a row has to be: the new one up to the cursor of a rotation, and otherwise the active one. */
  function NeededKey(m: Master, c: CredentialClass, rows: ClassRows, id: CredentialId): Option<Key> {
    if rows.rotation.Some? && id <= Cursor(rows) then
      match RotationKeys(m, c, rows) case None => None case Some((_, newKey, _)) => Some(newKey)
    else
      match ActiveKey(m, c, rows.keys) case None => None case Some((_, key)) => Some(key)
  }

  /** What is stored was sealed under the key that is needed when it is stored. */
  ghost predicate StoresNeeded(w: World, step: Step) {
    Stores(w, step) ==>
      var f := w.flights[step.flight];
      NeededKey(w.master, f.credentialClass, RowsOf(w, f.credentialClass), f.row.id) == Some(f.row.sealed.key)
  }

  ghost predicate AllNeeded(master: Master, history: seq<Step>) {
    history == [] ||
    (AllNeeded(master, history[..|history| - 1]) && StoresNeeded(Reached(master, history[..|history| - 1]), history[|history| - 1]))
  }

  /**
   * A put carries a sealed row of its owner, one revision beyond the one it named; an owner that had a row has it under
   * the same id, and one whose put was accepted is beyond the revision that it named.
   */
  ghost predicate FlightOk(rows: ClassRows, f: Flight) {
    && f.row.sealed.aad == AadOf(f.credentialClass, f.row) && !f.row.revoked
    && f.row.revision == f.expected + 1 && (f.first ==> f.expected == 0)
    && (!f.first ==> HasRow(rows.credentials, f.row.owner, f.row.id, 0))
    && (f.landed == Accepted ==> HasRow(rows.credentials, f.row.owner, f.row.id, f.expected + 1))
  }

  function OwnerRow(credentials: seq<Credential>, owner: string): Option<Credential> {
    match OwnerIndex(credentials, owner) case None => None case Some(i) => Some(credentials[i])
  }

  /** The revision of an owner's row; 0 where there is none. */
  function RevisionOf(credentials: seq<Credential>, owner: string): nat {
    match OwnerRow(credentials, owner) case None => 0 case Some(row) => row.revision
  }

  /** The owner's row, under this id and at this revision or a later one. */
  ghost predicate HasRow(credentials: seq<Credential>, owner: string, id: CredentialId, revision: nat) {
    var at := OwnerIndex(credentials, owner);
    at.Some? && credentials[at.value].id == id && credentials[at.value].revision >= revision
  }

  ghost predicate WorldOk(w: World, clears: Clears) {
    && (forall c :: ClassOk(w.master, c, RowsOf(w, c), clears))
    && (forall k :: 0 <= k < |w.flights| ==> FlightOk(RowsOf(w, w.flights[k].credentialClass), w.flights[k]))
  }

  // ---- one class at a time

  lemma {:induction false} InitializeIsOk(m: Master, c: CredentialClass, rows: ClassRows, clears: Clears, key: Key, keyId: KeyId)
    requires ClassOk(m, c, rows, clears)
    ensures ClassOk(m, c, Initialize(m, c, rows, key, keyId), clears)
  {
    if rows.keys == [] {
      assert KeysFit(m, c, Initialize(m, c, rows, key, keyId), clears, 0, 0);
    } else {
      var a: nat, p: nat :| KeysFit(m, c, rows, clears, a, p);
      ActiveFound(rows.keys, a);
    }
  }

  lemma {:induction false} RevokeIsOk(m: Master, c: CredentialClass, rows: ClassRows, clears: Clears, owner: string)
    requires ClassOk(m, c, rows, clears)
    ensures ClassOk(m, c, Revoke(rows, owner), clears)
  {
    if rows.keys != [] {
      var a: nat, p: nat :| KeysFit(m, c, rows, clears, a, p);
      RevokeConserves(c, rows, Cursor(rows), rows.keys[a].wrapped.clear, rows.keys[p].wrapped.clear, clears, owner);
      assert KeysFit(m, c, Revoke(rows, owner), clears, a, p);
    }
  }

  lemma {:induction false} RevokeConserves(c: CredentialClass, rows: ClassRows, cursor: nat, oldKey: Key, newKey: Key, clears: Clears, owner: string)
    requires Conserved(c, rows.credentials, cursor, oldKey, newKey, clears)
    ensures Conserved(c, Revoke(rows, owner).credentials, cursor, oldKey, newKey, clears)
  {
    forall i | 0 <= i < |rows.credentials|
      ensures var row := Revoke(rows, owner).credentials[i]; RowOk(c, row, KeyOf(row.id, cursor, oldKey, newKey), clears)
    {
      assert RowOk(c, rows.credentials[i], KeyOf(rows.credentials[i].id, cursor, oldKey, newKey), clears);
    }
  }

  lemma {:induction false} SameKeySameReads(m: Master, next: Master, c: CredentialClass, rows: ClassRows, after: ClassRows)
    requires after.credentials == rows.credentials
    requires ActiveKey(m, c, rows.keys).Some? && ActiveKey(next, c, after.keys).Some?
    requires ActiveKey(m, c, rows.keys).value.1 == ActiveKey(next, c, after.keys).value.1
    ensures forall i: nat :: i < |rows.credentials| ==> OpenCredential(next, c, after, i) == OpenCredential(m, c, rows, i)
  {
    hide ActiveKey;
  }

  lemma {:induction false} NoKeysNoRows(m: Master, c: CredentialClass, rows: ClassRows, clears: Clears)
    requires ClassOk(m, c, rows, clears) && rows.keys == []
    ensures rows.credentials == [] && rows.rotation == None
  {
    hide Conserved, Wrapped;
  }

  /** Under the new master key the class opens as before. */
  lemma {:induction false} MasterRewrapIsOk(m: Master, next: Master, c: CredentialClass, rows: ClassRows, clears: Clears, keyId: KeyId)
    requires ClassOk(m, c, rows, clears) && rows.rotation == None
    ensures MasterRewrap(m, next, c, rows, keyId).Some?
    ensures var after := MasterRewrap(m, next, c, rows, keyId).value;
            && ClassOk(next, c, after, clears) && after.credentials == rows.credentials
            && forall i: nat :: i < |rows.credentials| ==> OpenCredential(next, c, after, i) == OpenCredential(m, c, rows, i)
  {
    hide OpenCredential, Conserved, ActiveKey, KeysOk;
    if rows.keys == [] {
      NoKeysNoRows(m, c, rows, clears);
    } else {
      var a: nat, p: nat :| KeysFit(m, c, rows, clears, a, p);
      KeysInRange(m, c, rows.keys, rows.rotation, a, p);
      ActiveFound(rows.keys, a);
      var key := rows.keys[a].wrapped.clear;
      var row := KeyRow(keyId, rows.keys[a].version + 1, next.id, WrapKey(next, c, rows.keys[a].version + 1, keyId, key), Active);
      var after := RewrapClass(next, c, rows, a, key, keyId);
      MasterKeysOk(m, next, c, rows.keys, a, row);
      assert KeysFit(next, c, after, clears, |rows.keys|, |rows.keys|);
      KeysInRange(next, c, after.keys, None, |rows.keys|, |rows.keys|);
      ActiveKeyIs(m, c, rows.keys, a);
      ActiveKeyIs(next, c, after.keys, |rows.keys|);
      SameKeySameReads(m, next, c, rows, after);
    }
  }

  lemma {:induction false} MasterKeysOk(m: Master, next: Master, c: CredentialClass, keys: seq<KeyRow>, a: nat, row: KeyRow)
    requires KeysOk(m, c, keys, None, a, a)
    requires row.version == keys[a].version + 1 && row.state == Active && Wrapped(next, c, row)
    ensures KeyAtVersion(keys, row.version) == None
    ensures KeysOk(next, c, keys[a := keys[a].(state := Retired)] + [row], None, |keys|, |keys|)
  {
  }

  // ---- writing

  lemma {:induction false} TakenIff(credentials: seq<Credential>, row: Credential)
    requires SortedIds(credentials)
    ensures Inserted(credentials, row) == None <==> exists i :: 0 <= i < |credentials| && credentials[i].id == row.id
  {
    var n := Position(credentials, row.id);
    assert forall i :: 0 <= i < n - 1 ==> credentials[i].id < credentials[n - 1].id;
    assert forall i :: n <= i < |credentials| ==> credentials[n].id <= credentials[i].id;
  }

  lemma {:induction false} InsertedInOrder(credentials: seq<Credential>, row: Credential, n: nat)
    requires SortedIds(credentials) && n <= |credentials|
    requires n > 0 ==> credentials[n - 1].id < row.id
    requires n < |credentials| ==> row.id < credentials[n].id
    ensures SortedIds(credentials[..n] + [row] + credentials[n..])
  {
    var next := credentials[..n] + [row] + credentials[n..];
    forall i, j | 0 <= i < j < |next| ensures next[i].id < next[j].id {
      assert i < n ==> next[i].id <= credentials[n - 1].id;
      assert j > n ==> credentials[n].id <= next[j].id;
    }
  }

  /** The other rows, and the written one under its key. */
  lemma {:induction false} WrittenConserves(c: CredentialClass, credentials: seq<Credential>, next: seq<Credential>, row: Credential, at: nat,
                                            cursor: nat, oldKey: Key, newKey: Key, clears: Clears)
    requires Conserved(c, credentials, cursor, oldKey, newKey, clears) && SortedIds(next) && at < |next| && next[at] == row
    requires OthersFrom(next, credentials, at)
    ensures var after := clears[(c, row.id) := row.sealed.clear];
            Conserved(c, next, cursor, oldKey, newKey, after) <==> RowOk(c, row, KeyOf(row.id, cursor, oldKey, newKey), after)
  {
    var after := clears[(c, row.id) := row.sealed.clear];
    forall i | 0 <= i < |next| && i != at ensures RowOk(c, next[i], KeyOf(next[i].id, cursor, oldKey, newKey), after) {
      var k :| 0 <= k < |credentials| && credentials[k] == next[i];
      assert RowOk(c, credentials[k], KeyOf(credentials[k].id, cursor, oldKey, newKey), clears);
      assert next[i].id != next[at].id;
    }
  }

  ghost predicate OthersFrom(next: seq<Credential>, credentials: seq<Credential>, n: nat) {
    forall i :: 0 <= i < |next| && i != n ==> next[i] in credentials
  }

  lemma {:induction false} ReplacedShape(credentials: seq<Credential>, n: nat, row: Credential)
    requires SortedIds(credentials) && n < |credentials| && credentials[n].id == row.id
    ensures SortedIds(credentials[n := row]) && OthersFrom(credentials[n := row], credentials, n)
  {
    var next := credentials[n := row];
    assert forall i :: 0 <= i < |next| ==> next[i].id == credentials[i].id;
    forall i | 0 <= i < |next| && i != n ensures next[i] in credentials {
      assert next[i] == credentials[i];
    }
  }

  lemma {:induction false} InsertedShape(credentials: seq<Credential>, n: nat, row: Credential)
    requires n <= |credentials|
    ensures OthersFrom(credentials[..n] + [row] + credentials[n..], credentials, n)
  {
    var next := credentials[..n] + [row] + credentials[n..];
    forall i | 0 <= i < |next| && i != n ensures next[i] in credentials {
      assert next[i] == credentials[if i < n then i else i - 1];
    }
  }

  lemma {:induction false} StoredShape(credentials: seq<Credential>, at: Option<nat>, row: Credential) returns (n: nat)
    requires SortedIds(credentials) && (at.Some? ==> at.value < |credentials| && credentials[at.value].id == row.id)
    requires Stored(credentials, at, row).Some?
    ensures var next := Stored(credentials, at, row).value;
            n < |next| && next[n] == row && SortedIds(next) && OthersFrom(next, credentials, n)
  {
    hide SortedIds, OthersFrom;
    if at.Some? {
      n := at.value;
      ReplacedShape(credentials, n, row);
    } else {
      n := Position(credentials, row.id);
      InsertedInOrder(credentials, row, n);
      InsertedShape(credentials, n, row);
    }
  }

  lemma {:induction false} ConservedIsSorted(c: CredentialClass, credentials: seq<Credential>, cursor: nat, oldKey: Key, newKey: Key, clears: Clears)
    requires Conserved(c, credentials, cursor, oldKey, newKey, clears)
    ensures SortedIds(credentials)
  {
    hide RowOk, SortedIds;
  }

  /** A sealed row is where it belongs exactly when it is under the key of its side of the cursor. */
  lemma {:induction false} SealedIsOkIff(c: CredentialClass, row: Credential, key: Key, clears: Clears)
    requires row.sealed.aad == AadOf(c, row) && !row.revoked
    requires (c, row.id) in clears && clears[(c, row.id)] == row.sealed.clear
    ensures RowOk(c, row, key, clears) <==> row.sealed.key == key
  {
  }

  lemma {:induction false} NeededIs(m: Master, c: CredentialClass, rows: ClassRows, a: nat, p: nat, id: CredentialId)
    requires KeysOk(m, c, rows.keys, rows.rotation, a, p)
    ensures a < |rows.keys| && p < |rows.keys|
    ensures NeededKey(m, c, rows, id) == Some(KeyOf(id, Cursor(rows), rows.keys[a].wrapped.clear, rows.keys[p].wrapped.clear))
  {
    hide Wrapped, OneActive, DistinctVersions, ActiveKey, RotationKeys;
    KeysInRange(m, c, rows.keys, rows.rotation, a, p);
    ActiveKeyIs(m, c, rows.keys, a);
    if rows.rotation.Some? {
      KeysOfRotation(m, c, rows, a, p);
    }
  }

  /**
   * The second half of a put keeps the class conserved exactly when the row was sealed under the key that its
   * side of the cursor needs when it is stored, whatever happened since it was sealed.
   */
  lemma {:induction false} StoreConservesIff(m: Master, c: CredentialClass, rows: ClassRows, clears: Clears, a: nat, p: nat, f: Flight)
    requires KeysFit(m, c, rows, clears, a, p) && f.credentialClass == c && FlightOk(rows, f) && Land(rows, f).1.Ok?
    ensures var (next, answer) := Land(rows, f);
            && next == rows.(credentials := next.credentials) && answer == Ok((f.row.id, f.row.revision))
            && (KeysFit(m, c, next, clears[(c, f.row.id) := f.row.sealed.clear], a, p) <==>
                  NeededKey(m, c, rows, f.row.id) == Some(f.row.sealed.key))
  {
    hide Conserved, RowOk, SortedIds, OwnerIndex, Stored, OthersFrom, KeysOk, NeededKey;
    NeededIs(m, c, rows, a, p, f.row.id);
    var oldKey, newKey := rows.keys[a].wrapped.clear, rows.keys[p].wrapped.clear;
    var next, at := Land(rows, f).0, OwnerIndex(rows.credentials, f.row.owner);
    ConservedIsSorted(c, rows.credentials, Cursor(rows), oldKey, newKey, clears);
    assert f.row.(id := f.row.id) == f.row;
    var n := StoredShape(rows.credentials, at, f.row);
    WrittenConserves(c, rows.credentials, next.credentials, f.row, n, Cursor(rows), oldKey, newKey, clears);
    SealedIsOkIff(c, f.row, KeyOf(f.row.id, Cursor(rows), oldKey, newKey), clears[(c, f.row.id) := f.row.sealed.clear]);
  }

  lemma {:induction false} SealedIsFlightOk(m: Master, c: CredentialClass, rows: ClassRows, owner: string, expected: nat, clear: Cleartext, newId: CredentialId)
    requires Seal(m, c, rows, owner, expected, clear, newId).Ok?
    ensures var f := Seal(m, c, rows, owner, expected, clear, newId).value;
            && f.credentialClass == c && FlightOk(rows, f) && f.row.owner == owner && f.row.sealed.clear == clear && f.landed == InAir
            && ActiveKey(m, c, rows.keys).Some? && f.row.sealed.key == ActiveKey(m, c, rows.keys).value.1
  {
    hide ActiveKey, OwnerIndex;
  }

  /**
   * Where the active key is the same at both halves of a put, whatever else happened between them, the put
   * keeps the class conserved exactly when its row is then beyond the cursor of a rotation (or the two keys are one).
   */
  lemma {:induction false} PutConservesIffAhead(before: Master, m: Master, c: CredentialClass, early: ClassRows, rows: ClassRows, clears: Clears,
                                                a: nat, p: nat, owner: string, expected: nat, clear: Cleartext, newId: CredentialId)
    requires Seal(before, c, early, owner, expected, clear, newId).Ok? && KeysFit(m, c, rows, clears, a, p)
    requires var f := Seal(before, c, early, owner, expected, clear, newId).value; FlightOk(rows, f) && Land(rows, f).1.Ok?
    requires ActiveKey(before, c, early.keys).Some? && ActiveKey(before, c, early.keys).value.1 == rows.keys[a].wrapped.clear
    ensures var f := Seal(before, c, early, owner, expected, clear, newId).value;
            KeysFit(m, c, Land(rows, f).0, clears[(c, f.row.id) := clear], a, p) <==>
              f.row.id > Cursor(rows) || rows.keys[a].wrapped.clear == rows.keys[p].wrapped.clear
  {
    hide Seal, Land, FlightOk, ActiveKey, Conserved, KeysOk, NeededKey;
    var f := Seal(before, c, early, owner, expected, clear, newId).value;
    SealedIsFlightOk(before, c, early, owner, expected, clear, newId);
    StoreConservesIff(m, c, rows, clears, a, p, f);
    NeededIs(m, c, rows, a, p, f.row.id);
  }

  lemma {:induction false} StoreIsOk(m: Master, rows: ClassRows, clears: Clears, f: Flight)
    requires ClassOk(m, f.credentialClass, rows, clears) && FlightOk(rows, f)
    requires Land(rows, f).1.Ok? ==> NeededKey(m, f.credentialClass, rows, f.row.id) == Some(f.row.sealed.key)
    ensures var (next, answer) := Land(rows, f);
            ClassOk(m, f.credentialClass, next, if answer.Ok? then clears[(f.credentialClass, f.row.id) := f.row.sealed.clear] else clears)
  {
    hide KeysFit, NeededKey;
    if Land(rows, f).1.Ok? {
      var c := f.credentialClass;
      if rows.keys == [] {
        NoKeyIsNeeded(m, c, rows, f.row.id);
      } else {
        var a: nat, p: nat :| KeysFit(m, c, rows, clears, a, p);
        StoreConservesIff(m, c, rows, clears, a, p, f);
      }
    }
  }

  lemma {:induction false} NoKeyIsNeeded(m: Master, c: CredentialClass, rows: ClassRows, id: CredentialId)
    requires rows.keys == []
    ensures NeededKey(m, c, rows, id) == None
  {
  }

  // ---- what a step leaves to the puts in flight

  /** Every owner that had a row has it under the same id, and not at an earlier revision. */
  ghost predicate OwnersKept(credentials: seq<Credential>, next: seq<Credential>) {
    forall owner, id, revision :: HasRow(credentials, owner, id, revision) ==> HasRow(next, owner, id, revision)
  }

  lemma {:induction false} SameOwners(credentials: seq<Credential>, next: seq<Credential>)
    requires |next| == |credentials|
    requires forall i :: 0 <= i < |next| ==> next[i].owner == credentials[i].owner && next[i].id == credentials[i].id && next[i].revision >= credentials[i].revision
    ensures OwnersKept(credentials, next)
  {
    forall owner, id, revision | HasRow(credentials, owner, id, revision) ensures HasRow(next, owner, id, revision) {
      SameOwnerIndex(credentials, next, owner, 0);
    }
  }

  lemma {:induction false} SameOwnerIndex(credentials: seq<Credential>, next: seq<Credential>, owner: string, start: nat)
    requires |next| == |credentials| && start <= |next|
    requires forall i :: 0 <= i < |next| ==> next[i].owner == credentials[i].owner
    ensures OwnerIndex(next, owner, start) == OwnerIndex(credentials, owner, start)
    decreases |next| - start
  {
    if start < |next| {
      SameOwnerIndex(credentials, next, owner, start + 1);
    }
  }

  lemma {:induction false} BatchKeepsOwners(c: CredentialClass, rows: ClassRows, i: nat, n: nat, oldKey: Key, newKey: Key, keyId: KeyId)
    requires rows.rotation.Some? && i <= |rows.credentials|
    ensures var next := RewrapRows(c, rows, i, n, oldKey, newKey, keyId).0.credentials;
            && |next| == |rows.credentials|
            && forall k :: 0 <= k < |next| ==>
                 next[k].owner == rows.credentials[k].owner && next[k].id == rows.credentials[k].id && next[k].revision >= rows.credentials[k].revision
    decreases n
  {
    if n > 0 && i < |rows.credentials| && RewrapAt(c, rows, i, oldKey, newKey, keyId).Some? {
      BatchKeepsOwners(c, RewrapAt(c, rows, i, oldKey, newKey, keyId).value, i + 1, n - 1, oldKey, newKey, keyId);
    }
  }

  lemma {:induction false} RotateKeepsOwners(m: Master, c: CredentialClass, rows: ClassRows, batch: nat, key: Key, keyId: KeyId, death: Death)
    ensures OwnersKept(rows.credentials, Rotate(m, c, rows, batch, key, keyId, death).0.credentials)
  {
    hide RewrapRows, RotationKeys, Position, Switch, AllOpen, OwnersKept;
    SameOwners(rows.credentials, rows.credentials);
    if batch <= 1000 && Begin(m, c, rows, key, keyId).Ok? {
      var begun := Begin(m, c, rows, key, keyId).value;
      if RotationKeys(m, c, begun).Some? {
        var (oldKey, newKey, newId) := RotationKeys(m, c, begun).value;
        var start := Position(begun.credentials, Cursor(begun));
        var n := if death.DiesAfter? && death.rows < batch then death.rows else batch;
        BatchKeepsOwners(c, begun, start, n, oldKey, newKey, newId);
        SameOwners(rows.credentials, RewrapRows(c, begun, start, n, oldKey, newKey, newId).0.credentials);
      }
    }
  }

  lemma {:induction false} RowsKeepOwners(m: Master, rows: ClassRows, step: Step)
    requires OnRows(step)
    ensures OwnersKept(rows.credentials, NextRows(m, rows, step).credentials)
  {
    hide Rotate, OwnersKept;
    match step
    case InitializeClass(_, _, _) => SameOwners(rows.credentials, rows.credentials);
    case RevokeOwner(_, owner) => SameOwners(rows.credentials, Revoke(rows, owner).credentials);
    case RotateClass(c, batch, key, keyId, death) => RotateKeepsOwners(m, c, rows, batch, key, keyId, death);
  }

  /** A new row goes between others, of other owners. */
  lemma {:induction false} InsertKeepsOwners(credentials: seq<Credential>, n: nat, row: Credential)
    requires n <= |credentials| && OwnerIndex(credentials, row.owner) == None
    ensures OwnersKept(credentials, credentials[..n] + [row] + credentials[n..])
  {
    var next := credentials[..n] + [row] + credentials[n..];
    forall owner, id, revision | HasRow(credentials, owner, id, revision) ensures HasRow(next, owner, id, revision) {
      var i := OwnerIndex(credentials, owner).value;
      FirstOfOwner(credentials, owner, 0);
      OwnerIndexIs(next, owner, if i < n then i else i + 1, 0);
    }
  }

  lemma {:induction false} FirstOfOwner(credentials: seq<Credential>, owner: string, start: nat)
    requires start <= |credentials| && OwnerIndex(credentials, owner, start).Some?
    ensures forall i :: start <= i < OwnerIndex(credentials, owner, start).value ==> credentials[i].owner != owner
    decreases |credentials| - start
  {
    if credentials[start].owner != owner {
      FirstOfOwner(credentials, owner, start + 1);
    }
  }

  lemma {:induction false} OwnerIndexIs(credentials: seq<Credential>, owner: string, i: nat, start: nat)
    requires start <= i < |credentials| && credentials[i].owner == owner
    requires forall k :: start <= k < i ==> credentials[k].owner != owner
    ensures OwnerIndex(credentials, owner, start) == Some(i)
    decreases i - start
  {
    if start < i {
      OwnerIndexIs(credentials, owner, i, start + 1);
    }
  }

  lemma {:induction false} LandKeepsOwners(rows: ClassRows, f: Flight)
    requires f.row.revision == f.expected + 1
    ensures OwnersKept(rows.credentials, Land(rows, f).0.credentials)
  {
    hide OwnersKept, Position;
    SameOwners(rows.credentials, rows.credentials);
    var at := OwnerIndex(rows.credentials, f.row.owner);
    if Land(rows, f).1.Ok? {
      if at.Some? {
        SameOwners(rows.credentials, Land(rows, f).0.credentials);
      } else {
        InsertKeepsOwners(rows.credentials, Position(rows.credentials, f.row.id), f.row);
      }
    }
  }

  lemma {:induction false} FlightStaysOk(rows: ClassRows, next: ClassRows, f: Flight)
    requires FlightOk(rows, f) && OwnersKept(rows.credentials, next.credentials)
    ensures FlightOk(next, f) && FlightOk(next, f.(landed := Refused))
    ensures HasRow(next.credentials, f.row.owner, f.row.id, f.expected + 1) ==> FlightOk(next, f.(landed := Accepted))
  {
    hide HasRow;
  }

  // ---- every history

  lemma {:induction false} OtherClassOk(m: Master, c: CredentialClass, rows: ClassRows, clears: Clears, after: Clears)
    requires ClassOk(m, c, rows, clears)
    requires forall id :: (c, id) in clears ==> (c, id) in after && after[(c, id)] == clears[(c, id)]
    ensures ClassOk(m, c, rows, after)
  {
    if rows.keys != [] {
      var a: nat, p: nat :| KeysFit(m, c, rows, clears, a, p);
      assert KeysFit(m, c, rows, after, a, p) by {
        forall i | 0 <= i < |rows.credentials|
          ensures var key := KeyOf(rows.credentials[i].id, Cursor(rows), rows.keys[a].wrapped.clear, rows.keys[p].wrapped.clear);
                  RowOk(c, rows.credentials[i], key, after)
        {
          var key := KeyOf(rows.credentials[i].id, Cursor(rows), rows.keys[a].wrapped.clear, rows.keys[p].wrapped.clear);
          assert RowOk(c, rows.credentials[i], key, clears);
        }
      }
    }
  }

  lemma {:induction false} RowsStepOk(m: Master, rows: ClassRows, clears: Clears, step: Step)
    requires OnRows(step) && ClassOk(m, step.c, rows, clears)
    ensures ClassOk(m, step.c, NextRows(m, rows, step), clears)
  {
    hide ClassOk, Initialize, Revoke, Rotate;
    match step
    case InitializeClass(c, key, keyId) => InitializeIsOk(m, c, rows, clears, key, keyId);
    case RevokeOwner(c, owner) => RevokeIsOk(m, c, rows, clears, owner);
    case RotateClass(c, batch, key, keyId, death) => RotateConserves(m, c, rows, clears, batch, key, keyId, death);
  }

  lemma {:induction false} AbsentIsOk(m: Master, c: CredentialClass, clears: Clears)
    ensures ClassOk(m, c, ClassRows([], [], None, []), clears)
  {
  }

  /** rotateMasterWrappingKey: refused exactly for the current key's name or while a class rotates; what is read stays the same. */
  lemma {:induction false} MasterRotationConserves(w: World, clears: Clears, next: Master, keyIds: CredentialClass -> KeyId)
    requires WorldOk(w, clears)
    ensures var (after, answer) := RotateMaster(w, next, keyIds);
            && (answer.Ok? <==> next.id != w.master.id && forall c :: RowsOf(w, c).rotation == None)
            && (answer.Err? ==> after == w)
            && WorldOk(after, clears)
            && (answer.Ok? ==> after.master == next) && after.flights == w.flights
            && forall c, i: nat :: RowsOf(after, c).credentials == RowsOf(w, c).credentials
                 && (i < |RowsOf(w, c).credentials| ==>
                       OpenCredential(after.master, c, RowsOf(after, c), i) == OpenCredential(w.master, c, RowsOf(w, c), i))
  {
    hide ClassOk, MasterRewrap, OpenCredential;
    if next.id != w.master.id && forall c :: RowsOf(w, c).rotation == None {
      forall c | c in w.classes
        ensures MasterRewrap(w.master, next, c, w.classes[c], keyIds(c)).Some?
      {
        assert RowsOf(w, c) == w.classes[c];
        MasterRewrapIsOk(w.master, next, c, RowsOf(w, c), clears, keyIds(c));
      }
      var after := RotateMaster(w, next, keyIds).0;
      assert forall c :: c in w.classes ==> w.classes[c].rotation == RowsOf(w, c).rotation;
      forall c ensures ClassOk(next, c, RowsOf(after, c), clears) && RowsOf(after, c).credentials == RowsOf(w, c).credentials
        && forall i: nat :: i < |RowsOf(w, c).credentials| ==>
             OpenCredential(next, c, RowsOf(after, c), i) == OpenCredential(w.master, c, RowsOf(w, c), i)
      {
        if c in w.classes {
          MasterRewrapIsOk(w.master, next, c, RowsOf(w, c), clears, keyIds(c));
        } else {
          AbsentIsOk(next, c, clears);
        }
      }
    } else if next.id != w.master.id {
      var c :| RowsOf(w, c).rotation.Some?;
      assert c in w.classes && w.classes[c].rotation.Some?;
    }
  }

  /** A put stays as it is, or lands in its class. */
  ghost predicate LandsOk(rows: ClassRows, c: CredentialClass, f: Flight, next: Flight) {
    || next == f || next == f.(landed := Refused)
    || (next == f.(landed := Accepted) && f.credentialClass == c && HasRow(rows.credentials, f.row.owner, f.row.id, f.expected + 1))
  }

  /** One class moves on, and the puts in flight with it. */
  lemma {:induction false} ClassMoves(w: World, next: World, clears: Clears, after: Clears, c: CredentialClass)
    requires WorldOk(w, clears) && next.master == w.master && ClassOk(w.master, c, RowsOf(next, c), after)
    requires forall d :: d != c ==> RowsOf(next, d) == RowsOf(w, d)
    requires forall d, id :: d != c && (d, id) in clears ==> (d, id) in after && after[(d, id)] == clears[(d, id)]
    requires OwnersKept(RowsOf(w, c).credentials, RowsOf(next, c).credentials) && |next.flights| == |w.flights|
    requires forall k :: 0 <= k < |w.flights| ==> LandsOk(RowsOf(next, c), c, w.flights[k], next.flights[k])
    ensures WorldOk(next, after)
  {
    hide ClassOk, FlightOk, OwnersKept;
    forall d ensures ClassOk(next.master, d, RowsOf(next, d), after) {
      if d != c {
        OtherClassOk(w.master, d, RowsOf(w, d), clears, after);
      }
    }
    forall k | 0 <= k < |next.flights| ensures FlightOk(RowsOf(next, next.flights[k].credentialClass), next.flights[k]) {
      var f := w.flights[k];
      assert FlightOk(RowsOf(w, f.credentialClass), f);
      SameOwners(RowsOf(w, f.credentialClass).credentials, RowsOf(w, f.credentialClass).credentials);
      FlightStaysOk(RowsOf(w, f.credentialClass), RowsOf(next, f.credentialClass), f);
    }
  }

  lemma {:induction false} TakeOffIsOk(w: World, clears: Clears, c: CredentialClass, owner: string, expected: nat, clear: Cleartext, newId: CredentialId)
    requires WorldOk(w, clears)
    ensures WorldOk(TakeOff(w, c, owner, expected, clear, newId), clears)
  {
    hide ClassOk, FlightOk, Seal;
    var next := TakeOff(w, c, owner, expected, clear, newId);
    assert forall d :: RowsOf(next, d) == RowsOf(w, d);
    if next != w {
      SealedIsFlightOk(w.master, c, RowsOf(w, c), owner, expected, clear, newId);
    }
  }

  lemma {:induction false} TouchDownIsOk(w: World, clears: Clears, k: nat)
    requires WorldOk(w, clears) && StoresNeeded(w, StoreCredential(k))
    ensures WorldOk(TouchDown(w, k), NextClears(w, clears, StoreCredential(k)))
  {
    hide ClassOk, FlightOk, Land, OwnersKept, NeededKey;
    if InFlight(w, k) {
      var f := w.flights[k];
      StoreIsOk(w.master, RowsOf(w, f.credentialClass), clears, f);
      assert FlightOk(RowsOf(w, f.credentialClass), f);
      FlightRevision(RowsOf(w, f.credentialClass), f);
      LandKeepsOwners(RowsOf(w, f.credentialClass), f);
      if Landing(w, k).1.Ok? {
        LandsAtNext(RowsOf(w, f.credentialClass), f);
      }
      ClassMoves(w, TouchDown(w, k), clears, NextClears(w, clears, StoreCredential(k)), f.credentialClass);
    }
  }

  lemma {:induction false} FlightRevision(rows: ClassRows, f: Flight)
    requires FlightOk(rows, f)
    ensures f.row.revision == f.expected + 1
  {
  }

  /** An accepted put leaves its owner's row at the revision after the one it named. */
  lemma {:induction false} LandsAtNext(rows: ClassRows, f: Flight)
    requires FlightOk(rows, f) && Land(rows, f).1.Ok?
    ensures HasRow(Land(rows, f).0.credentials, f.row.owner, f.row.id, f.expected + 1)
    ensures OwnerRow(Land(rows, f).0.credentials, f.row.owner) == Some(f.row)
  {
    hide Position;
    var at, next := OwnerIndex(rows.credentials, f.row.owner), Land(rows, f).0.credentials;
    if at.Some? {
      SameOwnerIndex(rows.credentials, next, f.row.owner, 0);
      assert f.row.(id := f.row.id) == f.row;
    } else {
      var n := Position(rows.credentials, f.row.id);
      assert next == rows.credentials[..n] + [f.row] + rows.credentials[n..];
      OwnerIndexIs(next, f.row.owner, n, 0);
    }
  }

  lemma {:induction false} StepIsOk(w: World, clears: Clears, step: Step)
    requires WorldOk(w, clears) && StoresNeeded(w, step)
    ensures WorldOk(NextWorld(w, step), NextClears(w, clears, step))
  {
    hide WorldOk, NextRows, TakeOff, TouchDown, RotateMaster, StoresNeeded;
    match step
    case SealCredential(c, owner, expected, clear, newId) => TakeOffIsOk(w, clears, c, owner, expected, clear, newId);
    case StoreCredential(k) => TouchDownIsOk(w, clears, k);
    case RotateMasterKey(next, keyIds) => MasterRotationConserves(w, clears, next, keyIds);
    case _ => RowsAreOk(w, clears, step);
  }

  lemma {:induction false} RowsAreOk(w: World, clears: Clears, step: Step)
    requires WorldOk(w, clears) && OnRows(step)
    ensures WorldOk(WithRows(w, step.c, NextRows(w.master, RowsOf(w, step.c), step)), clears)
  {
    hide ClassOk, FlightOk, NextRows, OwnersKept;
    RowsStepOk(w.master, RowsOf(w, step.c), clears, step);
    RowsKeepOwners(w.master, RowsOf(w, step.c), step);
    ClassMoves(w, WithRows(w, step.c, NextRows(w.master, RowsOf(w, step.c), step)), clears, clears, step.c);
  }

  /** In every history in which what is stored is under the key that is then needed, every class is conserved. */
  lemma {:induction false} EveryWorldIsOk(master: Master, history: seq<Step>)
    requires AllNeeded(master, history)
    ensures WorldOk(Reached(master, history), LastPut(master, history))
  {
    if history != [] {
      hide WorldOk, NextWorld, NextClears, StoresNeeded;
      var before := history[..|history| - 1];
      EveryWorldIsOk(master, before);
      StepIsOk(Reached(master, before), LastPut(master, before), history[|history| - 1]);
    }
  }

  /** Whatever was rotated on the way, a credential that is not revoked reads back as it was last put, once no rotation of its class is open. */
  lemma {:induction false} EveryReadIsTheLastPut(master: Master, history: seq<Step>, c: CredentialClass, i: nat)
    requires AllNeeded(master, history)
    requires var rows := RowsOf(Reached(master, history), c); i < |rows.credentials| && rows.rotation == None && !rows.credentials[i].revoked
    ensures var w, clears := Reached(master, history), LastPut(master, history);
            var id := RowsOf(w, c).credentials[i].id;
            (c, id) in clears && OpenCredential(w.master, c, RowsOf(w, c), i) == Some(clears[(c, id)])
  {
    hide OpenCredential, Conserved;
    EveryWorldIsOk(master, history);
    var w, clears := Reached(master, history), LastPut(master, history);
    assert ClassOk(w.master, c, RowsOf(w, c), clears);
    var a: nat, p: nat :| KeysFit(w.master, c, RowsOf(w, c), clears, a, p);
    ReadsBackIff(w.master, c, RowsOf(w, c), clears, a, p, i);
  }

  lemma {:induction false} EveryClassHasOneActiveKey(master: Master, history: seq<Step>, c: CredentialClass)
    requires AllNeeded(master, history) && RowsOf(Reached(master, history), c).keys != []
    ensures exists a: nat :: OneActive(RowsOf(Reached(master, history), c).keys, a)
  {
    EveryWorldIsOk(master, history);
    var w, clears := Reached(master, history), LastPut(master, history);
    assert ClassOk(w.master, c, RowsOf(w, c), clears);
    var a: nat, p: nat :| KeysFit(w.master, c, RowsOf(w, c), clears, a, p);
  }

  // ---- the revision of a put

  /** What the two halves of a put answer: stale exactly when the revision they find is not the one the put named. */
  lemma {:induction false} PutAnswers(m: Master, c: CredentialClass, rows: ClassRows, owner: string, expected: nat, clear: Cleartext, newId: CredentialId)
    ensures var r := Seal(m, c, rows, owner, expected, clear, newId);
            var row, active := OwnerRow(rows.credentials, owner), exists i :: 0 <= i < |rows.keys| && rows.keys[i].state == Active;
            && (r == Err("CREDENTIAL_KEY_UNAVAILABLE") <==> !active)
            && (r == Err("CREDENTIAL_REVOKED") <==> active && row.Some? && row.value.revoked)
            && (r == Err("CREDENTIAL_REVISION_STALE") <==>
                  active && !(row.Some? && row.value.revoked) && RevisionOf(rows.credentials, owner) != expected)
            && (r.Ok? ==>
                  && RevisionOf(rows.credentials, owner) == expected == r.value.expected && r.value.row.revision == expected + 1
                  && (r.value.first <==> row == None) && r.value.row.owner == owner && r.value.row.sealed.clear == clear
                  && r.value.row.id == (if row.Some? then row.value.id else newId))
  {
    hide ActiveKey;
  }

  lemma {:induction false} LandAnswers(rows: ClassRows, f: Flight)
    requires FlightOk(rows, f)
    ensures var r := Land(rows, f).1; var row := OwnerRow(rows.credentials, f.row.owner);
            && (r == Err("CREDENTIAL_REVISION_STALE") <==>
                  (row.Some? && row.value.revoked) || RevisionOf(rows.credentials, f.row.owner) != f.expected || (row == None <==> !f.first))
            && (r.Err? ==> Land(rows, f).0 == rows)
            && (r.Ok? ==>
                  && RevisionOf(rows.credentials, f.row.owner) == f.expected && r.value == (f.row.id, f.expected + 1)
                  && OwnerRow(Land(rows, f).0.credentials, f.row.owner) == Some(f.row))
  {
    hide OwnerRow, Stored;
    OwnerRowIs(rows.credentials, f.row.owner);
    if Land(rows, f).1.Ok? {
      LandsAtNext(rows, f);
    }
  }

  lemma {:induction false} OwnerRowIs(credentials: seq<Credential>, owner: string)
    ensures OwnerRow(credentials, owner) == match OwnerIndex(credentials, owner) case None => None case Some(i) => Some(credentials[i])
  {
  }

  /** In any history, with or without the conditions above, what is in flight is as it was sealed. */
  ghost predicate FlightsOk(w: World) {
    forall k :: 0 <= k < |w.flights| ==> FlightOk(RowsOf(w, w.flights[k].credentialClass), w.flights[k])
  }

  /** No two accepted puts of an owner named the same revision. */
  ghost predicate Serial(flights: seq<Flight>) {
    forall j, k :: 0 <= j < k < |flights| ==> !SameTurn(flights[j], flights[k])
  }

  ghost predicate SameTurn(f: Flight, g: Flight) {
    && f.landed == Accepted && g.landed == Accepted
    && f.credentialClass == g.credentialClass && f.row.owner == g.row.owner && f.expected == g.expected
  }

  lemma {:induction false} MasterKeepsRows(w: World, next: Master, keyIds: CredentialClass -> KeyId, c: CredentialClass)
    ensures RowsOf(RotateMaster(w, next, keyIds).0, c).credentials == RowsOf(w, c).credentials
    ensures RotateMaster(w, next, keyIds).0.flights == w.flights
  {
  }

  lemma {:induction false} FlightsMove(w: World, next: World, c: CredentialClass)
    requires FlightsOk(w) && |next.flights| == |w.flights|
    requires forall d :: d != c ==> RowsOf(next, d).credentials == RowsOf(w, d).credentials
    requires OwnersKept(RowsOf(w, c).credentials, RowsOf(next, c).credentials)
    requires forall k :: 0 <= k < |w.flights| ==> LandsOk(RowsOf(next, c), c, w.flights[k], next.flights[k])
    ensures FlightsOk(next)
  {
    hide FlightOk, OwnersKept;
    forall k | 0 <= k < |next.flights| ensures FlightOk(RowsOf(next, next.flights[k].credentialClass), next.flights[k]) {
      var f := w.flights[k];
      assert FlightOk(RowsOf(w, f.credentialClass), f);
      SameOwners(RowsOf(w, f.credentialClass).credentials, RowsOf(w, f.credentialClass).credentials);
      SameCredentials(RowsOf(w, f.credentialClass), RowsOf(next, f.credentialClass));
      FlightStaysOk(RowsOf(w, f.credentialClass), RowsOf(next, f.credentialClass), f);
    }
  }

  lemma {:induction false} SameCredentials(rows: ClassRows, next: ClassRows)
    ensures next.credentials == rows.credentials ==> OwnersKept(rows.credentials, next.credentials)
  {
  }

  /** The owner's row is beyond what every accepted put of the owner named. */
  lemma {:induction false} AcceptedIsPassed(rows: ClassRows, f: Flight, owner: string)
    requires FlightOk(rows, f) && f.landed == Accepted && f.row.owner == owner
    ensures RevisionOf(rows.credentials, owner) > f.expected
  {
  }

  lemma {:induction false} TouchDownIsSerial(w: World, k: nat)
    requires FlightsOk(w) && Serial(w.flights)
    ensures FlightsOk(TouchDown(w, k)) && Serial(TouchDown(w, k).flights)
  {
    hide FlightOk, Land, OwnersKept, RevisionOf;
    if InFlight(w, k) {
      var f, next := w.flights[k], TouchDown(w, k);
      var rows := RowsOf(w, f.credentialClass);
      assert FlightOk(rows, f);
      FlightRevision(rows, f);
      LandKeepsOwners(rows, f);
      LandAnswers(rows, f);
      if Landing(w, k).1.Ok? {
        LandsAtNext(rows, f);
      }
      FlightsMove(w, next, f.credentialClass);
      forall j | 0 <= j < |next.flights| && j != k && next.flights[j].landed == Accepted && next.flights[k].landed == Accepted
        && next.flights[j].credentialClass == f.credentialClass && next.flights[j].row.owner == f.row.owner
        ensures next.flights[j].expected != f.expected
      {
        AcceptedIsPassed(rows, w.flights[j], f.row.owner);
      }
    }
  }

  lemma {:induction false} StepIsSerial(w: World, step: Step)
    requires FlightsOk(w) && Serial(w.flights)
    ensures FlightsOk(NextWorld(w, step)) && Serial(NextWorld(w, step).flights)
  {
    hide FlightsOk, Serial, NextRows, TouchDown, RotateMaster, Seal;
    match step
    case SealCredential(c, owner, expected, clear, newId) => SealIsSerial(w, c, owner, expected, clear, newId);
    case StoreCredential(k) => TouchDownIsSerial(w, k);
    case RotateMasterKey(next, keyIds) =>
      MasterKeepsRows(w, next, keyIds, Provider);
      forall c ensures RowsOf(RotateMaster(w, next, keyIds).0, c).credentials == RowsOf(w, c).credentials {
        MasterKeepsRows(w, next, keyIds, c);
      }
      StaysSerial(w, RotateMaster(w, next, keyIds).0, Provider);
    case _ =>
      RowsKeepOwners(w.master, RowsOf(w, step.c), step);
      StaysSerial(w, WithRows(w, step.c, NextRows(w.master, RowsOf(w, step.c), step)), step.c);
  }

  lemma {:induction false} StaysSerial(w: World, next: World, c: CredentialClass)
    requires FlightsOk(w) && next.flights == w.flights
    requires forall d :: d != c ==> RowsOf(next, d).credentials == RowsOf(w, d).credentials
    requires OwnersKept(RowsOf(w, c).credentials, RowsOf(next, c).credentials) || RowsOf(next, c).credentials == RowsOf(w, c).credentials
    ensures FlightsOk(next)
  {
    hide OwnersKept, FlightOk;
    SameCredentials(RowsOf(w, c), RowsOf(next, c));
    FlightsMove(w, next, c);
  }

  lemma {:induction false} SealIsSerial(w: World, c: CredentialClass, owner: string, expected: nat, clear: Cleartext, newId: CredentialId)
    requires FlightsOk(w) && Serial(w.flights)
    ensures FlightsOk(TakeOff(w, c, owner, expected, clear, newId)) && Serial(TakeOff(w, c, owner, expected, clear, newId).flights)
  {
    hide Seal, FlightOk;
    var next := TakeOff(w, c, owner, expected, clear, newId);
    assert forall d :: RowsOf(next, d) == RowsOf(w, d);
    if next != w {
      SealedIsFlightOk(w.master, c, RowsOf(w, c), owner, expected, clear, newId);
    }
  }

  lemma {:induction false} EveryFlightIsOk(master: Master, history: seq<Step>)
    ensures FlightsOk(Reached(master, history)) && Serial(Reached(master, history).flights)
  {
    if history != [] {
      hide FlightsOk, Serial, NextWorld;
      var before := history[..|history| - 1];
      EveryFlightIsOk(master, before);
      StepIsSerial(Reached(master, before), history[|history| - 1]);
    }
  }

  /**
   * In every history at all, a put is accepted only on top of the revision it named: the owner's row is at it when the
   * put is stored (or there is none, and it named 0), is at the next one afterwards, and holds what the put brought. Two
   * accepted puts of an owner never named the same revision, so none overwrites another unseen.
   */
  lemma {:induction false} NoPutIsLost(master: Master, history: seq<Step>, k: nat)
    requires InFlight(Reached(master, history), k)
    ensures var w := Reached(master, history); var f := w.flights[k];
            var rows, next := RowsOf(w, f.credentialClass), RowsOf(TouchDown(w, k), f.credentialClass);
            && Serial(TouchDown(w, k).flights)
            && (TouchDown(w, k).flights[k].landed == Accepted <==> Landing(w, k).1.Ok?)
            && (Landing(w, k).1.Ok? ==>
                  && RevisionOf(rows.credentials, f.row.owner) == f.expected && RevisionOf(next.credentials, f.row.owner) == f.expected + 1
                  && OwnerRow(next.credentials, f.row.owner) == Some(f.row))
            && (Landing(w, k).1.Err? ==> next == rows)
  {
    hide Reached, Land, FlightOk, Serial;
    EveryFlightIsOk(master, history);
    var w := Reached(master, history);
    TouchDownIsSerial(w, k);
    assert FlightOk(RowsOf(w, w.flights[k].credentialClass), w.flights[k]);
    FlightRevision(RowsOf(w, w.flights[k].credentialClass), w.flights[k]);
    LandAnswers(RowsOf(w, w.flights[k].credentialClass), w.flights[k]);
  }

  // ---- what stops a rotation for good

  /** A revoked row: its revision has moved past what was sealed. */
  ghost predicate Stuck(credentials: seq<Credential>, id: CredentialId) {
    exists i :: StuckAt(credentials, i, id)
  }

  ghost predicate StuckAt(credentials: seq<Credential>, i: int, id: CredentialId) {
    && 0 <= i < |credentials| && credentials[i].id == id
    && credentials[i].revoked && credentials[i].sealed.aad.revision < credentials[i].revision
  }

  lemma {:induction false} StuckFails(c: CredentialClass, row: Credential, oldKey: Key, newKey: Key, keyId: KeyId, version: nat)
    requires row.sealed.aad.revision < row.revision
    ensures RewrapRow(c, row, oldKey, newKey, keyId, version) == None
    ensures OpenBox(row.sealed, newKey, AadOf(c, row)) == None
  {
  }

  lemma {:induction false} BatchLeavesStuck(c: CredentialClass, rows: ClassRows, start: nat, n: nat, oldKey: Key, newKey: Key, keyId: KeyId,
                                            i: nat, id: CredentialId)
    requires rows.rotation.Some? && start <= |rows.credentials| && StuckAt(rows.credentials, i, id)
    ensures var next := RewrapRows(c, rows, start, n, oldKey, newKey, keyId).0;
            StuckAt(next.credentials, i, id) && next.completed == rows.completed
    decreases n
  {
    hide RewrapRow;
    if n > 0 && start < |rows.credentials| {
      StuckFails(c, rows.credentials[i], oldKey, newKey, keyId, rows.rotation.value.to);
      match RewrapAt(c, rows, start, oldKey, newKey, keyId)
      case None =>
      case Some(next) => BatchLeavesStuck(c, next, start + 1, n - 1, oldKey, newKey, keyId, i, id);
    }
  }

  /** Such a row is left alone by every call, and no call completes. */
  lemma {:induction false} RotateLeavesStuck(m: Master, c: CredentialClass, rows: ClassRows, batch: nat, key: Key, keyId: KeyId, death: Death, id: CredentialId)
    requires Stuck(rows.credentials, id)
    ensures var next := Rotate(m, c, rows, batch, key, keyId, death).0;
            Stuck(next.credentials, id) && next.completed == rows.completed
  {
    hide RewrapRows, RotationKeys, Position, Switch;
    var i :| StuckAt(rows.credentials, i, id);
    if batch <= 1000 && Begin(m, c, rows, key, keyId).Ok? {
      var begun := Begin(m, c, rows, key, keyId).value;
      var start := Position(begun.credentials, Cursor(begun));
      if RotationKeys(m, c, begun).Some? {
        var (oldKey, newKey, newId) := RotationKeys(m, c, begun).value;
        var n := if death.DiesAfter? && death.rows < batch then death.rows else batch;
        BatchLeavesStuck(c, begun, start, n, oldKey, newKey, newId, i, id);
        var after := RewrapRows(c, begun, start, n, oldKey, newKey, newId).0;
        StuckFails(c, after.credentials[i], oldKey, newKey, newId, 0);
        assert !AllOpen(c, after.credentials, newKey);
      }
    }
  }

  lemma {:induction false} LandLeavesStuck(rows: ClassRows, f: Flight, id: CredentialId)
    requires Stuck(rows.credentials, id)
    ensures var next := Land(rows, f).0; Stuck(next.credentials, id) && next.completed == rows.completed
  {
    hide Position;
    var i :| StuckAt(rows.credentials, i, id);
    var (next, answer) := Land(rows, f);
    if answer.Ok? {
      if OwnerIndex(rows.credentials, f.row.owner).Some? {
        assert StuckAt(next.credentials, i, id);
      } else {
        var n := Position(rows.credentials, f.row.id);
        assert next.credentials == rows.credentials[..n] + [f.row] + rows.credentials[n..];
        assert StuckAt(next.credentials, if i < n then i else i + 1, id);
      }
    }
  }

  lemma {:induction false} StepLeavesStuck(w: World, step: Step, c: CredentialClass, id: CredentialId)
    requires Stuck(RowsOf(w, c).credentials, id)
    ensures Stuck(RowsOf(NextWorld(w, step), c).credentials, id)
    ensures RowsOf(NextWorld(w, step), c).completed == RowsOf(w, c).completed
  {
    hide Seal, Land, Rotate;
    match step
    case InitializeClass(_, _, _) =>
    case SealCredential(_, _, _, _, _) =>
    case StoreCredential(k) =>
      if InFlight(w, k) && w.flights[k].credentialClass == c { LandLeavesStuck(RowsOf(w, c), w.flights[k], id); }
    case RevokeOwner(_, owner) =>
      var i :| StuckAt(RowsOf(w, c).credentials, i, id);
      if step.c == c { assert StuckAt(RowsOf(NextWorld(w, step), c).credentials, i, id); }
    case RotateClass(c', batch, key, keyId, death) =>
      if c' == c { RotateLeavesStuck(w.master, c, RowsOf(w, c), batch, key, keyId, death, id); }
    case RotateMasterKey(_, _) =>
  }

  lemma {:induction false} HistoryLeavesStuck(master: Master, before: seq<Step>, after: seq<Step>, c: CredentialClass, id: CredentialId)
    requires Stuck(RowsOf(Reached(master, before), c).credentials, id)
    ensures Stuck(RowsOf(Reached(master, before + after), c).credentials, id)
    ensures RowsOf(Reached(master, before + after), c).completed == RowsOf(Reached(master, before), c).completed
  {
    if after == [] {
      assert before + after == before;
    } else {
      var n := |after| - 1;
      assert (before + after)[..|before + after| - 1] == before + after[..n];
      HistoryLeavesStuck(master, before, after[..n], c, id);
      StepLeavesStuck(Reached(master, before + after[..n]), after[n], c, id);
    }
  }

  /** Revoking a credential stops the rotation of its class for good: whatever happens later, no further rotation completes. */
  lemma {:induction false} RevocationStopsRotation(master: Master, before: seq<Step>, after: seq<Step>, c: CredentialClass, i: nat)
    requires AllNeeded(master, before)
    requires i < |RowsOf(Reached(master, before), c).credentials| && RowsOf(Reached(master, before), c).credentials[i].revoked
    ensures RowsOf(Reached(master, before + after), c).completed == RowsOf(Reached(master, before), c).completed
  {
    var w, clears := Reached(master, before), LastPut(master, before);
    EveryWorldIsOk(master, before);
    assert ClassOk(w.master, c, RowsOf(w, c), clears);
    var rows := RowsOf(w, c);
    var a: nat, p: nat :| KeysFit(w.master, c, rows, clears, a, p);
    var row := rows.credentials[i];
    assert RowOk(c, row, KeyOf(row.id, Cursor(rows), rows.keys[a].wrapped.clear, rows.keys[p].wrapped.clear), clears);
    assert StuckAt(rows.credentials, i, row.id);
    HistoryLeavesStuck(master, before, after, c, row.id);
  }

  /** A row behind the cursor that is under another key than the rotation's new one. */
  ghost predicate Behind(m: Master, c: CredentialClass, rows: ClassRows, i: nat) {
    && rows.rotation.Some? && i < Position(rows.credentials, Cursor(rows)) && RotationKeys(m, c, rows).Some?
    && rows.credentials[i].sealed.key != RotationKeys(m, c, rows).value.1
  }

  ghost predicate PrefixKept(rows: ClassRows, next: ClassRows, start: nat) {
    && rows.rotation.Some? && next.rotation.Some? && start <= |rows.credentials| && start <= |next.credentials|
    && next.keys == rows.keys && next.completed == rows.completed && SortedIds(next.credentials)
    && next.rotation.value.from == rows.rotation.value.from && next.rotation.value.to == rows.rotation.value.to
    && Position(next.credentials, Cursor(next)) >= start
    && forall k :: 0 <= k < start ==> next.credentials[k] == rows.credentials[k]
  }

  lemma {:induction false} RowLeavesPrefix(c: CredentialClass, rows: ClassRows, start: nat, oldKey: Key, newKey: Key, keyId: KeyId)
    requires rows.rotation.Some? && start < |rows.credentials| && SortedIds(rows.credentials)
    requires RewrapAt(c, rows, start, oldKey, newKey, keyId).Some?
    ensures var next := RewrapAt(c, rows, start, oldKey, newKey, keyId).value;
            PrefixKept(rows, next, start) && Position(next.credentials, Cursor(next)) == start + 1 && |next.credentials| == |rows.credentials|
  {
    hide OpenBox;
    var next := RewrapAt(c, rows, start, oldKey, newKey, keyId).value;
    assert forall k :: 0 <= k < |rows.credentials| ==> next.credentials[k].id == rows.credentials[k].id;
    assert SortedIds(next.credentials);
    PositionIs(next.credentials, Cursor(next), start + 1);
  }

  lemma {:induction false} BatchLeavesPrefix(c: CredentialClass, rows: ClassRows, start: nat, n: nat, oldKey: Key, newKey: Key, keyId: KeyId)
    requires rows.rotation.Some? && start <= |rows.credentials| && SortedIds(rows.credentials) && Position(rows.credentials, Cursor(rows)) == start
    ensures PrefixKept(rows, RewrapRows(c, rows, start, n, oldKey, newKey, keyId).0, start)
    decreases n
  {
    hide RewrapAt, Position, SortedIds;
    if n > 0 && start < |rows.credentials| && RewrapAt(c, rows, start, oldKey, newKey, keyId).Some? {
      var next := RewrapAt(c, rows, start, oldKey, newKey, keyId).value;
      RowLeavesPrefix(c, rows, start, oldKey, newKey, keyId);
      BatchLeavesPrefix(c, next, start + 1, n - 1, oldKey, newKey, keyId);
    }
  }

  /** One that was written there stays there, and no call completes. */
  lemma {:induction false} RotateLeavesBehind(m: Master, c: CredentialClass, rows: ClassRows, batch: nat, key: Key, keyId: KeyId, death: Death, i: nat)
    requires SortedIds(rows.credentials) && Behind(m, c, rows, i)
    ensures var next := Rotate(m, c, rows, batch, key, keyId, death).0;
            SortedIds(next.credentials) && Behind(m, c, next, i) && next.completed == rows.completed
  {
    hide RewrapRows, Position, Switch, SortedIds;
    if 0 < batch <= 1000 {
      var start := Position(rows.credentials, Cursor(rows));
      var (oldKey, newKey, newId) := RotationKeys(m, c, rows).value;
      var n := if death.DiesAfter? && death.rows < batch then death.rows else batch;
      BatchLeavesPrefix(c, rows, start, n, oldKey, newKey, newId);
      var after := RewrapRows(c, rows, start, n, oldKey, newKey, newId).0;
      assert RotationKeys(m, c, after) == RotationKeys(m, c, rows);
      assert Behind(m, c, after, i);
      assert OpenBox(after.credentials[i].sealed, newKey, AadOf(c, after.credentials[i])) == None;
      assert !AllOpen(c, after.credentials, newKey);
    }
  }

  /** A row not yet rotated that is under another key than the active one. */
  ghost predicate Stranded(m: Master, c: CredentialClass, rows: ClassRows, i: nat) {
    exists a: nat, p: nat :: StrandedAt(m, c, rows, i, a, p)
  }

  ghost predicate StrandedAt(m: Master, c: CredentialClass, rows: ClassRows, i: nat, a: nat, p: nat) {
    && KeysOk(m, c, rows.keys, rows.rotation, a, p) && SortedIds(rows.credentials) && i < |rows.credentials|
    && Position(rows.credentials, Cursor(rows)) <= i && rows.credentials[i].sealed.key != rows.keys[a].wrapped.clear
  }

  /** A batch stops at such a row. */
  lemma {:induction false} BatchStopsAt(c: CredentialClass, rows: ClassRows, start: nat, n: nat, oldKey: Key, newKey: Key, keyId: KeyId, i: nat)
    requires rows.rotation.Some? && start <= i < |rows.credentials| && SortedIds(rows.credentials)
    requires Position(rows.credentials, Cursor(rows)) == start && rows.credentials[i].sealed.key != oldKey
    ensures var (next, ok) := RewrapRows(c, rows, start, n, oldKey, newKey, keyId);
            && (ok ==> start + n <= i) && next.credentials[i] == rows.credentials[i]
            && next.keys == rows.keys && next.completed == rows.completed && SortedIds(next.credentials)
            && next.rotation.value.from == rows.rotation.value.from && next.rotation.value.to == rows.rotation.value.to
            && Position(next.credentials, Cursor(next)) <= i
    decreases n
  {
    hide Position, SortedIds;
    if n > 0 && RewrapAt(c, rows, start, oldKey, newKey, keyId).Some? {
      var next := RewrapAt(c, rows, start, oldKey, newKey, keyId).value;
      assert start < i;
      RowLeavesPrefix(c, rows, start, oldKey, newKey, keyId);
      BatchStopsAt(c, next, start + 1, n - 1, oldKey, newKey, keyId, i);
    }
  }

  lemma {:induction false} ContinueLeavesStranded(m: Master, c: CredentialClass, rows: ClassRows, a: nat, p: nat, batch: nat, death: Death, i: nat)
    requires rows.rotation.Some? && StrandedAt(m, c, rows, i, a, p)
    ensures var next := Continue(m, c, rows, batch, death).0;
            && StrandedAt(m, c, next, i, a, p) && next.completed == rows.completed && next.credentials[i] == rows.credentials[i]
  {
    hide RewrapRows, Position, Switch, SortedIds, RotationKeys, AllOpen, Wrapped, DistinctVersions, OthersSettled;
    KeysOfRotation(m, c, rows, a, p);
    var start, n := Position(rows.credentials, Cursor(rows)), if death.DiesAfter? && death.rows < batch then death.rows else batch;
    BatchStopsAt(c, rows, start, n, rows.keys[a].wrapped.clear, rows.keys[p].wrapped.clear, rows.keys[p].id, i);
  }

  /**
   * A row that landed after its key was retired: however often the class is rotated, the row stays as it is
   * and no call completes a rotation.
   */
  lemma {:induction false} RotateLeavesStranded(m: Master, c: CredentialClass, rows: ClassRows, batch: nat, key: Key, keyId: KeyId, death: Death, i: nat)
    requires Stranded(m, c, rows, i)
    ensures var next := Rotate(m, c, rows, batch, key, keyId, death).0;
            && Stranded(m, c, next, i) && next.completed == rows.completed && next.credentials[i] == rows.credentials[i]
  {
    hide Position, SortedIds, Continue, Wrapped, OneActive, DistinctVersions, OthersSettled;
    var a: nat, p: nat :| StrandedAt(m, c, rows, i, a, p);
    if batch <= 1000 {
      if rows.rotation.Some? {
        ContinueLeavesStranded(m, c, rows, a, p, batch, death, i);
      } else {
        BeginsStranded(m, c, rows, a, key, keyId, i);
        ContinueLeavesStranded(m, c, Begin(m, c, rows, key, keyId).value, a, |rows.keys|, batch, death, i);
      }
    }
  }

  lemma {:induction false} BeginsStranded(m: Master, c: CredentialClass, rows: ClassRows, a: nat, key: Key, keyId: KeyId, i: nat)
    requires rows.rotation == None && StrandedAt(m, c, rows, i, a, a)
    ensures Begin(m, c, rows, key, keyId).Ok?
    ensures var begun := Begin(m, c, rows, key, keyId).value;
            StrandedAt(m, c, begun, i, a, |rows.keys|) && begun.completed == rows.completed && begun.credentials == rows.credentials
  {
    hide Wrapped, SortedIds, Position;
    ActiveFound(rows.keys, a);
    var row := KeyRow(keyId, rows.keys[a].version + 1, m.id, WrapKey(m, c, rows.keys[a].version + 1, keyId, key), Pending);
    NewIsWrapped(m, c, row);
    KeyAdded(m, c, rows.keys, a, row);
  }
}
