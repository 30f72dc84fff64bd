/** Credential keys: class keys under a master key, credentials under class keys, and their rotation. */
module KeyRotation {
  import opened Common

  datatype CredentialClass = Provider | MemberOauth | DeviceRefresh

  type Key = string
  type KeyId = string
  type Cleartext = string

  /** A credential's row id, by its rank in byte order; 0 is the empty cursor, which is before every id. */
  type CredentialId = n: nat | n > 0 witness 1

  /** AES-256-GCM: what was sealed comes out under the same key and associated data, and not otherwise. */
  datatype Box<A, T> = Box(key: Key, aad: A, clear: T)

  function OpenBox<A(==), T>(box: Box<A, T>, key: Key, aad: A): Option<T> {
    if box.key == key && box.aad == aad then Some(box.clear) else None
  }

  datatype KeyAad = KeyAad(credentialClass: CredentialClass, keyId: KeyId, keyVersion: nat, masterKeyId: KeyId)

  datatype KeyState = Pending | Active | Retired

  datatype KeyRow = KeyRow(id: KeyId, version: nat, wrappingKeyId: KeyId, wrapped: Box<KeyAad, Key>, state: KeyState)

  datatype CredentialAad = CredentialAad(rowId: CredentialId, credentialClass: CredentialClass, owner: string,
                                         keyVersion: nat, revision: nat)

  datatype Credential = Credential(id: CredentialId, owner: string, keyId: KeyId, keyVersion: nat,
                                   sealed: Box<CredentialAad, Cleartext>, revision: nat, revoked: bool)

  /** The rotation of a class that is in progress. cursor is 0 before the first row. */
  datatype Rotation = Rotation(from: nat, to: nat, cursor: nat, processed: nat, revision: nat)

  /** The rows of one class: keys in the order of insertion, credentials in the order of their ids. */
  datatype ClassRows = ClassRows(keys: seq<KeyRow>, credentials: seq<Credential>, rotation: Option<Rotation>,
                                 completed: seq<Rotation>)

  datatype Master = Master(key: Key, id: KeyId)

  const FAILED := "CREDENTIAL_ROTATION_FAILED"

  function AadOf(c: CredentialClass, row: Credential): CredentialAad {
    CredentialAad(row.id, c, row.owner, row.keyVersion, row.revision)
  }

  function WrapKey(m: Master, c: CredentialClass, version: nat, id: KeyId, key: Key): Box<KeyAad, Key> {
    Box(m.key, KeyAad(c, id, version, m.id), key)
  }

  function UnwrapAny(m: Master, c: CredentialClass, row: KeyRow): Option<Key> {
    OpenBox(row.wrapped, m.key, KeyAad(c, row.id, row.version, m.id))
  }

  // ---- queries

  function KeyInState(keys: seq<KeyRow>, state: KeyState, start: nat := 0): (r: Option<nat>)
    requires start <= |keys|
    ensures r.Some? ==> start <= r.value < |keys| && keys[r.value].state == state
    ensures r == None ==> forall i :: start <= i < |keys| ==> keys[i].state != state
    decreases |keys| - start
  {
    if start == |keys| then None
    else if keys[start].state == state then Some(start)
    else KeyInState(keys, state, start + 1)
  }

  function KeyAtVersion(keys: seq<KeyRow>, version: nat, start: nat := 0): (r: Option<nat>)
    requires start <= |keys|
    ensures r.Some? ==> start <= r.value < |keys| && keys[r.value].version == version
    ensures r == None ==> forall i :: start <= i < |keys| ==> keys[i].version != version
    decreases |keys| - start
  {
    if start == |keys| then None
    else if keys[start].version == version then Some(start)
    else KeyAtVersion(keys, version, start + 1)
  }

  /** How many rows have an id up to the cursor: WHERE id > cursor ORDER BY id begins there. */
  function Position(credentials: seq<Credential>, cursor: nat): (n: nat)
    ensures n <= |credentials|
    ensures forall i :: 0 <= i < n ==> credentials[i].id <= cursor
    ensures n < |credentials| ==> credentials[n].id > cursor
  {
    if credentials == [] || credentials[0].id > cursor then 0 else 1 + Position(credentials[1..], cursor)
  }

  ghost predicate SortedIds(credentials: seq<Credential>) {
    forall i, j :: 0 <= i < j < |credentials| ==> credentials[i].id < credentials[j].id
  }

  // ---- writing a credential

  /** The row of an owner; owner stands for the connector and the credential's owner in it. */
  function OwnerIndex(credentials: seq<Credential>, owner: string, start: nat := 0): (r: Option<nat>)
    requires start <= |credentials|
    ensures r.Some? ==> start <= r.value < |credentials| && credentials[r.value].owner == owner
    ensures r == None ==> forall i :: start <= i < |credentials| ==> credentials[i].owner != owner
    decreases |credentials| - start
  {
    if start == |credentials| then None
    else if credentials[start].owner == owner then Some(start)
    else OwnerIndex(credentials, owner, start + 1)
  }

  /** The key that seals and opens: the active one, when the manager's master key wraps it. */
  function ActiveKey(m: Master, c: CredentialClass, keys: seq<KeyRow>): Option<(KeyRow, Key)> {
    match KeyInState(keys, Active)
    case None => None
    case Some(a) =>
      if keys[a].wrappingKeyId != m.id then None
      else match UnwrapAny(m, c, keys[a]) case None => None case Some(key) => Some((keys[a], key))
  }

  /** A new row in the order of ids, unless its id is taken. */
  function Inserted(credentials: seq<Credential>, row: Credential): Option<seq<Credential>> {
    var n := Position(credentials, row.id);
    if n > 0 && credentials[n - 1].id == row.id then None
    else Some(credentials[..n] + [row] + credentials[n..])
  }

  /** Over the owner's row, or as a new row. */
  function Stored(credentials: seq<Credential>, at: Option<nat>, row: Credential): Option<seq<Credential>>
    requires at.Some? ==> at.value < |credentials|
  {
    match at case Some(i) => Some(credentials[i := row]) case None => Inserted(credentials, row)
  }

  function SealedRow(c: CredentialClass, key: KeyRow, clearKey: Key, id: CredentialId, owner: string, revision: nat, clear: Cleartext): Credential {
    Credential(id, owner, key.id, key.version, Box(clearKey, CredentialAad(id, c, owner, key.version, revision), clear), revision, false)
  }

  datatype Landed = InAir | Accepted | Refused

  /** A put between its two halves, or after: the revision it named, whether the owner had no row, and the row it sealed. */
  datatype Flight = Flight(credentialClass: CredentialClass, first: bool, expected: nat, row: Credential, landed: Landed)

  /** The first half of a put: reads the owner's row and seals under the key that is active now. Nothing is written. */
  function Seal(m: Master, c: CredentialClass, rows: ClassRows, owner: string, expected: nat, clear: Cleartext, newId: CredentialId)
    : Result<Flight>
  {
    match KeyInState(rows.keys, Active)
    case None => Err("CREDENTIAL_KEY_UNAVAILABLE")
    case Some(_) =>
      var at := OwnerIndex(rows.credentials, owner);
      var revision := if at.Some? then rows.credentials[at.value].revision else 0;
      if at.Some? && rows.credentials[at.value].revoked then Err("CREDENTIAL_REVOKED")
      else if revision != expected then Err("CREDENTIAL_REVISION_STALE")
      else match ActiveKey(m, c, rows.keys)
        case None => Err("CREDENTIAL_CRYPTO_FAILED")
        case Some((key, clearKey)) =>
          var id := if at.Some? then rows.credentials[at.value].id else newId;
          Ok(Flight(c, at == None, expected, SealedRow(c, key, clearKey, id, owner, expected + 1, clear), InAir))
  }

  /** The owner's row is as the first half read it: none, or not revoked and of that revision. */
  predicate Undisturbed(rows: ClassRows, f: Flight) {
    match OwnerIndex(rows.credentials, f.row.owner)
    case None => f.first
    case Some(i) => !f.first && !rows.credentials[i].revoked && rows.credentials[i].revision == f.expected
  }

  /** The second half, after the await: one transaction, which looks at the owner's row again and not at the keys. */
  function Land(rows: ClassRows, f: Flight): (ClassRows, Result<(CredentialId, nat)>) {
    var at := OwnerIndex(rows.credentials, f.row.owner);
    if !Undisturbed(rows, f) then (rows, Err("CREDENTIAL_REVISION_STALE"))
    else
      var id := if at.Some? then rows.credentials[at.value].id else f.row.id;
      match Stored(rows.credentials, at, f.row.(id := id))
      case None => (rows, Err("CREDENTIAL_STORAGE_FAILED"))
      case Some(next) => (rows.(credentials := next), Ok((f.row.id, f.row.revision)))
  }

  /** Revoking raises the revision and leaves what was sealed. */
  function RevokedRow(row: Credential, owner: string): Credential {
    if row.owner == owner && !row.revoked then row.(revoked := true, revision := row.revision + 1) else row
  }

  function Revoke(rows: ClassRows, owner: string): (r: ClassRows)
    ensures |r.credentials| == |rows.credentials|
    ensures r == rows.(credentials := r.credentials)
    ensures forall i :: 0 <= i < |rows.credentials| ==> r.credentials[i] == RevokedRow(rows.credentials[i], owner)
  {
    rows.(credentials := seq(|rows.credentials|, i requires 0 <= i < |rows.credentials| => RevokedRow(rows.credentials[i], owner)))
  }

  // ---- reading a credential

  function OpenCredential(m: Master, c: CredentialClass, rows: ClassRows, i: nat): Option<Cleartext>
    requires i < |rows.credentials|
  {
    var row := rows.credentials[i];
    if row.revoked then None
    else match ActiveKey(m, c, rows.keys) case None => None case Some((_, key)) => OpenBox(row.sealed, key, AadOf(c, row))
  }

  // ---- rotating a class key

  /** The rotation in progress, or a new one with a new key, in one transaction. */
  function Begin(m: Master, c: CredentialClass, rows: ClassRows, key: Key, keyId: KeyId): (r: Result<ClassRows>)
    ensures r.Ok? ==> r.value.rotation.Some?
  {
    if rows.rotation.Some? then Ok(rows)
    else match KeyInState(rows.keys, Active)
      case None => Err("CREDENTIAL_KEY_UNAVAILABLE")
      case Some(a) =>
        var from := rows.keys[a].version;
        if KeyAtVersion(rows.keys, from + 1).Some? then Err(FAILED)
        else
          var row := KeyRow(keyId, from + 1, m.id, WrapKey(m, c, from + 1, keyId, key), Pending);
          Ok(rows.(keys := rows.keys + [row], rotation := Some(Rotation(from, from + 1, 0, 0, 1))))
  }

  /** The old and the new key of the rotation, as the master key unwraps them. */
  function RotationKeys(m: Master, c: CredentialClass, rows: ClassRows): Option<(Key, Key, KeyId)>
    requires rows.rotation.Some?
  {
    var r := rows.rotation.value;
    match (KeyAtVersion(rows.keys, r.from), KeyAtVersion(rows.keys, r.to))
    case (Some(i), Some(j)) =>
      (match (UnwrapAny(m, c, rows.keys[i]), UnwrapAny(m, c, rows.keys[j]))
       case (Some(oldKey), Some(newKey)) => Some((oldKey, newKey, rows.keys[j].id))
       case _ => None)
    case _ => None
  }

  /** One row under the new key, or None when it does not open under the old one. */
  function RewrapRow(c: CredentialClass, row: Credential, oldKey: Key, newKey: Key, keyId: KeyId, version: nat): Option<Credential> {
    match OpenBox(row.sealed, oldKey, AadOf(c, row))
    case None => None
    case Some(clear) =>
      var next := row.(keyId := keyId, keyVersion := version, revision := row.revision + 1);
      Some(next.(sealed := Box(newKey, AadOf(c, next), clear)))
  }

  /** The transaction of one row: the credential and the cursor together. */
  function RewrapAt(c: CredentialClass, rows: ClassRows, i: nat, oldKey: Key, newKey: Key, keyId: KeyId): Option<ClassRows>
    requires rows.rotation.Some? && i < |rows.credentials|
  {
    var r := rows.rotation.value;
    match RewrapRow(c, rows.credentials[i], oldKey, newKey, keyId, r.to)
    case None => None
    case Some(next) =>
      Some(rows.(credentials := rows.credentials[i := next],
                 rotation := Some(r.(cursor := next.id, processed := r.processed + 1, revision := r.revision + 1))))
  }

  /** Up to n rows from a position on; the flag says whether none failed. */
  function RewrapRows(c: CredentialClass, rows: ClassRows, i: nat, n: nat, oldKey: Key, newKey: Key, keyId: KeyId): (r: (ClassRows, bool))
    requires rows.rotation.Some? && i <= |rows.credentials|
    ensures r.0.rotation.Some? && |r.0.credentials| == |rows.credentials|
    decreases n
  {
    if n == 0 || i == |rows.credentials| then (rows, true)
    else match RewrapAt(c, rows, i, oldKey, newKey, keyId)
      case None => (rows, false)
      case Some(next) => RewrapRows(c, next, i + 1, n - 1, oldKey, newKey, keyId)
  }

  predicate AllOpen(c: CredentialClass, credentials: seq<Credential>, key: Key) {
    forall i :: 0 <= i < |credentials| ==> OpenBox(credentials[i].sealed, key, AadOf(c, credentials[i])).Some?
  }

  /** The last transaction: the new key takes over and the rotation is completed. */
  function Switch(rows: ClassRows): (r: ClassRows)
    requires rows.rotation.Some?
    ensures r.rotation == None && r.credentials == rows.credentials
  {
    var r := rows.rotation.value;
    rows.(keys := Switched(rows.keys, r.from, r.to), rotation := None,
          completed := rows.completed + [r.(revision := r.revision + 1)])
  }

  function SwitchedKey(row: KeyRow, from: nat, to: nat): KeyRow {
    if row.version == from && row.state == Active then row.(state := Retired)
    else if row.version == to && row.state == Pending then row.(state := Active)
    else row
  }

  function Switched(keys: seq<KeyRow>, from: nat, to: nat): (r: seq<KeyRow>)
    ensures |r| == |keys|
    ensures forall i :: 0 <= i < |r| ==> r[i] == SwitchedKey(keys[i], from, to)
  {
    if keys == [] then [] else Switched(keys[..|keys| - 1], from, to) + [SwitchedKey(keys[|keys| - 1], from, to)]
  }

  datatype Progress = Progress(completed: bool, processed: nat, keyVersion: nat)

  /** Where a process dies during a call: nowhere, after some row transactions, or before the last one. */
  datatype Death = Survives | DiesAfter(rows: nat) | DiesBeforeSwitch

  /** The call once a rotation is in progress: a batch, and the last transaction when nothing remains. */
  function Continue(m: Master, c: CredentialClass, rows: ClassRows, batch: nat, death: Death): (ClassRows, Option<Result<Progress>>)
    requires rows.rotation.Some?
  {
    var r := rows.rotation.value;
    if batch == 0 then (rows, Some(Ok(Progress(false, r.processed, r.to))))
    else match RotationKeys(m, c, rows)
      case None => (rows, Some(Err(FAILED)))
      case Some((oldKey, newKey, newId)) =>
        var start := Position(rows.credentials, r.cursor);
        if death.DiesAfter? && death.rows < batch then
          (RewrapRows(c, rows, start, death.rows, oldKey, newKey, newId).0, None)
        else
          var (after, ok) := RewrapRows(c, rows, start, batch, oldKey, newKey, newId);
          var r' := after.rotation.value;
          if !ok then (after, Some(Err(FAILED)))
          else if start + batch < |after.credentials| then (after, Some(Ok(Progress(false, r'.processed, r'.to))))
          else if !AllOpen(c, after.credentials, newKey) then (after, Some(Err(FAILED)))
          else if death != Survives then (after, None)
          else (Switch(after), Some(Ok(Progress(true, r'.processed, r'.to))))
  }

  /** One call of rotateCredentialClassKey: the rows it leaves, and what it returns if it does. */
  function Rotate(m: Master, c: CredentialClass, rows: ClassRows, batch: nat, key: Key, keyId: KeyId, death: Death)
    : (ClassRows, Option<Result<Progress>>)
  {
    if batch > 1000 then (rows, Some(Err("CREDENTIAL_ROTATION_INPUT_INVALID")))
    else match Begin(m, c, rows, key, keyId)
      case Err(code) => (rows, Some(Err(code)))
      case Ok(begun) => Continue(m, c, begun, batch, death)
  }

  // ---- rotating the master key

  /** One class: its active key, under the new master key and a new version; the old row is retired. */
  function RewrapClass(next: Master, c: CredentialClass, rows: ClassRows, a: nat, key: Key, keyId: KeyId): ClassRows
    requires a < |rows.keys|
  {
    var row := rows.keys[a];
    rows.(keys := rows.keys[a := row.(state := Retired)]
                  + [KeyRow(keyId, row.version + 1, next.id, WrapKey(next, c, row.version + 1, keyId, key), Active)])
  }

  /** The same with what can fail: unwrapping under the current master key, and the version taken already. */
  function MasterRewrap(m: Master, next: Master, c: CredentialClass, rows: ClassRows, keyId: KeyId): Option<ClassRows> {
    match KeyInState(rows.keys, Active)
    case None => Some(rows)
    case Some(a) =>
      match UnwrapAny(m, c, rows.keys[a])
      case None => None
      case Some(key) =>
        if KeyAtVersion(rows.keys, rows.keys[a].version + 1).Some? then None else Some(RewrapClass(next, c, rows, a, key, keyId))
  }

  // ---- what the rows of a class satisfy

  ghost predicate Wrapped(m: Master, c: CredentialClass, row: KeyRow) {
    row.wrappingKeyId == m.id && row.wrapped == WrapKey(m, c, row.version, row.id, row.wrapped.clear)
  }

  ghost predicate OneActive(keys: seq<KeyRow>, a: nat) {
    a < |keys| && keys[a].state == Active && forall i :: 0 <= i < |keys| && i != a ==> keys[i].state != Active
  }

  ghost predicate DistinctVersions(keys: seq<KeyRow>) {
    forall i, j :: 0 <= i < j < |keys| ==> keys[i].version != keys[j].version
  }

  /** No other row is pending or has a version above the limit. */
  ghost predicate OthersSettled(keys: seq<KeyRow>, p: nat, limit: nat) {
    forall i :: 0 <= i < |keys| && i != p ==> keys[i].state != Pending && keys[i].version <= limit
  }

  /** The active key at a; the pending one at p when a rotation is in progress, and otherwise p = a. */
  ghost predicate KeysOk(m: Master, c: CredentialClass, keys: seq<KeyRow>, rotation: Option<Rotation>, a: nat, p: nat) {
    && OneActive(keys, a) && Wrapped(m, c, keys[a]) && DistinctVersions(keys)
    && p < |keys| && OthersSettled(keys, p, keys[a].version)
    && match rotation
       case None => p == a
       case Some(r) =>
         && keys[p].state == Pending && Wrapped(m, c, keys[p])
         && r.from == keys[a].version && r.to == keys[p].version == r.from + 1
  }

  type Clears = map<(CredentialClass, CredentialId), Cleartext>

  /** A row opens under the key to its cleartext; a revoked one never opens, its revision having moved on. */
  ghost predicate RowOk(c: CredentialClass, row: Credential, key: Key, clears: Clears) {
    && (c, row.id) in clears && row.sealed.clear == clears[(c, row.id)]
    && if row.revoked then row.sealed.aad.revision < row.revision else row.sealed.key == key && row.sealed.aad == AadOf(c, row)
  }

  /** Rows up to the cursor are under the new key, the others under the old one. */
  function KeyOf(id: CredentialId, cursor: nat, oldKey: Key, newKey: Key): Key {
    if id <= cursor then newKey else oldKey
  }

  ghost predicate Conserved(c: CredentialClass, credentials: seq<Credential>, cursor: nat, oldKey: Key, newKey: Key, clears: Clears) {
    && SortedIds(credentials)
    && forall i :: 0 <= i < |credentials| ==> RowOk(c, credentials[i], KeyOf(credentials[i].id, cursor, oldKey, newKey), clears)
  }

  function Cursor(rows: ClassRows): nat {
    if rows.rotation.Some? then rows.rotation.value.cursor else 0
  }

  ghost predicate KeysFit(m: Master, c: CredentialClass, rows: ClassRows, clears: Clears, a: nat, p: nat) {
    && KeysOk(m, c, rows.keys, rows.rotation, a, p)
    && Conserved(c, rows.credentials, Cursor(rows), rows.keys[a].wrapped.clear, rows.keys[p].wrapped.clear, clears)
  }

  /** A class is not initialised yet and empty, or its keys and credentials fit. */
  ghost predicate ClassOk(m: Master, c: CredentialClass, rows: ClassRows, clears: Clears) {
    || (rows.keys == [] && rows.credentials == [] && rows.rotation == None)
    || exists a, p :: KeysFit(m, c, rows, clears, a, p)
  }

  // ---- lemmas: keys

  lemma {:induction false} ActiveFound(keys: seq<KeyRow>, a: nat)
    requires OneActive(keys, a)
    ensures KeyInState(keys, Active) == Some(a)
  {
  }

  lemma {:induction false} VersionFound(keys: seq<KeyRow>, i: nat)
    requires DistinctVersions(keys) && i < |keys|
    ensures KeyAtVersion(keys, keys[i].version) == Some(i)
  {
  }

  lemma {:induction false} ActiveKeyIs(m: Master, c: CredentialClass, keys: seq<KeyRow>, a: nat)
    requires OneActive(keys, a) && Wrapped(m, c, keys[a])
    ensures ActiveKey(m, c, keys) == Some((keys[a], keys[a].wrapped.clear))
  {
    ActiveFound(keys, a);
  }

  /** A new key at the end, one version above the active one. */
  lemma {:induction false} KeysInRange(m: Master, c: CredentialClass, keys: seq<KeyRow>, rotation: Option<Rotation>, a: nat, p: nat)
    requires KeysOk(m, c, keys, rotation, a, p)
    ensures a < |keys| && p < |keys| && OneActive(keys, a) && Wrapped(m, c, keys[a]) && (rotation == None ==> p == a)
  {
    hide Wrapped, DistinctVersions, OthersSettled;
  }

  lemma {:induction false} KeyAdded(m: Master, c: CredentialClass, keys: seq<KeyRow>, a: nat, row: KeyRow)
    requires KeysOk(m, c, keys, None, a, a)
    requires row.version == keys[a].version + 1 && row.state == Pending && Wrapped(m, c, row)
    ensures KeyAtVersion(keys, row.version) == None
    ensures forall r: Rotation :: r.from == keys[a].version && r.to == row.version ==> KeysOk(m, c, keys + [row], Some(r), a, |keys|)
  {
  }

  lemma {:induction false} NewIsWrapped(m: Master, c: CredentialClass, row: KeyRow)
    requires row.wrappingKeyId == m.id && row.wrapped == WrapKey(m, c, row.version, row.id, row.wrapped.clear)
    ensures Wrapped(m, c, row)
  {
  }

  lemma {:induction false} Began(m: Master, c: CredentialClass, rows: ClassRows, clears: Clears, a: nat, key: Key, keyId: KeyId)
    requires KeysFit(m, c, rows, clears, a, a) && rows.rotation == None
    ensures var row := KeyRow(keyId, rows.keys[a].version + 1, m.id, WrapKey(m, c, rows.keys[a].version + 1, keyId, key), Pending);
            var begun := rows.(keys := rows.keys + [row], rotation := Some(Rotation(rows.keys[a].version, row.version, 0, 0, 1)));
            Begin(m, c, rows, key, keyId) == Ok(begun) && KeysFit(m, c, begun, clears, a, |rows.keys|)
  {
    hide Wrapped, RowOk;
    ActiveFound(rows.keys, a);
    var row := KeyRow(keyId, rows.keys[a].version + 1, m.id, WrapKey(m, c, rows.keys[a].version + 1, keyId, key), Pending);
    NewIsWrapped(m, c, row);
    KeyAdded(m, c, rows.keys, a, row);
  }

  lemma {:induction false} KeysOfRotation(m: Master, c: CredentialClass, rows: ClassRows, a: nat, p: nat)
    requires rows.rotation.Some? && KeysOk(m, c, rows.keys, rows.rotation, a, p)
    ensures RotationKeys(m, c, rows) == Some((rows.keys[a].wrapped.clear, rows.keys[p].wrapped.clear, rows.keys[p].id))
  {
    VersionFound(rows.keys, a);
    VersionFound(rows.keys, p);
  }

  // ---- lemmas: a batch

  lemma {:induction false} PositionIs(credentials: seq<Credential>, cursor: nat, i: nat)
    requires SortedIds(credentials) && i <= |credentials|
    requires i > 0 ==> credentials[i - 1].id <= cursor
    requires i < |credentials| ==> credentials[i].id > cursor
    ensures Position(credentials, cursor) == i
  {
    if i > 0 {
      assert i > 1 ==> credentials[0].id < credentials[i - 1].id;
      PositionIs(credentials[1..], cursor, i - 1);
    }
  }

  /** What a batch changes, from one position to another, against the rows it found. */
  ghost predicate Advanced(rows: ClassRows, next: ClassRows, from: nat, to: nat) {
    && rows.rotation.Some? && next.rotation.Some? && from <= to <= |rows.credentials| == |next.credentials|
    && next.keys == rows.keys && next.completed == rows.completed
    && next.rotation.value.from == rows.rotation.value.from && next.rotation.value.to == rows.rotation.value.to
    && next.rotation.value.processed == rows.rotation.value.processed + (to - from)
    && (forall i :: 0 <= i < |rows.credentials| && !(from <= i < to) ==> next.credentials[i] == rows.credentials[i])
    && (forall i :: from <= i < to ==> RowAdvanced(rows.credentials[i], next.credentials[i], rows.rotation.value.to))
  }

  ghost predicate RowAdvanced(row: Credential, next: Credential, version: nat) {
    && next.id == row.id && next.owner == row.owner && next.revoked == row.revoked
    && next.revision == row.revision + 1 && next.keyVersion == version
  }

  /** The class is conserved, and the next row to rewrap is at the position. */
  ghost predicate ConservedAt(c: CredentialClass, rows: ClassRows, position: nat, oldKey: Key, newKey: Key, clears: Clears) {
    && Conserved(c, rows.credentials, Cursor(rows), oldKey, newKey, clears)
    && Position(rows.credentials, Cursor(rows)) == position
  }

  lemma {:induction false} RowRewraps(c: CredentialClass, row: Credential, oldKey: Key, newKey: Key, keyId: KeyId, version: nat, clears: Clears)
    requires RowOk(c, row, oldKey, clears)
    ensures RewrapRow(c, row, oldKey, newKey, keyId, version).Some? <==> !row.revoked
    ensures !row.revoked ==>
              var next := RewrapRow(c, row, oldKey, newKey, keyId, version).value;
              RowOk(c, next, newKey, clears) && RowAdvanced(row, next, version)
  {
  }

  /** The cursor on row i, which is under the new key now, and the other rows as they were. */
  lemma {:induction false} CursorMoves(c: CredentialClass, credentials: seq<Credential>, cursor: nat, i: nat, row: Credential,
                                       oldKey: Key, newKey: Key, clears: Clears)
    requires i < |credentials| && Position(credentials, cursor) == i && Conserved(c, credentials, cursor, oldKey, newKey, clears)
    requires row.id == credentials[i].id && RowOk(c, row, newKey, clears)
    ensures Conserved(c, credentials[i := row], row.id, oldKey, newKey, clears)
    ensures Position(credentials[i := row], row.id) == i + 1
  {
    hide RowOk;
    var next := credentials[i := row];
    assert forall k :: 0 <= k < |credentials| ==> next[k].id == credentials[k].id;
    assert SortedIds(next);
    PositionIs(next, row.id, i + 1);
    forall k | 0 <= k < |next| ensures RowOk(c, next[k], KeyOf(next[k].id, row.id, oldKey, newKey), clears) {
      assert RowOk(c, credentials[k], KeyOf(credentials[k].id, cursor, oldKey, newKey), clears);
      assert k < i ==> credentials[k].id <= cursor && credentials[k].id < row.id;
      assert k > i ==> row.id < credentials[k].id;
    }
  }

  /** One transaction moves the cursor over one row, and every row still opens to its cleartext. */
  lemma {:induction false} RewrapConserves(c: CredentialClass, rows: ClassRows, i: nat, oldKey: Key, newKey: Key, keyId: KeyId, clears: Clears)
    requires rows.rotation.Some? && i < |rows.credentials| && ConservedAt(c, rows, i, oldKey, newKey, clears)
    ensures RewrapAt(c, rows, i, oldKey, newKey, keyId).Some? <==> !rows.credentials[i].revoked
    ensures !rows.credentials[i].revoked ==>
              var next := RewrapAt(c, rows, i, oldKey, newKey, keyId).value;
              ConservedAt(c, next, i + 1, oldKey, newKey, clears) && Advanced(rows, next, i, i + 1)
  {
    hide RowOk, RewrapRow;
    var row := rows.credentials[i];
    assert RowOk(c, row, KeyOf(row.id, Cursor(rows), oldKey, newKey), clears);
    RowRewraps(c, row, oldKey, newKey, keyId, rows.rotation.value.to, clears);
    if !row.revoked {
      var next := RewrapRow(c, row, oldKey, newKey, keyId, rows.rotation.value.to).value;
      CursorMoves(c, rows.credentials, Cursor(rows), i, next, oldKey, newKey, clears);
    }
  }

  lemma {:induction false} NothingAdvanced(rows: ClassRows, i: nat)
    requires rows.rotation.Some? && i <= |rows.credentials|
    ensures Advanced(rows, rows, i, i)
  {
  }

  lemma {:induction false} AdvancedRows(rows: ClassRows, next: ClassRows, from: nat, to: nat)
    requires Advanced(rows, next, from, to)
    ensures next.rotation.Some? && |next.credentials| == |rows.credentials|
    ensures forall k :: to <= k < |rows.credentials| ==> next.credentials[k] == rows.credentials[k]
  {
  }

  lemma {:induction false} AdvancedTwice(rows: ClassRows, middle: ClassRows, next: ClassRows, from: nat, at: nat, to: nat)
    requires Advanced(rows, middle, from, at) && Advanced(middle, next, at, to)
    ensures Advanced(rows, next, from, to)
  {
  }

  lemma {:induction false} BatchConserves(c: CredentialClass, rows: ClassRows, i: nat, n: nat, oldKey: Key, newKey: Key, keyId: KeyId, clears: Clears)
    returns (end: nat)
    requires rows.rotation.Some? && i <= |rows.credentials| && ConservedAt(c, rows, i, oldKey, newKey, clears)
    ensures var (next, ok) := RewrapRows(c, rows, i, n, oldKey, newKey, keyId);
            ConservedAt(c, next, end, oldKey, newKey, clears) && Advanced(rows, next, i, end) && (ok <==> end == i + n || end == |rows.credentials|)
    ensures i <= end <= i + n
    ensures forall k :: i <= k < end ==> !rows.credentials[k].revoked
    ensures end < i + n && end < |rows.credentials| ==> rows.credentials[end].revoked
    decreases n
  {
    hide RewrapAt, ConservedAt, Advanced;
    end := i;
    NothingAdvanced(rows, i);
    if n > 0 && i < |rows.credentials| {
      RewrapConserves(c, rows, i, oldKey, newKey, keyId, clears);
      if !rows.credentials[i].revoked {
        var next := RewrapAt(c, rows, i, oldKey, newKey, keyId).value;
        AdvancedRows(rows, next, i, i + 1);
        end := BatchConserves(c, next, i + 1, n - 1, oldKey, newKey, keyId, clears);
        AdvancedTwice(rows, next, RewrapRows(c, next, i + 1, n - 1, oldKey, newKey, keyId).0, i, i + 1, end);
      }
    }
  }

  /** The check before the last transaction passes exactly when no row is revoked. */
  lemma {:induction false} VerifiesIffNoneRevoked(c: CredentialClass, rows: ClassRows, oldKey: Key, newKey: Key, clears: Clears)
    requires ConservedAt(c, rows, |rows.credentials|, oldKey, newKey, clears)
    ensures AllOpen(c, rows.credentials, newKey) <==> NoneRevoked(rows.credentials)
  {
    forall i | 0 <= i < |rows.credentials|
      ensures OpenBox(rows.credentials[i].sealed, newKey, AadOf(c, rows.credentials[i])).Some? <==> !rows.credentials[i].revoked
    {
      assert RowOk(c, rows.credentials[i], KeyOf(rows.credentials[i].id, Cursor(rows), oldKey, newKey), clears);
    }
  }

  predicate NoneRevoked(credentials: seq<Credential>) {
    forall i :: 0 <= i < |credentials| ==> !credentials[i].revoked
  }

  lemma {:induction false} SwitchedKeysOk(m: Master, c: CredentialClass, keys: seq<KeyRow>, r: Rotation, a: nat, p: nat)
    requires KeysOk(m, c, keys, Some(r), a, p)
    ensures KeysOk(m, c, Switched(keys, r.from, r.to), None, p, p)
    ensures Switched(keys, r.from, r.to)[p].wrapped == keys[p].wrapped
  {
    var next := Switched(keys, r.from, r.to);
    assert forall i :: 0 <= i < |keys| ==> next[i] == SwitchedKey(keys[i], r.from, r.to);
    assert keys[a].version != keys[p].version;
    assert OneActive(next, p);
    assert DistinctVersions(next);
  }

  lemma {:induction false} SwitchIsOk(m: Master, c: CredentialClass, rows: ClassRows, clears: Clears, a: nat, p: nat)
    requires rows.rotation.Some? && KeysFit(m, c, rows, clears, a, p)
    requires Position(rows.credentials, Cursor(rows)) == |rows.credentials|
    ensures KeysFit(m, c, Switch(rows), clears, p, p)
  {
    hide KeysOk, RowOk;
    SwitchedKeysOk(m, c, rows.keys, rows.rotation.value, a, p);
  }

  // ---- lemmas: a call

  predicate NoneRevokedBetween(credentials: seq<Credential>, i: nat, j: nat) {
    forall k :: i <= k < j && k < |credentials| ==> !credentials[k].revoked
  }

  /** What a call returns when the process survives it, from what stands in the rows before it. */
  function Outcome(rows: ClassRows, batch: nat): Result<Progress>
    requires rows.rotation.Some?
  {
    var r, start, n := rows.rotation.value, Position(rows.credentials, Cursor(rows)), |rows.credentials|;
    if start + batch < n then
      if NoneRevokedBetween(rows.credentials, start, start + batch) then Ok(Progress(false, r.processed + batch, r.to)) else Err(FAILED)
    else
      if NoneRevoked(rows.credentials) then Ok(Progress(true, r.processed + (n - start), r.to)) else Err(FAILED)
  }

  /** Where a call leaves a class it found with keys a and p. */
  ghost predicate LeftOk(m: Master, c: CredentialClass, next: ClassRows, clears: Clears, a: nat, p: nat) {
    KeysFit(m, c, next, clears, if next.rotation.Some? then a else p, p)
  }

  lemma {:induction false} RevokedStay(rows: ClassRows, next: ClassRows, from: nat, to: nat)
    requires Advanced(rows, next, from, to)
    ensures NoneRevoked(next.credentials) <==> NoneRevoked(rows.credentials)
  {
    forall i | 0 <= i < |rows.credentials| ensures next.credentials[i].revoked == rows.credentials[i].revoked {
      assert from <= i < to ==> RowAdvanced(rows.credentials[i], next.credentials[i], rows.rotation.value.to);
    }
  }

  /** A batch: the class stays conserved, and passes the check exactly when nothing is revoked. */
  lemma {:induction false} BatchIsOk(m: Master, c: CredentialClass, rows: ClassRows, clears: Clears, a: nat, p: nat, n: nat) returns (end: nat)
    requires rows.rotation.Some? && KeysFit(m, c, rows, clears, a, p)
    ensures var start, oldKey, newKey := Position(rows.credentials, Cursor(rows)), rows.keys[a].wrapped.clear, rows.keys[p].wrapped.clear;
            var (next, ok) := RewrapRows(c, rows, start, n, oldKey, newKey, rows.keys[p].id);
            && RotationKeys(m, c, rows) == Some((oldKey, newKey, rows.keys[p].id))
            && KeysFit(m, c, next, clears, a, p) && Position(next.credentials, Cursor(next)) == end
            && Advanced(rows, next, start, end) && (ok <==> end == start + n || end == |rows.credentials|)
            && end <= start + n && NoneRevokedBetween(rows.credentials, start, end)
            && (!ok ==> rows.credentials[end].revoked)
            && (end == |rows.credentials| ==> (AllOpen(c, next.credentials, newKey) <==> NoneRevoked(rows.credentials)))
            && (end == |rows.credentials| ==> KeysFit(m, c, Switch(next), clears, p, p))
  {
    hide RowOk, RewrapRows, RotationKeys, Switch, AllOpen, NoneRevoked, KeysOk, Conserved;
    KeysInRange(m, c, rows.keys, rows.rotation, a, p);
    var start, oldKey, newKey := Position(rows.credentials, Cursor(rows)), rows.keys[a].wrapped.clear, rows.keys[p].wrapped.clear;
    assert KeysOk(m, c, rows.keys, rows.rotation, a, p);
    KeysOfRotation(m, c, rows, a, p);
    end := BatchConserves(c, rows, start, n, oldKey, newKey, rows.keys[p].id, clears);
    var next := RewrapRows(c, rows, start, n, oldKey, newKey, rows.keys[p].id).0;
    KeysOkAlong(m, c, rows, next, a, p, start, end);
    RevokedStay(rows, next, start, end);
    if end == |rows.credentials| {
      VerifiesIffNoneRevoked(c, next, oldKey, newKey, clears);
      SwitchIsOk(m, c, next, clears, a, p);
    }
  }

  lemma {:induction false} KeysOkAlong(m: Master, c: CredentialClass, rows: ClassRows, next: ClassRows, a: nat, p: nat, from: nat, to: nat)
    requires Advanced(rows, next, from, to) && KeysOk(m, c, rows.keys, rows.rotation, a, p)
    ensures KeysOk(m, c, next.keys, next.rotation, a, p)
  {
  }

  /** A call that survives returns exactly the outcome, and a death anywhere leaves the class conserved. */
  lemma {:induction false} ContinueConserves(m: Master, c: CredentialClass, rows: ClassRows, clears: Clears, a: nat, p: nat, batch: nat, death: Death)
    requires rows.rotation.Some? && KeysFit(m, c, rows, clears, a, p) && batch > 0
    ensures LeftOk(m, c, Continue(m, c, rows, batch, death).0, clears, a, p)
    ensures death == Survives ==> Continue(m, c, rows, batch, death).1 == Some(Outcome(rows, batch))
  {
    hide KeysFit, RewrapRows, RotationKeys, Switch, AllOpen, Position;
    var end := BatchIsOk(m, c, rows, clears, a, p, batch);
    if death.DiesAfter? && death.rows < batch {
      var _ := BatchIsOk(m, c, rows, clears, a, p, death.rows);
    }
  }

  // ---- a whole call

  /** The rows after Begin: those of a rotation in progress, or of a new one. */
  lemma {:induction false} BeganOrBegun(m: Master, c: CredentialClass, rows: ClassRows, clears: Clears, key: Key, keyId: KeyId)
    returns (begun: ClassRows, a: nat, p: nat)
    requires ClassOk(m, c, rows, clears) && rows.keys != []
    ensures Begin(m, c, rows, key, keyId) == Ok(begun) && begun.rotation.Some? && KeysFit(m, c, begun, clears, a, p)
    ensures begun.credentials == rows.credentials && Cursor(begun) == Cursor(rows) && begun.completed == rows.completed
    ensures rows.rotation == None ==> begun.rotation.value.processed == 0
  {
    hide KeysOk, Conserved;
    a, p :| KeysFit(m, c, rows, clears, a, p);
    begun := rows;
    if rows.rotation == None {
      KeysInRange(m, c, rows.keys, rows.rotation, a, p);
      Began(m, c, rows, clears, a, key, keyId);
      begun, p := Begin(m, c, rows, key, keyId).value, |rows.keys|;
    }
  }

  lemma {:induction false} EmptyBatch(m: Master, c: CredentialClass, rows: ClassRows, death: Death)
    requires rows.rotation.Some?
    ensures Continue(m, c, rows, 0, death).0 == rows
  {
  }

  /** Rotating keeps the class conserved, wherever the process dies. */
  lemma {:induction false} RotateConserves(m: Master, c: CredentialClass, rows: ClassRows, clears: Clears,
                                           batch: nat, key: Key, keyId: KeyId, death: Death)
    requires ClassOk(m, c, rows, clears)
    ensures ClassOk(m, c, Rotate(m, c, rows, batch, key, keyId, death).0, clears)
  {
    if rows.keys != [] && batch <= 1000 {
      hide KeysFit, Begin, Continue;
      var begun, a, p := BeganOrBegun(m, c, rows, clears, key, keyId);
      if batch > 0 {
        ContinueConserves(m, c, begun, clears, a, p, batch, death);
      } else {
        EmptyBatch(m, c, begun, death);
      }
    }
  }

  /** When a call answers that the rotation is completed: the batch covers what remains, and no row of the class is revoked. */
  lemma {:induction false} CompletesIff(m: Master, c: CredentialClass, rows: ClassRows, clears: Clears, batch: nat, key: Key, keyId: KeyId)
    requires ClassOk(m, c, rows, clears) && rows.keys != [] && 0 < batch <= 1000
    ensures var (next, answer) := Rotate(m, c, rows, batch, key, keyId, Survives);
            var position := Position(rows.credentials, Cursor(rows));
            && answer.Some?
            && (answer.value.Ok? && answer.value.value.completed <==>
                  position + batch >= |rows.credentials| && NoneRevoked(rows.credentials))
            && (answer.value.Ok? && !answer.value.value.completed <==>
                  position + batch < |rows.credentials| && NoneRevokedBetween(rows.credentials, position, position + batch))
  {
    hide KeysFit, Begin, Continue;
    var begun, a, p := BeganOrBegun(m, c, rows, clears, key, keyId);
    ContinueConserves(m, c, begun, clears, a, p, batch, Survives);
  }

  /** A call with an empty batch begins a rotation, or finds it, and no more; too large a batch is refused. */
  lemma {:induction false} EmptyBatchWaits(m: Master, c: CredentialClass, rows: ClassRows, clears: Clears, batch: nat, key: Key, keyId: KeyId, death: Death)
    requires ClassOk(m, c, rows, clears) && rows.keys != []
    ensures batch > 1000 ==> Rotate(m, c, rows, batch, key, keyId, death) == (rows, Some(Err("CREDENTIAL_ROTATION_INPUT_INVALID")))
    ensures batch == 0 ==>
              var (next, answer) := Rotate(m, c, rows, batch, key, keyId, death);
              && next.rotation.Some? && next.credentials == rows.credentials && next.completed == rows.completed
              && answer == Some(Ok(Progress(false, next.rotation.value.processed, next.rotation.value.to)))
              && (rows.rotation.Some? ==> next == rows)
              && (rows.rotation == None ==> next.rotation.value.processed == 0)
  {
    hide KeysFit;
    var begun, a, p := BeganOrBegun(m, c, rows, clears, key, keyId);
  }

  /** openCredential: the cleartext, unless the row is revoked or under the key of a rotation in progress. */
  lemma {:induction false} ReadsBackIff(m: Master, c: CredentialClass, rows: ClassRows, clears: Clears, a: nat, p: nat, i: nat)
    requires KeysFit(m, c, rows, clears, a, p) && i < |rows.credentials|
    ensures var row := rows.credentials[i];
            (c, row.id) in clears
            && OpenCredential(m, c, rows, i) ==
                 if !row.revoked && (row.id > Cursor(rows) || rows.keys[p].wrapped.clear == rows.keys[a].wrapped.clear)
                 then Some(clears[(c, row.id)]) else None
  {
    ActiveKeyIs(m, c, rows.keys, a);
    var row := rows.credentials[i];
    assert RowOk(c, row, KeyOf(row.id, Cursor(rows), rows.keys[a].wrapped.clear, rows.keys[p].wrapped.clear), clears);
  }
}
