/** The credential key manager: the master key it holds and the tables it changes, call by call. */
module CredentialKeys {
  import opened Common
  import opened KeyRotation
  import opened CredentialWorlds

  /** What the loop over the classes has to establish. */
  lemma {:induction false} AllRewrapped(w: World, next: Master, keyIds: CredentialClass -> KeyId, after: map<CredentialClass, ClassRows>)
    requires next.id != w.master.id && forall c :: c in w.classes && c in after && w.classes[c].rotation == None
    requires forall c :: MasterRewrap(w.master, next, c, w.classes[c], keyIds(c)) == Some(after[c])
    ensures RotateMaster(w, next, keyIds) == (World(next, after, w.flights), Ok(()))
  {
    hide MasterRewrap;
    assert RotateMaster(w, next, keyIds).1 == Ok(());
    assert RotateMaster(w, next, keyIds).0.classes == after;
  }

  lemma {:induction false} MasterIsSame(w: World, next: Master, keyIds: CredentialClass -> KeyId)
    ensures next.id == w.master.id ==> RotateMaster(w, next, keyIds) == (w, Err("MASTER_ROTATION_INPUT_INVALID"))
  {
    hide MasterRewrap;
  }

  lemma {:induction false} MasterIsBusy(w: World, next: Master, keyIds: CredentialClass -> KeyId, c: CredentialClass)
    requires next.id != w.master.id && c in w.classes && w.classes[c].rotation.Some?
    ensures RotateMaster(w, next, keyIds) == (w, Err("MASTER_ROTATION_BUSY"))
  {
    hide MasterRewrap;
  }

  lemma {:induction false} MasterFails(w: World, next: Master, keyIds: CredentialClass -> KeyId, c: CredentialClass)
    requires next.id != w.master.id && forall other :: other in w.classes ==> w.classes[other].rotation == None
    requires c in w.classes && MasterRewrap(w.master, next, c, w.classes[c], keyIds(c)) == None
    ensures RotateMaster(w, next, keyIds) == (w, Err("MASTER_ROTATION_FAILED"))
  {
    hide MasterRewrap;
  }

  lemma {:induction false} ClassesListed(order: seq<CredentialClass>)
    requires order == [DeviceRefresh, MemberOauth, Provider]
    ensures forall c: CredentialClass :: c in order
  {
    forall c: CredentialClass ensures c in order {
      match c case Provider => assert order[2] == c; case MemberOauth => assert order[1] == c; case DeviceRefresh => assert order[0] == c;
    }
  }

  class CredentialKeyManager {
    var masterKey: Key
    var masterKeyId: KeyId
    var classes: map<CredentialClass, ClassRows>
    /** Calls of put that await their seal. */
    var flights: seq<Flight>

    ghost function S(): World
      reads this
    {
      World(Master(masterKey, masterKeyId), classes, flights)
    }

    ghost predicate Valid()
      reads this
    {
      forall c :: c in classes
    }

    constructor (master: Master)
      ensures Valid() && S().master == master && S().flights == [] && forall c :: RowsOf(S(), c) == ClassRows([], [], None, [])
    {
      masterKey, masterKeyId, flights := master.key, master.id, [];
      var none := ClassRows([], [], None, []);
      classes := map[Provider := none, MemberOauth := none, DeviceRefresh := none];
      new;
      forall c ensures c in classes {
        match c case Provider => case MemberOauth => case DeviceRefresh =>
      }
    }

    method InitializeClass(c: CredentialClass, key: Key, keyId: KeyId)
      requires Valid()
      modifies `classes
      ensures Valid() && S() == NextWorld(old(S()), CredentialWorlds.InitializeClass(c, key, keyId))
    {
      var rows := classes[c];
      if KeyInState(rows.keys, Active) == None && KeyAtVersion(rows.keys, 1) == None {
        var row := KeyRow(keyId, 1, masterKeyId, WrapKey(Master(masterKey, masterKeyId), c, 1, keyId, key), Active);
        rows := rows.(keys := rows.keys + [row]);
      }
      classes := classes[c := rows];
    }

    /** sealCredential up to the await: the snapshot, the seal, and the number of the call that now waits. */
    method SealCredential(c: CredentialClass, owner: string, expected: nat, clear: Cleartext, newId: CredentialId)
      returns (r: Result<nat>)
      requires Valid()
      modifies `flights
      ensures Valid() && S() == NextWorld(old(S()), CredentialWorlds.SealCredential(c, owner, expected, clear, newId))
      ensures match Seal(old(S()).master, c, RowsOf(old(S()), c), owner, expected, clear, newId)
              case Err(code) => r == Err(code)
              case Ok(f) => r == Ok(|old(flights)|) && flights == old(flights) + [f]
    {
      hide SealedRow, OwnerIndex, ActiveKey, KeyInState;
      var rows := classes[c];
      if KeyInState(rows.keys, Active) == None {
        return Err("CREDENTIAL_KEY_UNAVAILABLE");
      }
      var at := OwnerIndex(rows.credentials, owner);
      var revision, id := 0, newId;
      if at.Some? {
        var current := rows.credentials[at.value];
        if current.revoked {
          return Err("CREDENTIAL_REVOKED");
        }
        revision, id := current.revision, current.id;
      }
      if revision != expected {
        return Err("CREDENTIAL_REVISION_STALE");
      }
      var active := ActiveKey(Master(masterKey, masterKeyId), c, rows.keys);
      if active == None {
        return Err("CREDENTIAL_CRYPTO_FAILED");
      }
      var row := SealedRow(c, active.value.0, active.value.1, id, owner, expected + 1, clear);
      r := Ok(|flights|);
      flights := flights + [Flight(c, at == None, expected, row, InAir)];
    }

    /** The rest of the call, after the await: the transaction. */
    method StoreCredential(k: nat) returns (r: Result<(CredentialId, nat)>)
      requires Valid() && InFlight(S(), k)
      modifies `classes, `flights
      ensures Valid() && S() == NextWorld(old(S()), CredentialWorlds.StoreCredential(k))
      ensures r == Landing(old(S()), k).1
    {
      hide Stored, OwnerIndex;
      var f := flights[k];
      var c := f.credentialClass;
      assert classes == classes[c := classes[c]];
      flights := flights[k := f.(landed := Refused)];
      var rows := classes[c];
      var at := OwnerIndex(rows.credentials, f.row.owner);
      var id := f.row.id;
      if at == None {
        if !f.first {
          return Err("CREDENTIAL_REVISION_STALE");
        }
      } else {
        var current := rows.credentials[at.value];
        if f.first || current.revision != f.expected || current.revoked {
          return Err("CREDENTIAL_REVISION_STALE");
        }
        id := current.id;
      }
      var next := Stored(rows.credentials, at, f.row.(id := id));
      if next == None {
        return Err("CREDENTIAL_STORAGE_FAILED");
      }
      classes := classes[c := rows.(credentials := next.value)];
      flights := flights[k := f.(landed := Accepted)];
      return Ok((f.row.id, f.row.revision));
    }

    method OpenCredential(c: CredentialClass, i: nat) returns (r: Option<Cleartext>)
      requires Valid() && i < |classes[c].credentials|
      ensures r == KeyRotation.OpenCredential(S().master, c, classes[c], i)
    {
      var row := classes[c].credentials[i];
      if row.revoked {
        return None;
      }
      var active := KeyInState(classes[c].keys, Active);
      if active == None || classes[c].keys[active.value].wrappingKeyId != masterKeyId {
        return None;
      }
      var key := UnwrapAny(Master(masterKey, masterKeyId), c, classes[c].keys[active.value]);
      if key == None {
        return None;
      }
      r := OpenBox(row.sealed, key.value, AadOf(c, row));
    }

    /** The rotation in progress, or a new one. */
    method BeginRotation(c: CredentialClass, key: Key, keyId: KeyId) returns (r: Result<Rotation>)
      requires Valid()
      modifies `classes
      ensures Valid()
      ensures var begun := Begin(old(S()).master, c, old(classes[c]), key, keyId);
              match begun
              case Err(code) => r == Err(code) && classes == old(classes)
              case Ok(rows) => classes == old(classes)[c := rows] && rows.rotation.Some? && r == Ok(rows.rotation.value)
    {
      var rows := classes[c];
      if rows.rotation.Some? {
        assert classes == classes[c := rows];
        return Ok(rows.rotation.value);
      }
      var active := KeyInState(rows.keys, Active);
      if active == None {
        return Err("CREDENTIAL_KEY_UNAVAILABLE");
      }
      var from := rows.keys[active.value].version;
      if KeyAtVersion(rows.keys, from + 1).Some? {
        return Err(FAILED);
      }
      var wrapped := WrapKey(Master(masterKey, masterKeyId), c, from + 1, keyId, key);
      var rotation := Rotation(from, from + 1, 0, 0, 1);
      classes := classes[c := rows.(keys := rows.keys + [KeyRow(keyId, from + 1, masterKeyId, wrapped, Pending)],
                                    rotation := Some(rotation))];
      return Ok(rotation);
    }

    /** The batch, row by row; each row and the cursor change together. */
    method RewrapBatch(c: CredentialClass, start: nat, batch: nat, oldKey: Key, newKey: Key, newId: KeyId) returns (ok: bool)
      requires Valid() && classes[c].rotation.Some? && start <= |classes[c].credentials|
      modifies `classes
      ensures var (rows, done) := RewrapRows(c, old(classes[c]), start, batch, oldKey, newKey, newId);
              Valid() && classes == old(classes)[c := rows] && ok == done
    {
      ghost var before := classes;
      var i, n := 0, |classes[c].credentials|;
      assert before == before[c := classes[c]];
      while i < batch && start + i < n
        invariant 0 <= i <= batch && start + i <= n && Valid() && |classes[c].credentials| == n
        invariant classes == before[c := classes[c]] && classes[c].rotation.Some?
        invariant RewrapRows(c, classes[c], start + i, batch - i, oldKey, newKey, newId)
                  == RewrapRows(c, before[c], start, batch, oldKey, newKey, newId)
      {
        var rows := classes[c];
        var rotation, row := rows.rotation.value, rows.credentials[start + i];
        var clear := OpenBox(row.sealed, oldKey, AadOf(c, row));
        if clear == None {
          return false;
        }
        var next := row.(keyId := newId, keyVersion := rotation.to, revision := row.revision + 1);
        next := next.(sealed := Box(newKey, AadOf(c, next), clear.value));
        classes := classes[c := rows.(credentials := rows.credentials[start + i := next],
                                      rotation := Some(rotation.(cursor := row.id, processed := rotation.processed + 1,
                                                                 revision := rotation.revision + 1)))];
        i := i + 1;
      }
      return true;
    }

    /** Every credential of the class opens under the key. */
    method Verify(c: CredentialClass, newKey: Key) returns (ok: bool)
      requires Valid()
      ensures ok == AllOpen(c, classes[c].credentials, newKey)
    {
      var credentials := classes[c].credentials;
      for i := 0 to |credentials|
        invariant AllOpen(c, credentials[..i], newKey)
      {
        if OpenBox(credentials[i].sealed, newKey, AadOf(c, credentials[i])) == None {
          return false;
        }
      }
      assert credentials[..|credentials|] == credentials;
      return true;
    }

    method RotateClassKey(c: CredentialClass, batch: nat, key: Key, keyId: KeyId) returns (r: Result<Progress>)
      requires Valid()
      modifies `classes
      ensures Valid() && S() == NextWorld(old(S()), RotateClass(c, batch, key, keyId, Survives))
      ensures Rotate(old(S()).master, c, RowsOf(old(S()), c), batch, key, keyId, Survives).1 == Some(r)
    {
      hide RewrapRows, Begin, RotationKeys, Position, Switch, AllOpen;
      assert classes == classes[c := classes[c]];
      if batch > 1000 {
        return Err("CREDENTIAL_ROTATION_INPUT_INVALID");
      }
      var begun := BeginRotation(c, key, keyId);
      if begun.Err? {
        return Err(begun.code);
      }
      var rotation := begun.value;
      if batch == 0 {
        return Ok(Progress(false, rotation.processed, rotation.to));
      }
      var keys := RotationKeys(Master(masterKey, masterKeyId), c, classes[c]);
      if keys == None {
        return Err(FAILED);
      }
      var start := Position(classes[c].credentials, rotation.cursor);
      var ok := RewrapBatch(c, start, batch, keys.value.0, keys.value.1, keys.value.2);
      if !ok {
        return Err(FAILED);
      }
      rotation := classes[c].rotation.value;
      if start + batch < |classes[c].credentials| {
        return Ok(Progress(false, rotation.processed, rotation.to));
      }
      var verified := Verify(c, keys.value.1);
      if !verified {
        return Err(FAILED);
      }
      classes := classes[c := Switch(classes[c])];
      return Ok(Progress(true, rotation.processed, rotation.to));
    }

    /** Every class's active key is wrapped again before anything is written; then all rows, and the manager's key. */
    method RotateMasterKey(next: Master, keyIds: CredentialClass -> KeyId) returns (r: Result<()>)
      requires Valid()
      modifies this
      ensures Valid() && S() == NextWorld(old(S()), CredentialWorlds.RotateMasterKey(next, keyIds))
      ensures r == RotateMaster(old(S()), next, keyIds).1
    {
      hide MasterRewrap, RotateMaster;
      MasterIsSame(S(), next, keyIds);
      if next.id == masterKeyId {
        return Err("MASTER_ROTATION_INPUT_INVALID");
      }
      var order := [DeviceRefresh, MemberOauth, Provider];
      ClassesListed(order);
      for i := 0 to 3
        invariant forall k :: 0 <= k < i ==> classes[order[k]].rotation == None
      {
        if classes[order[i]].rotation.Some? {
          MasterIsBusy(S(), next, keyIds, order[i]);
          return Err("MASTER_ROTATION_BUSY");
        }
      }
      var after := classes;
      var m := Master(masterKey, masterKeyId);
      for i := 0 to 3
        invariant forall c :: c in after
        invariant forall k :: 0 <= k < i ==> MasterRewrap(m, next, order[k], classes[order[k]], keyIds(order[k])) == Some(after[order[k]])
        invariant forall k :: i <= k < 3 ==> after[order[k]] == classes[order[k]]
      {
        var rewrapped := MasterRewrap(m, next, order[i], classes[order[i]], keyIds(order[i]));
        if rewrapped == None {
          forall c ensures classes[c].rotation == None {
            assert c in order;
            var k :| 0 <= k < 3 && order[k] == c;
          }
          MasterFails(S(), next, keyIds, order[i]);
          return Err("MASTER_ROTATION_FAILED");
        }
        after := after[order[i] := rewrapped.value];
      }
      forall c ensures MasterRewrap(m, next, c, classes[c], keyIds(c)) == Some(after[c]) && classes[c].rotation == None {
        assert c in order;
        var k :| 0 <= k < 3 && order[k] == c;
      }
      AllRewrapped(S(), next, keyIds, after);
      classes, masterKey, masterKeyId := after, next.key, next.id;
      return Ok(());
    }
  }
}
