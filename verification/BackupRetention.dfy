/** Which verified backups are kept: the newest minimum always, then whatever the other limits still allow. */
module BackupRetention {
  import opened Common

  datatype Row = Row(id: string, createdAt: nat, ciphertextBytes: nat)

  datatype Policy = Policy(maximumAgeSeconds: nat, maximumVerifiedBackups: nat, maximumBytes: nat, minimumUsableBackups: nat)

  predicate ValidPolicy(policy: Policy) {
    && policy.maximumAgeSeconds >= 1 && policy.maximumVerifiedBackups >= 1 && policy.maximumBytes >= 1
    && 1 <= policy.minimumUsableBackups <= policy.maximumVerifiedBackups
  }

  /** The table's key. */
  ghost predicate DistinctIds(rows: seq<Row>) {
    forall i, j :: 0 <= i < j < |rows| ==> rows[i].id != rows[j].id
  }

  function TotalBytes(rows: seq<Row>): nat {
    if rows == [] then 0 else TotalBytes(rows[..|rows| - 1]) + rows[|rows| - 1].ciphertextBytes
  }

  function Ids(rows: seq<Row>): set<string> {
    set row | row in rows :: row.id
  }

  function Young(policy: Policy, now: nat, row: Row): bool {
    now - row.createdAt <= policy.maximumAgeSeconds
  }

  function Keeps(policy: Policy, now: nat, count: nat, bytes: nat, row: Row): bool {
    || count < policy.minimumUsableBackups
    || (count < policy.maximumVerifiedBackups && Young(policy, now, row) && bytes + row.ciphertextBytes <= policy.maximumBytes)
  }

  /** The rows kept out of the usable ones, which come newest first. */
  function Retained(policy: Policy, now: nat, rows: seq<Row>): seq<Row> {
    if rows == [] then []
    else
      var before, row := Retained(policy, now, rows[..|rows| - 1]), rows[|rows| - 1];
      if Keeps(policy, now, |before|, TotalBytes(before), row) then before + [row] else before
  }

  function Without(rows: seq<Row>, ids: set<string>): seq<Row> {
    if rows == [] then []
    else Without(rows[..|rows| - 1], ids) + if rows[|rows| - 1].id in ids then [] else [rows[|rows| - 1]]
  }

  // ---- what is retained

  lemma {:induction false} RetainedComeFromRows(policy: Policy, now: nat, rows: seq<Row>)
    ensures forall row :: row in Retained(policy, now, rows) ==> row in rows
  {
    if rows != [] {
      RetainedComeFromRows(policy, now, rows[..|rows| - 1]);
    }
  }

  lemma {:induction false} RetainedGrow(policy: Policy, now: nat, rows: seq<Row>, n: nat)
    requires n <= |rows|
    ensures Retained(policy, now, rows[..n]) <= Retained(policy, now, rows)
    decreases |rows|
  {
    if n == |rows| {
      assert rows[..n] == rows;
    } else {
      RetainedGrow(policy, now, rows[..|rows| - 1], n);
      assert rows[..|rows| - 1][..n] == rows[..n];
    }
  }

  lemma {:induction false} PrefixTotals(rows: seq<Row>, n: nat)
    requires n <= |rows|
    ensures TotalBytes(rows[..n]) <= TotalBytes(rows)
    decreases |rows|
  {
    if n == |rows| {
      assert rows[..n] == rows;
    } else {
      PrefixTotals(rows[..|rows| - 1], n);
      assert rows[..|rows| - 1][..n] == rows[..n];
    }
  }

  lemma {:induction false} RetainedNext(policy: Policy, now: nat, rows: seq<Row>, i: nat)
    requires i < |rows|
    ensures var before := Retained(policy, now, rows[..i]);
            Retained(policy, now, rows[..i + 1])
            == if Keeps(policy, now, |before|, TotalBytes(before), rows[i]) then before + [rows[i]] else before
  {
    hide Keeps, TotalBytes;
    assert rows[..i + 1][..i] == rows[..i];
  }

  lemma {:induction false} Appended(rows: seq<Row>, row: Row)
    ensures TotalBytes(rows + [row]) == TotalBytes(rows) + row.ciphertextBytes
    ensures Ids(rows + [row]) == Ids(rows) + {row.id}
  {
    assert (rows + [row])[..|rows|] == rows;
  }

  lemma {:induction false} WithoutNext(rows: seq<Row>, ids: set<string>, i: nat)
    requires i < |rows|
    ensures Without(rows[..i + 1], ids) == Without(rows[..i], ids) + if rows[i].id in ids then [] else [rows[i]]
  {
    assert rows[..i + 1][..i] == rows[..i];
  }

  lemma {:induction false} NewestAreKept(policy: Policy, now: nat, rows: seq<Row>)
    ensures var kept, least := Retained(policy, now, rows), policy.minimumUsableBackups;
            if |rows| <= least then kept == rows else |kept| >= least && kept[..least] == rows[..least]
  {
    if rows != [] {
      hide Retained, TotalBytes, Young;
      var n, least := |rows| - 1, policy.minimumUsableBackups;
      assert rows[..n + 1] == rows;
      NewestAreKept(policy, now, rows[..n]);
      RetainedNext(policy, now, rows, n);
      assert n >= least ==> rows[..n][..least] == rows[..least];
    }
  }

  lemma {:induction false} OthersAreBounded(policy: Policy, now: nat, rows: seq<Row>)
    requires ValidPolicy(policy)
    ensures var kept, least := Retained(policy, now, rows), policy.minimumUsableBackups;
            && |kept| <= policy.maximumVerifiedBackups
            && (forall i :: least <= i < |kept| ==> Young(policy, now, kept[i]))
            && (|kept| > least ==> TotalBytes(kept) <= policy.maximumBytes)
  {
    if rows != [] {
      hide Retained, TotalBytes, Young;
      var n := |rows| - 1;
      assert rows[..n + 1] == rows;
      OthersAreBounded(policy, now, rows[..n]);
      RetainedNext(policy, now, rows, n);
      Appended(Retained(policy, now, rows[..n]), rows[n]);
    }
  }

  /** The kept rows: the newest minimum, then young ones only, within the count, and within the bytes unless they are exactly the minimum. */
  lemma {:induction false} RetentionIsBounded(policy: Policy, now: nat, rows: seq<Row>)
    requires ValidPolicy(policy) && |rows| >= policy.minimumUsableBackups
    ensures var kept, least := Retained(policy, now, rows), policy.minimumUsableBackups;
            && least <= |kept| <= policy.maximumVerifiedBackups && kept[..least] == rows[..least]
            && (forall i :: least <= i < |kept| ==> Young(policy, now, kept[i]))
            && (TotalBytes(kept) <= policy.maximumBytes || kept == rows[..least])
  {
    hide Retained, TotalBytes, Young;
    NewestAreKept(policy, now, rows);
    OthersAreBounded(policy, now, rows);
    var kept, least := Retained(policy, now, rows), policy.minimumUsableBackups;
    assert |kept| == least ==> kept[..least] == kept;
  }

  /** No deleted row could have been kept as well: it is too old, or the count is full, or the bytes would not fit. */
  lemma {:induction false} NothingMoreFits(policy: Policy, now: nat, rows: seq<Row>, i: nat)
    requires ValidPolicy(policy) && DistinctIds(rows) && i < |rows| && rows[i] !in Retained(policy, now, rows)
    ensures var kept := Retained(policy, now, rows);
            || !Young(policy, now, rows[i])
            || |kept| == policy.maximumVerifiedBackups
            || TotalBytes(kept) + rows[i].ciphertextBytes > policy.maximumBytes
  {
    hide Retained, TotalBytes, Young;
    var kept, before, after := Retained(policy, now, rows), Retained(policy, now, rows[..i]), Retained(policy, now, rows[..i + 1]);
    OthersAreBounded(policy, now, rows);
    RetainedGrow(policy, now, rows, i);
    PrefixTotals(kept, |before|);
    RetainedGrow(policy, now, rows, i + 1);
    RetainedNext(policy, now, rows, i);
    if Keeps(policy, now, |before|, TotalBytes(before), rows[i]) {
      PrefixMember(kept, before, rows[i]);
    }
    assert before == kept[..|before|];
  }

  lemma {:induction false} PrefixMember(kept: seq<Row>, before: seq<Row>, row: Row)
    requires before + [row] <= kept
    ensures row in kept
  {
    assert kept[|before|] == (before + [row])[|before|];
  }

  lemma {:induction false} RowsOfIds(policy: Policy, now: nat, rows: seq<Row>, row: Row)
    requires DistinctIds(rows) && row in rows
    ensures row.id in Ids(Retained(policy, now, rows)) <==> row in Retained(policy, now, rows)
  {
    var kept := Retained(policy, now, rows);
    RetainedComeFromRows(policy, now, rows);
    if row.id in Ids(kept) {
      var other :| other in kept && other.id == row.id;
      var i :| 0 <= i < |rows| && rows[i] == other;
      var j :| 0 <= j < |rows| && rows[j] == row;
    }
  }

  lemma {:induction false} WithoutIgnores(rows: seq<Row>, ids: set<string>, id: string)
    requires forall row :: row in rows ==> row.id != id
    ensures Without(rows, ids + {id}) == Without(rows, ids)
  {
    if rows != [] {
      WithoutIgnores(rows[..|rows| - 1], ids, id);
    }
  }

  lemma {:induction false} DistinctPrefix(rows: seq<Row>, n: nat)
    requires DistinctIds(rows) && n <= |rows|
    ensures DistinctIds(rows[..n])
  {
  }

  lemma {:induction false} NothingRetained(policy: Policy, now: nat)
    ensures Retained(policy, now, []) == [] && TotalBytes([]) == 0 && Ids([]) == {}
  {
  }

  lemma {:induction false} NothingWithout(ids: set<string>)
    ensures Without([], ids) == []
  {
  }

  lemma {:induction false} KeepsIs(policy: Policy, now: nat, count: nat, bytes: nat, row: Row)
    ensures Keeps(policy, now, count, bytes, row) <==>
              || count < policy.minimumUsableBackups
              || (&& count < policy.maximumVerifiedBackups && now - row.createdAt <= policy.maximumAgeSeconds
                  && bytes + row.ciphertextBytes <= policy.maximumBytes)
  {
  }

  lemma {:induction false} KeptCount(policy: Policy, now: nat, rows: seq<Row>)
    requires DistinctIds(rows)
    ensures |Ids(Retained(policy, now, rows))| == |Retained(policy, now, rows)|
  {
    if rows != [] {
      hide Retained, Ids, DistinctIds, Keeps;
      var n := |rows| - 1;
      assert rows[..n + 1] == rows;
      DistinctPrefix(rows, n);
      KeptCount(policy, now, rows[..n]);
      RetainedComeFromRows(policy, now, rows[..n]);
      RetainedNext(policy, now, rows, n);
      NotYetKept(rows, n, Retained(policy, now, rows[..n]));
      Appended(Retained(policy, now, rows[..n]), rows[n]);
    }
  }

  /** Every usable backup is kept or deleted, and none is both. */
  lemma {:induction false} KeptAndDeletedAreAll(policy: Policy, now: nat, rows: seq<Row>)
    requires DistinctIds(rows)
    ensures var kept := Retained(policy, now, rows);
            && multiset(kept) + multiset(Without(rows, Ids(kept))) == multiset(rows)
            && |kept| + |Without(rows, Ids(kept))| == |rows|
  {
    if rows != [] {
      hide Retained, Without, Ids, DistinctIds, Keeps;
      var n, row := |rows| - 1, rows[|rows| - 1];
      assert rows[..n + 1] == rows;
      DistinctPrefix(rows, n);
      var before, kept := Retained(policy, now, rows[..n]), Retained(policy, now, rows);
      KeptAndDeletedAreAll(policy, now, rows[..n]);
      RetainedComeFromRows(policy, now, rows[..n]);
      RetainedNext(policy, now, rows, n);
      NotYetKept(rows, n, before);
      WithoutNext(rows, Ids(kept), n);
      Appended(before, row);
      if kept == before + [row] {
        WithoutIgnores(rows[..n], Ids(before), row.id);
        OneMore(before, Without(rows[..n], Ids(before)), rows, n);
      } else {
        OneMore(before, Without(rows[..n], Ids(before)), rows, n);
      }
    }
  }

  lemma {:induction false} OneMore(kept: seq<Row>, deleted: seq<Row>, rows: seq<Row>, n: nat)
    requires n + 1 == |rows| && multiset(kept) + multiset(deleted) == multiset(rows[..n])
    ensures multiset(kept + [rows[n]]) + multiset(deleted) == multiset(rows)
    ensures multiset(kept) + multiset(deleted + [rows[n]]) == multiset(rows)
  {
    assert rows == rows[..n] + [rows[n]];
  }

  lemma {:induction false} NotYetKept(rows: seq<Row>, n: nat, before: seq<Row>)
    requires DistinctIds(rows) && n < |rows| && forall row :: row in before ==> row in rows[..n]
    ensures rows[n].id !in Ids(before) && forall row :: row in rows[..n] ==> row.id != rows[n].id
  {
    forall row | row in rows[..n] ensures row.id != rows[n].id {
      var i :| 0 <= i < n && rows[i] == row;
    }
  }

  /** What one turn of the loop has to do to the set and the sum. */
  lemma {:induction false} SelectStep(policy: Policy, now: nat, usable: seq<Row>, i: nat, retain: set<string>, retainedBytes: nat)
    requires DistinctIds(usable) && i < |usable|
    requires retain == Ids(Retained(policy, now, usable[..i])) && retainedBytes == TotalBytes(Retained(policy, now, usable[..i]))
    ensures var row := usable[i]; var next := Retained(policy, now, usable[..i + 1]);
            if Keeps(policy, now, |retain|, retainedBytes, row)
            then retain + {row.id} == Ids(next) && retainedBytes + row.ciphertextBytes == TotalBytes(next)
            else retain == Ids(next) && retainedBytes == TotalBytes(next)
  {
    hide Retained, TotalBytes, Ids, DistinctIds, Keeps;
    DistinctPrefix(usable, i);
    KeptCount(policy, now, usable[..i]);
    RetainedNext(policy, now, usable, i);
    Appended(Retained(policy, now, usable[..i]), usable[i]);
  }

  /** The retention loop over the usable backups. */
  method Select(policy: Policy, now: nat, usable: seq<Row>) returns (retain: set<string>, retainedBytes: nat)
    requires DistinctIds(usable)
    ensures retain == Ids(Retained(policy, now, usable)) && retainedBytes == TotalBytes(Retained(policy, now, usable))
  {
    hide Retained, TotalBytes, Ids, DistinctIds, Keeps, Young;
    retainedBytes, retain := 0, {};
    assert usable[..0] == [];
    NothingRetained(policy, now);
    for i := 0 to |usable|
      invariant retain == Ids(Retained(policy, now, usable[..i]))
      invariant retainedBytes == TotalBytes(Retained(policy, now, usable[..i]))
    {
      var row := usable[i];
      SelectStep(policy, now, usable, i, retain, retainedBytes);
      ghost var keeps := Keeps(policy, now, |retain|, retainedBytes, row);
      var requiredMinimum := |retain| < policy.minimumUsableBackups;
      var withinCount := |retain| < policy.maximumVerifiedBackups;
      var withinAge := now - row.createdAt <= policy.maximumAgeSeconds;
      var withinBytes := retainedBytes + row.ciphertextBytes <= policy.maximumBytes;
      KeepsIs(policy, now, |retain|, retainedBytes, row);
      if requiredMinimum || (withinCount && withinAge && withinBytes) {
        retain := retain + {row.id};
        retainedBytes := retainedBytes + row.ciphertextBytes;
      }
    }
    assert usable[..|usable|] == usable;
  }

  /** Everything the loop did not retain is deleted. */
  method Enforce(policy: Policy, now: nat, usable: seq<Row>) returns (r: Result<(set<string>, seq<Row>)>)
    requires DistinctIds(usable)
    ensures var least, most := policy.minimumUsableBackups, policy.maximumVerifiedBackups;
            r == Err("BACKUP_RETENTION_INVALID") <==>
              policy.maximumAgeSeconds < 1 || policy.maximumBytes < 1 || least < 1 || most < 1 || least > most
    ensures ValidPolicy(policy) && |usable| < policy.minimumUsableBackups ==> r == Err("BACKUP_RETENTION_MINIMUM_UNAVAILABLE")
    ensures ValidPolicy(policy) && |usable| >= policy.minimumUsableBackups ==>
              var kept := Ids(Retained(policy, now, usable)); r == Ok((kept, Without(usable, kept)))
  {
    hide Retained, Ids, DistinctIds, Without;
    if !ValidPolicy(policy) {
      return Err("BACKUP_RETENTION_INVALID");
    }
    if |usable| < policy.minimumUsableBackups {
      return Err("BACKUP_RETENTION_MINIMUM_UNAVAILABLE");
    }
    var retain, retainedBytes := Select(policy, now, usable);
    var deletions: seq<Row> := [];
    assert usable[..0] == [];
    NothingWithout(retain);
    for i := 0 to |usable|
      invariant deletions == Without(usable[..i], retain)
    {
      WithoutNext(usable, retain, i);
      if usable[i].id !in retain {
        deletions := deletions + [usable[i]];
      }
    }
    assert usable[..|usable|] == usable;
    return Ok((retain, deletions));
  }
}
