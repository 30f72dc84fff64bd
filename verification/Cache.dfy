/** The runner's continuity cache: three quotas, freshness, and the purge of what is stale. */
module Cache {
  import opened Common
  import opened Utf8

  datatype Fact = Fact(cacheKey: string, runId: string, factKind: string, sourceId: string, sourceRevision: string,
                       valueCode: string, provenanceId: string, observedAt: nat, expiresAt: nat)

  datatype Row = Row(fact: Fact, byteCount: nat, createdAt: int)

  /** schemaOk is the fact schema. */
  datatype Config = Config(maximumItems: nat, maximumBytes: nat, maximumRunBytes: nat, maximumAgeSeconds: nat,
                           schemaOk: Fact -> bool)

  function ByteCount(fact: Fact): nat {
    ByteLength(fact.cacheKey + "\0" + fact.runId + "\0" + fact.factKind + "\0" + fact.sourceId + "\0"
               + fact.sourceRevision + "\0" + fact.valueCode + "\0" + fact.provenanceId)
  }

  // ---- sums over the table

  function Total(rows: seq<Row>): nat {
    if rows == [] then 0 else Total(rows[..|rows| - 1]) + rows[|rows| - 1].byteCount
  }

  function OfRun(row: Row, run: string): nat {
    if row.fact.runId == run then row.byteCount else 0
  }

  function RunTotal(rows: seq<Row>, run: string): nat {
    if rows == [] then 0 else RunTotal(rows[..|rows| - 1], run) + OfRun(rows[|rows| - 1], run)
  }

  function IndexOf(rows: seq<Row>, key: string): (r: Option<nat>)
    ensures r.Some? ==> r.value < |rows| && rows[r.value].fact.cacheKey == key
    ensures r == None ==> forall i :: 0 <= i < |rows| ==> rows[i].fact.cacheKey != key
  {
    if rows == [] then None
    else if rows[|rows| - 1].fact.cacheKey == key then Some(|rows| - 1)
    else IndexOf(rows[..|rows| - 1], key)
  }

  // ---- the operations

  predicate Valid(config: Config, fact: Fact) {
    && config.schemaOk(fact) && fact.expiresAt > fact.observedAt && fact.expiresAt - fact.observedAt <= config.maximumAgeSeconds
    && 1 <= ByteCount(fact) <= 16384
  }

  /** The row of the key replaced, or a new row. */
  function Stored(rows: seq<Row>, at: Option<nat>, fact: Fact, now: int): seq<Row>
    requires at.Some? ==> at.value < |rows|
  {
    match at
    case Some(i) => rows[i := Row(fact, ByteCount(fact), rows[i].createdAt)]
    case None => rows + [Row(fact, ByteCount(fact), now)]
  }

  /**
   * The quota test. Its part on items asks whether the key's row is undefined, and the database's get answers
   * null where there is no row, so that part refuses nothing.
   */
  predicate Full(config: Config, rows: seq<Row>, at: Option<nat>, fact: Fact)
    requires at.Some? ==> at.value < |rows|
  {
    var oldBytes := if at.Some? then rows[at.value].byteCount else 0;
    var oldOfRun := if at.Some? && rows[at.value].fact.runId == fact.runId then oldBytes else 0;
    || Total(rows) - oldBytes + ByteCount(fact) > config.maximumBytes
    || RunTotal(rows, fact.runId) - oldOfRun + ByteCount(fact) > config.maximumRunBytes
  }

  function Put(config: Config, rows: seq<Row>, fact: Fact, now: int): (seq<Row>, Result<Fact>) {
    var at := IndexOf(rows, fact.cacheKey);
    if !Valid(config, fact) then (rows, Err("CONTINUITY_CACHE_FACT_INVALID"))
    else if Full(config, rows, at, fact) then (rows, Err("CONTINUITY_CACHE_FULL"))
    else if now < 0 || (at.Some? && now < rows[at.value].createdAt) then (rows, Err("CONTINUITY_CACHE_STATE_FAILED"))
    else (Stored(rows, at, fact, now), Ok(fact))
  }

  /** The quota test as it would be if the database answered undefined. */
  predicate IntendedFull(config: Config, rows: seq<Row>, at: Option<nat>, fact: Fact)
    requires at.Some? ==> at.value < |rows|
  {
    (at == None && |rows| >= config.maximumItems) || Full(config, rows, at, fact)
  }

  /** put with that test. */
  function IntendedPut(config: Config, rows: seq<Row>, fact: Fact, now: int): (seq<Row>, Result<Fact>) {
    if Valid(config, fact) && IntendedFull(config, rows, IndexOf(rows, fact.cacheKey), fact) then (rows, Err("CONTINUITY_CACHE_FULL"))
    else Put(config, rows, fact, now)
  }

  /** read compares the clock as it is, purgeExpired its whole seconds. */
  predicate Stale(row: Row, clock: real) {
    !(clock < row.fact.expiresAt as real)
  }

  predicate Purged(config: Config, row: Row, clock: real) {
    row.fact.expiresAt <= clock.Floor || row.fact.observedAt <= clock.Floor - config.maximumAgeSeconds
  }

  function Purge(config: Config, rows: seq<Row>, clock: real): seq<Row> {
    if rows == [] then []
    else Purge(config, rows[..|rows| - 1], clock) + if Purged(config, rows[|rows| - 1], clock) then [] else [rows[|rows| - 1]]
  }

  function Fresh(rows: seq<Row>, clock: real): seq<Row> {
    if rows == [] then []
    else Fresh(rows[..|rows| - 1], clock) + if Stale(rows[|rows| - 1], clock) then [] else [rows[|rows| - 1]]
  }

  // ---- what the table satisfies

  ghost predicate DistinctKeys(rows: seq<Row>) {
    forall i, j :: 0 <= i < j < |rows| ==> rows[i].fact.cacheKey != rows[j].fact.cacheKey
  }

  ghost predicate YoungEnough(config: Config, rows: seq<Row>) {
    forall i :: 0 <= i < |rows| ==> rows[i].fact.expiresAt - rows[i].fact.observedAt <= config.maximumAgeSeconds
  }

  ghost predicate BytesWithin(config: Config, rows: seq<Row>) {
    Total(rows) <= config.maximumBytes && forall run :: RunTotal(rows, run) <= config.maximumRunBytes
  }

  ghost predicate BytesCounted(rows: seq<Row>) {
    forall i :: 0 <= i < |rows| ==> rows[i].byteCount == ByteCount(rows[i].fact)
  }

  ghost predicate TableOk(config: Config, rows: seq<Row>) {
    DistinctKeys(rows) && YoungEnough(config, rows) && BytesWithin(config, rows) && BytesCounted(rows)
  }

  lemma {:induction false} SumsReplace(rows: seq<Row>, i: nat, row: Row, run: string)
    requires i < |rows|
    ensures Total(rows[i := row]) == Total(rows) - rows[i].byteCount + row.byteCount
    ensures RunTotal(rows[i := row], run) == RunTotal(rows, run) - OfRun(rows[i], run) + OfRun(row, run)
  {
    var n := |rows| - 1;
    if i == n {
      assert rows[i := row][..n] == rows[..n];
    } else {
      SumsReplace(rows[..n], i, row, run);
      assert rows[i := row][..n] == rows[..n][i := row];
    }
  }

  lemma {:induction false} SumsAppend(rows: seq<Row>, row: Row, run: string)
    ensures Total(rows + [row]) == Total(rows) + row.byteCount
    ensures RunTotal(rows + [row], run) == RunTotal(rows, run) + OfRun(row, run)
  {
    assert (rows + [row])[..|rows|] == rows;
  }

  lemma {:induction false} SumsStored(rows: seq<Row>, at: Option<nat>, fact: Fact, now: int, run: string)
    requires at.Some? ==> at.value < |rows|
    ensures var oldBytes := if at.Some? then rows[at.value].byteCount else 0;
            var oldOfRun := if at.Some? && rows[at.value].fact.runId == run then oldBytes else 0;
            && Total(Stored(rows, at, fact, now)) == Total(rows) - oldBytes + ByteCount(fact)
            && RunTotal(Stored(rows, at, fact, now), run)
               == RunTotal(rows, run) - oldOfRun + if fact.runId == run then ByteCount(fact) else 0
  {
    hide ByteCount;
    match at
    case Some(i) => SumsReplace(rows, i, Row(fact, ByteCount(fact), rows[i].createdAt), run);
    case None => SumsAppend(rows, Row(fact, ByteCount(fact), now), run);
  }

  /** Against a table within the byte quotas, a fact is refused as full exactly when storing it would break one of them. */
  lemma {:induction false} FullIff(config: Config, rows: seq<Row>, at: Option<nat>, fact: Fact, now: int)
    requires BytesWithin(config, rows) && (at.Some? ==> at.value < |rows|)
    ensures !Full(config, rows, at, fact) <==> BytesWithin(config, Stored(rows, at, fact, now))
  {
    hide ByteCount, Total, RunTotal;
    var next := Stored(rows, at, fact, now);
    forall run ensures run != fact.runId ==> RunTotal(next, run) <= RunTotal(rows, run) {
      SumsStored(rows, at, fact, now, run);
    }
    SumsStored(rows, at, fact, now, fact.runId);
    assert BytesWithin(config, next) <==> Total(next) <= config.maximumBytes && RunTotal(next, fact.runId) <= config.maximumRunBytes;
  }

  lemma {:induction false} PutKeepsOk(config: Config, rows: seq<Row>, fact: Fact, now: int)
    requires TableOk(config, rows)
    ensures TableOk(config, Put(config, rows, fact, now).0)
  {
    hide ByteCount, BytesWithin;
    FullIff(config, rows, IndexOf(rows, fact.cacheKey), fact, now);
    var at, next := IndexOf(rows, fact.cacheKey), Put(config, rows, fact, now).0;
    assert at.Some? ==> forall i :: 0 <= i < |next| ==> next[i].fact.cacheKey == rows[i].fact.cacheKey;
  }

  lemma {:induction false} PurgeShrinks(config: Config, rows: seq<Row>, clock: real, run: string)
    ensures var next := Purge(config, rows, clock); |next| <= |rows| && Total(next) <= Total(rows) && RunTotal(next, run) <= RunTotal(rows, run)
  {
    if rows != [] {
      var n := |rows| - 1;
      PurgeShrinks(config, rows[..n], clock, run);
      var before := Purge(config, rows[..n], clock);
      SumsAppend(before, rows[n], run);
      assert before + [] == before;
    }
  }

  lemma {:induction false} PurgeComesFrom(config: Config, rows: seq<Row>, clock: real)
    ensures forall row :: row in Purge(config, rows, clock) ==> row in rows
  {
    if rows != [] {
      PurgeComesFrom(config, rows[..|rows| - 1], clock);
    }
  }

  lemma {:induction false} PurgeKeepsDistinct(config: Config, rows: seq<Row>, clock: real)
    requires DistinctKeys(rows) && YoungEnough(config, rows)
    ensures DistinctKeys(Purge(config, rows, clock)) && YoungEnough(config, Purge(config, rows, clock))
    ensures BytesCounted(rows) ==> BytesCounted(Purge(config, rows, clock))
  {
    hide ByteCount;
    if rows != [] {
      var n := |rows| - 1;
      var before := Purge(config, rows[..n], clock);
      PurgeKeepsDistinct(config, rows[..n], clock);
      PurgeComesFrom(config, rows[..n], clock);
      forall i | 0 <= i < |before| ensures before[i].fact.cacheKey != rows[n].fact.cacheKey {
        assert before[i] in rows[..n];
      }
    }
  }

  lemma {:induction false} PurgeKeepsOk(config: Config, rows: seq<Row>, clock: real)
    requires TableOk(config, rows)
    ensures TableOk(config, Purge(config, rows, clock))
  {
    hide Purge, Total, RunTotal, DistinctKeys, YoungEnough, BytesCounted;
    PurgeKeepsDistinct(config, rows, clock);
    forall run ensures RunTotal(Purge(config, rows, clock), run) <= RunTotal(rows, run) {
      PurgeShrinks(config, rows, clock, run);
    }
    PurgeShrinks(config, rows, clock, "");
  }

  /** A purge keeps exactly the rows that a read at that instant calls fresh. */
  lemma {:induction false} PurgeKeepsExactlyTheFresh(config: Config, rows: seq<Row>, clock: real)
    requires YoungEnough(config, rows)
    ensures Purge(config, rows, clock) == Fresh(rows, clock)
  {
    if rows != [] {
      var n := |rows| - 1;
      PurgeKeepsExactlyTheFresh(config, rows[..n], clock);
      var floor, expires := clock.Floor, rows[n].fact.expiresAt;
      assert floor as real <= clock < (floor + 1) as real;
      assert expires <= floor <==> !(clock < expires as real);
      assert rows[n].fact.expiresAt - rows[n].fact.observedAt <= config.maximumAgeSeconds;
    }
  }

  // ---- every history

  datatype Step = PutFact(fact: Fact, now: int) | PurgeExpired(clock: real)

  function Next(config: Config, rows: seq<Row>, step: Step): seq<Row> {
    match step
    case PutFact(fact, now) => Put(config, rows, fact, now).0
    case PurgeExpired(clock) => Purge(config, rows, clock)
  }

  function Reached(config: Config, steps: seq<Step>): seq<Row> {
    if steps == [] then [] else Next(config, Reached(config, steps[..|steps| - 1]), steps[|steps| - 1])
  }

  /** From an empty table, every run of puts and purges stays within the two byte quotas, and every purge is exact. */
  lemma {:induction false} EveryTableIsOk(config: Config, steps: seq<Step>)
    ensures TableOk(config, Reached(config, steps))
    ensures forall clock :: Purge(config, Reached(config, steps), clock) == Fresh(Reached(config, steps), clock)
  {
    if steps != [] {
      hide TableOk, Put, Purge, Fresh;
      var rows := Reached(config, steps[..|steps| - 1]);
      EveryTableIsOk(config, steps[..|steps| - 1]);
      match steps[|steps| - 1]
      case PutFact(fact, now) => PutKeepsOk(config, rows, fact, now);
      case PurgeExpired(clock) => PurgeKeepsOk(config, rows, clock);
    }
    hide Purge, Fresh, Put, DistinctKeys, BytesWithin, BytesCounted;
    forall clock ensures Purge(config, Reached(config, steps), clock) == Fresh(Reached(config, steps), clock) {
      PurgeKeepsExactlyTheFresh(config, Reached(config, steps), clock);
    }
  }

  /** A valid fact is accepted exactly when the table with it is within the two byte quotas, and then reads back. */
  lemma {:induction false} PutAcceptsIffItFits(config: Config, steps: seq<Step>, fact: Fact, now: int)
    requires Valid(config, fact) && now >= 0
    requires forall i :: 0 <= i < |Reached(config, steps)| ==> Reached(config, steps)[i].createdAt <= now
    ensures var rows := Reached(config, steps); var at := IndexOf(rows, fact.cacheKey);
            var next := Stored(rows, at, fact, now);
            && (Put(config, rows, fact, now).1.Ok? <==> BytesWithin(config, next))
            && IndexOf(next, fact.cacheKey).Some? && next[IndexOf(next, fact.cacheKey).value].fact == fact
  {
    hide ByteCount, BytesWithin, Full, Next;
    EveryTableIsOk(config, steps);
    var rows := Reached(config, steps);
    var at := IndexOf(rows, fact.cacheKey);
    var next := Stored(rows, at, fact, now);
    FullIff(config, rows, at, fact, now);
    assert at.Some? ==> forall i :: 0 <= i < |next| ==> next[i].fact.cacheKey == rows[i].fact.cacheKey;
  }

  ghost predicate Holds(rows: seq<Row>, row: Row) {
    exists i :: 0 <= i < |rows| && rows[i] == row
  }

  /**
   * What put leaves: after an accepted put the table holds the new fact under its key, with its own bytes and the age of
   * the row it replaced, if any; every other row is as it was, and no other is there. After an error nothing changed.
   */
  lemma {:induction false} PutReplacesOnlyItsRow(config: Config, rows: seq<Row>, fact: Fact, now: int)
    requires DistinctKeys(rows)
    ensures var (next, r) := Put(config, rows, fact, now); var at := IndexOf(rows, fact.cacheKey);
            && (r.Err? ==> next == rows)
            && (r.Ok? ==>
                  && r == Ok(fact) && |next| == |rows| + (if at == None then 1 else 0)
                  && IndexOf(next, fact.cacheKey).Some? && next[IndexOf(next, fact.cacheKey).value].fact == fact
                  && Holds(next, Row(fact, ByteCount(fact), if at.Some? then rows[at.value].createdAt else now))
                  && forall row: Row :: row.fact.cacheKey != fact.cacheKey ==> (Holds(next, row) <==> Holds(rows, row)))
  {
    hide ByteCount, Full, Valid;
    var (next, r) := Put(config, rows, fact, now);
    var at := IndexOf(rows, fact.cacheKey);
    if r.Ok? {
      var k := if at.Some? then at.value else |rows|;
      assert next[k] == Row(fact, ByteCount(fact), if at.Some? then rows[at.value].createdAt else now);
      StoredIsDistinct(rows, at, next[k]);
      forall row: Row | row.fact.cacheKey != fact.cacheKey ensures Holds(next, row) <==> Holds(rows, row) {
        if Holds(rows, row) {
          var i :| 0 <= i < |rows| && rows[i] == row;
          assert next[i] == row;
        }
        if Holds(next, row) {
          var i :| 0 <= i < |next| && next[i] == row;
          assert i != k && rows[i] == row;
        }
      }
    }
  }

  /** The key of the stored row finds it. */
  lemma {:induction false} StoredIsDistinct(rows: seq<Row>, at: Option<nat>, row: Row)
    requires DistinctKeys(rows) && at == IndexOf(rows, row.fact.cacheKey)
    ensures var next := match at case Some(i) => rows[i := row] case None => rows + [row];
            var k := if at.Some? then at.value else |rows|;
            IndexOf(next, row.fact.cacheKey) == Some(k)
  {
    var next := match at case Some(i) => rows[i := row] case None => rows + [row];
    var k := if at.Some? then at.value else |rows|;
    assert next[k] == row;
    assert forall i :: 0 <= i < |next| && i != k ==> next[i].fact.cacheKey != row.fact.cacheKey;
    assert IndexOf(next, row.fact.cacheKey).Some?;
  }

  /** When put refuses, and with which error; a table full of bytes comes before a clock gone back. */
  lemma {:induction false} PutRefusesIff(config: Config, rows: seq<Row>, fact: Fact, now: int)
    ensures var r := Put(config, rows, fact, now).1; var at := IndexOf(rows, fact.cacheKey);
            var age := fact.expiresAt - fact.observedAt;
            var valid := config.schemaOk(fact) && 0 < age <= config.maximumAgeSeconds && 1 <= ByteCount(fact) <= 16_384;
            var back := now < 0 || (at.Some? && now < rows[at.value].createdAt);
            && (r == Err("CONTINUITY_CACHE_FACT_INVALID") <==> !valid)
            && (r == Err("CONTINUITY_CACHE_FULL") <==> valid && Full(config, rows, at, fact))
            && (r == Err("CONTINUITY_CACHE_STATE_FAILED") <==> valid && !Full(config, rows, at, fact) && back)
            && (r.Ok? <==> valid && !Full(config, rows, at, fact) && !back)
  {
    hide ByteCount, Full;
  }

  // ---- the number of items

  /** A put takes the table over the item limit exactly when the table is full, the key is new, and the bytes fit. */
  lemma {:induction false} ItemsPassTheLimitIff(config: Config, rows: seq<Row>, fact: Fact, now: nat)
    requires TableOk(config, rows) && |rows| <= config.maximumItems && Valid(config, fact)
    ensures |Put(config, rows, fact, now).0| > config.maximumItems <==>
              && |rows| == config.maximumItems && IndexOf(rows, fact.cacheKey) == None
              && BytesWithin(config, rows + [Row(fact, ByteCount(fact), now)])
  {
    hide ByteCount, BytesWithin, Valid, Total, RunTotal;
    FullIff(config, rows, IndexOf(rows, fact.cacheKey), fact, now);
  }

  lemma {:induction false} SixBytesEach(rows: seq<Row>)
    requires BytesCounted(rows)
    ensures 6 * |rows| <= Total(rows)
  {
    if rows != [] {
      var n := |rows| - 1;
      SixBytesEach(rows[..n]);
      var f := rows[n].fact;
      LongEnough(f.cacheKey + "\0" + f.runId + "\0" + f.factKind + "\0" + f.sourceId + "\0" + f.sourceRevision + "\0" + f.valueCode + "\0" + f.provenanceId);
    }
  }

  /** What bounds the number of items is the total of bytes: a fact takes at least the six separators. */
  lemma {:induction false} OnlyBytesBoundItems(config: Config, steps: seq<Step>)
    ensures 6 * |Reached(config, steps)| <= config.maximumBytes
  {
    hide ByteCount, Total, Next;
    EveryTableIsOk(config, steps);
    SixBytesEach(Reached(config, steps));
  }

  /** put answers as intended exactly where it is not about to take a new key into a full table. */
  lemma {:induction false} AsIntendedIff(config: Config, rows: seq<Row>, fact: Fact, now: int)
    ensures var at := IndexOf(rows, fact.cacheKey);
            IntendedPut(config, rows, fact, now) == Put(config, rows, fact, now) <==>
              !(Valid(config, fact) && at == None && |rows| >= config.maximumItems && !Full(config, rows, at, fact))
  {
    hide ByteCount, Total, RunTotal, IndexOf, Full, Valid;
  }

  function IntendedNext(config: Config, rows: seq<Row>, step: Step): seq<Row> {
    match step
    case PutFact(fact, now) => IntendedPut(config, rows, fact, now).0
    case PurgeExpired(clock) => Purge(config, rows, clock)
  }

  function IntendedReached(config: Config, steps: seq<Step>): seq<Row> {
    if steps == [] then [] else IntendedNext(config, IntendedReached(config, steps[..|steps| - 1]), steps[|steps| - 1])
  }

  /** With the intended test all three quotas would hold in every run. */
  lemma {:induction false} IntendedQuotasHold(config: Config, steps: seq<Step>)
    ensures TableOk(config, IntendedReached(config, steps)) && |IntendedReached(config, steps)| <= config.maximumItems
  {
    if steps != [] {
      hide TableOk, Purge, ByteCount, Total, RunTotal;
      var rows := IntendedReached(config, steps[..|steps| - 1]);
      IntendedQuotasHold(config, steps[..|steps| - 1]);
      match steps[|steps| - 1]
      case PutFact(fact, now) => PutKeepsOk(config, rows, fact, now);
      case PurgeExpired(clock) =>
        PurgeKeepsOk(config, rows, clock);
        PurgeShrinks(config, rows, clock, "");
    }
  }

  /** A cache for one item, with room for a thousand bytes. */
  function SmallCache(): Config {
    Config(1, 1000, 1000, 60, fact => true)
  }

  function SmallFact(key: string): Fact {
    Fact(key, "run", "POLICY_FACT", "source", "1", "OPEN", "origin", 0, 60)
  }

  lemma {:induction false} SmallFactFits(key: string)
    requires |key| == 1
    ensures 1 <= ByteCount(SmallFact(key)) <= 200
  {
    var f := SmallFact(key);
    var text := f.cacheKey + "\0" + f.runId + "\0" + f.factKind + "\0" + f.sourceId + "\0" + f.sourceRevision + "\0" + f.valueCode + "\0" + f.provenanceId;
    LongEnough(text);
    ShortEnough(text);
  }

  lemma {:induction false} FirstFits(a: Fact)
    requires a == SmallFact("a")
    ensures Put(SmallCache(), [], a, 0).0 == [Row(a, ByteCount(a), 0)]
  {
    hide ByteCount, SmallFact;
    SmallFactFits("a");
    KeysOfSmallFacts();
    assert !Full(SmallCache(), [], None, a) && IndexOf([], a.cacheKey) == None;
  }

  /** The second of two small facts goes in beside the first. */
  lemma {:induction false} SecondFits(a: Fact, b: Fact)
    requires a == SmallFact("a") && b == SmallFact("b")
    ensures Put(SmallCache(), [Row(a, ByteCount(a), 0)], b, 0).0 == [Row(a, ByteCount(a), 0), Row(b, ByteCount(b), 0)]
  {
    hide ByteCount, SmallFact;
    SmallFactFits("a");
    SmallFactFits("b");
    var rowA := Row(a, ByteCount(a), 0);
    KeysOfSmallFacts();
    SumsAppend([], rowA, b.runId);
    assert [] + [rowA] == [rowA] && [rowA][..0] == [];
    assert IndexOf([rowA], b.cacheKey) == None;
    assert !Full(SmallCache(), [rowA], None, b);
  }

  lemma {:induction false} KeysOfSmallFacts()
    ensures SmallFact("a").cacheKey != SmallFact("b").cacheKey
    ensures forall key :: Valid(SmallCache(), SmallFact(key)) <==> 1 <= ByteCount(SmallFact(key)) <= 16384
  {
    hide ByteCount;
    assert "a"[0] != "b"[0];
  }

  /** A concrete run: two facts in a cache for one. */
  lemma {:induction false} ItemLimitIsPassed()
    ensures var steps := [Step.PutFact(SmallFact("a"), 0), Step.PutFact(SmallFact("b"), 0)];
            |Reached(SmallCache(), steps)| == 2 && SmallCache().maximumItems == 1
  {
    hide ByteCount, Put, SmallFact;
    var a, b := SmallFact("a"), SmallFact("b");
    var first, both := [Step.PutFact(a, 0)], [Step.PutFact(a, 0), Step.PutFact(b, 0)];
    assert first[..0] == [] && both[..1] == first;
    FirstFits(a);
    SecondFits(a, b);
  }

  class RunnerContinuityCache {
    const config: Config
    var rows: seq<Row>

    constructor (config: Config)
      ensures this.config == config && rows == Reached(config, [])
    {
      this.config, rows := config, [];
    }

    method PutFact(fact: Fact, clock: real) returns (r: Result<Fact>)
      modifies `rows
      ensures (rows, r) == Put(config, old(rows), fact, clock.Floor)
    {
      hide Total, RunTotal, ByteCount, IndexOf;
      if !Valid(config, fact) {
        return Err("CONTINUITY_CACHE_FACT_INVALID");
      }
      var bytes := ByteCount(fact);
      var existing := IndexOf(rows, fact.cacheKey);
      var oldBytes, oldRunBytes := 0, 0;
      if existing.Some? {
        oldBytes := rows[existing.value].byteCount;
        if rows[existing.value].fact.runId == fact.runId {
          oldRunBytes := oldBytes;
        }
      }
      // existing === undefined is false for null, and the part of the test on items with it.
      if Total(rows) - oldBytes + bytes > config.maximumBytes
        || RunTotal(rows, fact.runId) - oldRunBytes + bytes > config.maximumRunBytes
      {
        return Err("CONTINUITY_CACHE_FULL");
      }
      var now := clock.Floor;
      if now < 0 || (existing.Some? && now < rows[existing.value].createdAt) {
        return Err("CONTINUITY_CACHE_STATE_FAILED");
      }
      if existing.Some? {
        rows := rows[existing.value := Row(fact, bytes, rows[existing.value].createdAt)];
      } else {
        rows := rows + [Row(fact, bytes, now)];
      }
      return Ok(fact);
    }

    method Read(cacheKey: string, clock: real) returns (r: Result<(bool, Fact)>)
      ensures match IndexOf(rows, cacheKey)
              case None => r == Err("CONTINUITY_CACHE_NOT_FOUND")
              case Some(i) => r == Ok((!Stale(rows[i], clock), rows[i].fact))
    {
      var at := IndexOf(rows, cacheKey);
      if at == None {
        return Err("CONTINUITY_CACHE_NOT_FOUND");
      }
      return Ok((clock < rows[at.value].fact.expiresAt as real, rows[at.value].fact));
    }

    method PurgeExpired(clock: real) returns (purged: nat)
      modifies `rows
      ensures rows == Purge(config, old(rows), clock) && purged == |old(rows)| - |rows|
    {
      var boundary := clock.Floor - config.maximumAgeSeconds;
      var kept: seq<Row> := [];
      purged := 0;
      for i := 0 to |rows|
        invariant kept == Purge(config, rows[..i], clock) && purged == i - |kept|
      {
        assert rows[..i + 1][..i] == rows[..i];
        if rows[i].fact.expiresAt <= clock.Floor || rows[i].fact.observedAt <= boundary {
          purged := purged + 1;
        } else {
          kept := kept + [rows[i]];
        }
      }
      assert rows[..|rows|] == rows;
      rows := kept;
    }
  }
}
