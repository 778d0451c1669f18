/** The batched blanking of one engagement's ciphertext: `packages/db/src/crypto-shred-purge.ts`. */
module Purge {

  type EngagementId = string
  type Dek = nat

  /** A plaintext under a data key.  Only the key matters here. */
  datatype Sealed = Sealed(dek: Dek, plain: string)

  /** An encrypted column: SQL NULL, a zero-length value, or ciphertext (`length(col) > 0`). */
  datatype Cell = Null | Empty | Data(sealed: Sealed)

  datatype Row = Row(engagement: EngagementId, cells: seq<Cell>)

  /** A table with encrypted columns, in `id` order.  A NOT NULL column is blanked to `Empty`, a
      nullable one to `Null`. */
  datatype Table = Table(name: string, notNull: seq<bool>, rows: seq<Row>)

  predicate CarriesCiphertext(r: Row) {
    exists c :: c in r.cells && c.Data?
  }

  /** The `where` of a purger's select. */
  predicate Selected(e: EngagementId, r: Row) {
    r.engagement == e && CarriesCiphertext(r)
  }

  function Blanks(notNull: seq<bool>): seq<Cell> {
    seq(|notNull|, i requires 0 <= i < |notNull| => if notNull[i] then Empty else Null)
  }

  function Blank(notNull: seq<bool>, r: Row): (b: Row)
    ensures b.engagement == r.engagement && !CarriesCiphertext(b)
  {
    Row(r.engagement, Blanks(notNull))
  }

  /** Number of rows of `e` that still carry ciphertext. */
  function Pending(e: EngagementId, rows: seq<Row>): (n: nat)
    ensures n <= |rows|
    ensures n == 0 <==> forall r :: r in rows ==> !Selected(e, r)
  {
    if rows == [] then 0
    else (if Selected(e, rows[0]) then 1 else 0) + Pending(e, rows[1..])
  }

  /** The first `limit` selected rows blanked. */
  function BlankFirst(e: EngagementId, notNull: seq<bool>, rows: seq<Row>, limit: nat): (r: seq<Row>)
    ensures |r| == |rows|
  {
    if rows == [] || limit == 0 then rows
    else if Selected(e, rows[0]) then [Blank(notNull, rows[0])] + BlankFirst(e, notNull, rows[1..], limit - 1)
    else [rows[0]] + BlankFirst(e, notNull, rows[1..], limit)
  }

  /** Every row of `e` that carried ciphertext is blank, every other row is as before. */
  ghost predicate PurgedRows(e: EngagementId, notNull: seq<bool>, before: seq<Row>, after: seq<Row>) {
    && |after| == |before|
    && forall i :: 0 <= i < |before| ==>
      after[i] == if Selected(e, before[i]) then Blank(notNull, before[i]) else before[i]
  }

  /** Some rows of `e` blanked, the rest as before. */
  ghost predicate PartlyPurged(e: EngagementId, notNull: seq<bool>, before: seq<Row>, after: seq<Row>) {
    && |after| == |before|
    && forall i :: 0 <= i < |before| ==>
      after[i] == before[i] || (Selected(e, before[i]) && after[i] == Blank(notNull, before[i]))
  }

  function MinNat(x: nat, y: nat): nat {
    if x < y then x else y
  }

  lemma {:induction false} BlankFirstEffect(e: EngagementId, notNull: seq<bool>, rows: seq<Row>, limit: nat)
    ensures var r := BlankFirst(e, notNull, rows, limit);
            && Pending(e, r) == Pending(e, rows) - MinNat(limit, Pending(e, rows))
            && PartlyPurged(e, notNull, rows, r)
            && (MinNat(limit, Pending(e, rows)) == 0 ==> r == rows)
  {
    if rows != [] && limit != 0 {
      var r := BlankFirst(e, notNull, rows, limit);
      var n := if Selected(e, rows[0]) then limit - 1 else limit;
      BlankFirstEffect(e, notNull, rows[1..], n);
      assert r[1..] == BlankFirst(e, notNull, rows[1..], n);
      forall i | 0 <= i < |rows|
        ensures r[i] == rows[i] || (Selected(e, rows[i]) && r[i] == Blank(notNull, rows[i]))
      {
        if i > 0 {
          assert r[i] == r[1..][i - 1] && rows[i] == rows[1..][i - 1];
        }
      }
    }
  }

  lemma PartlyPurgedTransitive(e: EngagementId, notNull: seq<bool>, a: seq<Row>, b: seq<Row>, c: seq<Row>)
    requires PartlyPurged(e, notNull, a, b) && PartlyPurged(e, notNull, b, c)
    ensures PartlyPurged(e, notNull, a, c)
  {
  }

  lemma NothingPending(e: EngagementId, notNull: seq<bool>, before: seq<Row>, after: seq<Row>)
    requires PartlyPurged(e, notNull, before, after) && Pending(e, after) == 0
    ensures PurgedRows(e, notNull, before, after)
  {
    forall i | 0 <= i < |before|
      ensures after[i] == if Selected(e, before[i]) then Blank(notNull, before[i]) else before[i]
    {
      assert after[i] in after;
    }
  }

  function Sum(s: seq<nat>): nat {
    if s == [] then 0 else Sum(s[..|s| - 1]) + s[|s| - 1]
  }

  /** What the purge makes of one table. */
  ghost predicate TablePurged(e: EngagementId, before: Table, after: Table, count: nat) {
    && after.name == before.name && after.notNull == before.notNull
    && PurgedRows(e, before.notNull, before.rows, after.rows)
    && Pending(e, after.rows) == 0
    && count == Pending(e, before.rows)
  }

  class Database {
    var tables: seq<Table>

    /** One `purgeBatch`: select up to `limit` ids, blank those rows, report how many. */
    method PurgeBatch(t: nat, e: EngagementId, limit: nat) returns (purged: nat)
      requires t < |tables|
      modifies this
      ensures |tables| == |old(tables)| && tables == old(tables)[t := old(tables)[t].(rows := tables[t].rows)]
      ensures PartlyPurged(e, tables[t].notNull, old(tables)[t].rows, tables[t].rows)
      ensures purged == MinNat(limit, Pending(e, old(tables)[t].rows))
      ensures Pending(e, tables[t].rows) == Pending(e, old(tables)[t].rows) - purged
      ensures purged == 0 ==> tables == old(tables)
    {
      var table := tables[t];
      BlankFirstEffect(e, table.notNull, table.rows, limit);
      tables := tables[t := table.(rows := BlankFirst(e, table.notNull, table.rows, limit))];
      purged := MinNat(limit, Pending(e, table.rows));
    }

    /** The inner loop: batches on one table until one comes back short. */
    method PurgeTable(t: nat, e: EngagementId, batchSize: nat) returns (purgedForTable: nat)
      requires t < |tables|
      modifies this
      ensures |tables| == |old(tables)| && tables == old(tables)[t := old(tables)[t].(rows := tables[t].rows)]
      ensures batchSize > 0 ==> TablePurged(e, old(tables)[t], tables[t], purgedForTable)
      ensures batchSize == 0 ==> tables == old(tables) && purgedForTable == 0
    {
      purgedForTable := 0;
      ghost var before := tables;
      while true
        invariant |tables| == |before| && tables == before[t := before[t].(rows := tables[t].rows)]
        invariant PartlyPurged(e, before[t].notNull, before[t].rows, tables[t].rows)
        invariant purgedForTable + Pending(e, tables[t].rows) == Pending(e, before[t].rows)
        invariant batchSize == 0 ==> tables == before && purgedForTable == 0
        decreases Pending(e, tables[t].rows)
      {
        ghost var rows := tables[t].rows;
        var purgedInBatch := PurgeBatch(t, e, batchSize);
        PartlyPurgedTransitive(e, before[t].notNull, before[t].rows, rows, tables[t].rows);
        if purgedInBatch == 0 {
          break;
        }
        purgedForTable := purgedForTable + purgedInBatch;
        if purgedInBatch < batchSize {
          break;
        }
      }
      if batchSize > 0 {
        NothingPending(e, before[t].notNull, before[t].rows, tables[t].rows);
      }
    }

    /** `purgeEngagementCiphertext`: every row of the engagement that carried ciphertext is blank
        afterwards, everything else is as before, and the counts are the numbers of such rows.
        A batch size of 0 would purge nothing at all. */
    method PurgeEngagementCiphertext(e: EngagementId, batchSize: nat) returns (totalRowsPurged: nat, perTable: seq<nat>)
      modifies this
      ensures |tables| == |old(tables)| == |perTable|
      ensures batchSize > 0 ==> forall i :: 0 <= i < |tables| ==> TablePurged(e, old(tables)[i], tables[i], perTable[i])
      ensures batchSize == 0 ==> tables == old(tables) && totalRowsPurged == 0
      ensures totalRowsPurged == Sum(perTable)
    {
      totalRowsPurged, perTable := 0, [];
      for t := 0 to |tables|
        invariant |tables| == |old(tables)| && |perTable| == t
        invariant forall i :: t <= i < |tables| ==> tables[i] == old(tables)[i]
        invariant batchSize > 0 ==> forall i :: 0 <= i < t ==> TablePurged(e, old(tables)[i], tables[i], perTable[i])
        invariant batchSize == 0 ==> tables == old(tables) && totalRowsPurged == 0
        invariant totalRowsPurged == Sum(perTable)
      {
        var purgedForTable := PurgeTable(t, e, batchSize);
        totalRowsPurged := totalRowsPurged + purgedForTable;
        assert perTable == (perTable + [purgedForTable])[..t];
        perTable := perTable + [purgedForTable];
      }
    }
  }

  /** A second purge finds nothing: purging is idempotent. */
  lemma {:induction false} PurgeIdempotent(e: EngagementId, notNull: seq<bool>, a: seq<Row>, b: seq<Row>, c: seq<Row>)
    requires PurgedRows(e, notNull, a, b) && PurgedRows(e, notNull, b, c)
    ensures c == b && Pending(e, b) == 0
  {
    forall r | r in b ensures !Selected(e, r) {
      var i :| 0 <= i < |b| && b[i] == r;
      assert b[i] == if Selected(e, a[i]) then Blank(notNull, a[i]) else a[i];
    }
  }

  /** A blanked row, column by column: an empty value where the column must not be null, else null; and it
      still belongs to its engagement. */
  lemma {:induction false} BlankedCells(e: EngagementId, notNull: seq<bool>, before: seq<Row>, after: seq<Row>, i: nat)
    requires PurgedRows(e, notNull, before, after) && i < |before|
    ensures
      if before[i].engagement == e && (exists c :: c in before[i].cells && c.Data?) then
        && after[i].engagement == e && |after[i].cells| == |notNull|
        && forall k :: 0 <= k < |notNull| ==>
             (notNull[k] ==> after[i].cells[k] == Empty) && (!notNull[k] ==> after[i].cells[k] == Null)
      else after[i] == before[i]
  {
  }
}
