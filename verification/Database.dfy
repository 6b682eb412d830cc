/** The payload table of `database/database.go` and its insert statements.

    A table is the sequence of its rows in insertion order. `INSERT ... ON CONFLICT DO
    NOTHING` is judged against the unique index on (relay, slot, parent_hash, block_hash). */
module Database {
  import opened Wrappers

  /** The columns written by the payment check; NULL is `None`. */
  datatype CheckColumns = CheckColumns(
    blockNumber: Option<int>,
    extraData: string,
    slotMissed: Option<bool>,
    valueCheckOk: Option<bool>,
    valueCheckMethod: Option<string>,
    valueDeliveredWei: Option<int>,
    valueDeliveredDiffWei: Option<int>,
    blockCoinbaseAddr: Option<string>,
    blockCoinbaseIsProposer: Option<bool>,
    coinbaseDiffWei: Option<int>,
    foundOnChain: Option<bool>,
    numBlobTxs: Option<nat>,
    numBlobs: Option<nat>,
    blockTimestamp: Option<int>)

  /** A row nothing has been checked for. */
  const EMPTY_CHECKS := CheckColumns(None, "", None, None, None, None, None, None, None, None, None, None, None, None)

  datatype Row = Row(
    relay: string,
    slot: nat,
    parentHash: string,
    blockHash: string,
    builderPubkey: string,
    proposerFeeRecipient: string,
    valueClaimedWei: int,
    checks: CheckColumns)

  /** The columns of the unique index. */
  datatype RowKey = RowKey(relay: string, slot: nat, parentHash: string, blockHash: string)

  function KeyOf(r: Row): RowKey {
    RowKey(r.relay, r.slot, r.parentHash, r.blockHash)
  }

  function Keys(rows: seq<Row>): set<RowKey> {
    set r | r in rows :: KeyOf(r)
  }

  ghost predicate UniqueKeys(rows: seq<Row>) {
    forall i, j | 0 <= i < j < |rows| :: KeyOf(rows[i]) != KeyOf(rows[j])
  }

  // ---------------------------------------------------------------- one-by-one insertion

  function Insert(rows: seq<Row>, r: Row): seq<Row> {
    if KeyOf(r) in Keys(rows) then rows else rows + [r]
  }

  function InsertAll(rows: seq<Row>, entries: seq<Row>): seq<Row> {
    if entries == [] then rows
    else Insert(InsertAll(rows, entries[..|entries| - 1]), entries[|entries| - 1])
  }

  lemma {:induction false} InsertAllSplit(rows: seq<Row>, a: seq<Row>, b: seq<Row>)
    ensures InsertAll(rows, a + b) == InsertAll(InsertAll(rows, a), b)
  {
    if b == [] {
      assert a + b == a;
    } else {
      assert (a + b)[..|a + b| - 1] == a + b[..|b| - 1];
      InsertAllSplit(rows, a, b[..|b| - 1]);
    }
  }

  lemma KeysAppend(rows: seq<Row>, r: Row)
    ensures Keys(rows + [r]) == Keys(rows) + {KeyOf(r)}
  {
    var all := rows + [r];
    assert all[|rows|] == r;
    forall k | k in Keys(rows) ensures k in Keys(all) {
      var i :| 0 <= i < |rows| && KeyOf(rows[i]) == k;
      assert all[i] == rows[i];
    }
  }

  /** Old rows stay where they are, and the keys afterwards are the old ones and those of
      the entries. */
  lemma {:induction false} InsertAllKeys(rows: seq<Row>, entries: seq<Row>)
    ensures rows <= InsertAll(rows, entries)
    ensures Keys(InsertAll(rows, entries)) == Keys(rows) + Keys(entries)
  {
    if entries != [] {
      var front, last := entries[..|entries| - 1], entries[|entries| - 1];
      InsertAllKeys(rows, front);
      assert entries == front + [last];
      KeysAppend(front, last);
      KeysAppend(InsertAll(rows, front), last);
    }
  }

  lemma KeysOfLast(entries: seq<Row>)
    requires entries != []
    ensures Keys(entries) == Keys(entries[..|entries| - 1]) + {KeyOf(entries[|entries| - 1])}
  {
    assert entries == entries[..|entries| - 1] + [entries[|entries| - 1]];
    KeysAppend(entries[..|entries| - 1], entries[|entries| - 1]);
  }

  lemma InsertOneCount(mid: seq<Row>, existing: set<RowKey>, added: set<RowKey>, r: Row)
    requires Keys(mid) == existing + added
    ensures |Insert(mid, r)| - |mid| == |added + {KeyOf(r)} - existing| - |added - existing|
  {
    NewKeysAppend(added, existing, KeyOf(r));
  }

  /** The table grows by exactly the number of new keys. */
  lemma {:induction false} InsertAllCount(rows: seq<Row>, entries: seq<Row>)
    ensures |InsertAll(rows, entries)| == |rows| + |Keys(entries) - Keys(rows)|
  {
    if entries != [] {
      var front, last := entries[..|entries| - 1], entries[|entries| - 1];
      KeysOfLast(entries);
      InsertAllCount(rows, front);
      InsertAllKeys(rows, front);
      InsertOneCount(InsertAll(rows, front), Keys(rows), Keys(front), last);
    }
  }

  lemma NewKeysAppend(added: set<RowKey>, existing: set<RowKey>, k: RowKey)
    ensures |added + {k} - existing| == |added - existing| + if k in existing + added then 0 else 1
  {
    if k in existing + added {
      assert added + {k} - existing == added - existing;
    } else {
      assert added + {k} - existing == (added - existing) + {k};
    }
  }

  /** No insert ever duplicates a key. */
  lemma {:induction false} InsertAllUnique(rows: seq<Row>, entries: seq<Row>)
    requires UniqueKeys(rows)
    ensures UniqueKeys(InsertAll(rows, entries))
  {
    if entries != [] {
      var mid := InsertAll(rows, entries[..|entries| - 1]);
      InsertAllUnique(rows, entries[..|entries| - 1]);
      forall i | 0 <= i < |mid| ensures KeyOf(mid[i]) in Keys(mid) {}
    }
  }

  /** Entry `i` is the first one carrying its key, and that key is not in the table yet. */
  ghost predicate FirstWithNewKey(rows: seq<Row>, entries: seq<Row>, i: nat)
    requires i < |entries|
  {
    && KeyOf(entries[i]) !in Keys(rows)
    && forall j | 0 <= j < i :: KeyOf(entries[j]) != KeyOf(entries[i])
  }

  /** The sublist of those entries, in entry order. */
  ghost function FirstEntries(rows: seq<Row>, entries: seq<Row>): seq<Row> {
    if entries == [] then []
    else
      var n := |entries| - 1;
      FirstEntries(rows, entries[..n]) + if FirstWithNewKey(rows, entries, n) then [entries[n]] else []
  }

  /** First wins: the table gains exactly the first entry of every new key. */
  lemma {:induction false} InsertAllFirstWins(rows: seq<Row>, entries: seq<Row>)
    ensures InsertAll(rows, entries) == rows + FirstEntries(rows, entries)
  {
    if entries != [] {
      var n := |entries| - 1;
      InsertAllFirstWins(rows, entries[..n]);
      InsertAllKeys(rows, entries[..n]);
      assert FirstWithNewKey(rows, entries, n) <==> KeyOf(entries[n]) !in Keys(InsertAll(rows, entries[..n])) by {
        if j :| 0 <= j < n && KeyOf(entries[j]) == KeyOf(entries[n]) {
          assert entries[..n][j] == entries[j];
        }
      }
    }
  }

  // ---------------------------------------------------------------- the batched statement

  const CHUNK := 3000
  const INSERT_COLUMNS := 15
  const MAX_PARAMETERS := 65535

  function Flatten(chunks: seq<seq<Row>>): seq<Row> {
    if chunks == [] then [] else Flatten(chunks[..|chunks| - 1]) + chunks[|chunks| - 1]
  }

  /** Statements of full chunks, all but the last of exactly CHUNK entries. */
  ghost predicate Tiles(chunks: seq<seq<Row>>, entries: seq<Row>) {
    && Flatten(chunks) == entries
    && (forall k | 0 <= k < |chunks| :: 0 < |chunks[k]| <= CHUNK)
    && (forall k | 0 <= k < |chunks| - 1 :: |chunks[k]| == CHUNK)
  }

  lemma {:induction false} FlattenLength(chunks: seq<seq<Row>>)
    requires forall k | 0 <= k < |chunks| :: |chunks[k]| == CHUNK
    ensures |Flatten(chunks)| == |chunks| * 3000
  {
    if chunks != [] { FlattenLength(chunks[..|chunks| - 1]); }
  }

  /** There are no more statements than are needed for 3000 entries in each. */
  lemma StatementsNeeded(chunks: seq<seq<Row>>, entries: seq<Row>)
    requires Tiles(chunks, entries)
    ensures |chunks| == (|entries| + 2999) / 3000
  {
    if chunks != [] { FlattenLength(chunks[..|chunks| - 1]); }
  }

  lemma TilesAppend(chunks: seq<seq<Row>>, entries: seq<Row>, chunk: seq<Row>)
    requires Tiles(chunks, entries) && 0 < |chunk| <= CHUNK
    requires forall k | 0 <= k < |chunks| :: |chunks[k]| == CHUNK
    ensures Tiles(chunks + [chunk], entries + chunk)
  {
    assert (chunks + [chunk])[..|chunks|] == chunks;
  }

  function Upto(entries: seq<Row>, i: nat): seq<Row> {
    if i < |entries| then entries[..i] else entries
  }

  lemma NextChunk(rows: seq<Row>, chunks: seq<seq<Row>>, entries: seq<Row>, i: nat, end: nat)
    requires i < end <= |entries| && (end == i + CHUNK || (end == |entries| && end <= i + CHUNK))
    requires Tiles(chunks, Upto(entries, i)) && forall k | 0 <= k < |chunks| :: |chunks[k]| == CHUNK
    ensures InsertAll(rows, Upto(entries, i + CHUNK)) == InsertAll(InsertAll(rows, Upto(entries, i)), entries[i..end])
    ensures Tiles(chunks + [entries[i..end]], Upto(entries, i + CHUNK))
  {
    assert Upto(entries, i + CHUNK) == Upto(entries, i) + entries[i..end];
    InsertAllSplit(rows, Upto(entries, i), entries[i..end]);
    TilesAppend(chunks, Upto(entries, i), entries[i..end]);
  }

  class PayloadStore {
    var rows: seq<Row>
    /** The builder table, by its unique column. */
    var blockBuilders: set<string>
    /** The entry lists of the insert statements sent so far. */
    ghost var statements: seq<seq<Row>>

    constructor ()
      ensures rows == [] && blockBuilders == {} && statements == []
    {
      rows, blockBuilders, statements := [], {}, [];
    }

    method SaveBuilder(builderPubkey: string)
      modifies this`blockBuilders
      ensures blockBuilders == old(blockBuilders) + {builderPubkey}
    {
      if builderPubkey !in blockBuilders {
        blockBuilders := blockBuilders + {builderPubkey};
      }
    }

    /** One statement: Postgres refuses more than 65535 parameters. */
    method InsertStatement(entries: seq<Row>) returns (affected: nat)
      requires |entries| * INSERT_COLUMNS <= MAX_PARAMETERS
      modifies this`rows, this`statements
      ensures rows == InsertAll(old(rows), entries)
      ensures |rows| == |old(rows)| + affected
      ensures statements == old(statements) + [entries]
    {
      var before := |rows|;
      var done := 0;
      while done < |entries|
        invariant done <= |entries|
        invariant rows == InsertAll(old(rows), entries[..done])
        invariant before == |old(rows)| <= |rows|
        invariant statements == old(statements)
      {
        assert entries[..done + 1][..done] == entries[..done];
        rows := Insert(rows, entries[done]);
        done := done + 1;
      }
      assert entries[..done] == entries;
      affected := |rows| - before;
      statements := statements + [entries];
    }

    method SaveDataAPIPayloadDeliveredBatch(entries: seq<Row>) returns (rowsAffected: nat)
      modifies this`rows, this`statements
      ensures rows == InsertAll(old(rows), entries)
      ensures |rows| == |old(rows)| + rowsAffected
      ensures rowsAffected == |Keys(entries) - Keys(old(rows))|
      ensures old(statements) <= statements && Tiles(statements[|old(statements)|..], entries)
    {
      rowsAffected := 0;
      if |entries| == 0 {
        return;
      }
      ghost var chunks: seq<seq<Row>> := [];
      var i := 0;
      while i < |entries|
        invariant 0 <= i
        invariant rows == InsertAll(old(rows), Upto(entries, i))
        invariant |rows| == |old(rows)| + rowsAffected
        invariant statements == old(statements) + chunks
        invariant Tiles(chunks, Upto(entries, i))
        invariant i < |entries| ==> forall k | 0 <= k < |chunks| :: |chunks[k]| == CHUNK
      {
        var end := i + CHUNK;
        if end > |entries| {
          end := |entries|;
        }
        var n := InsertStatement(entries[i..end]);
        NextChunk(old(rows), chunks, entries, i, end);
        chunks := chunks + [entries[i..end]];
        rowsAffected := rowsAffected + n;
        i := i + CHUNK;
      }
      assert statements[|old(statements)|..] == chunks;
      InsertAllCount(old(rows), entries);
    }
  }

  // ---------------------------------------------------------------- latest slot of a relay

  /** `ORDER BY slot DESC LIMIT 1` for one relay; no row reads as slot 0. */
  function LatestSlot(rows: seq<Row>, relay: string): (latest: nat)
    ensures forall r | r in rows && r.relay == relay :: r.slot <= latest
    ensures latest == 0 || exists r | r in rows :: r.relay == relay && r.slot == latest
  {
    if rows == [] then 0
    else
      var rest := LatestSlot(rows[1..], relay);
      assert forall r | r in rows :: r == rows[0] || r in rows[1..];
      if rows[0].relay == relay && rows[0].slot > rest then rows[0].slot else rest
  }
}
