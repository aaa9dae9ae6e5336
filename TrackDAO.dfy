/**
 * The local chapter table: one row per chapter, keyed by its rating key.
 * Inserts replace a row with the same key; updates only touch an existing
 * row; the queries return the matching rows in an order the database does
 * not promise.
 */
module TrackStore {
  import opened Types

  /** One row of the chapter table; `thumb` is the only column left null. */
  datatype TrackEntity = TrackEntity(
    ratingKey: string,
    libraryId: string,
    key: string,
    parentKey: string,
    title: string,
    albumTitle: string,
    artistTitle: string,
    thumb: Option<string>,
    source: string,
    uri: string,
    index: int,
    recent: bool,
    duration: int,
    viewCount: int,
    viewOffset: int,
    queueItemId: int)

  /** The row filters of the three queries. */
  datatype Filter =
    | AllRows
    | InProgress(libraryKey: string)
    | ForAlbum(libraryId: string, albumTitle: string)

  predicate Matches(f: Filter, e: TrackEntity)
  {
    match f
    case AllRows => true
    case InProgress(k) => e.viewOffset > 0 && e.libraryId == k
    case ForAlbum(l, a) => e.libraryId == l && e.albumTitle == a
  }

  /** Every row is stored under its own primary key. */
  ghost predicate Keyed(rows: map<string, TrackEntity>)
  {
    forall k :: k in rows ==> rows[k].ratingKey == k
  }

  /** The table after inserting the batch in order, each row replacing any row with its key. */
  function UpsertAll(rows: map<string, TrackEntity>, batch: seq<TrackEntity>): map<string, TrackEntity>
    decreases |batch|
  {
    if batch == [] then rows
    else UpsertAll(rows[batch[0].ratingKey := batch[0]], batch[1..])
  }

  /** Some row of the batch has the key. */
  ghost predicate InBatch(batch: seq<TrackEntity>, k: string)
  {
    exists i :: 0 <= i < |batch| && batch[i].ratingKey == k
  }

  /** No later row of the batch has the key of row i. */
  ghost predicate LastInBatch(batch: seq<TrackEntity>, i: int)
    requires 0 <= i < |batch|
  {
    forall j :: i < j < |batch| ==> batch[j].ratingKey != batch[i].ratingKey
  }

  /**
   * Inserting a batch keeps every row keyed by its own key, adds exactly the
   * batch's keys, leaves rows whose key is not in the batch as they were,
   * and stores for each key the last row of the batch carrying it.
   */
  lemma UpsertAllSpec(rows: map<string, TrackEntity>, batch: seq<TrackEntity>)
    requires Keyed(rows)
    ensures Keyed(UpsertAll(rows, batch))
    ensures forall k :: k in UpsertAll(rows, batch) <==> k in rows || InBatch(batch, k)
    ensures forall k :: k in rows && !InBatch(batch, k) ==> k in UpsertAll(rows, batch) && UpsertAll(rows, batch)[k] == rows[k]
    ensures forall i :: 0 <= i < |batch| && LastInBatch(batch, i) ==>
              batch[i].ratingKey in UpsertAll(rows, batch) && UpsertAll(rows, batch)[batch[i].ratingKey] == batch[i]
  {
    UpsertKeyed(rows, batch);
    UpsertDomain(rows, batch);
    UpsertUntouched(rows, batch);
    UpsertLastWins(rows, batch);
  }

  /** A key is in the batch iff it is the first row's or in the rest. */
  lemma InBatchCons(batch: seq<TrackEntity>, k: string)
    requires batch != []
    ensures InBatch(batch, k) <==> batch[0].ratingKey == k || InBatch(batch[1..], k)
  {
    if InBatch(batch, k) && batch[0].ratingKey != k {
      var i :| 0 <= i < |batch| && batch[i].ratingKey == k;
      assert batch[1..][i - 1] == batch[i];
    }
    if InBatch(batch[1..], k) {
      var i :| 0 <= i < |batch[1..]| && batch[1..][i].ratingKey == k;
      assert batch[i + 1] == batch[1..][i];
    }
  }

  /** Every row stays filed under its own rating key. */
  lemma {:induction false} UpsertKeyed(rows: map<string, TrackEntity>, batch: seq<TrackEntity>)
    requires Keyed(rows)
    decreases |batch|
    ensures Keyed(UpsertAll(rows, batch))
  {
    if batch != [] {
      UpsertKeyed(rows[batch[0].ratingKey := batch[0]], batch[1..]);
    }
  }

  /** The keys after the upsert are the old keys and the batch's keys. */
  lemma {:induction false} UpsertDomain(rows: map<string, TrackEntity>, batch: seq<TrackEntity>)
    decreases |batch|
    ensures forall k :: k in UpsertAll(rows, batch) <==> k in rows || InBatch(batch, k)
  {
    if batch != [] {
      UpsertDomain(rows[batch[0].ratingKey := batch[0]], batch[1..]);
      forall k
        ensures k in UpsertAll(rows, batch) <==> k in rows || InBatch(batch, k)
      {
        InBatchCons(batch, k);
      }
    }
  }

  /** A row the batch does not name is kept as it was. */
  lemma {:induction false} UpsertUntouched(rows: map<string, TrackEntity>, batch: seq<TrackEntity>)
    decreases |batch|
    ensures forall k :: k in rows && !InBatch(batch, k) ==> k in UpsertAll(rows, batch) && UpsertAll(rows, batch)[k] == rows[k]
  {
    if batch != [] {
      var next := rows[batch[0].ratingKey := batch[0]];
      UpsertUntouched(next, batch[1..]);
      forall k | k in rows && !InBatch(batch, k)
        ensures k in UpsertAll(rows, batch) && UpsertAll(rows, batch)[k] == rows[k]
      {
        InBatchCons(batch, k);
        assert next[k] == rows[k];
      }
    }
  }

  /** Each batch key ends up holding the last batch row carrying it. */
  lemma {:induction false} UpsertLastWins(rows: map<string, TrackEntity>, batch: seq<TrackEntity>)
    decreases |batch|
    ensures forall i :: 0 <= i < |batch| && LastInBatch(batch, i) ==>
              batch[i].ratingKey in UpsertAll(rows, batch) && UpsertAll(rows, batch)[batch[i].ratingKey] == batch[i]
  {
    if batch != [] {
      var next := rows[batch[0].ratingKey := batch[0]];
      var tail := batch[1..];
      UpsertLastWins(next, tail);
      forall i | 0 <= i < |batch| && LastInBatch(batch, i)
        ensures batch[i].ratingKey in UpsertAll(rows, batch) && UpsertAll(rows, batch)[batch[i].ratingKey] == batch[i]
      {
        if i > 0 {
          assert tail[i - 1] == batch[i];
          assert LastInBatch(tail, i - 1) by {
            forall j | i - 1 < j < |tail|
              ensures tail[j].ratingKey != tail[i - 1].ratingKey
            {
              assert tail[j] == batch[j + 1];
            }
          }
        } else {
          assert !InBatch(tail, batch[0].ratingKey) by {
            forall j | 0 <= j < |tail|
              ensures tail[j].ratingKey != batch[0].ratingKey
            {
              assert tail[j] == batch[j + 1];
            }
          }
          UpsertUntouched(next, tail);
          UpsertDomain(next, tail);
        }
      }
    }
  }

  class TrackTable {
    var rows: map<string, TrackEntity>

    ghost predicate Valid()
      reads this
    {
      Keyed(rows)
    }

    constructor ()
      ensures Valid() && rows == map[]
    {
      rows := map[];
    }

    /** Inserts every row of the batch, in order, replacing rows with the same key. */
    method AddTracks(batch: seq<TrackEntity>)
      requires Valid()
      modifies this
      ensures Valid()
      ensures rows == UpsertAll(old(rows), batch)
    {
      var i := 0;
      while i < |batch|
        invariant 0 <= i <= |batch|
        invariant Keyed(rows)
        invariant UpsertAll(rows, batch[i..]) == UpsertAll(old(rows), batch)
      {
        assert batch[i..][1..] == batch[i + 1..];
        rows := rows[batch[i].ratingKey := batch[i]];
        i := i + 1;
      }
    }

    /** Replaces the row with the argument's key, if there is one; inserts nothing. */
    method UpdateTrack(e: TrackEntity)
      requires Valid()
      modifies this
      ensures Valid()
      ensures e.ratingKey in old(rows) ==> rows == old(rows)[e.ratingKey := e]
      ensures e.ratingKey !in old(rows) ==> rows == old(rows)
    {
      if e.ratingKey in rows {
        rows := rows[e.ratingKey := e];
      }
    }

    /** The rows matching the filter, each once, in no promised order. */
    method Select(f: Filter) returns (r: seq<TrackEntity>)
      requires Valid()
      ensures forall e :: e in r <==> e in rows.Values && Matches(f, e)
      ensures DistinctKeys(r)
    {
      var remaining := rows.Keys;
      r := [];
      while remaining != {}
        invariant remaining <= rows.Keys
        invariant forall e :: e in r <==> e in rows.Values && Matches(f, e) && e.ratingKey !in remaining
        invariant DistinctKeys(r)
        decreases |remaining|
      {
        var k :| k in remaining;
        if Matches(f, rows[k]) {
          r := r + [rows[k]];
        }
        remaining := remaining - {k};
      }
    }

    /** Every row. */
    method GetAllTracks() returns (r: seq<TrackEntity>)
      requires Valid()
      ensures forall e :: e in r <==> e in rows.Values
      ensures |r| == |rows|
    {
      r := Select(AllRows);
      DistinctKeysCover(rows, r);
    }

    /** The rows of the library with some progress, each once. */
    method GetTracksInProgress(libraryKey: string) returns (r: seq<TrackEntity>)
      requires Valid()
      ensures forall e :: e in r <==> e in rows.Values && e.viewOffset > 0 && e.libraryId == libraryKey
      ensures DistinctKeys(r)
    {
      r := Select(InProgress(libraryKey));
    }

    /** The rows of one book of one library, each once. */
    method GetTracksForAlbum(libraryId: string, albumTitle: string) returns (r: seq<TrackEntity>)
      requires Valid()
      ensures forall e :: e in r <==> e in rows.Values && e.libraryId == libraryId && e.albumTitle == albumTitle
      ensures DistinctKeys(r)
    {
      r := Select(ForAlbum(libraryId, albumTitle));
    }
  }

  /** No two rows of the list share a key. */
  ghost predicate DistinctKeys(r: seq<TrackEntity>)
  {
    forall i, j :: 0 <= i < j < |r| ==> r[i].ratingKey != r[j].ratingKey
  }

  /** The keys of the rows of a list. */
  ghost function KeySet(r: seq<TrackEntity>): set<string>
  {
    set i | 0 <= i < |r| :: r[i].ratingKey
  }

  /** A list holding every row once, by key, is as long as the table. */
  lemma DistinctKeysCover(rows: map<string, TrackEntity>, r: seq<TrackEntity>)
    requires Keyed(rows)
    requires forall e :: e in r <==> e in rows.Values
    requires DistinctKeys(r)
    ensures |r| == |rows|
  {
    assert KeySet(r) == rows.Keys by {
      forall k | k in rows ensures k in KeySet(r) {
        assert rows[k] in rows.Values;
        var i :| 0 <= i < |r| && r[i] == rows[k];
      }
      forall k | k in KeySet(r) ensures k in rows {
        var i :| 0 <= i < |r| && r[i].ratingKey == k;
        assert r[i] in rows.Values;
        var k' :| k' in rows && rows[k'] == r[i];
      }
    }
    DistinctImageSize(r);
  }

  /** Distinct keys: as many keys as rows in the list. */
  lemma {:induction false} DistinctImageSize(r: seq<TrackEntity>)
    requires DistinctKeys(r)
    decreases |r|
    ensures |KeySet(r)| == |r|
  {
    if r != [] {
      var last := |r| - 1;
      KeySetSnoc(r);
      DistinctImageSize(r[..last]);
    }
  }

  /** The keys of a list of distinct keys: those of all but the last row, plus the last row's, which is new. */
  lemma KeySetSnoc(r: seq<TrackEntity>)
    requires r != [] && DistinctKeys(r)
    ensures KeySet(r) == KeySet(r[..|r| - 1]) + {r[|r| - 1].ratingKey}
    ensures r[|r| - 1].ratingKey !in KeySet(r[..|r| - 1])
    ensures DistinctKeys(r[..|r| - 1])
  {
    var last := |r| - 1;
    assert forall i :: 0 <= i < last ==> r[..last][i] == r[i];
    forall k | k in KeySet(r) ensures k in KeySet(r[..last]) + {r[last].ratingKey} {
      var i :| 0 <= i < |r| && r[i].ratingKey == k;
      if i < last {
        assert r[..last][i].ratingKey == k;
      }
    }
    forall k | k in KeySet(r[..last]) ensures k in KeySet(r) && k != r[last].ratingKey {
      var i :| 0 <= i < last && r[..last][i].ratingKey == k;
      assert r[i].ratingKey == k;
    }
  }
}
