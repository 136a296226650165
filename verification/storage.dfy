/** The append-only record log behind every topic queue, in its two
    backends. `MemoryStorage` is a Python list; `SqliteStorage` is a table of
    rows addressed by SQLite row id. Both are written here as values, and the
    SQLite backend is related to the in-memory one through its contents. */
module Storage {
  import opened Common

  /** Records are the text frames topics carry. */
  type Record = string

  // ---------------------------------------------------------------------
  // MemoryStorage
  // ---------------------------------------------------------------------

  datatype MemoryStorage = MemoryStorage(buffer: seq<Record>)

  /** `MemoryStorage()`: an empty buffer. */
  function NewMemoryStorage(): (s: MemoryStorage)
    ensures MemLen(s) == 0
  {
    MemoryStorage([])
  }

  /** `len(storage)`. */
  function MemLen(s: MemoryStorage): nat
  {
    |s.buffer|
  }

  /** `len` is the number of readable keys from the front: a non-negative
      key reads a record exactly below it, and a storage of length 0 has no
      readable key at all. */
  lemma MemLenIndexes(s: MemoryStorage)
    ensures forall k :: 0 <= k ==> (MemGet(s, k).Ok? <==> k < MemLen(s))
    ensures MemLen(s) == 0 <==> forall k :: MemGet(s, k).Err?
  {
    if MemLen(s) > 0 {
      assert MemGet(s, 0).Ok?;
    }
  }

  /** `append(data)`: the record lands at index old-length, the length grows
      by one, and no earlier index changes. */
  function MemAppend(s: MemoryStorage, data: Record): (s': MemoryStorage)
    ensures MemLen(s') == MemLen(s) + 1
    ensures MemGet(s', MemLen(s)) == Ok(data)
    ensures forall i :: 0 <= i < MemLen(s) ==> MemGet(s', i) == MemGet(s, i)
  {
    MemoryStorage(s.buffer + [data])
  }

  /** `storage[key]`: Python list indexing, negative keys counting from the
      end, anything else out of range raising `IndexError`. */
  function MemGet(s: MemoryStorage, key: int): (r: Result<Record, Exception>)
    ensures r.Err? <==> key >= MemLen(s) || key + MemLen(s) < 0
    ensures r.Err? ==> r.error == IndexError
  {
    if 0 <= key < |s.buffer| then Ok(s.buffer[key])
    else if -|s.buffer| <= key < 0 then Ok(s.buffer[|s.buffer| + key])
    else Err(IndexError)
  }

  /** A negative key reads the same record as the key `len` places later. */
  lemma MemNegativeKey(s: MemoryStorage, key: int)
    requires 0 <= key + MemLen(s) && key < 0
    ensures MemGet(s, key) == MemGet(s, key + MemLen(s))
    ensures MemGet(s, key).Ok?
  {
  }

  /** The storage obtained by appending `xs` one by one to `s`. */
  function MemAppendAll(s: MemoryStorage, xs: seq<Record>): MemoryStorage
    decreases |xs|
  {
    if |xs| == 0 then s else MemAppendAll(MemAppend(s, xs[0]), xs[1..])
  }

  /** Appending `xs` grows the length by `|xs|`, keeps every earlier index,
      and puts the `i`-th appended record at index old-length + `i`; fed to a
      fresh storage, the log holds exactly `xs`. */
  lemma {:induction false} MemAppendAllContents(s: MemoryStorage, xs: seq<Record>)
    ensures MemLen(MemAppendAll(s, xs)) == MemLen(s) + |xs|
    ensures forall i :: 0 <= i < MemLen(s) ==> MemGet(MemAppendAll(s, xs), i) == MemGet(s, i)
    ensures forall i :: 0 <= i < |xs| ==> MemGet(MemAppendAll(s, xs), MemLen(s) + i) == Ok(xs[i])
    decreases |xs|
  {
    if |xs| > 0 {
      var s1 := MemAppend(s, xs[0]);
      MemAppendAllContents(s1, xs[1..]);
      var t := MemAppendAll(s, xs);
      assert t == MemAppendAll(s1, xs[1..]);
      forall i | 0 <= i < |xs|
        ensures MemGet(t, MemLen(s) + i) == Ok(xs[i])
      {
        if i > 0 {
          assert MemGet(t, MemLen(s1) + (i - 1)) == Ok(xs[1..][i - 1]);
        }
      }
    }
  }

  // ---------------------------------------------------------------------
  // SqliteStorage
  // ---------------------------------------------------------------------

  /** One row of the `storage` table; the timestamp column is not kept. */
  datatype Row = Row(rowid: int, data: Record)

  /** The `storage` table, rows in insertion order. */
  datatype SqliteStorage = SqliteStorage(rows: seq<Row>)

  /** `SELECT max(rowid) FROM storage`: SQL `NULL` on an empty table. */
  function MaxRowid(rows: seq<Row>): (r: Option<int>)
    ensures r.None? <==> |rows| == 0
    ensures r.Some? ==> forall i :: 0 <= i < |rows| ==> rows[i].rowid <= r.value
    ensures r.Some? ==> exists i :: 0 <= i < |rows| && rows[i].rowid == r.value
  {
    if |rows| == 0 then None
    else
      match MaxRowid(rows[..|rows| - 1])
      case None => Some(rows[|rows| - 1].rowid)
      case Some(m) =>
        if rows[|rows| - 1].rowid > m then Some(rows[|rows| - 1].rowid) else Some(m)
  }

  /** A fresh table, as `CREATE TABLE IF NOT EXISTS` leaves a new database. */
  function NewSqliteStorage(): (s: SqliteStorage)
    ensures SqlLen(s) == 0
  {
    SqliteStorage([])
  }

  /** `len(storage)`: the largest row id, or 0 when the query gives `NULL`
      (`rowid or 0`). */
  function SqlLen(s: SqliteStorage): (r: int)
    ensures |s.rows| == 0 ==> r == 0
    ensures forall i :: 0 <= i < |s.rows| ==> s.rows[i].rowid <= r
    ensures r != 0 ==> exists i :: 0 <= i < |s.rows| && s.rows[i].rowid == r
    ensures Sequential(s) ==> r == |s.rows|
  {
    SequentialLen(s);
    match MaxRowid(s.rows)
    case None => 0
    case Some(m) => if m == 0 then 0 else m
  }

  /** `INSERT INTO storage VALUES (...)`: SQLite gives a row inserted without
      an explicit id the id one above the largest in use, or 1 in an empty
      table. */
  function SqlAppend(s: SqliteStorage, data: Record): (s': SqliteStorage)
    ensures |s'.rows| == |s.rows| + 1 && s'.rows[..|s.rows|] == s.rows
    ensures s'.rows[|s.rows|].data == data
  {
    var id := match MaxRowid(s.rows) case None => 1 case Some(m) => m + 1;
    SqliteStorage(s.rows + [Row(id, data)])
  }

  /** The data of the first row with the given id, if any. */
  function FindRow(rows: seq<Row>, id: int): (r: Option<Record>)
    ensures r.Some? <==> exists i :: 0 <= i < |rows| && rows[i].rowid == id
    ensures r.Some? ==> exists i :: 0 <= i < |rows| && rows[i].rowid == id && rows[i].data == r.value
  {
    if |rows| == 0 then None
    else if rows[0].rowid == id then Some(rows[0].data)
    else FindRow(rows[1..], id)
  }

  /** `storage[key]` reads row id `key + 1`; with no such row `fetchone()`
      gives `None` and `row[0]` raises `TypeError`. */
  function SqlGet(s: SqliteStorage, key: int): (r: Result<Record, Exception>)
    ensures r.Err? ==> r.error == TypeError
    ensures r.Err? <==> forall i :: 0 <= i < |s.rows| ==> s.rows[i].rowid != key + 1
  {
    match FindRow(s.rows, key + 1)
    case None => Err(TypeError)
    case Some(d) => Ok(d)
  }

  /** Row ids are 1, 2, 3, ... in insertion order: what appends alone
      produce. */
  predicate Sequential(s: SqliteStorage)
  {
    forall i :: 0 <= i < |s.rows| ==> s.rows[i].rowid == i + 1
  }

  /** The records of the table in insertion order. */
  function Contents(s: SqliteStorage): (c: seq<Record>)
    ensures |c| == |s.rows|
    ensures forall i :: 0 <= i < |c| ==> c[i] == s.rows[i].data
  {
    seq(|s.rows|, i requires 0 <= i < |s.rows| => s.rows[i].data)
  }

  lemma SequentialLen(s: SqliteStorage)
    ensures Sequential(s) && |s.rows| > 0 ==> MaxRowid(s.rows) == Some(|s.rows|)
  {
    if Sequential(s) && |s.rows| > 0 {
      SequentialMaxRowid(s);
    }
  }

  lemma SequentialMaxRowid(s: SqliteStorage)
    requires Sequential(s) && |s.rows| > 0
    ensures MaxRowid(s.rows) == Some(|s.rows|)
  {
    var m := MaxRowid(s.rows).value;
    var i :| 0 <= i < |s.rows| && s.rows[i].rowid == m;
    assert s.rows[|s.rows| - 1].rowid == |s.rows|;
  }

  /** Appending keeps the row ids sequential and extends the contents by
      exactly the new record. */
  lemma SqlAppendSequential(s: SqliteStorage, data: Record)
    requires Sequential(s)
    ensures Sequential(SqlAppend(s, data))
    ensures Contents(SqlAppend(s, data)) == Contents(s) + [data]
  {
    var s' := SqlAppend(s, data);
    if |s.rows| > 0 {
      SequentialMaxRowid(s);
    }
    assert s'.rows[|s.rows|].rowid == |s.rows| + 1;
  }

  /** Under sequential row ids the SQLite backend honours the in-memory
      contract: same length, and the same record at every index in range. */
  lemma SqlRefinesMemory(s: SqliteStorage, key: int)
    requires Sequential(s)
    ensures SqlLen(s) == MemLen(MemoryStorage(Contents(s)))
    ensures 0 <= key < SqlLen(s) ==> SqlGet(s, key) == MemGet(MemoryStorage(Contents(s)), key)
  {
    SqlLenMatches(s);
    if 0 <= key < |s.rows| {
      SqlGetMatches(s, key);
    }
  }

  /** A sequential table's row count is the list length of its contents. */
  lemma SqlLenMatches(s: SqliteStorage)
    requires Sequential(s)
    ensures SqlLen(s) == |s.rows| == MemLen(MemoryStorage(Contents(s)))
  {
    if |s.rows| > 0 {
      SequentialMaxRowid(s);
    }
  }

  /** A stored index reads the same record from both backends. */
  lemma SqlGetMatches(s: SqliteStorage, key: int)
    requires Sequential(s) && 0 <= key < |s.rows|
    ensures SqlGet(s, key) == MemGet(MemoryStorage(Contents(s)), key)
  {
    SqlLenMatches(s);
    assert s.rows[key].rowid == key + 1;
    var r := FindRow(s.rows, key + 1);
    var i :| 0 <= i < |s.rows| && s.rows[i].rowid == key + 1 && s.rows[i].data == r.value;
  }

  /** Past the end the two backends fail differently: the list raises
      `IndexError`, the table `TypeError` (from `None[0]`). */
  lemma SqlPastEndIsTypeError(s: SqliteStorage, key: int)
    requires Sequential(s) && key >= SqlLen(s)
    ensures SqlGet(s, key) == Err(TypeError)
    ensures MemGet(MemoryStorage(Contents(s)), key) == Err(IndexError)
  {
    SqlRefinesMemory(s, key);
  }

  /** A negative key is where the backends disagree on success: the list
      counts from the end, the table finds no row id `key + 1 <= 0`. */
  lemma SqlNegativeKeyDiverges(s: SqliteStorage, key: int)
    requires Sequential(s) && -SqlLen(s) <= key < 0
    ensures SqlGet(s, key) == Err(TypeError)
    ensures MemGet(MemoryStorage(Contents(s)), key).Ok?
  {
    SqlRefinesMemory(s, key);
  }
}
