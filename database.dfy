/** The SQLite-backed vector memory: a module-level database handle opened
    lazily on first use, a `vec0` virtual table with a 384-wide embedding
    column, an insert that returns the new row id, and a nearest-neighbour
    select.  The engine's distance function stays abstract. */
module VectorDatabase {
  import opened Outcomes
  import opened Json

  type Vector = seq<real>

  /** sqlite-vec's distance between a stored embedding and the query. */
  type DistanceFn = (Vector, Vector) -> real

  /** A row of the vector table: its rowid, embedding and metadata TEXT
      (NULL as `None`). */
  datatype Row = Row(rowid: int, embedding: Vector, metadata: Option<string>)

  /** Row ids are assigned in increasing order, so they are unique. */
  predicate IdsIncreasing(rows: seq<Row>) {
    forall i, j :: 0 <= i < j < |rows| ==> rows[i].rowid < rows[j].rowid
  }

  /** The id SQLite gives the next inserted row: one more than the largest. */
  function NextRowId(rows: seq<Row>): int {
    if rows == [] then 1 else rows[|rows| - 1].rowid + 1
  }

  // ---------------------------------------------------------------------
  // The ORDER BY distance LIMIT k selection
  // ---------------------------------------------------------------------

  function Key(distance: DistanceFn, query: Vector, row: Row): real {
    distance(row.embedding, query)
  }

  predicate Ascending(distance: DistanceFn, query: Vector, rows: seq<Row>) {
    forall i, j :: 0 <= i < j < |rows| ==> Key(distance, query, rows[i]) <= Key(distance, query, rows[j])
  }

  function InsertByDistance(distance: DistanceFn, query: Vector, row: Row, sorted: seq<Row>): seq<Row>
  {
    if sorted == [] then [row]
    else if Key(distance, query, row) < Key(distance, query, sorted[0]) then [row] + sorted
    else [sorted[0]] + InsertByDistance(distance, query, row, sorted[1..])
  }

  /** Every row is at distance `b` or more. */
  predicate AllAtLeast(distance: DistanceFn, query: Vector, rows: seq<Row>, b: real) {
    forall k :: 0 <= k < |rows| ==> b <= Key(distance, query, rows[k])
  }

  lemma {:induction false} InsertByDistanceKeeps(distance: DistanceFn, query: Vector, row: Row, sorted: seq<Row>)
    ensures multiset(InsertByDistance(distance, query, row, sorted)) == multiset(sorted) + multiset{row}
    ensures |InsertByDistance(distance, query, row, sorted)| == |sorted| + 1
  {
    if sorted != [] && Key(distance, query, row) >= Key(distance, query, sorted[0]) {
      InsertByDistanceKeeps(distance, query, row, sorted[1..]);
      assert sorted == [sorted[0]] + sorted[1..];
    }
  }

  lemma {:induction false} InsertByDistanceBound(distance: DistanceFn, query: Vector, row: Row, sorted: seq<Row>, b: real)
    requires b <= Key(distance, query, row) && AllAtLeast(distance, query, sorted, b)
    ensures AllAtLeast(distance, query, InsertByDistance(distance, query, row, sorted), b)
  {
    if sorted != [] && Key(distance, query, row) >= Key(distance, query, sorted[0]) {
      var tail := sorted[1..];
      assert AllAtLeast(distance, query, tail, b) by {
        forall k | 0 <= k < |tail| ensures b <= Key(distance, query, tail[k]) {
          assert tail[k] == sorted[k + 1];
        }
      }
      InsertByDistanceBound(distance, query, row, tail, b);
      var s := InsertByDistance(distance, query, row, sorted);
      var rest := InsertByDistance(distance, query, row, tail);
      forall k | 0 <= k < |s| ensures b <= Key(distance, query, s[k]) {
        if k > 0 {
          assert s[k] == rest[k - 1];
        }
      }
    }
  }

  lemma {:induction false} InsertByDistanceSorts(distance: DistanceFn, query: Vector, row: Row, sorted: seq<Row>)
    requires Ascending(distance, query, sorted)
    ensures Ascending(distance, query, InsertByDistance(distance, query, row, sorted))
  {
    if sorted != [] {
      var s := InsertByDistance(distance, query, row, sorted);
      if Key(distance, query, row) < Key(distance, query, sorted[0]) {
        forall i, j | 0 <= i < j < |s| ensures Key(distance, query, s[i]) <= Key(distance, query, s[j]) {
          assert s[j] == sorted[j - 1];
          if i == 0 {
            assert Key(distance, query, sorted[0]) <= Key(distance, query, sorted[j - 1]);
          } else {
            assert s[i] == sorted[i - 1];
          }
        }
      } else {
        var tail := sorted[1..];
        assert Ascending(distance, query, tail) by {
          forall i, j | 0 <= i < j < |tail| ensures Key(distance, query, tail[i]) <= Key(distance, query, tail[j]) {
            assert tail[i] == sorted[i + 1] && tail[j] == sorted[j + 1];
          }
        }
        assert AllAtLeast(distance, query, tail, Key(distance, query, sorted[0])) by {
          forall k | 0 <= k < |tail| ensures Key(distance, query, sorted[0]) <= Key(distance, query, tail[k]) {
            assert tail[k] == sorted[k + 1];
          }
        }
        InsertByDistanceSorts(distance, query, row, tail);
        InsertByDistanceBound(distance, query, row, tail, Key(distance, query, sorted[0]));
        var rest := InsertByDistance(distance, query, row, tail);
        forall i, j | 0 <= i < j < |s| ensures Key(distance, query, s[i]) <= Key(distance, query, s[j]) {
          assert s[j] == rest[j - 1];
          if i > 0 {
            assert s[i] == rest[i - 1];
          }
        }
      }
    }
  }

  /** The rows ordered by ascending distance to the query. */
  function SortByDistance(distance: DistanceFn, query: Vector, rows: seq<Row>): seq<Row>
  {
    if rows == [] then []
    else InsertByDistance(distance, query, rows[|rows| - 1], SortByDistance(distance, query, rows[..|rows| - 1]))
  }

  lemma {:induction false} SortByDistanceSorts(distance: DistanceFn, query: Vector, rows: seq<Row>)
    ensures Ascending(distance, query, SortByDistance(distance, query, rows))
    ensures multiset(SortByDistance(distance, query, rows)) == multiset(rows)
    ensures |SortByDistance(distance, query, rows)| == |rows|
  {
    if rows != [] {
      var front := rows[..|rows| - 1];
      SortByDistanceSorts(distance, query, front);
      InsertByDistanceSorts(distance, query, rows[|rows| - 1], SortByDistance(distance, query, front));
      InsertByDistanceKeeps(distance, query, rows[|rows| - 1], SortByDistance(distance, query, front));
      assert rows == front + [rows[|rows| - 1]];
    }
  }

  /** `ORDER BY distance LIMIT k` over the table; a negative LIMIT means no
      limit in SQLite.  Rows at equal distance keep their storage order. */
  function Knn(distance: DistanceFn, query: Vector, rows: seq<Row>, limit: int): seq<Row>
  {
    var sorted := SortByDistance(distance, query, rows);
    if limit < 0 || limit >= |sorted| then sorted else sorted[..limit]
  }

  /** In an ascending sequence no row after position `n` is nearer than a
      row before it. */
  lemma PrefixIsNearest(distance: DistanceFn, query: Vector, sorted: seq<Row>, n: nat)
    requires Ascending(distance, query, sorted) && n <= |sorted|
    ensures forall a, b :: a in sorted[..n] && b in multiset(sorted) - multiset(sorted[..n]) ==>
      Key(distance, query, a) <= Key(distance, query, b)
  {
    var rest := sorted[n..];
    assert sorted == sorted[..n] + rest;
    assert multiset(sorted) == multiset(sorted[..n]) + multiset(rest);
    forall a, b | a in sorted[..n] && b in multiset(sorted) - multiset(sorted[..n])
      ensures Key(distance, query, a) <= Key(distance, query, b)
    {
      assert b in multiset(rest);
      var i :| 0 <= i < n && sorted[..n][i] == a;
      var j :| 0 <= j < |rest| && rest[j] == b;
      assert sorted[i] == a && sorted[n + j] == b;
    }
  }

  lemma AscendingPrefix(distance: DistanceFn, query: Vector, sorted: seq<Row>, n: nat)
    requires Ascending(distance, query, sorted) && n <= |sorted|
    ensures Ascending(distance, query, sorted[..n])
    ensures multiset(sorted[..n]) <= multiset(sorted)
  {
    assert forall i :: 0 <= i < n ==> sorted[..n][i] == sorted[i];
    assert sorted == sorted[..n] + sorted[n..];
  }

  /** The selection answers at most `limit` rows of the table, in ascending
      distance, and no row left out is nearer than a row selected. */
  lemma KnnSelectsNearest(distance: DistanceFn, query: Vector, rows: seq<Row>, limit: int)
    ensures var answer := Knn(distance, query, rows, limit);
      && |answer| == (if limit < 0 || limit >= |rows| then |rows| else limit)
      && Ascending(distance, query, answer)
      && multiset(answer) <= multiset(rows)
      && forall a, b :: a in answer && b in multiset(rows) - multiset(answer) ==>
           Key(distance, query, a) <= Key(distance, query, b)
  {
    var sorted := SortByDistance(distance, query, rows);
    SortByDistanceSorts(distance, query, rows);
    var n := if limit < 0 || limit >= |rows| then |rows| else limit;
    assert Knn(distance, query, rows, limit) == sorted[..n];
    PrefixIsNearest(distance, query, sorted, n);
    AscendingPrefix(distance, query, sorted, n);
  }

  /** An exact match is found first: with non-negative distances and a
      stored row at distance 0, a non-zero limit answers a row at distance 0
      first. */
  lemma KnnFindsExactMatch(distance: DistanceFn, query: Vector, rows: seq<Row>, limit: int, m: nat)
    requires m < |rows| && Key(distance, query, rows[m]) == 0.0 && limit != 0
    requires forall i :: 0 <= i < |rows| ==> Key(distance, query, rows[i]) >= 0.0
    ensures var answer := Knn(distance, query, rows, limit);
      |answer| > 0 && Key(distance, query, answer[0]) == 0.0
  {
    KnnSelectsNearest(distance, query, rows, limit);
    var answer := Knn(distance, query, rows, limit);
    var a := answer[0];
    assert a in multiset(answer);
    var t :| 0 <= t < |rows| && rows[t] == a;
    var b := rows[m];
    assert b in multiset(rows);
    if b in multiset(answer) {
      var k :| 0 <= k < |answer| && answer[k] == b;
      assert Key(distance, query, a) <= Key(distance, query, answer[k]);
    } else {
      assert b in multiset(rows) - multiset(answer);
    }
  }

  // ---------------------------------------------------------------------
  // The database
  // ---------------------------------------------------------------------

  const TableName: string := "_memory_table"
  const EmbeddingDimension: nat := 384
  const NoSuchTable: string := "no such table: _memory_table"
  const NoSuchModule: string := "no such module: vec0"

  /** A database file's persisted contents: the embedding width of the
      vector table if it exists, and its rows. */
  datatype FileState = FileState(vecTable: Option<nat>, rows: seq<Row>)

  type DbFile = f: FileState | IdsIncreasing(f.rows) witness FileState(None, [])

  /** An open `SQLiteDatabase` connection.  Which inserts the engine refuses
      is abstract, besides the missing-table case. */
  class Database {
    const name: string
    const distance: DistanceFn
    const rejects: (Vector, Option<string>) -> bool
    var extensionLoaded: bool
    var vecTable: Option<nat>
    var rows: seq<Row>

    ghost predicate Valid()
      reads this
    {
      IdsIncreasing(rows)
    }

    /** `openDatabaseAsync(name)` on a file with the given contents. */
    constructor (name: string, file: DbFile, distance: DistanceFn, rejects: (Vector, Option<string>) -> bool)
      ensures Valid()
      ensures this.name == name && this.distance == distance && this.rejects == rejects
      ensures !extensionLoaded && vecTable == file.vecTable && rows == file.rows
    {
      this.name := name;
      this.distance := distance;
      this.rejects := rejects;
      extensionLoaded := false;
      vecTable := file.vecTable;
      rows := file.rows;
    }

    /** The vector table is only usable through the `vec0` module. */
    predicate Usable()
      reads this
    {
      extensionLoaded && vecTable.Some?
    }

    /** What a statement on an unusable vector table raises: a persisted
        table cannot be opened without the `vec0` module; otherwise the
        table is missing. */
    function UnusableError(): (e: string)
      reads this
      ensures vecTable.None? ==> e == NoSuchTable
      ensures vecTable.Some? && !extensionLoaded ==> e == NoSuchModule
    {
      if !extensionLoaded && vecTable.Some? then NoSuchModule else NoSuchTable
    }

    /** `loadExtensionSync`; `throws` says whether it throws. */
    method LoadExtension(ext: Extension, throws: bool) returns (ok: bool)
      modifies this
      ensures ok == !throws
      ensures extensionLoaded == (old(extensionLoaded) || ok)
      ensures vecTable == old(vecTable) && rows == old(rows)
    {
      ok := !throws;
      if ok {
        extensionLoaded := true;
      }
    }

    /** `CREATE VIRTUAL TABLE IF NOT EXISTS _memory_table USING
        vec0(embedding float[384], metadata TEXT)`: creates the table only
        when it is absent, and needs the `vec0` module. */
    method CreateVecTable(throws: bool) returns (ok: bool)
      modifies this
      ensures ok == (extensionLoaded && !throws)
      ensures vecTable == if ok && old(vecTable).None? then Some(EmbeddingDimension) else old(vecTable)
      ensures extensionLoaded == old(extensionLoaded) && rows == old(rows)
    {
      ok := extensionLoaded && !throws;
      if ok && vecTable.None? {
        vecTable := Some(EmbeddingDimension);
      }
    }

    /** `INSERT INTO _memory_table (embedding, metadata) VALUES (?, ?)`:
        throws, or appends a row with the next row id and returns that id. */
    method Insert(vector: Vector, metadata: Option<string>) returns (r: Result<int, string>)
      requires Valid()
      modifies this
      ensures Valid()
      ensures extensionLoaded == old(extensionLoaded) && vecTable == old(vecTable)
      ensures !old(Usable()) ==> r == Failure(old(UnusableError())) && rows == old(rows)
      ensures rejects(vector, metadata) ==> r.Failure? && rows == old(rows)
      ensures old(Usable()) && !rejects(vector, metadata) ==>
        && r == Success(NextRowId(old(rows)))
        && rows == old(rows) + [Row(NextRowId(old(rows)), vector, metadata)]
    {
      if !Usable() {
        return Failure(UnusableError());
      }
      if rejects(vector, metadata) {
        return Failure("insert rejected");
      }
      var id := NextRowId(rows);
      assert forall i :: 0 <= i < |rows| ==> rows[i].rowid < id by {
        if rows != [] {
          assert forall i :: 0 <= i < |rows| - 1 ==> rows[i].rowid < rows[|rows| - 1].rowid;
        }
      }
      rows := rows + [Row(id, vector, metadata)];
      return Success(id);
    }

    /** `SELECT rowid, metadata, distance ... WHERE embedding MATCH ?
        ORDER BY distance LIMIT ?`. */
    function Select(query: Vector, limit: int): Result<seq<Row>, string>
      reads this
    {
      if !Usable() then Failure(UnusableError()) else Success(Knn(distance, query, rows, limit))
    }
  }

  /** The `sqlite-vec` entry of `bundledExtensions`. */
  datatype Extension = Extension(libPath: string, entryPoint: string)

  /** What the platform does during initialization: the file
      `openDatabaseAsync` opens (`None` when it rejects), the bundled
      extension if any, whether loading it or creating the table throws,
      and the engine's distance and insert refusals. */
  datatype Platform = Platform(
    open: string -> Option<DbFile>,
    extension: Option<Extension>,
    loadThrows: bool,
    createThrows: bool,
    distance: DistanceFn,
    rejects: (Vector, Option<string>) -> bool)

  /** A first initialization returns the handle, rather than `undefined`,
      unless loading the extension or creating the table throws. */
  predicate SetupSucceeds(p: Platform) {
    p.extension.None? || (!p.loadThrows && !p.createThrows)
  }

  /** `metadata ? JSON.stringify(metadata) : null`. */
  function MetadataText(codec: Codec, metadata: Option<Record>): (t: Option<string>)
    ensures metadata.None? ==> t == None
    ensures metadata.Some? ==> t == Some(codec.stringify(metadata.value))
  {
    match metadata
    case None => None
    case Some(m) => Some(codec.stringify(m))
  }

  /** One answer of `searchSimilar`. */
  datatype SimilarRow = SimilarRow(id: int, metadata: Option<Record>, distance: real)

  /** `row.metadata ? JSON.parse(row.metadata) : null`: NULL and the empty
      string give null; text that does not parse throws. */
  function ParseMetadata(codec: Codec, text: Option<string>): (r: Result<Option<Record>, string>)
    ensures text.None? || text == Some("") ==> r == Success(None)
    ensures text.Some? && text.value != "" ==>
      (r.Success? <==> codec.parse(text.value).Some?) &&
      (r.Success? ==> r.value == codec.parse(text.value))
  {
    if text.None? || text.value == "" then Success(None)
    else match codec.parse(text.value)
      case None => Failure("SyntaxError: JSON.parse")
      case Some(m) => Success(Some(m))
  }

  /** Metadata written by `writeEmbedding` reads back as it was written. */
  lemma MetadataReadsBack(codec: Codec, metadata: Option<Record>)
    requires metadata.Some? ==> RoundTrips(codec, metadata.value)
    ensures ParseMetadata(codec, MetadataText(codec, metadata)) == Success(metadata)
  {
  }

  /** `results.map(row => ({ id: row.rowid, metadata: ..., distance }))`;
      a metadata text that does not parse makes the whole call throw. */
  function ToSimilar(codec: Codec, distance: DistanceFn, query: Vector, rows: seq<Row>): (r: Result<seq<SimilarRow>, string>)
    ensures r.Success? <==> forall i :: 0 <= i < |rows| ==> ParseMetadata(codec, rows[i].metadata).Success?
    ensures r.Success? ==> |r.value| == |rows| && forall i :: 0 <= i < |rows| ==>
      r.value[i] == SimilarRow(rows[i].rowid, ParseMetadata(codec, rows[i].metadata).value, distance(rows[i].embedding, query))
  {
    if rows == [] then Success([])
    else
      var head := ParseMetadata(codec, rows[0].metadata);
      var tail := ToSimilar(codec, distance, query, rows[1..]);
      if head.Failure? then Failure(head.error)
      else if tail.Failure? then Failure(tail.error)
      else Success([SimilarRow(rows[0].rowid, head.value, distance(rows[0].embedding, query))] + tail.value)
  }

  /** What `searchSimilar` answers over a usable table: at most `limit`
      rows (when `limit` is not negative), nearest first. */
  lemma SearchAnswersNearestFirst(codec: Codec, distance: DistanceFn, query: Vector, rows: seq<Row>, limit: int)
    ensures var r := ToSimilar(codec, distance, query, Knn(distance, query, rows, limit));
      r.Success? ==>
        && (limit >= 0 ==> |r.value| <= limit)
        && |r.value| <= |rows|
        && forall i, j :: 0 <= i < j < |r.value| ==> r.value[i].distance <= r.value[j].distance
  {
    KnnSelectsNearest(distance, query, rows, limit);
    var answer := Knn(distance, query, rows, limit);
    var r := ToSimilar(codec, distance, query, answer);
    if r.Success? {
      forall i, j | 0 <= i < j < |r.value| ensures r.value[i].distance <= r.value[j].distance {
        assert Key(distance, query, answer[i]) <= Key(distance, query, answer[j]);
      }
    }
  }

  /** The state a first `initDatabase` leaves the handle it opened on
      `file` in: the extension loaded unless loading throws or none is
      bundled, and the table created only when setup succeeds and none was
      persisted.  The handle's rows are stated separately. */
  ghost predicate OpenedBy(d: Database, p: Platform, file: DbFile)
    reads d
  {
    && d.name == TableName && d.distance == p.distance && d.rejects == p.rejects
    && d.extensionLoaded == (p.extension.Some? && !p.loadThrows)
    && d.vecTable == (if p.extension.Some? && SetupSucceeds(p) && file.vecTable.None?
                      then Some(EmbeddingDimension) else file.vecTable)
  }

  /** The module-level `db` variable and the functions around it. */
  class DatabaseModule {
    var db: Database?

    ghost predicate Valid()
      reads this, db
    {
      db != null ==> db.Valid()
    }

    constructor ()
      ensures db == null && Valid()
    {
      db := null;
    }

    /** `initDatabase`.  An existing handle is returned as it is.  Otherwise
        the database is opened and `db` is set before the extension and
        table steps; if one of those throws, this call returns `None`
        (`undefined`) but `db` stays set. */
    method InitDatabase(p: Platform) returns (r: Database?)
      requires Valid()
      modifies this
      ensures Valid()
      ensures old(db) != null ==> db == old(db) && r == db
      ensures old(db) == null && p.open(TableName).None? ==> db == null && r == null
      ensures old(db) == null && p.open(TableName).Some? ==>
        var file := p.open(TableName).value;
        && db != null && fresh(db)
        && OpenedBy(db, p, file) && db.rows == file.rows
        && r == (if SetupSucceeds(p) then db else null)
    {
      if db != null {
        return db;
      }
      var file := p.open(TableName);
      if file.None? {
        return null;
      }
      var handle := new Database(TableName, file.value, p.distance, p.rejects);
      db := handle;
      if p.extension.Some? {
        var loaded := handle.LoadExtension(p.extension.value, p.loadThrows);
        if !loaded {
          return null;
        }
        var created := handle.CreateVecTable(p.createThrows);
        if !created {
          return null;
        }
      }
      return handle;
    }

    /** `writeEmbedding`: the new row id, -1 when initialization gave no
        handle, or the insert's exception. */
    method WriteEmbedding(p: Platform, codec: Codec, vector: Vector, metadata: Option<Record>) returns (r: Result<int, string>)
      requires Valid()
      modifies this, db
      ensures Valid()
      ensures old(db) != null ==>
        var text := MetadataText(codec, metadata);
        var id := NextRowId(old(db.rows));
        && db == old(db)
        && db.extensionLoaded == old(db.extensionLoaded) && db.vecTable == old(db.vecTable)
        && if old(db.Usable()) && !db.rejects(vector, text)
           then r == Success(id) && db.rows == old(db.rows) + [Row(id, vector, text)]
           else r.Failure? && db.rows == old(db.rows)
      ensures old(db) == null && p.open(TableName).None? ==> db == null && r == Success(-1)
      ensures old(db) == null && p.open(TableName).Some? ==>
        var file := p.open(TableName).value;
        var text := MetadataText(codec, metadata);
        var id := NextRowId(file.rows);
        && db != null && fresh(db) && OpenedBy(db, p, file)
        && if !SetupSucceeds(p) then r == Success(-1) && db.rows == file.rows
           else if p.extension.Some? && !p.rejects(vector, text)
           then r == Success(id) && db.rows == file.rows + [Row(id, vector, text)]
           else r.Failure? && db.rows == file.rows
    {
      var database := InitDatabase(p);
      var text := MetadataText(codec, metadata);
      if database == null {
        return Success(-1);
      }
      r := database.Insert(vector, text);
    }

    /** `searchSimilar`: `[]` when initialization gave no handle; otherwise
        the selected rows with parsed metadata and their distance. */
    method SearchSimilar(p: Platform, codec: Codec, query: Vector, limit: Option<int>) returns (r: Result<seq<SimilarRow>, string>)
      requires Valid()
      modifies this
      ensures Valid()
      ensures old(db) != null ==>
        && db == old(db)
        && r == match db.Select(query, limit.GetOr(5))
                case Failure(e) => Failure(e)
                case Success(rows) => ToSimilar(codec, db.distance, query, rows)
      ensures old(db) == null && p.open(TableName).None? ==> db == null && r == Success([])
      ensures old(db) == null && p.open(TableName).Some? ==>
        var file := p.open(TableName).value;
        && db != null && fresh(db) && OpenedBy(db, p, file) && db.rows == file.rows
        && if !SetupSucceeds(p) then r == Success([])
           else if p.extension.Some?
           then r == ToSimilar(codec, p.distance, query, Knn(p.distance, query, file.rows, limit.GetOr(5)))
           else r == Failure(if file.vecTable.Some? then NoSuchModule else NoSuchTable)
    {
      var database := InitDatabase(p);
      if database == null {
        return Success([]);
      }
      var rows := database.Select(query, limit.GetOr(5));
      if rows.Failure? {
        return Failure(rows.error);
      }
      return ToSimilar(codec, database.distance, query, rows.value);
    }
  }

  /** A failed table step is not retried: the second call returns the handle
      the first one stored, and leaves the table as the first call left it. */
  method InitRetryScenario(p: Platform, later: Platform)
    requires p.open(TableName).Some? && p.extension.Some? && !p.loadThrows && p.createThrows
  {
    var m := new DatabaseModule();
    var first := m.InitDatabase(p);
    assert first == null && m.db != null;
    var handle := m.db;
    var table := handle.vecTable;
    var second := m.InitDatabase(later);
    assert second == handle && handle.vecTable == table;
  }

  /** First calls on a fresh module: with sqlite-vec bundled and nothing
      throwing, a write gets the next row id of the persisted table and a
      search selects over the persisted rows; without the extension a write
      fails; when loading it throws, a write answers -1 but keeps the
      handle. */
  method FirstCallScenario(p: Platform, codec: Codec, v: Vector, q: Vector)
    requires p.open(TableName).Some? && p.extension.Some? && !p.createThrows && !p.rejects(v, None)
  {
    var file := p.open(TableName).value;
    var working := p.(loadThrows := false);
    var m := new DatabaseModule();
    var id := m.WriteEmbedding(working, codec, v, None);
    assert id == Success(NextRowId(file.rows));
    m := new DatabaseModule();
    var found := m.SearchSimilar(working, codec, q, None);
    assert found == ToSimilar(codec, p.distance, q, Knn(p.distance, q, file.rows, 5));
    m := new DatabaseModule();
    var bare := m.WriteEmbedding(p.(extension := None), codec, v, None);
    assert bare.Failure?;
    m := new DatabaseModule();
    var failed := m.WriteEmbedding(p.(loadThrows := true), codec, v, None);
    assert failed == Success(-1) && m.db != null;
  }
}
