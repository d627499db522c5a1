/** `insert_data` of `src/utils/insert_data.py` against the tables of
    `Schema`, and the per-table row loop of `handle_insert` in
    `src/data_transfer.py` that calls it.

    The database keeps, per table, the stored rows by primary-key value. An
    insert builds its statement text, is bound against the table, converts
    each cell to its column's type, then checks NOT NULL on the key, the
    Season CHECK and key uniqueness. Which cell a column type accepts is the
    database's business and is passed in as `casts`. */
module Loader {
  import opened Basics
  import opened Records
  import opened Schema

  /** What `insert_data` does: return `None` (the row went in), return `404`
      (a constraint refused it), return `500` (binding failed), or let an
      exception through. */
  datatype Outcome = ReturnsNone | Returns404 | Returns500 | Raises

  /** A table's stored rows by primary-key value. */
  type Stored = map<seq<Value>, Row>

  /** The database: stored rows by table name. */
  datatype Db = Db(tables: map<string, Stored>)

  datatype Step = Step(outcome: Outcome, db: Db)

  /* ---------------------------------------------------------------------
     The statement text
     --------------------------------------------------------------------- */

  /** `"?, " * (n - 1) + "?"`. */
  function Placeholders(n: int): string {
    Repeat("?, ", n - 1) + "?"
  }

  function Statement(table: string, n: int): string {
    "INSERT INTO " + table + " VALUES (" + Placeholders(n) + ")"
  }

  lemma NoOccurrences(s: string, c: char)
    requires forall k :: 0 <= k < |s| ==> s[k] != c
    ensures Occurrences(s, c) == 0
    decreases |s|
  {
    if |s| > 0 {
      NoOccurrences(s[1..], c);
    }
  }

  lemma {:induction false} RepeatOccurrences(s: string, k: int, c: char)
    ensures Occurrences(Repeat(s, k), c) == if k <= 0 then 0 else k * Occurrences(s, c)
    decreases if k <= 0 then 0 else k
  {
    if k > 0 {
      var o := Occurrences(s, c);
      assert Repeat(s, k) == s + Repeat(s, k - 1);
      OccurrencesAppend(s, Repeat(s, k - 1), c);
      RepeatOccurrences(s, k - 1, c);
      assert Occurrences(Repeat(s, k - 1), c) == if k - 1 <= 0 then 0 else (k - 1) * o;
      assert k * o == o + (k - 1) * o;
    }
  }

  /** `n` cells ask for `max(n, 1)` parameter markers, separated by
      `max(n - 1, 0)` commas: an empty row still asks for one value. */
  lemma PlaceholderMarkers(n: int)
    ensures Occurrences(Placeholders(n), '?') == if n <= 1 then 1 else n
    ensures Occurrences(Placeholders(n), ',') == if n <= 1 then 0 else n - 1
  {
    assert Occurrences("?, ", '?') == 1;
    assert Occurrences("?, ", ',') == 1;
    assert Occurrences("?", '?') == 1;
    assert Occurrences("?", ',') == 0;
    RepeatOccurrences("?, ", n - 1, '?');
    RepeatOccurrences("?, ", n - 1, ',');
    OccurrencesAppend(Repeat("?, ", n - 1), "?", '?');
    OccurrencesAppend(Repeat("?, ", n - 1), "?", ',');
  }

  /** The fixed text around the placeholder list holds no marker. */
  lemma StatementFrameMarkers()
    ensures Occurrences("INSERT INTO ", '?') == 0
    ensures Occurrences(" VALUES (", '?') == 0
    ensures Occurrences(")", '?') == 0
  {
    HeadMarkers();
    MidMarkers();
    NoOccurrences(")", '?');
  }

  lemma HeadMarkers()
    ensures Occurrences("INSERT INTO ", '?') == 0
  {
    var head := "INSERT INTO ";
    assert head == "INSERT" + " INTO ";
    NoOccurrences("INSERT", '?');
    NoOccurrences(" INTO ", '?');
    OccurrencesAppend("INSERT", " INTO ", '?');
  }

  lemma MidMarkers()
    ensures Occurrences(" VALUES (", '?') == 0
  {
    var mid := " VALUES (";
    assert mid == " VAL" + "UES (";
    NoOccurrences(" VAL", '?');
    NoOccurrences("UES (", '?');
    OccurrencesAppend(" VAL", "UES (", '?');
  }

  /** The markers of the statement are those of its placeholder list. */
  lemma StatementMarkers(name: string, n: int)
    requires Occurrences(name, '?') == 0
    ensures Occurrences(Statement(name, n), '?') == if n <= 1 then 1 else n
  {
    var head, mid, tail := "INSERT INTO ", " VALUES (", ")";
    StatementFrameMarkers();
    PlaceholderMarkers(n);
    var p := Placeholders(n);
    assert Statement(name, n) == head + name + mid + p + tail;
    OccurrencesAppend(head, name, '?');
    OccurrencesAppend(head + name, mid, '?');
    OccurrencesAppend(head + name + mid, p, '?');
    OccurrencesAppend(head + name + mid + p, tail, '?');
  }

  /** No table name holds a marker. */
  lemma NameMarkers(t: TableName)
    ensures Occurrences(NameText(t), '?') == 0
  {
    NoOccurrences(NameText(t), '?');
  }

  /* ---------------------------------------------------------------------
     One insert
     --------------------------------------------------------------------- */

  /** The tables in the order the schema creates them. */
  const Declared: seq<TableName> :=
    [TableName.Status, TableName.User, TableName.WebAsset, TableName.Studio,
     TableName.Tag, TableName.Genre, TableName.Anime, TableName.Review]

  /** The table a statement names, if the schema declares it. */
  function TableNamed(name: string): (r: Option<TableName>)
    ensures r.Some? ==> NameText(r.value) == name
  {
    NamedAmong(name, Declared)
  }

  /** The first of `tables` whose name is `name`. */
  function NamedAmong(name: string, tables: seq<TableName>): (r: Option<TableName>)
    ensures r.Some? ==> NameText(r.value) == name && r.value in tables
    ensures r.None? ==> forall k :: 0 <= k < |tables| ==> NameText(tables[k]) != name
  {
    if |tables| == 0 then None
    else if NameText(tables[0]) == name then Some(tables[0])
    else NamedAmong(name, tables[1..])
  }

  /** Every table is found under its own name: no two share one. */
  lemma TableNamedText(t: TableName)
    ensures TableNamed(NameText(t)) == Some(t)
  {
    var k := match t
      case Status => 0 case User => 1 case WebAsset => 2 case Studio => 3
      case Tag => 4 case Genre => 5 case Anime => 6 case Review => 7;
    assert Declared[k] == t;
    forall l | 0 <= l < k
      ensures NameText(Declared[l]) != NameText(t)
    {
      assert Declared[l] != t;
      NamesDiffer(Declared[l], t);
    }
    NamedAmongAt(NameText(t), Declared, k);
  }

  /** Distinct tables have distinct names. */
  lemma NamesDiffer(a: TableName, b: TableName)
    requires a != b
    ensures NameText(a) != NameText(b)
  {
    if |NameText(a)| == |NameText(b)| {
      assert NameText(a)[2] != NameText(b)[2] || NameText(a)[0] != NameText(b)[0];
    }
  }

  /** The lookup stops at the first table carrying the name. */
  lemma {:induction false} NamedAmongAt(name: string, tables: seq<TableName>, k: nat)
    requires k < |tables| && NameText(tables[k]) == name
    requires forall l :: 0 <= l < k ==> NameText(tables[l]) != name
    ensures NamedAmong(name, tables) == Some(tables[k])
    decreases k
  {
    if k > 0 {
      NamedAmongAt(name, tables[1..], k - 1);
    }
  }

  /** The primary-key value of a row. */
  function KeyOf(row: Row, key: seq<nat>): (k: seq<Value>)
    requires forall j :: 0 <= j < |key| ==> key[j] < |row|
    ensures |k| == |key|
  {
    seq(|key|, j requires 0 <= j < |key| => row[key[j]])
  }

  /** Every cell converts to its column's type. */
  predicate Converts(row: Row, types: seq<SqlType>, casts: (Value, SqlType) -> bool)
    requires |row| == |types|
  {
    forall c :: 0 <= c < |row| ==> casts(row[c], types[c])
  }

  /** NOT NULL on the key columns and the Season CHECK hold. */
  predicate Constraints(row: Row, def: TableDef)
    requires def.WellFormed() && |row| == |def.columns|
  {
    && (forall j :: 0 <= j < |def.key| ==> row[def.key[j]] != Null)
    && (def.seasonCheck.Some? ==> row[def.seasonCheck.value].Str? && row[def.seasonCheck.value].s in Seasons)
  }

  /** The statement names a table the database holds. */
  predicate Known(db: Db, name: string) {
    TableNamed(name).Some? && name in db.tables
  }

  /** `insert_data`: an unknown table raises before anything is bound; a
      known one goes through `InsertInto` with its declared definition. */
  function Insert(db: Db, name: string, row: Row, casts: (Value, SqlType) -> bool): (s: Step)
    ensures s.outcome != ReturnsNone ==> s.db == db
    ensures !Known(db, name) ==> s.outcome == Raises
    ensures s.outcome == ReturnsNone ==> Known(db, name) && name in s.db.tables
  {
    if !Known(db, name) then Step(Raises, db)
    else
      var t := TableNamed(name).value;
      var def := Table(t);
      NameMarkers(t);
      assert Occurrences(name, '?') == 0 && def.WellFormed() && |def.columns| >= 2;
      InsertInto(db, name, def, row, casts)
  }

  /** The insert into a table the database holds, once its definition is
      known: bind, convert, check the constraints, store. */
  function InsertInto(db: Db, name: string, def: TableDef, row: Row, casts: (Value, SqlType) -> bool): (s: Step)
    requires name in db.tables && Occurrences(name, '?') == 0
    requires def.WellFormed() && |def.columns| >= 2
    ensures s.outcome != ReturnsNone ==> s.db == db
    ensures s.outcome == Raises <==> |row| == |def.columns| && !Converts(row, def.types, casts)
    ensures s.outcome == Returns500 <==> |row| != |def.columns|
    ensures s.outcome == Returns404 <==>
              && |row| == |def.columns| && Converts(row, def.types, casts)
              && (!Constraints(row, def) || KeyOf(row, def.key) in db.tables[name])
    ensures s.outcome == ReturnsNone ==>
              && |row| == |def.columns| && Constraints(row, def)
              && KeyOf(row, def.key) !in db.tables[name]
              && s.db.tables == db.tables[name := db.tables[name][KeyOf(row, def.key) := row]]
  {
    StatementMarkers(name, |row|);
    if Occurrences(Statement(name, |row|), '?') != |def.columns| then Step(Returns500, db)
    else if !Converts(row, def.types, casts) then Step(Raises, db)
    else if !Constraints(row, def) then Step(Returns404, db)
    else if KeyOf(row, def.key) in db.tables[name] then Step(Returns404, db)
    else Step(ReturnsNone, Db(db.tables[name := db.tables[name][KeyOf(row, def.key) := row]]))
  }

  /* ---------------------------------------------------------------------
     Growth of the database
     --------------------------------------------------------------------- */

  /** `later` holds the same tables as `earlier`, and every stored row of
      `earlier` unchanged. */
  predicate Extends(later: Db, earlier: Db) {
    && later.tables.Keys == earlier.tables.Keys
    && forall name :: name in earlier.tables ==>
         && earlier.tables[name].Keys <= later.tables[name].Keys
         && forall k :: k in earlier.tables[name] ==> later.tables[name][k] == earlier.tables[name][k]
  }

  /** What `Extends` says about one stored row. */
  lemma ExtendsAt(later: Db, earlier: Db, name: string, k: seq<Value>)
    requires Extends(later, earlier) && name in earlier.tables && k in earlier.tables[name]
    ensures name in later.tables && k in later.tables[name]
    ensures later.tables[name][k] == earlier.tables[name][k]
  {
  }

  /** Growth composes. */
  lemma ExtendsTrans(c: Db, b: Db, a: Db)
    requires Extends(c, b) && Extends(b, a)
    ensures Extends(c, a)
  {
  }

  /** An insert only ever adds a row under a fresh key. */
  lemma InsertExtends(db: Db, name: string, row: Row, casts: (Value, SqlType) -> bool)
    ensures Extends(Insert(db, name, row, casts).db, db)
  {
    var s := Insert(db, name, row, casts);
    if s.outcome == ReturnsNone {
      var def := Table(TableNamed(name).value);
      var key := KeyOf(row, def.key);
      NameMarkers(TableNamed(name).value);
      assert s == InsertInto(db, name, def, row, casts);
      StoreExtends(db, name, key, row);
    }
  }

  /** The key a row is stored under, when the statement names a declared
      table and the row is as wide as that table. */
  function StoredKey(name: string, row: Row): Option<seq<Value>> {
    var t := TableNamed(name);
    if t.Some? && |row| == |Table(t.value).columns| then Some(KeyOf(row, Table(t.value).key)) else None
  }

  /** A row that went in is stored under its own fresh key, and nothing
      else in the database changes. */
  lemma InsertStores(db: Db, name: string, row: Row, casts: (Value, SqlType) -> bool)
    requires Insert(db, name, row, casts).outcome == ReturnsNone
    ensures name in db.tables && StoredKey(name, row).Some?
    ensures StoredKey(name, row).value !in db.tables[name]
    ensures Insert(db, name, row, casts).db.tables
            == db.tables[name := db.tables[name][StoredKey(name, row).value := row]]
  {
    var t := TableNamed(name).value;
    NameMarkers(t);
    assert Insert(db, name, row, casts) == InsertInto(db, name, Table(t), row, casts);
  }

  /** Every table other than `name` is as it was. */
  predicate OthersUnchanged(later: Db, earlier: Db, name: string) {
    forall n :: n in earlier.tables && n != name ==> n in later.tables && later.tables[n] == earlier.tables[n]
  }

  /** An insert touches no table other than the one it names. */
  lemma InsertFrame(db: Db, name: string, row: Row, casts: (Value, SqlType) -> bool)
    ensures OthersUnchanged(Insert(db, name, row, casts).db, db, name)
  {
    if Insert(db, name, row, casts).outcome == ReturnsNone {
      InsertStores(db, name, row, casts);
    }
  }

  /** Storing a row under a fresh key of a table extends the database. */
  lemma StoreExtends(db: Db, name: string, key: seq<Value>, row: Row)
    requires name in db.tables && key !in db.tables[name]
    ensures Extends(Db(db.tables[name := db.tables[name][key := row]]), db)
  {
  }

  /** Inserting the row again is refused, with `404` or `500`. */
  predicate Settled(db: Db, name: string, row: Row, casts: (Value, SqlType) -> bool) {
    Insert(db, name, row, casts).outcome in {Returns404, Returns500}
  }

  /** A row that does not raise is settled once it has been tried. */
  lemma InsertSettles(db: Db, name: string, row: Row, casts: (Value, SqlType) -> bool)
    requires Insert(db, name, row, casts).outcome != Raises
    ensures Settled(Insert(db, name, row, casts).db, name, row, casts)
  {
  }

  /** A settled row stays settled as the database grows. */
  lemma SettledStays(db: Db, later: Db, name: string, row: Row, casts: (Value, SqlType) -> bool)
    requires Settled(db, name, row, casts) && Extends(later, db)
    ensures Settled(later, name, row, casts)
  {
    var s := Insert(db, name, row, casts);
    if s.outcome == Returns404 {
      var def := Table(TableNamed(name).value);
      if Constraints(row, def) {
        assert KeyOf(row, def.key) in db.tables[name];
        assert KeyOf(row, def.key) in later.tables[name];
      }
    }
  }

  /** Inserting the same row twice: `None` then `404`, and the table holds the
      key once, with the first row. */
  lemma InsertTwice(db: Db, name: string, row: Row, casts: (Value, SqlType) -> bool)
    requires Insert(db, name, row, casts).outcome == ReturnsNone
    ensures
      var once := Insert(db, name, row, casts).db;
      var twice := Insert(once, name, row, casts);
      var key := KeyOf(row, Table(TableNamed(name).value).key);
      && twice.outcome == Returns404 && twice.db == once
      && key in once.tables[name] && once.tables[name][key] == row
      && |once.tables[name].Keys| == |db.tables[name].Keys| + 1
  {
  }

  /** The Anime CHECK: a Season outside the four season names is refused
      with `404` and the table is unchanged. */
  lemma SeasonChecked(db: Db, row: Row, casts: (Value, SqlType) -> bool)
    requires "Anime" in db.tables && |row| == |Table(Anime).columns|
    requires Converts(row, Table(Anime).types, casts)
    requires row[1] == Null || (row[1].Str? && row[1].s !in Seasons)
    ensures Insert(db, "Anime", row, casts) == Step(Returns404, db)
  {
    TableNamedText(Anime);
    assert Known(db, "Anime");
    var def := Table(Anime);
    assert def.seasonCheck == Some(1);
    assert !Constraints(row, def);
  }

  /* ---------------------------------------------------------------------
     The row loop of handle_insert
     --------------------------------------------------------------------- */

  /** The database after a loop, and the outcome of each row tried. */
  datatype Load = Load(db: Db, outcomes: seq<Outcome>)

  /** The outcomes of a loop over `n` rows that stops at the first
      exception: only the last outcome may be `Raises`, and without one
      every row was tried. */
  predicate StopsAtRaise(outcomes: seq<Outcome>, n: nat) {
    && |outcomes| <= n
    && (forall j :: 0 <= j < |outcomes| - 1 ==> outcomes[j] != Raises)
    && (Raises !in outcomes ==> |outcomes| == n)
    && (Raises in outcomes ==> outcomes[|outcomes| - 1] == Raises)
  }

  /** A row that did not raise, followed by the outcomes of the rest. */
  lemma PrependOutcome(o: Outcome, rest: seq<Outcome>, n: nat)
    requires o != Raises && StopsAtRaise(rest, n)
    ensures StopsAtRaise([o] + rest, n + 1)
  {
    var outs := [o] + rest;
    assert forall j :: 1 <= j < |outs| ==> outs[j] == rest[j - 1];
    assert Raises in outs <==> Raises in rest;
  }

  /** The keys table `name` gained are exactly those of the rows that
      answered `None`: each new key holds the row stored under it, and each
      such row's key is new. */
  predicate StoresExactly(later: Db, earlier: Db, name: string, rows: seq<Row>, outcomes: seq<Outcome>)
    requires |outcomes| <= |rows|
  {
    GainedFromRows(later, earlier, name, rows, outcomes) && RowsGained(later, earlier, name, rows, outcomes)
  }

  /** Every key table `name` gained holds a row that answered `None` and
      belongs under that key. */
  predicate GainedFromRows(later: Db, earlier: Db, name: string, rows: seq<Row>, outcomes: seq<Outcome>)
    requires |outcomes| <= |rows|
  {
    name in earlier.tables ==>
      && name in later.tables
      && forall k :: k in later.tables[name] && k !in earlier.tables[name] ==>
           exists j :: 0 <= j < |outcomes| && outcomes[j] == ReturnsNone
                       && StoredKey(name, rows[j]) == Some(k) && later.tables[name][k] == rows[j]
  }

  /** Every row that answered `None` gave table `name` a key it lacked. */
  predicate RowsGained(later: Db, earlier: Db, name: string, rows: seq<Row>, outcomes: seq<Outcome>)
    requires |outcomes| <= |rows|
  {
    name in earlier.tables ==>
      && name in later.tables
      && forall j :: 0 <= j < |outcomes| && outcomes[j] == ReturnsNone ==>
           && StoredKey(name, rows[j]).Some?
           && StoredKey(name, rows[j]).value in later.tables[name]
           && StoredKey(name, rows[j]).value !in earlier.tables[name]
  }

  /** Inserts the rows in order; an exception ends the loop, and the rows
      after it are not tried. `404` and `500` are reported and the loop
      goes on. */
  function LoadRows(db: Db, name: string, rows: seq<Row>, casts: (Value, SqlType) -> bool): (l: Load)
    ensures Extends(l.db, db)
    ensures StopsAtRaise(l.outcomes, |rows|)
    decreases |rows|
  {
    if |rows| == 0 then Load(db, [])
    else
      var s := Insert(db, name, rows[0], casts);
      InsertExtends(db, name, rows[0], casts);
      if s.outcome == Raises then Load(db, [Raises])
      else
        var rest := LoadRows(s.db, name, rows[1..], casts);
        ExtendsTrans(rest.db, s.db, db);
        PrependOutcome(s.outcome, rest.outcomes, |rows| - 1);
        Load(rest.db, [s.outcome] + rest.outcomes)
  }

  /** A loop touches no table but its own, and the keys that table gains
      are exactly those of the rows that answered `None`, each holding its
      row. */
  lemma {:induction false} LoadRowsFrame(db: Db, name: string, rows: seq<Row>, casts: (Value, SqlType) -> bool)
    ensures OthersUnchanged(LoadRows(db, name, rows, casts).db, db, name)
    ensures StoresExactly(LoadRows(db, name, rows, casts).db, db, name, rows, LoadRows(db, name, rows, casts).outcomes)
    decreases |rows|
  {
    if |rows| > 0 && Insert(db, name, rows[0], casts).outcome != Raises {
      var s := Insert(db, name, rows[0], casts);
      LoadRowsFrame(s.db, name, rows[1..], casts);
      LoadRowsCons(db, name, rows, casts);
      LoadStep(db, name, rows, casts, LoadRows(s.db, name, rows[1..], casts));
    }
  }

  /** The first row's insert followed by the loop over the others keeps
      the frame of both. */
  lemma LoadStep(db: Db, name: string, rows: seq<Row>, casts: (Value, SqlType) -> bool, rest: Load)
    requires |rows| > 0 && |rest.outcomes| < |rows|
    requires Insert(db, name, rows[0], casts).outcome != Raises
    requires Extends(rest.db, Insert(db, name, rows[0], casts).db)
    requires OthersUnchanged(rest.db, Insert(db, name, rows[0], casts).db, name)
    requires StoresExactly(rest.db, Insert(db, name, rows[0], casts).db, name, rows[1..], rest.outcomes)
    ensures OthersUnchanged(rest.db, db, name)
    ensures StoresExactly(rest.db, db, name, rows, [Insert(db, name, rows[0], casts).outcome] + rest.outcomes)
  {
    var s := Insert(db, name, rows[0], casts);
    InsertFrame(db, name, rows[0], casts);
    if name in db.tables {
      if s.outcome == ReturnsNone {
        InsertStores(db, name, rows[0], casts);
        StoreGained(db, s.db, rest, name, rows, s.outcome);
        StoreRowsGained(db, s.db, rest, name, rows, s.outcome);
      } else {
        ShiftGained(db, rest, name, rows, s.outcome);
        ShiftRowsGained(db, rest, name, rows, s.outcome);
      }
    }
  }

  /** A row of the loop over the other rows is the next row of the whole
      loop: a witness for a gained key moves one place on. */
  lemma ShiftWitness(later: Db, name: string, rows: seq<Row>, o: Outcome, outcomes: seq<Outcome>, k: seq<Value>, j: nat)
    requires |rows| > 0 && |outcomes| < |rows| && j < |outcomes| && outcomes[j] == ReturnsNone
    requires StoredKey(name, rows[1..][j]) == Some(k)
    requires name in later.tables && k in later.tables[name] && later.tables[name][k] == rows[1..][j]
    ensures exists i :: 0 <= i < |[o] + outcomes| && ([o] + outcomes)[i] == ReturnsNone
                        && StoredKey(name, rows[i]) == Some(k) && later.tables[name][k] == rows[i]
  {
    assert ([o] + outcomes)[j + 1] == ReturnsNone && rows[j + 1] == rows[1..][j];
  }

  /** `GainedFromRows` after a first row that stored nothing. */
  lemma ShiftGained(db: Db, rest: Load, name: string, rows: seq<Row>, o: Outcome)
    requires |rows| > 0 && |rest.outcomes| < |rows| && o != ReturnsNone
    requires GainedFromRows(rest.db, db, name, rows[1..], rest.outcomes)
    ensures GainedFromRows(rest.db, db, name, rows, [o] + rest.outcomes)
  {
    var outs := [o] + rest.outcomes;
    if name in db.tables {
      forall k | k in rest.db.tables[name] && k !in db.tables[name]
        ensures exists j :: 0 <= j < |outs| && outs[j] == ReturnsNone
                            && StoredKey(name, rows[j]) == Some(k) && rest.db.tables[name][k] == rows[j]
      {
        var j :| 0 <= j < |rest.outcomes| && rest.outcomes[j] == ReturnsNone
                 && StoredKey(name, rows[1..][j]) == Some(k) && rest.db.tables[name][k] == rows[1..][j];
        ShiftWitness(rest.db, name, rows, o, rest.outcomes, k, j);
      }
    }
  }

  /** `RowsGained` after a first row that stored nothing. */
  lemma ShiftRowsGained(db: Db, rest: Load, name: string, rows: seq<Row>, o: Outcome)
    requires |rows| > 0 && |rest.outcomes| < |rows| && o != ReturnsNone
    requires RowsGained(rest.db, db, name, rows[1..], rest.outcomes)
    ensures RowsGained(rest.db, db, name, rows, [o] + rest.outcomes)
  {
    var outs := [o] + rest.outcomes;
    if name in db.tables {
      forall j | 0 <= j < |outs| && outs[j] == ReturnsNone
        ensures StoredKey(name, rows[j]).Some? && StoredKey(name, rows[j]).value in rest.db.tables[name]
        ensures StoredKey(name, rows[j]).value !in db.tables[name]
      {
        assert outs[j] == rest.outcomes[j - 1] && rows[j] == rows[1..][j - 1];
      }
    }
  }

  /** `GainedFromRows` after a first row that went in under a fresh key. */
  lemma StoreGained(db: Db, mid: Db, rest: Load, name: string, rows: seq<Row>, o: Outcome)
    requires |rows| > 0 && |rest.outcomes| < |rows| && o == ReturnsNone
    requires name in db.tables && StoredKey(name, rows[0]).Some?
    requires mid.tables == db.tables[name := db.tables[name][StoredKey(name, rows[0]).value := rows[0]]]
    requires Extends(rest.db, mid)
    requires GainedFromRows(rest.db, mid, name, rows[1..], rest.outcomes)
    ensures GainedFromRows(rest.db, db, name, rows, [o] + rest.outcomes)
  {
    var outs := [o] + rest.outcomes;
    forall k | k in rest.db.tables[name] && k !in db.tables[name]
      ensures exists j :: 0 <= j < |outs| && outs[j] == ReturnsNone
                          && StoredKey(name, rows[j]) == Some(k) && rest.db.tables[name][k] == rows[j]
    {
      if k in mid.tables[name] {
        ExtendsAt(rest.db, mid, name, k);
        assert outs[0] == ReturnsNone && rest.db.tables[name][k] == rows[0];
      } else {
        var j :| 0 <= j < |rest.outcomes| && rest.outcomes[j] == ReturnsNone
                 && StoredKey(name, rows[1..][j]) == Some(k) && rest.db.tables[name][k] == rows[1..][j];
        ShiftWitness(rest.db, name, rows, o, rest.outcomes, k, j);
      }
    }
  }

  /** `RowsGained` after a first row that went in under a fresh key. */
  lemma StoreRowsGained(db: Db, mid: Db, rest: Load, name: string, rows: seq<Row>, o: Outcome)
    requires |rows| > 0 && |rest.outcomes| < |rows| && o == ReturnsNone
    requires name in db.tables && StoredKey(name, rows[0]).Some?
    requires StoredKey(name, rows[0]).value !in db.tables[name]
    requires mid.tables == db.tables[name := db.tables[name][StoredKey(name, rows[0]).value := rows[0]]]
    requires Extends(rest.db, mid)
    requires RowsGained(rest.db, mid, name, rows[1..], rest.outcomes)
    ensures RowsGained(rest.db, db, name, rows, [o] + rest.outcomes)
  {
    var outs := [o] + rest.outcomes;
    var k0 := StoredKey(name, rows[0]).value;
    forall j | 0 <= j < |outs| && outs[j] == ReturnsNone
      ensures StoredKey(name, rows[j]).Some? && StoredKey(name, rows[j]).value in rest.db.tables[name]
      ensures StoredKey(name, rows[j]).value !in db.tables[name]
    {
      if j == 0 {
        ExtendsAt(rest.db, mid, name, k0);
      } else {
        assert outs[j] == rest.outcomes[j - 1] && rows[j] == rows[1..][j - 1];
      }
    }
  }

  /** One turn of the loop: an exception from the first row ends it, and
      otherwise the loop goes on with the other rows. */
  lemma LoadRowsCons(db: Db, name: string, rows: seq<Row>, casts: (Value, SqlType) -> bool)
    requires |rows| > 0
    ensures
      var s := Insert(db, name, rows[0], casts);
      var rest := LoadRows(s.db, name, rows[1..], casts);
      && (s.outcome == Raises ==> LoadRows(db, name, rows, casts) == Load(db, [Raises]))
      && (s.outcome != Raises ==> LoadRows(db, name, rows, casts) == Load(rest.db, [s.outcome] + rest.outcomes))
  {
  }

  /** Row `j`'s outcome is what inserting it answers on the database the
      rows before it left behind. */
  lemma {:induction false} LoadRowsAt(db: Db, name: string, rows: seq<Row>, casts: (Value, SqlType) -> bool, j: nat)
    requires j < |LoadRows(db, name, rows, casts).outcomes|
    ensures LoadRows(db, name, rows, casts).outcomes[j]
            == Insert(LoadRows(db, name, rows[..j], casts).db, name, rows[j], casts).outcome
    decreases j
  {
    LoadRowsCons(db, name, rows, casts);
    if j == 0 {
      assert rows[..0] == [];
    } else {
      var s := Insert(db, name, rows[0], casts);
      PrefixAfterFirst(db, name, rows, casts, j);
      LoadRowsAt(s.db, name, rows[1..], casts, j - 1);
      assert rows[1..][j - 1] == rows[j];
    }
  }

  /** The loop over the first `j` rows, past a first row that did not raise,
      leaves what the loop over the next `j - 1` rows leaves. */
  lemma PrefixAfterFirst(db: Db, name: string, rows: seq<Row>, casts: (Value, SqlType) -> bool, j: nat)
    requires 0 < j <= |rows| && Insert(db, name, rows[0], casts).outcome != Raises
    ensures LoadRows(db, name, rows[..j], casts).db
            == LoadRows(Insert(db, name, rows[0], casts).db, name, rows[1..][..j - 1], casts).db
  {
    var pre := rows[..j];
    assert pre[0] == rows[0] && pre[1..] == rows[1..][..j - 1];
    LoadRowsCons(db, name, pre, casts);
  }

  /** After a loop that raised nowhere, every row it was given is settled. */
  lemma {:induction false} LoadSettles(db: Db, name: string, rows: seq<Row>, casts: (Value, SqlType) -> bool)
    requires Raises !in LoadRows(db, name, rows, casts).outcomes
    ensures forall j :: 0 <= j < |rows| ==> Settled(LoadRows(db, name, rows, casts).db, name, rows[j], casts)
    decreases |rows|
  {
    if |rows| > 0 {
      var s := Insert(db, name, rows[0], casts);
      var rest := LoadRows(s.db, name, rows[1..], casts);
      assert s.outcome != Raises;
      assert Raises !in rest.outcomes;
      LoadSettles(s.db, name, rows[1..], casts);
      InsertSettles(db, name, rows[0], casts);
      SettledStays(s.db, rest.db, name, rows[0], casts);
      forall j | 1 <= j < |rows|
        ensures Settled(rest.db, name, rows[j], casts)
      {
        assert rows[j] == rows[1..][j - 1];
      }
    }
  }

  /** Loading rows that are all settled changes nothing and raises nowhere. */
  lemma {:induction false} LoadSettled(db: Db, name: string, rows: seq<Row>, casts: (Value, SqlType) -> bool)
    requires forall j :: 0 <= j < |rows| ==> Settled(db, name, rows[j], casts)
    ensures LoadRows(db, name, rows, casts).db == db
    ensures forall j :: 0 <= j < |LoadRows(db, name, rows, casts).outcomes| ==>
              LoadRows(db, name, rows, casts).outcomes[j] in {Returns404, Returns500}
    ensures |LoadRows(db, name, rows, casts).outcomes| == |rows|
    decreases |rows|
  {
    if |rows| > 0 {
      var s := Insert(db, name, rows[0], casts);
      assert Settled(db, name, rows[0], casts);
      assert s.outcome in {Returns404, Returns500} && s.db == db;
      forall j | 0 <= j < |rows[1..]|
        ensures Settled(db, name, rows[1..][j], casts)
      {
        assert rows[1..][j] == rows[j + 1];
      }
      LoadSettled(db, name, rows[1..], casts);
      var rest := LoadRows(db, name, rows[1..], casts);
      LoadRowsCons(db, name, rows, casts);
      assert LoadRows(db, name, rows, casts).outcomes == [s.outcome] + rest.outcomes;
    }
  }

  /** Re-running a loop that raised nowhere leaves the database as it is and
      answers every row with `404` or `500`. */
  lemma LoadIdempotent(db: Db, name: string, rows: seq<Row>, casts: (Value, SqlType) -> bool)
    requires Raises !in LoadRows(db, name, rows, casts).outcomes
    ensures
      var once := LoadRows(db, name, rows, casts).db;
      && LoadRows(once, name, rows, casts).db == once
      && ReturnsNone !in LoadRows(once, name, rows, casts).outcomes
  {
    LoadSettles(db, name, rows, casts);
    LoadSettled(LoadRows(db, name, rows, casts).db, name, rows, casts);
  }

  /** The row stored under a key is the first row with that key that went in:
      later rows with the same key are refused, not written over it. */
  lemma {:induction false} FirstRowKept(db: Db, name: string, rows: seq<Row>, casts: (Value, SqlType) -> bool, j: nat)
    requires j < |LoadRows(db, name, rows, casts).outcomes|
    requires LoadRows(db, name, rows, casts).outcomes[j] == ReturnsNone
    ensures Known(db, name) && |rows[j]| == |Table(TableNamed(name).value).columns|
    ensures
      var key := KeyOf(rows[j], Table(TableNamed(name).value).key);
      && key in LoadRows(db, name, rows, casts).db.tables[name]
      && LoadRows(db, name, rows, casts).db.tables[name][key] == rows[j]
    decreases |rows|
  {
    var s := Insert(db, name, rows[0], casts);
    LoadRowsCons(db, name, rows, casts);
    assert s.outcome != Raises;
    if j == 0 {
      FirstRowStays(db, name, rows, casts);
    } else {
      var rest := LoadRows(s.db, name, rows[1..], casts);
      assert rest.outcomes[j - 1] == ReturnsNone;
      FirstRowKept(s.db, name, rows[1..], casts, j - 1);
      InsertExtends(db, name, rows[0], casts);
      assert name in db.tables;
      assert rows[1..][j - 1] == rows[j];
    }
  }

  /** A first row that went in stays stored through the rest of the loop. */
  lemma FirstRowStays(db: Db, name: string, rows: seq<Row>, casts: (Value, SqlType) -> bool)
    requires |rows| > 0 && Insert(db, name, rows[0], casts).outcome == ReturnsNone
    ensures Known(db, name) && |rows[0]| == |Table(TableNamed(name).value).columns|
    ensures
      var key := KeyOf(rows[0], Table(TableNamed(name).value).key);
      && key in LoadRows(db, name, rows, casts).db.tables[name]
      && LoadRows(db, name, rows, casts).db.tables[name][key] == rows[0]
  {
    var s := Insert(db, name, rows[0], casts);
    LoadRowsCons(db, name, rows, casts);
    var rest := LoadRows(s.db, name, rows[1..], casts);
    var key := KeyOf(rows[0], Table(TableNamed(name).value).key);
    assert key in s.db.tables[name] && s.db.tables[name][key] == rows[0];
    ExtendsAt(rest.db, s.db, name, key);
  }

  /** Rows as wide as the table never meet the binding error. */
  lemma {:induction false} FittingRowsNever500(
    db: Db, t: TableName, rows: seq<Row>, casts: (Value, SqlType) -> bool)
    requires NameText(t) in db.tables
    requires forall j :: 0 <= j < |rows| ==> |rows[j]| == |Table(t).columns|
    ensures Returns500 !in LoadRows(db, NameText(t), rows, casts).outcomes
    decreases |rows|
  {
    if |rows| > 0 {
      TableNamedText(t);
      var s := Insert(db, NameText(t), rows[0], casts);
      assert Known(db, NameText(t));
      assert s.outcome != Returns500;
      if s.outcome != Raises {
        assert NameText(t) in s.db.tables;
        assert forall j :: 0 <= j < |rows[1..]| ==> rows[1..][j] == rows[j + 1];
        FittingRowsNever500(s.db, t, rows[1..], casts);
        var rest := LoadRows(s.db, NameText(t), rows[1..], casts);
        assert LoadRows(db, NameText(t), rows, casts).outcomes == [s.outcome] + rest.outcomes;
      }
    }
  }
}
