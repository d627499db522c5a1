/** One unit's load in `src/data_transfer.py`: each of the eight projections
    handed to `handle_insert` with its table, in the order the driver uses.

    `handle_insert` iterates the rows of a frame; a sentinel (`501` or `None`)
    has no rows to iterate, so both are reported as "No data found" and leave
    the database alone. An exception out of `insert_data` ends that table's
    loop only: the driver goes on with the next table. */
module Pipeline {
  import opened Basics
  import opened Records
  import opened Schema
  import opened Preprocess
  import opened Loader
  import opened PreprocessLemmas

  /** `handle_insert(data, table, ...)`. */
  function HandleInsert(db: Db, t: TableName, p: Projection, casts: (Value, SqlType) -> bool): (l: Load)
    ensures Extends(l.db, db)
    ensures !p.Rows? ==> l == Load(db, [])
    ensures p.Rows? ==> StopsAtRaise(l.outcomes, |p.rows|)
    ensures p.Rows? ==> OthersUnchanged(l.db, db, NameText(t))
    ensures p.Rows? ==> StoresExactly(l.db, db, NameText(t), p.rows, l.outcomes)
  {
    if p.Rows? then
      LoadRowsFrame(db, NameText(t), p.rows, casts);
      LoadRows(db, NameText(t), p.rows, casts)
    else Load(db, [])
  }

  /** A projection and the table it is loaded into. */
  datatype Job = Job(table: TableName, frame: Projection)

  /** The projection the driver loads into table `t`; its frame, when there
      is one, has exactly the table's columns. */
  function Project(t: TableName, d: Dataset, readsAsDate: string -> bool): (p: Projection)
    ensures p.Rows? ==> p.columns == Table(t).columns && Width(p.rows, |Table(t).columns|)
  {
    match t
    case Anime => AnimeColumnsMatch(); Preprocess.Anime(d, readsAsDate)
    case Genre => GenreColumnsMatch(); Genres(d)
    case Review => ReviewColumnsMatch(); Reviews(d)
    case Status => StatusColumnsMatch(); Preprocess.Status(d)
    case Studio => StudioColumnsMatch(); Studios(d)
    case Tag => TagColumnsMatch(); Tags(d)
    case User => UserColumnsMatch(); Users(d)
    case WebAsset => WebAssetColumnsMatch(); WebAssets(d)
  }

  /** The order of the driver's `handle_insert` calls. */
  const DriverOrder: seq<TableName> :=
    [TableName.Anime, TableName.Genre, TableName.Review, TableName.Status,
     TableName.Studio, TableName.Tag, TableName.User, TableName.WebAsset]

  /** Where table `t` comes in the driver's order. */
  function Position(t: TableName): (j: nat)
    ensures j < |DriverOrder| && DriverOrder[j] == t
  {
    match t
    case Anime => 0
    case Genre => 1
    case Review => 2
    case Status => 3
    case Studio => 4
    case Tag => 5
    case User => 6
    case WebAsset => 7
  }

  /** Some job loads into table `t`. */
  predicate Receives(jobs: seq<Job>, t: TableName) {
    exists j :: 0 <= j < |jobs| && jobs[j].table == t
  }

  /** The eight `handle_insert` calls of one unit, in the driver's order:
      every table receives exactly one projection, namely its own. */
  function Jobs(d: Dataset, readsAsDate: string -> bool): (jobs: seq<Job>)
    ensures |jobs| == 8
    ensures forall t: TableName :: Receives(jobs, t)
    ensures forall i, j :: 0 <= i < j < |jobs| ==> jobs[i].table != jobs[j].table
    ensures forall j :: 0 <= j < |jobs| ==> jobs[j].frame == Project(jobs[j].table, d, readsAsDate)
  {
    var jobs := seq(|DriverOrder|, j requires 0 <= j < |DriverOrder| =>
                      Job(DriverOrder[j], Project(DriverOrder[j], d, readsAsDate)));
    assert forall t: TableName :: Receives(jobs, t) by {
      forall t: TableName
        ensures Receives(jobs, t)
      {
        assert jobs[Position(t)].table == t;
      }
    }
    jobs
  }

  /** Runs the jobs in order, collecting every row's outcome. */
  function LoadJobs(db: Db, jobs: seq<Job>, casts: (Value, SqlType) -> bool): (l: Load)
    ensures Extends(l.db, db)
    decreases |jobs|
  {
    if |jobs| == 0 then Load(db, [])
    else
      var first := HandleInsert(db, jobs[0].table, jobs[0].frame, casts);
      var rest := LoadJobs(first.db, jobs[1..], casts);
      Load(rest.db, first.outcomes + rest.outcomes)
  }

  /** The database `src/init_duckdb.py` leaves behind: the eight tables, empty. */
  const EmptyDb: Db := Db(map[
    "Status" := map[], "User" := map[], "WebAsset" := map[], "Studio" := map[],
    "Tag" := map[], "Genre" := map[], "Anime" := map[], "Review" := map[]])

  /** Every table is present. */
  predicate Initialised(db: Db) {
    forall t: TableName :: NameText(t) in db.tables
  }

  lemma EmptyDbInitialised()
    ensures Initialised(EmptyDb)
  {
    forall t: TableName
      ensures NameText(t) in EmptyDb.tables
    {
      match t
      case Status =>
      case User =>
      case WebAsset =>
      case Studio =>
      case Tag =>
      case Genre =>
      case Anime =>
      case Review =>
    }
  }

  /** Every frame among the jobs has rows as wide as its table. */
  predicate Fitting(jobs: seq<Job>) {
    forall j :: 0 <= j < |jobs| && jobs[j].frame.Rows? ==>
      Width(jobs[j].frame.rows, |Table(jobs[j].table).columns|)
  }

  /** The projections always fit their tables. */
  lemma JobsFit(d: Dataset, readsAsDate: string -> bool)
    ensures Fitting(Jobs(d, readsAsDate))
  {
    var jobs := Jobs(d, readsAsDate);
    forall j | 0 <= j < |jobs| && jobs[j].frame.Rows?
      ensures Width(jobs[j].frame.rows, |Table(jobs[j].table).columns|)
    {
      assert jobs[j].frame == Project(jobs[j].table, d, readsAsDate);
    }
  }

  lemma {:induction false} FittingJobsNever500(db: Db, jobs: seq<Job>, casts: (Value, SqlType) -> bool)
    requires Initialised(db) && Fitting(jobs)
    ensures Returns500 !in LoadJobs(db, jobs, casts).outcomes
    decreases |jobs|
  {
    if |jobs| > 0 {
      var first := HandleInsert(db, jobs[0].table, jobs[0].frame, casts);
      if jobs[0].frame.Rows? {
        FittingRowsNever500(db, jobs[0].table, jobs[0].frame.rows, casts);
      }
      assert Initialised(first.db);
      assert Fitting(jobs[1..]) by {
        forall j | 0 <= j < |jobs[1..]|
          ensures jobs[1..][j] == jobs[j + 1]
        {
        }
      }
      FittingJobsNever500(first.db, jobs[1..], casts);
    }
  }

  /** Loading a unit into an initialised database never meets the binding
      error: every projection's rows are as wide as its table. */
  lemma UnitNever500(db: Db, d: Dataset, readsAsDate: string -> bool, casts: (Value, SqlType) -> bool)
    requires Initialised(db)
    ensures Returns500 !in LoadJobs(db, Jobs(d, readsAsDate), casts).outcomes
  {
    JobsFit(d, readsAsDate);
    FittingJobsNever500(db, Jobs(d, readsAsDate), casts);
  }

  /* ---------------------------------------------------------------------
     Re-running a unit
     --------------------------------------------------------------------- */

  /** Every row of every frame among the jobs is settled in `db`. */
  predicate AllSettled(db: Db, jobs: seq<Job>, casts: (Value, SqlType) -> bool) {
    forall j, r :: 0 <= j < |jobs| && jobs[j].frame.Rows? && r in jobs[j].frame.rows ==>
      Settled(db, NameText(jobs[j].table), r, casts)
  }

  /** After a run that raised nowhere, every row it loaded is settled. */
  lemma {:induction false} LoadJobsSettles(db: Db, jobs: seq<Job>, casts: (Value, SqlType) -> bool)
    requires Raises !in LoadJobs(db, jobs, casts).outcomes
    ensures AllSettled(LoadJobs(db, jobs, casts).db, jobs, casts)
    decreases |jobs|
  {
    if |jobs| > 0 {
      var first := HandleInsert(db, jobs[0].table, jobs[0].frame, casts);
      var rest := LoadJobs(first.db, jobs[1..], casts);
      var final := rest.db;
      assert Raises !in first.outcomes && Raises !in rest.outcomes;
      LoadJobsSettles(first.db, jobs[1..], casts);
      if jobs[0].frame.Rows? {
        var rows := jobs[0].frame.rows;
        LoadSettles(db, NameText(jobs[0].table), rows, casts);
        forall r | r in rows
          ensures Settled(final, NameText(jobs[0].table), r, casts)
        {
          var k :| 0 <= k < |rows| && rows[k] == r;
          SettledStays(first.db, final, NameText(jobs[0].table), r, casts);
        }
      }
      forall j, r | 0 <= j < |jobs| && jobs[j].frame.Rows? && r in jobs[j].frame.rows
        ensures Settled(final, NameText(jobs[j].table), r, casts)
      {
        if j > 0 {
          assert jobs[j] == jobs[1..][j - 1];
        }
      }
    }
  }

  /** Running jobs whose rows are all settled changes nothing. */
  lemma {:induction false} LoadJobsSettled(db: Db, jobs: seq<Job>, casts: (Value, SqlType) -> bool)
    requires AllSettled(db, jobs, casts)
    ensures LoadJobs(db, jobs, casts).db == db
    ensures ReturnsNone !in LoadJobs(db, jobs, casts).outcomes && Raises !in LoadJobs(db, jobs, casts).outcomes
    decreases |jobs|
  {
    if |jobs| > 0 {
      var first := HandleInsert(db, jobs[0].table, jobs[0].frame, casts);
      if jobs[0].frame.Rows? {
        var rows := jobs[0].frame.rows;
        forall k | 0 <= k < |rows|
          ensures Settled(db, NameText(jobs[0].table), rows[k], casts)
        {
          assert rows[k] in rows;
        }
        LoadSettled(db, NameText(jobs[0].table), rows, casts);
      }
      assert first.db == db;
      assert ReturnsNone !in first.outcomes && Raises !in first.outcomes;
      assert AllSettled(db, jobs[1..], casts) by {
        forall j, r | 0 <= j < |jobs[1..]| && jobs[1..][j].frame.Rows? && r in jobs[1..][j].frame.rows
          ensures Settled(db, NameText(jobs[1..][j].table), r, casts)
        {
          assert jobs[1..][j] == jobs[j + 1];
        }
      }
      LoadJobsSettled(db, jobs[1..], casts);
    }
  }

  /** Loading a unit a second time, after a first load that raised nowhere,
      inserts nothing and leaves every table as the first load left it. */
  lemma UnitIdempotent(db: Db, d: Dataset, readsAsDate: string -> bool, casts: (Value, SqlType) -> bool)
    requires Raises !in LoadJobs(db, Jobs(d, readsAsDate), casts).outcomes
    ensures
      var once := LoadJobs(db, Jobs(d, readsAsDate), casts).db;
      var twice := LoadJobs(once, Jobs(d, readsAsDate), casts);
      && twice.db == once
      && ReturnsNone !in twice.outcomes
  {
    LoadJobsSettles(db, Jobs(d, readsAsDate), casts);
    LoadJobsSettled(LoadJobs(db, Jobs(d, readsAsDate), casts).db, Jobs(d, readsAsDate), casts);
  }

  /* ---------------------------------------------------------------------
     Keys narrower than the rows
     --------------------------------------------------------------------- */

  /** Once a row is in, a later row with the same key value is refused and
      the first row stays. */
  lemma SameKeyRefused(db: Db, t: TableName, first: Row, second: Row, casts: (Value, SqlType) -> bool)
    requires Insert(db, NameText(t), first, casts).outcome == ReturnsNone
    requires |first| == |Table(t).columns|
    requires |second| == |Table(t).columns| && Converts(second, Table(t).types, casts)
    requires KeyOf(second, Table(t).key) == KeyOf(first, Table(t).key)
    ensures
      var after := Insert(db, NameText(t), first, casts).db;
      var key := KeyOf(first, Table(t).key);
      && NameText(t) in after.tables && key in after.tables[NameText(t)]
      && after.tables[NameText(t)][key] == first
      && Insert(after, NameText(t), second, casts) == Step(Returns404, after)
  {
    TableNamedText(t);
    var name := NameText(t);
    var after := Insert(db, name, first, casts).db;
    var key := KeyOf(first, Table(t).key);
    assert after.tables[name][key] == first;
    assert Known(after, name);
    assert KeyOf(second, Table(TableNamed(name).value).key) in after.tables[name];
    var again := Insert(after, name, second, casts);
    assert again.outcome != Raises && again.outcome != Returns500 && again.outcome != ReturnsNone;
  }

  /** The Tag key is TagID alone: the rows two anime give for the same tag
      share their key, so the second is refused whatever its AnimeID. */
  lemma SharedTagSameKey(d: Dataset, i1: nat, k1: nat, i2: nat, k2: nat)
    requires Tags(d).Rows?
    requires i1 < |d.media| && k1 < |Items(d.media[i1].tags)|
    requires i2 < |d.media| && k2 < |Items(d.media[i2].tags)|
    requires Items(d.media[i1].tags)[k1].id == Items(d.media[i2].tags)[k2].id
    ensures Offset(TagBlocks(d.media), i1) + k1 < |Tags(d).rows|
    ensures Offset(TagBlocks(d.media), i2) + k2 < |Tags(d).rows|
    ensures
      var r1 := Tags(d).rows[Offset(TagBlocks(d.media), i1) + k1];
      var r2 := Tags(d).rows[Offset(TagBlocks(d.media), i2) + k2];
      KeyOf(r1, Table(TableName.Tag).key) == KeyOf(r2, Table(TableName.Tag).key)
  {
    TagsAt(d, i1, k1);
    TagsAt(d, i2, k2);
    var r1 := Tags(d).rows[Offset(TagBlocks(d.media), i1) + k1];
    var r2 := Tags(d).rows[Offset(TagBlocks(d.media), i2) + k2];
    assert r1[0] == r1[..4][0] && r2[0] == r2[..4][0];
  }

  /** The User key is UserID alone: two reviews by users with the same id
      give rows with the same key, so one user row is stored however many
      reviews they wrote. */
  lemma SharedUserSameKey(d: Dataset, i1: nat, k1: nat, i2: nat, k2: nat)
    requires Users(d).Rows?
    requires i1 < |d.media| && k1 < |Items(d.media[i1].reviews)|
    requires i2 < |d.media| && k2 < |Items(d.media[i2].reviews)|
    requires UserIdCell(Items(d.media[i1].reviews)[k1].user) == UserIdCell(Items(d.media[i2].reviews)[k2].user)
    ensures Offset(UserBlocks(d.media), i1) + k1 < |Users(d).rows|
    ensures Offset(UserBlocks(d.media), i2) + k2 < |Users(d).rows|
    ensures
      var r1 := Users(d).rows[Offset(UserBlocks(d.media), i1) + k1];
      var r2 := Users(d).rows[Offset(UserBlocks(d.media), i2) + k2];
      KeyOf(r1, Table(TableName.User).key) == KeyOf(r2, Table(TableName.User).key)
  {
    UsersAt(d, i1, k1);
    UsersAt(d, i2, k2);
  }
}
