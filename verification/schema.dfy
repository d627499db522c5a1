/** The eight tables of the embedded database, as `src/init_duckdb.py`
    declares them: column order, column types, primary key and the CHECK on
    the Anime season. Inserts are positional, so the column order here is the
    order every projection must produce. */
module Schema {
  import opened Basics

  datatype SqlType = Integer | Varchar | Text | Boolean | SqlDate

  datatype TableName = Status | User | WebAsset | Studio | Tag | Genre | Anime | Review

  /** Column names and types in declaration order; the primary key as column
      positions in key order; the column, if any, restricted to the four
      season names. */
  datatype TableDef = TableDef(
    columns: seq<string>, types: seq<SqlType>, key: seq<nat>, seasonCheck: Option<nat>)
  {
    ghost predicate WellFormed() {
      && |columns| == |types|
      && |key| > 0
      && (forall k :: 0 <= k < |key| ==> key[k] < |columns|)
      && (forall k, l :: 0 <= k < l < |key| ==> key[k] != key[l])
      && (seasonCheck.Some? ==> seasonCheck.value < |columns| && seasonCheck.value in key)
    }
  }

  /** The name the statement text uses for a table. */
  function NameText(t: TableName): string {
    match t
    case Status => "Status"
    case User => "User"
    case WebAsset => "WebAsset"
    case Studio => "Studio"
    case Tag => "Tag"
    case Genre => "Genre"
    case Anime => "Anime"
    case Review => "Review"
  }

  /** The values the Anime CHECK admits for Season. */
  const Seasons: set<string> := {"FALL", "WINTER", "SPRING", "SUMMER"}

  function Table(t: TableName): (def: TableDef)
    ensures def.WellFormed()
    ensures |def.columns| >= 4
    ensures def.seasonCheck.Some? <==> t == Anime
  {
    match t
    case Status => StatusTable()
    case User => UserTable()
    case WebAsset => WebAssetTable()
    case Studio => StudioTable()
    case Tag => TagTable()
    case Genre => GenreTable()
    case Anime => AnimeTable()
    case Review => ReviewTable()
  }

  /** The CREATE TABLE statements, one function per table. */
  function StatusTable(): (def: TableDef)
    ensures def.WellFormed() && |def.columns| >= 4 && def.seasonCheck.None?
  {
    TableDef(["AnimeID", "Season", "SeasonYear", "AmountOfUsers", "UserStatus"],
             [Integer, Varchar, Integer, Integer, Text],
             [0, 1, 2, 4], None)
  }

  function UserTable(): (def: TableDef)
    ensures def.WellFormed() && |def.columns| >= 4 && def.seasonCheck.None?
  {
    TableDef(["UserID", "Username", "DonatorTier", "DonatorBadge", "UserCreatedAt",
              "LargeAvatar", "MediumAvatar"],
             [Integer, Text, Text, Text, SqlDate, Text, Text],
             [0], None)
  }

  function WebAssetTable(): (def: TableDef)
    ensures def.WellFormed() && |def.columns| >= 4 && def.seasonCheck.None?
  {
    TableDef(["AnimeID", "Season", "SeasonYear", "Banner", "MediumCover", "LargeCover",
              "ExtraLargeCover", "Color", "SiteURL", "Trailer"],
             [Integer, Varchar, Integer, Text, Text, Text, Text, Text, Text, Text],
             [0, 1, 2], None)
  }

  function StudioTable(): (def: TableDef)
    ensures def.WellFormed() && |def.columns| >= 4 && def.seasonCheck.None?
  {
    TableDef(["AnimeID", "Season", "SeasonYear", "StudioID", "StudioName"],
             [Integer, Varchar, Integer, Integer, Text],
             [3, 0, 1, 2], None)
  }

  function TagTable(): (def: TableDef)
    ensures def.WellFormed() && |def.columns| >= 4 && def.seasonCheck.None?
  {
    TableDef(["TagID", "IsAdult", "Category", "Description", "AnimeID", "Season", "SeasonYear"],
             [Integer, Boolean, Text, Text, Integer, Varchar, Integer],
             [0], None)
  }

  function GenreTable(): (def: TableDef)
    ensures def.WellFormed() && |def.columns| >= 4 && def.seasonCheck.None?
  {
    TableDef(["Genre", "AnimeID", "Season", "SeasonYear"],
             [Text, Integer, Varchar, Integer],
             [0, 1, 2, 3], None)
  }

  function AnimeTable(): (def: TableDef)
    ensures def.WellFormed() && |def.columns| >= 4 && def.seasonCheck == Some(1)
  {
    TableDef(["AnimeID", "Season", "SeasonYear", "EnglishTitle", "NativeTitle", "RomajiTitle",
              "Format", "MeanScore", "Popularity", "Episodes", "Favourites", "Duration",
              "StartDate", "EndDate"],
             [Integer, Varchar, Integer, Text, Text, Text, Text, Integer, Integer, Integer,
              Integer, Integer, SqlDate, SqlDate],
             [0, 1, 2], Some(1))
  }

  function ReviewTable(): (def: TableDef)
    ensures def.WellFormed() && |def.columns| >= 4 && def.seasonCheck.None?
  {
    TableDef(["ReviewID", "Rating", "RatingAmount", "Body", "Summary", "ReviewCreatedAt",
              "ReviewUpdatedAt", "AnimeID", "Season", "SeasonYear", "UserID"],
             [Integer, Integer, Integer, Text, Text, SqlDate, SqlDate, Integer, Varchar,
              Integer, Integer],
             [0], None)
  }

  /** The names of the key columns, in key order. */
  function KeyNames(columns: seq<string>, key: seq<nat>): seq<string>
    requires forall k :: 0 <= k < |key| ==> key[k] < |columns|
  {
    if |key| == 0 then [] else [columns[key[0]]] + KeyNames(columns, key[1..])
  }

  function KeyColumns(t: TableName): seq<string> {
    KeyNames(Table(t).columns, Table(t).key)
  }

  /** The primary keys the DDL declares, by column name. */
  function DeclaredKey(t: TableName): seq<string> {
    match t
    case Status => ["AnimeID", "Season", "SeasonYear", "UserStatus"]
    case User => ["UserID"]
    case WebAsset => ["AnimeID", "Season", "SeasonYear"]
    case Studio => ["StudioID", "AnimeID", "Season", "SeasonYear"]
    case Tag => ["TagID"]
    case Genre => ["Genre", "AnimeID", "Season", "SeasonYear"]
    case Anime => ["AnimeID", "Season", "SeasonYear"]
    case Review => ["ReviewID"]
  }

  /** The key positions of `Table` name the declared key columns, and the
      Anime CHECK guards the Season column. */
  lemma KeysByName(t: TableName)
    ensures KeyColumns(t) == DeclaredKey(t)
    ensures t == Anime ==> Table(t).columns[Table(t).seasonCheck.value] == "Season"
  {
    match t
    case Status => StatusKey();
    case User => UserKey();
    case WebAsset => WebAssetKey();
    case Studio => StudioKey();
    case Tag => TagKey();
    case Genre => GenreKey();
    case Anime => AnimeKey();
    case Review => ReviewKey();
  }

  lemma StatusKey()
    ensures KeyColumns(Status) == DeclaredKey(Status)
  {
    var def := StatusTable();
    assert Table(Status) == def;
    assert def.key == [0, 1, 2, 4];
    assert KeyNames(def.columns, [0, 1, 2, 4]) == [def.columns[0]] + KeyNames(def.columns, [1, 2, 4]);
    assert KeyNames(def.columns, [1, 2, 4]) == [def.columns[1]] + KeyNames(def.columns, [2, 4]);
    assert KeyNames(def.columns, [2, 4]) == [def.columns[2]] + KeyNames(def.columns, [4]);
    assert KeyNames(def.columns, [4]) == [def.columns[4]] + KeyNames(def.columns, []);
  }

  lemma UserKey()
    ensures KeyColumns(User) == DeclaredKey(User)
  {
    var def := UserTable();
    assert Table(User) == def;
    assert def.key == [0];
    assert KeyNames(def.columns, [0]) == [def.columns[0]] + KeyNames(def.columns, []);
  }

  lemma WebAssetKey()
    ensures KeyColumns(WebAsset) == DeclaredKey(WebAsset)
  {
    var def := WebAssetTable();
    assert Table(WebAsset) == def;
    assert def.key == [0, 1, 2];
    assert KeyNames(def.columns, [0, 1, 2]) == [def.columns[0]] + KeyNames(def.columns, [1, 2]);
    assert KeyNames(def.columns, [1, 2]) == [def.columns[1]] + KeyNames(def.columns, [2]);
    assert KeyNames(def.columns, [2]) == [def.columns[2]] + KeyNames(def.columns, []);
  }

  lemma StudioKey()
    ensures KeyColumns(Studio) == DeclaredKey(Studio)
  {
    var def := StudioTable();
    assert Table(Studio) == def;
    assert def.key == [3, 0, 1, 2];
    assert KeyNames(def.columns, [3, 0, 1, 2]) == [def.columns[3]] + KeyNames(def.columns, [0, 1, 2]);
    assert KeyNames(def.columns, [0, 1, 2]) == [def.columns[0]] + KeyNames(def.columns, [1, 2]);
    assert KeyNames(def.columns, [1, 2]) == [def.columns[1]] + KeyNames(def.columns, [2]);
    assert KeyNames(def.columns, [2]) == [def.columns[2]] + KeyNames(def.columns, []);
  }

  lemma TagKey()
    ensures KeyColumns(Tag) == DeclaredKey(Tag)
  {
    var def := TagTable();
    assert Table(Tag) == def;
    assert def.key == [0];
    assert KeyNames(def.columns, [0]) == [def.columns[0]] + KeyNames(def.columns, []);
  }

  lemma GenreKey()
    ensures KeyColumns(Genre) == DeclaredKey(Genre)
  {
    var def := GenreTable();
    assert Table(Genre) == def;
    assert def.key == [0, 1, 2, 3];
    assert KeyNames(def.columns, [0, 1, 2, 3]) == [def.columns[0]] + KeyNames(def.columns, [1, 2, 3]);
    assert KeyNames(def.columns, [1, 2, 3]) == [def.columns[1]] + KeyNames(def.columns, [2, 3]);
    assert KeyNames(def.columns, [2, 3]) == [def.columns[2]] + KeyNames(def.columns, [3]);
    assert KeyNames(def.columns, [3]) == [def.columns[3]] + KeyNames(def.columns, []);
  }

  lemma AnimeKey()
    ensures KeyColumns(Anime) == DeclaredKey(Anime)
    ensures AnimeTable().columns[1] == "Season"
  {
    var def := AnimeTable();
    assert Table(Anime) == def;
    assert def.key == [0, 1, 2];
    assert KeyNames(def.columns, [0, 1, 2]) == [def.columns[0]] + KeyNames(def.columns, [1, 2]);
    assert KeyNames(def.columns, [1, 2]) == [def.columns[1]] + KeyNames(def.columns, [2]);
    assert KeyNames(def.columns, [2]) == [def.columns[2]] + KeyNames(def.columns, []);
  }

  lemma ReviewKey()
    ensures KeyColumns(Review) == DeclaredKey(Review)
  {
    var def := ReviewTable();
    assert Table(Review) == def;
    assert def.key == [0];
    assert KeyNames(def.columns, [0]) == [def.columns[0]] + KeyNames(def.columns, []);
  }
}
