/** The shape normaliser of `src/utils/preprocess.py`: eight projections from
    the aggregated frame of one unit to the flat rows of one table each.

    Each projection is the chain of select / unnest / explode / rename / drop
    steps of the source, evaluated on the records of `Records`. The steps that
    can raise are checked in chain order; the first to raise decides the
    sentinel: `501` for `SchemaError`, `None` for anything else. No projection
    raises to its caller, so every one is a total function here.

    The output column names are written down again here rather than taken
    from `Schema`: they are what the projection's renames and selects
    produce, and their agreement with the table declarations is a property
    (each projection's first `ensures`), not a definition. */
module Preprocess {
  import opened Basics
  import opened Records
  import opened Polars
  import Schema

  /** What a projection returns: a frame, the `501` sentinel, or `None`. */
  datatype Projection = Rows(columns: seq<string>, rows: seq<Row>) | Schema501 | NoneResult

  /** `except SchemaError: return 501` then `except Exception: return None`. */
  function Sentinel(e: PolarsError): Projection {
    if e == SchemaError then Schema501 else NoneResult
  }

  /** The handler list of `reviews`, which also names `ColumnNotFoundError`. */
  function ReviewsSentinel(e: PolarsError): Projection {
    match e
    case SchemaError => Schema501
    case ColumnNotFound => NoneResult
    case ComputeError => NoneResult
  }

  /** Every row has `n` cells. */
  predicate Width(rows: seq<Row>, n: nat) {
    forall j :: 0 <= j < |rows| ==> |rows[j]| == n
  }

  lemma {:induction false} FlattenWidth(blocks: seq<seq<Row>>, n: nat)
    requires forall i :: 0 <= i < |blocks| ==> Width(blocks[i], n)
    ensures Width(Flatten(blocks), n)
    decreases |blocks|
  {
    if |blocks| > 0 {
      FlattenWidth(blocks[1..], n);
      var rest := Flatten(blocks[1..]);
      var all := Flatten(blocks);
      assert all == blocks[0] + rest;
      forall j | 0 <= j < |all|
        ensures |all[j]| == n
      {
        if j >= |blocks[0]| {
          assert all[j] == rest[j - |blocks[0]|];
        }
      }
    }
  }

  /** AnimeID, Season, SeasonYear of a record. */
  function Key(m: Media): Row {
    [IntCell(m.id), StrCell(m.season), IntCell(m.seasonYear)]
  }

  /** AnimeID, Season, SeasonYear of an embedded media node (null when the
      node is null). */
  function RefKey(r: Option<MediaRef>): Row {
    if r.Some? then [IntCell(r.value.id), StrCell(r.value.season), IntCell(r.value.seasonYear)]
    else [Null, Null, Null]
  }

  /* =====================================================================
     anime
     ===================================================================== */

  const AnimeSelection: seq<string> :=
    ["id", "season", "seasonYear", "title", "format", "meanScore", "popularity", "episodes",
     "favourites", "duration", "startDate", "endDate"]

  const AnimeColumns: seq<string> :=
    ["AnimeID", "Season", "SeasonYear", "EnglishTitle", "NativeTitle", "RomajiTitle", "Format",
     "MeanScore", "Popularity", "Episodes", "Favourites", "Duration", "StartDate", "EndDate"]

  /* A nested column is a struct only if some record holds a value there. */
  predicate SomeTitle(ms: seq<Media>) { exists i :: 0 <= i < |ms| && ms[i].title.Some? }
  predicate SomeStartDate(ms: seq<Media>) { exists i :: 0 <= i < |ms| && ms[i].startDate.Some? }
  predicate SomeEndDate(ms: seq<Media>) { exists i :: 0 <= i < |ms| && ms[i].endDate.Some? }

  function StartDates(ms: seq<Media>): seq<Option<FuzzyDate>> {
    seq(|ms|, i requires 0 <= i < |ms| => ms[i].startDate)
  }

  function EndDates(ms: seq<Media>): seq<Option<FuzzyDate>> {
    seq(|ms|, i requires 0 <= i < |ms| => ms[i].endDate)
  }

  function TitleCells(t: Option<Title>): Row {
    if t.Some? then [StrCell(t.value.english), StrCell(t.value.native), StrCell(t.value.romaji)]
    else [Null, Null, Null]
  }

  function AnimeRow(m: Media): (r: Row)
    ensures |r| == 14 && r[..3] == Key(m)
  {
    Key(m) + TitleCells(m.title)
    + [StrCell(m.format), IntCell(m.meanScore), IntCell(m.popularity), IntCell(m.episodes),
       IntCell(m.favourites), IntCell(m.duration), DateCell(m.startDate), DateCell(m.endDate)]
  }


  /** One anime row per record, in order. */
  function AnimeFrame(ms: seq<Media>): (rows: seq<Row>)
    ensures |rows| == |ms| && Width(rows, 14)
    ensures forall i :: 0 <= i < |ms| ==> rows[i][..3] == Key(ms[i])
  {
    seq(|ms|, i requires 0 <= i < |ms| => AnimeRow(ms[i]))
  }

  function Anime(d: Dataset, readsAsDate: string -> bool): (p: Projection)
    ensures p.Rows? ==> p.columns == AnimeColumns && Width(p.rows, 14)
    ensures p.Rows? ==> |p.rows| == |d.media|
    ensures p.Rows? ==> forall i :: 0 <= i < |d.media| ==> p.rows[i][..3] == Key(d.media[i])
  {
    if !Selectable(d, AnimeSelection) then Sentinel(ColumnNotFound)
    else if !SomeTitle(d.media) || !SomeStartDate(d.media) then Sentinel(SchemaError)
    else if !AllReadAsDates(StartDates(d.media), readsAsDate) then Sentinel(ComputeError)
    else if !SomeEndDate(d.media) then Sentinel(SchemaError)
    else if !AllReadAsDates(EndDates(d.media), readsAsDate) then Sentinel(ComputeError)
    else
      Rows(AnimeColumns, AnimeFrame(d.media))
  }

  /* =====================================================================
     web_assets
     ===================================================================== */

  const WebAssetSelection: seq<string> :=
    ["id", "season", "seasonYear", "bannerImage", "coverImage", "siteUrl", "trailer"]

  const WebAssetColumns: seq<string> :=
    ["AnimeID", "Season", "SeasonYear", "Banner", "MediumCover", "LargeCover", "ExtraLargeCover",
     "Color", "SiteURL", "Trailer"]

  predicate SomeCover(ms: seq<Media>) { exists i :: 0 <= i < |ms| && ms[i].coverImage.Some? }

  function CoverCells(c: Option<CoverImage>): Row {
    if c.Some? then
      [StrCell(c.value.medium), StrCell(c.value.large), StrCell(c.value.extraLarge), StrCell(c.value.color)]
    else [Null, Null, Null, Null]
  }

  function WebAssetRow(m: Media): (r: Row)
    ensures |r| == 10 && r[..3] == Key(m)
  {
    Key(m) + [StrCell(m.bannerImage)] + CoverCells(m.coverImage) + [StrCell(m.siteUrl), m.trailer]
  }

  function WebAssets(d: Dataset): (p: Projection)
    ensures p.Rows? ==> p.columns == WebAssetColumns && Width(p.rows, 10)
    ensures p.Rows? ==> |p.rows| == |d.media|
    ensures p.Rows? ==> forall i :: 0 <= i < |d.media| ==> p.rows[i][..3] == Key(d.media[i])
  {
    if !Selectable(d, WebAssetSelection) then Sentinel(ColumnNotFound)
    else if !SomeCover(d.media) then Sentinel(SchemaError)
    else Rows(WebAssetColumns, seq(|d.media|, i requires 0 <= i < |d.media| => WebAssetRow(d.media[i])))
  }

  /* =====================================================================
     studios: explode the studio nodes, then each studio's media nodes
     ===================================================================== */

  const StudioColumns: seq<string> := ["AnimeID", "Season", "SeasonYear", "StudioID", "StudioName"]

  predicate SomeStudio(ms: seq<Media>) {
    exists i :: 0 <= i < |ms| && |Items(ms[i].studios)| > 0
  }

  predicate SomeStudioMedia(ms: seq<Media>) {
    exists i, j :: 0 <= i < |ms| && 0 <= j < |Items(ms[i].studios)| && |Items(Items(ms[i].studios)[j].media)| > 0
  }

  /** The media list of an exploded studio; null for a null studio. */
  function StudioMedia(s: Option<Studio>): Option<seq<MediaRef>> {
    if s.Some? then s.value.media else None
  }

  function StudioRow(s: Option<Studio>, r: Option<MediaRef>): (row: Row)
    ensures |row| == 5
  {
    RefKey(r) + (if s.Some? then [IntCell(s.value.id), StrCell(s.value.name)] else [Null, Null])
  }

  /** The rows of one studio: one per media node. */
  function StudioNodeRows(s: Option<Studio>): (rows: seq<Row>)
    ensures Width(rows, 5)
  {
    var refs := Explode(StudioMedia(s));
    seq(|refs|, k requires 0 <= k < |refs| => StudioRow(s, refs[k]))
  }

  function StudioNodeBlocks(m: Media): seq<seq<Row>> {
    var studios := Explode(m.studios);
    seq(|studios|, j requires 0 <= j < |studios| => StudioNodeRows(studios[j]))
  }

  /** The rows of one record: the studio nodes' rows in order. */
  function StudioBlock(m: Media): (rows: seq<Row>)
    ensures Width(rows, 5)
  {
    FlattenWidth(StudioNodeBlocks(m), 5);
    Flatten(StudioNodeBlocks(m))
  }

  function StudioBlocks(ms: seq<Media>): seq<seq<Row>> {
    seq(|ms|, i requires 0 <= i < |ms| => StudioBlock(ms[i]))
  }

  function Studios(d: Dataset): (p: Projection)
    ensures p.Rows? ==> p.columns == StudioColumns && Width(p.rows, 5)
  {
    if !Selectable(d, ["studios"]) then Sentinel(ColumnNotFound)
    else if !SomeStudio(d.media) then Sentinel(SchemaError)
    else if !SomeStudioMedia(d.media) then Sentinel(SchemaError)
    else
      FlattenWidth(StudioBlocks(d.media), 5);
      Rows(StudioColumns, Flatten(StudioBlocks(d.media)))
  }

  /* =====================================================================
     genres
     ===================================================================== */

  const GenreSelection: seq<string> := ["genres", "id", "season", "seasonYear"]

  const GenreColumns: seq<string> := ["Genre", "AnimeID", "Season", "SeasonYear"]

  function GenreBlock(m: Media): (rows: seq<Row>)
    ensures Width(rows, 4)
  {
    var genres := Explode(m.genres);
    seq(|genres|, k requires 0 <= k < |genres| => [StrCell(genres[k])] + Key(m))
  }

  function GenreBlocks(ms: seq<Media>): seq<seq<Row>> {
    seq(|ms|, i requires 0 <= i < |ms| => GenreBlock(ms[i]))
  }

  function Genres(d: Dataset): (p: Projection)
    ensures p.Rows? ==> p.columns == GenreColumns && Width(p.rows, 4)
  {
    if !Selectable(d, GenreSelection) then Sentinel(ColumnNotFound)
    else
      FlattenWidth(GenreBlocks(d.media), 4);
      Rows(GenreColumns, Flatten(GenreBlocks(d.media)))
  }

  /* =====================================================================
     tags
     ===================================================================== */

  const TagSelection: seq<string> := ["tags", "id", "season", "seasonYear"]

  const TagColumns: seq<string> :=
    ["TagID", "IsAdult", "Category", "Description", "AnimeID", "Season", "SeasonYear"]

  predicate SomeTag(ms: seq<Media>) {
    exists i :: 0 <= i < |ms| && |Items(ms[i].tags)| > 0
  }

  function TagCells(t: Option<Tag>): Row {
    if t.Some? then
      [IntCell(t.value.id), BoolCell(t.value.isAdult), StrCell(t.value.category), StrCell(t.value.description)]
    else [Null, Null, Null, Null]
  }

  function TagBlock(m: Media): (rows: seq<Row>)
    ensures Width(rows, 7)
  {
    var tags := Explode(m.tags);
    seq(|tags|, k requires 0 <= k < |tags| => TagCells(tags[k]) + Key(m))
  }

  function TagBlocks(ms: seq<Media>): seq<seq<Row>> {
    seq(|ms|, i requires 0 <= i < |ms| => TagBlock(ms[i]))
  }

  function Tags(d: Dataset): (p: Projection)
    ensures p.Rows? ==> p.columns == TagColumns && Width(p.rows, 7)
  {
    if !Selectable(d, TagSelection) then Sentinel(ColumnNotFound)
    else if !SomeTag(d.media) then Sentinel(SchemaError)
    else
      FlattenWidth(TagBlocks(d.media), 7);
      Rows(TagColumns, Flatten(TagBlocks(d.media)))
  }

  /* =====================================================================
     reviews and users: both explode the review nodes
     ===================================================================== */

  predicate SomeReview(ms: seq<Media>) {
    exists i :: 0 <= i < |ms| && |Items(ms[i].reviews)| > 0
  }

  predicate SomeReviewMedia(ms: seq<Media>) {
    exists i, j :: 0 <= i < |ms| && 0 <= j < |Items(ms[i].reviews)| && Items(ms[i].reviews)[j].media.Some?
  }

  predicate SomeReviewUser(ms: seq<Media>) {
    exists i, j :: 0 <= i < |ms| && 0 <= j < |Items(ms[i].reviews)| && Items(ms[i].reviews)[j].user.Some?
  }

  predicate SomeAvatar(ms: seq<Media>) {
    exists i, j :: 0 <= i < |ms| && 0 <= j < |Items(ms[i].reviews)|
      && Items(ms[i].reviews)[j].user.Some? && Items(ms[i].reviews)[j].user.value.avatar.Some?
  }

  /** The author of an exploded review node. */
  function Author(n: Option<Review>): Option<User> {
    if n.Some? then n.value.user else None
  }

  function UserIdCell(u: Option<User>): Value {
    if u.Some? then IntCell(u.value.id) else Null
  }

  const ReviewColumns: seq<string> :=
    ["ReviewID", "Rating", "RatingAmount", "Body", "Summary", "ReviewCreatedAt", "ReviewUpdatedAt",
     "AnimeID", "Season", "SeasonYear", "UserID"]

  function ReviewRow(n: Option<Review>): (r: Row)
    ensures |r| == 11
  {
    if n.Some? then
      var v := n.value;
      [IntCell(v.id), IntCell(v.rating), IntCell(v.ratingAmount), StrCell(v.body), StrCell(v.summary),
       EpochCell(v.createdAt), EpochCell(v.updatedAt)]
      + RefKey(v.media) + [UserIdCell(v.user)]
    else [Null, Null, Null, Null, Null, Null, Null, Null, Null, Null, Null]
  }

  /** The cells of a review row, by what they hold. */
  lemma ReviewRowCells(n: Review)
    ensures ReviewRow(Some(n))[0] == IntCell(n.id)
    ensures ReviewRow(Some(n))[1] == IntCell(n.rating) && ReviewRow(Some(n))[2] == IntCell(n.ratingAmount)
    ensures ReviewRow(Some(n))[3] == StrCell(n.body) && ReviewRow(Some(n))[4] == StrCell(n.summary)
    ensures ReviewRow(Some(n))[5] == EpochCell(n.createdAt) && ReviewRow(Some(n))[6] == EpochCell(n.updatedAt)
    ensures ReviewRow(Some(n))[7..10] == RefKey(n.media)
    ensures ReviewRow(Some(n))[10] == UserIdCell(n.user)
  {
    var r := ReviewRow(Some(n));
    var head := [IntCell(n.id), IntCell(n.rating), IntCell(n.ratingAmount), StrCell(n.body), StrCell(n.summary),
                 EpochCell(n.createdAt), EpochCell(n.updatedAt)];
    assert r == head + RefKey(n.media) + [UserIdCell(n.user)];
  }

  function ReviewBlock(m: Media): (rows: seq<Row>)
    ensures Width(rows, 11)
  {
    var nodes := Explode(m.reviews);
    seq(|nodes|, k requires 0 <= k < |nodes| => ReviewRow(nodes[k]))
  }

  function ReviewBlocks(ms: seq<Media>): seq<seq<Row>> {
    seq(|ms|, i requires 0 <= i < |ms| => ReviewBlock(ms[i]))
  }

  function Reviews(d: Dataset): (p: Projection)
    ensures p.Rows? ==> p.columns == ReviewColumns && Width(p.rows, 11)
  {
    if !Selectable(d, ["reviews"]) then ReviewsSentinel(ColumnNotFound)
    else if !SomeReview(d.media) then ReviewsSentinel(SchemaError)
    else if !SomeReviewMedia(d.media) then ReviewsSentinel(SchemaError)
    else if !SomeReviewUser(d.media) then ReviewsSentinel(SchemaError)
    else
      FlattenWidth(ReviewBlocks(d.media), 11);
      Rows(ReviewColumns, Flatten(ReviewBlocks(d.media)))
  }

  const UserColumns: seq<string> :=
    ["UserID", "Username", "DonatorTier", "DonatorBadge", "UserCreatedAt", "LargeAvatar", "MediumAvatar"]

  function UserRow(u: Option<User>): (r: Row)
    ensures |r| == 7
  {
    if u.Some? then
      var v := u.value;
      [IntCell(v.id), StrCell(v.name), IntCell(v.donatorTier), StrCell(v.donatorBadge), EpochCell(v.createdAt)]
      + (if v.avatar.Some? then [StrCell(v.avatar.value.large), StrCell(v.avatar.value.medium)] else [Null, Null])
    else [Null, Null, Null, Null, Null, Null, Null]
  }

  /** The cells of a user row: the author's fields with the avatar unnested
      in place, and all nulls for a null author. */
  lemma UserRowCells(u: Option<User>)
    ensures u.None? ==> forall c :: 0 <= c < 7 ==> UserRow(u)[c] == Null
    ensures u.Some? ==>
              && UserRow(u)[0] == IntCell(u.value.id) && UserRow(u)[1] == StrCell(u.value.name)
              && UserRow(u)[2] == IntCell(u.value.donatorTier) && UserRow(u)[3] == StrCell(u.value.donatorBadge)
              && UserRow(u)[4] == EpochCell(u.value.createdAt)
    ensures u.Some? && u.value.avatar.Some? ==>
              UserRow(u)[5] == StrCell(u.value.avatar.value.large) && UserRow(u)[6] == StrCell(u.value.avatar.value.medium)
    ensures u.Some? && u.value.avatar.None? ==> UserRow(u)[5] == Null && UserRow(u)[6] == Null
  {
    if u.Some? {
      var v := u.value;
      var head := [IntCell(v.id), StrCell(v.name), IntCell(v.donatorTier), StrCell(v.donatorBadge), EpochCell(v.createdAt)];
      var avatar := if v.avatar.Some? then [StrCell(v.avatar.value.large), StrCell(v.avatar.value.medium)] else [Null, Null];
      assert UserRow(u) == head + avatar;
    }
  }

  function UserBlock(m: Media): (rows: seq<Row>)
    ensures Width(rows, 7)
  {
    var nodes := Explode(m.reviews);
    seq(|nodes|, k requires 0 <= k < |nodes| => UserRow(Author(nodes[k])))
  }

  function UserBlocks(ms: seq<Media>): seq<seq<Row>> {
    seq(|ms|, i requires 0 <= i < |ms| => UserBlock(ms[i]))
  }

  function Users(d: Dataset): (p: Projection)
    ensures p.Rows? ==> p.columns == UserColumns && Width(p.rows, 7)
  {
    if !Selectable(d, ["reviews"]) then Sentinel(ColumnNotFound)
    else if !SomeReview(d.media) then Sentinel(SchemaError)
    else if !SomeReviewUser(d.media) then Sentinel(SchemaError)
    else if !SomeAvatar(d.media) then Sentinel(SchemaError)
    else
      FlattenWidth(UserBlocks(d.media), 7);
      Rows(UserColumns, Flatten(UserBlocks(d.media)))
  }

  /* =====================================================================
     status
     ===================================================================== */

  const StatusSelection: seq<string> := ["id", "season", "seasonYear", "stats"]

  const StatusColumns: seq<string> := ["AnimeID", "Season", "SeasonYear", "AmountOfUsers", "UserStatus"]

  predicate SomeStatus(ms: seq<Media>) {
    exists i :: 0 <= i < |ms| && |Items(ms[i].statusDistribution)| > 0
  }

  function StatusCells(e: Option<StatusCount>): Row {
    if e.Some? then [IntCell(e.value.amount), StrCell(e.value.status)] else [Null, Null]
  }

  function StatusBlock(m: Media): (rows: seq<Row>)
    ensures Width(rows, 5)
  {
    var entries := Explode(m.statusDistribution);
    seq(|entries|, k requires 0 <= k < |entries| => Key(m) + StatusCells(entries[k]))
  }

  function StatusBlocks(ms: seq<Media>): seq<seq<Row>> {
    seq(|ms|, i requires 0 <= i < |ms| => StatusBlock(ms[i]))
  }

  function Status(d: Dataset): (p: Projection)
    ensures p.Rows? ==> p.columns == StatusColumns && Width(p.rows, 5)
  {
    if !Selectable(d, StatusSelection) then Sentinel(ColumnNotFound)
    else if !SomeStatus(d.media) then Sentinel(SchemaError)
    else
      FlattenWidth(StatusBlocks(d.media), 5);
      Rows(StatusColumns, Flatten(StatusBlocks(d.media)))
  }

  /* =====================================================================
     the frames against the tables they are loaded into
     ===================================================================== */

  /** Each projection's final renames and selects give exactly the columns
      of its table, in the table's order. */
  lemma ColumnsMatch()
    ensures AnimeColumns == Schema.Table(Schema.Anime).columns
    ensures WebAssetColumns == Schema.Table(Schema.WebAsset).columns
    ensures StudioColumns == Schema.Table(Schema.Studio).columns
    ensures GenreColumns == Schema.Table(Schema.Genre).columns
    ensures TagColumns == Schema.Table(Schema.Tag).columns
    ensures ReviewColumns == Schema.Table(Schema.Review).columns
    ensures UserColumns == Schema.Table(Schema.User).columns
    ensures StatusColumns == Schema.Table(Schema.Status).columns
  {
    AnimeColumnsMatch();
    WebAssetColumnsMatch();
    StudioColumnsMatch();
    GenreColumnsMatch();
    TagColumnsMatch();
    ReviewColumnsMatch();
    UserColumnsMatch();
    StatusColumnsMatch();
  }

  lemma AnimeColumnsMatch()
    ensures AnimeColumns == Schema.Table(Schema.Anime).columns
  {
  }

  lemma WebAssetColumnsMatch()
    ensures WebAssetColumns == Schema.Table(Schema.WebAsset).columns
  {
  }

  lemma StudioColumnsMatch()
    ensures StudioColumns == Schema.Table(Schema.Studio).columns
  {
  }

  lemma GenreColumnsMatch()
    ensures GenreColumns == Schema.Table(Schema.Genre).columns
  {
  }

  lemma TagColumnsMatch()
    ensures TagColumns == Schema.Table(Schema.Tag).columns
  {
  }

  lemma ReviewColumnsMatch()
    ensures ReviewColumns == Schema.Table(Schema.Review).columns
  {
  }

  lemma UserColumnsMatch()
    ensures UserColumns == Schema.Table(Schema.User).columns
  {
  }

  lemma StatusColumnsMatch()
    ensures StatusColumns == Schema.Table(Schema.Status).columns
  {
  }
}
