/** What the projections of `Preprocess` promise about the rows they produce:
    how many there are, where each list element lands, which parent key each
    row carries, and when a unit yields a sentinel instead of rows. */
module PreprocessLemmas {
  import opened Basics
  import opened Records
  import opened Polars
  import opened Preprocess

  /** Rows `explode` makes of one list cell. */
  function ExplodedSize<T>(xs: Option<seq<T>>): nat {
    if |Items(xs)| == 0 then 1 else |Items(xs)|
  }

  /* ---------------------------------------------------------------------
     anime
     --------------------------------------------------------------------- */

  /** The StartDate cell of an anime row is null exactly when the record's date
      or one of its parts is null; otherwise it is the joined text, which the
      strict parse accepted and which reads back as the record's parts. */
  lemma AnimeStartDate(d: Dataset, readsAsDate: string -> bool, i: nat)
    requires Anime(d, readsAsDate).Rows? && i < |d.media|
    ensures (Anime(d, readsAsDate).rows[i][12] == Null) <==> DateText(d.media[i].startDate).None?
    ensures Anime(d, readsAsDate).rows[i][12] != Null ==>
              Anime(d, readsAsDate).rows[i][12].Date? && readsAsDate(Anime(d, readsAsDate).rows[i][12].text)
    ensures ReadsBack(Anime(d, readsAsDate).rows[i][12], d.media[i].startDate)
  {
    AnimeShape(d, readsAsDate);
    var date := d.media[i].startDate;
    assert AnimeFrame(d.media)[i] == AnimeRow(d.media[i]);
    AnimeRowDates(d.media[i]);
    assert StartDates(d.media)[i] == date;
    DateCellRead(date, readsAsDate);
  }

  /** The same for EndDate. */
  lemma AnimeEndDate(d: Dataset, readsAsDate: string -> bool, i: nat)
    requires Anime(d, readsAsDate).Rows? && i < |d.media|
    ensures (Anime(d, readsAsDate).rows[i][13] == Null) <==> DateText(d.media[i].endDate).None?
    ensures Anime(d, readsAsDate).rows[i][13] != Null ==>
              Anime(d, readsAsDate).rows[i][13].Date? && readsAsDate(Anime(d, readsAsDate).rows[i][13].text)
    ensures ReadsBack(Anime(d, readsAsDate).rows[i][13], d.media[i].endDate)
  {
    AnimeShape(d, readsAsDate);
    var date := d.media[i].endDate;
    assert AnimeFrame(d.media)[i] == AnimeRow(d.media[i]);
    AnimeRowDates(d.media[i]);
    assert EndDates(d.media)[i] == date;
    DateCellRead(date, readsAsDate);
  }

  /** Row `i` of the anime frame holds record `i`'s three titles, its
      format and its five counts, in the table's column order. */
  lemma AnimeAt(d: Dataset, readsAsDate: string -> bool, i: nat)
    requires Anime(d, readsAsDate).Rows? && i < |d.media|
    ensures
      var m, r := d.media[i], Anime(d, readsAsDate).rows[i];
      && r[3..6] == TitleCells(m.title)
      && r[6] == StrCell(m.format) && r[7] == IntCell(m.meanScore) && r[8] == IntCell(m.popularity)
      && r[9] == IntCell(m.episodes) && r[10] == IntCell(m.favourites) && r[11] == IntCell(m.duration)
  {
    AnimeShape(d, readsAsDate);
    assert AnimeFrame(d.media)[i] == AnimeRow(d.media[i]);
    AnimeRowCells(d.media[i]);
  }

  /** Where the titles, format and counts sit in an anime row. */
  lemma AnimeRowCells(m: Media)
    ensures AnimeRow(m)[3..6] == TitleCells(m.title)
    ensures AnimeRow(m)[6] == StrCell(m.format) && AnimeRow(m)[7] == IntCell(m.meanScore)
    ensures AnimeRow(m)[8] == IntCell(m.popularity) && AnimeRow(m)[9] == IntCell(m.episodes)
    ensures AnimeRow(m)[10] == IntCell(m.favourites) && AnimeRow(m)[11] == IntCell(m.duration)
  {
    var tail := [StrCell(m.format), IntCell(m.meanScore), IntCell(m.popularity), IntCell(m.episodes),
                 IntCell(m.favourites), IntCell(m.duration), DateCell(m.startDate), DateCell(m.endDate)];
    assert AnimeRow(m) == Key(m) + TitleCells(m.title) + tail;
    assert |Key(m)| == 3 && |TitleCells(m.title)| == 3;
  }

  /** A date cell whose text reads back as the parts of a fully known date. */
  ghost predicate ReadsBack(cell: Value, date: Option<FuzzyDate>) {
    forall y: nat, m: nat, dd: nat :: date == Some(FuzzyDate(Some(y), Some(m), Some(dd))) ==>
      cell.Date? && ReadDate(cell.text) == Some((y, m, dd))
  }

  /** Where the two date cells sit in an anime row. */
  lemma AnimeRowDates(m: Media)
    ensures AnimeRow(m)[12] == DateCell(m.startDate) && AnimeRow(m)[13] == DateCell(m.endDate)
  {
    var tail := [StrCell(m.format), IntCell(m.meanScore), IntCell(m.popularity), IntCell(m.episodes),
                 IntCell(m.favourites), IntCell(m.duration), DateCell(m.startDate), DateCell(m.endDate)];
    assert AnimeRow(m) == (Key(m) + TitleCells(m.title)) + tail;
    assert |Key(m) + TitleCells(m.title)| == 6;
  }

  /** What one date cell holds, given that the strict parse accepted its text. */
  lemma DateCellRead(date: Option<FuzzyDate>, readsAsDate: string -> bool)
    requires DateText(date).Some? ==> readsAsDate(DateText(date).value)
    ensures (DateCell(date) == Null) <==> DateText(date).None?
    ensures DateCell(date) != Null ==> DateCell(date).Date? && readsAsDate(DateCell(date).text)
    ensures ReadsBack(DateCell(date), date)
  {
    forall y: nat, m: nat, dd: nat | date == Some(FuzzyDate(Some(y), Some(m), Some(dd)))
      ensures ReadDate(DateCell(date).text) == Some((y, m, dd))
    {
      ReadJoinDate(y, m, dd);
    }
  }

  /** A successful anime projection: one `AnimeRow` per record, and every
      joined date text accepted by the parse. */
  lemma AnimeShape(d: Dataset, readsAsDate: string -> bool)
    requires Anime(d, readsAsDate).Rows?
    ensures AllReadAsDates(StartDates(d.media), readsAsDate) && AllReadAsDates(EndDates(d.media), readsAsDate)
    ensures Anime(d, readsAsDate).rows == AnimeFrame(d.media)
  {
    assert Selectable(d, AnimeSelection) && SomeTitle(d.media) && SomeStartDate(d.media);
    assert AllReadAsDates(StartDates(d.media), readsAsDate) && SomeEndDate(d.media);
    assert AllReadAsDates(EndDates(d.media), readsAsDate);
  }

  /** A date the calendar rejects turns the whole anime frame into `None`,
      not into a null cell. */
  lemma AnimeBadDate(d: Dataset, readsAsDate: string -> bool, i: nat)
    requires i < |d.media| && DateText(d.media[i].startDate).Some?
    requires !readsAsDate(DateText(d.media[i].startDate).value)
    requires Selectable(d, AnimeSelection) && SomeTitle(d.media)
    ensures Anime(d, readsAsDate) == NoneResult
  {
    assert StartDates(d.media)[i] == d.media[i].startDate;
    assert SomeStartDate(d.media);
    assert !AllReadAsDates(StartDates(d.media), readsAsDate);
  }

  /* ---------------------------------------------------------------------
     web_assets
     --------------------------------------------------------------------- */

  /** Row `i` of the asset frame is record `i`'s cover flattened in place, with
      the trailer passed through as it came. */
  lemma WebAssetsAt(d: Dataset, i: nat)
    requires WebAssets(d).Rows? && i < |d.media|
    ensures WebAssets(d).rows[i][3] == StrCell(d.media[i].bannerImage)
    ensures WebAssets(d).rows[i][4..8] == CoverCells(d.media[i].coverImage)
    ensures WebAssets(d).rows[i][8] == StrCell(d.media[i].siteUrl)
    ensures WebAssets(d).rows[i][9] == d.media[i].trailer
  {
    var m := d.media[i];
    assert WebAssets(d).rows[i] == WebAssetRow(m);
    assert WebAssetRow(m) == (Key(m) + [StrCell(m.bannerImage)]) + CoverCells(m.coverImage) + [StrCell(m.siteUrl), m.trailer];
    assert |Key(m)| == 3 && |CoverCells(m.coverImage)| == 4;
  }

  /* ---------------------------------------------------------------------
     genres
     --------------------------------------------------------------------- */

  /** Genre `k` of record `i` is row `Offset(i) + k`, carrying record `i`'s key. */
  lemma GenresShape(d: Dataset)
    requires Genres(d).Rows?
    ensures Genres(d).rows == Flatten(GenreBlocks(d.media))
  {
  }

  /** Element `k` of one record's list gives that record's row `k`. */
  lemma GenreBlockAt(m: Media, k: nat)
    requires k < |Items(m.genres)|
    ensures k < |GenreBlock(m)| && GenreBlock(m)[k] == [Str(Items(m.genres)[k])] + Key(m)
  {
    assert Explode(m.genres)[k] == Some(Items(m.genres)[k]);
  }

  /** Element `k` of record `i`'s list lands at the record's offset plus `k`. */
  lemma GenreFrameAt(ms: seq<Media>, i: nat, k: nat)
    requires i < |ms| && k < |Items(ms[i].genres)|
    ensures Offset(GenreBlocks(ms), i) + k < |Flatten(GenreBlocks(ms))|
    ensures Flatten(GenreBlocks(ms))[Offset(GenreBlocks(ms), i) + k] == [Str(Items(ms[i].genres)[k])] + Key(ms[i])
  {
    GenreBlockAt(ms[i], k);
    assert GenreBlocks(ms)[i] == GenreBlock(ms[i]);
    FlattenAt(GenreBlocks(ms), i, k);
  }

  lemma GenresAt(d: Dataset, i: nat, k: nat)
    requires Genres(d).Rows? && i < |d.media| && k < |Items(d.media[i].genres)|
    ensures Offset(GenreBlocks(d.media), i) + k < |Genres(d).rows|
    ensures Genres(d).rows[Offset(GenreBlocks(d.media), i) + k]
            == [Str(Items(d.media[i].genres)[k])] + Key(d.media[i])
  {
    GenresShape(d);
    GenreFrameAt(d.media, i, k);
  }

  /** A record without genres still gives one row, whose genre is null. */
  lemma GenresNone(d: Dataset, i: nat)
    requires Genres(d).Rows? && i < |d.media| && |Items(d.media[i].genres)| == 0
    ensures Offset(GenreBlocks(d.media), i) < |Genres(d).rows|
    ensures Genres(d).rows[Offset(GenreBlocks(d.media), i)] == [Null] + Key(d.media[i])
  {
    GenresShape(d);
    GenreNoneFrameAt(d.media, i);
  }

  lemma GenreNoneFrameAt(ms: seq<Media>, i: nat)
    requires i < |ms| && |Items(ms[i].genres)| == 0
    ensures Offset(GenreBlocks(ms), i) < |Flatten(GenreBlocks(ms))|
    ensures Flatten(GenreBlocks(ms))[Offset(GenreBlocks(ms), i)] == [Null] + Key(ms[i])
  {
    assert Explode(ms[i].genres) == [None];
    assert GenreBlock(ms[i])[0] == [Null] + Key(ms[i]);
    assert GenreBlocks(ms)[i] == GenreBlock(ms[i]);
    FlattenAt(GenreBlocks(ms), i, 0);
  }

  /** One row per genre, and one for each record that has none. */
  lemma GenresCount(d: Dataset)
    requires Genres(d).Rows?
    ensures |Genres(d).rows| == Sum(seq(|d.media|, i requires 0 <= i < |d.media| => ExplodedSize(d.media[i].genres)))
  {
    GenresShape(d);
    var sizes := seq(|d.media|, i requires 0 <= i < |d.media| => ExplodedSize(d.media[i].genres));
    FlattenLength(GenreBlocks(d.media));
    TotalLengthSum(GenreBlocks(d.media), sizes);
  }
  /** Record `i`'s genre rows start after one row per genre, or one null
      row, of every record before it. */
  lemma GenresOffset(d: Dataset, i: nat)
    requires i <= |d.media|
    ensures Offset(GenreBlocks(d.media), i) == Sum(seq(i, j requires 0 <= j < i => ExplodedSize(d.media[j].genres)))
  {
    OffsetSum(GenreBlocks(d.media), i, seq(i, j requires 0 <= j < i => ExplodedSize(d.media[j].genres)));
  }


  /** The genre frame never takes the `501` path: nothing in it is unnested. */
  lemma GenresNever501(d: Dataset)
    ensures Genres(d) != Schema501
    ensures Genres(d) == NoneResult <==> !Selectable(d, GenreSelection)
  {
  }

  /** One anime (101, FALL, 2020) with genres Action and Comedy gives exactly
      the two rows (Action, 101, FALL, 2020) and (Comedy, 101, FALL, 2020). */
  lemma GenreScenario()
    ensures
      var m := Media(Some(101), Some("FALL"), Some(2020), None, None, None, None, None, None, None,
                     None, None, None, None, None, Null, None, Some(["Action", "Comedy"]), None, None, None);
      Genres(Dataset({}, [m]))
      == Rows(GenreColumns, [[Str("Action"), Int(101), Str("FALL"), Int(2020)],
                             [Str("Comedy"), Int(101), Str("FALL"), Int(2020)]])
  {
    var m := Media(Some(101), Some("FALL"), Some(2020), None, None, None, None, None, None, None,
                   None, None, None, None, None, Null, None, Some(["Action", "Comedy"]), None, None, None);
    var rows: seq<Row> := [[Str("Action"), Int(101), Str("FALL"), Int(2020)], [Str("Comedy"), Int(101), Str("FALL"), Int(2020)]];
    assert Explode(m.genres) == [Some("Action"), Some("Comedy")];
    assert Key(m) == [Int(101), Str("FALL"), Int(2020)];
    assert GenreBlock(m)[0] == [StrCell(Some("Action"))] + Key(m) == rows[0];
    assert GenreBlock(m)[1] == [StrCell(Some("Comedy"))] + Key(m) == rows[1];
    assert GenreBlock(m) == rows;
    assert GenreBlocks([m]) == [rows];
    var none: seq<seq<Row>> := [];
    assert Flatten([rows]) == rows by { assert [rows][1..] == none; }
  }

  /* ---------------------------------------------------------------------
     tags and status: each element inherits the parent record's key
     --------------------------------------------------------------------- */

  lemma TagsShape(d: Dataset)
    requires Tags(d).Rows?
    ensures Tags(d).rows == Flatten(TagBlocks(d.media))
  {
    if !Selectable(d, TagSelection) || !SomeTag(d.media) {
    }
  }

  lemma StatusShape(d: Dataset)
    requires Status(d).Rows?
    ensures Status(d).rows == Flatten(StatusBlocks(d.media))
  {
    if !Selectable(d, StatusSelection) || !SomeStatus(d.media) {
    }
  }

  /** Element `k` of one record's list gives that record's row `k`. */
  lemma TagBlockAt(m: Media, k: nat)
    requires k < |Items(m.tags)|
    ensures k < |TagBlock(m)| && TagBlock(m)[k] == TagCells(Some(Items(m.tags)[k])) + Key(m)
  {
    assert Explode(m.tags)[k] == Some(Items(m.tags)[k]);
  }

  /** Element `k` of record `i`'s list lands at the record's offset plus `k`. */
  lemma TagFrameAt(ms: seq<Media>, i: nat, k: nat)
    requires i < |ms| && k < |Items(ms[i].tags)|
    ensures Offset(TagBlocks(ms), i) + k < |Flatten(TagBlocks(ms))|
    ensures Flatten(TagBlocks(ms))[Offset(TagBlocks(ms), i) + k] == TagCells(Some(Items(ms[i].tags)[k])) + Key(ms[i])
    ensures Flatten(TagBlocks(ms))[Offset(TagBlocks(ms), i) + k][..4] == TagCells(Some(Items(ms[i].tags)[k]))
    ensures Flatten(TagBlocks(ms))[Offset(TagBlocks(ms), i) + k][4..] == Key(ms[i])
  {
    TagBlockAt(ms[i], k);
    assert TagBlocks(ms)[i] == TagBlock(ms[i]);
    FlattenAt(TagBlocks(ms), i, k);
    var row := TagCells(Some(Items(ms[i].tags)[k])) + Key(ms[i]);
    assert row[..4] == TagCells(Some(Items(ms[i].tags)[k])) && row[4..] == Key(ms[i]);
  }

  lemma TagsAt(d: Dataset, i: nat, k: nat)
    requires Tags(d).Rows? && i < |d.media| && k < |Items(d.media[i].tags)|
    ensures Offset(TagBlocks(d.media), i) + k < |Tags(d).rows|
    ensures Tags(d).rows[Offset(TagBlocks(d.media), i) + k][..4] == TagCells(Some(Items(d.media[i].tags)[k]))
    ensures Tags(d).rows[Offset(TagBlocks(d.media), i) + k][4..] == Key(d.media[i])
  {
    TagsShape(d);
    TagFrameAt(d.media, i, k);
  }

  lemma TagsCount(d: Dataset)
    requires Tags(d).Rows?
    ensures |Tags(d).rows| == Sum(seq(|d.media|, i requires 0 <= i < |d.media| => ExplodedSize(d.media[i].tags)))
  {
    TagsShape(d);
    var sizes := seq(|d.media|, i requires 0 <= i < |d.media| => ExplodedSize(d.media[i].tags));
    FlattenLength(TagBlocks(d.media));
    TotalLengthSum(TagBlocks(d.media), sizes);
  }
  /** Record `i`'s tag rows start after the rows of every record before it. */
  lemma TagsOffset(d: Dataset, i: nat)
    requires i <= |d.media|
    ensures Offset(TagBlocks(d.media), i) == Sum(seq(i, j requires 0 <= j < i => ExplodedSize(d.media[j].tags)))
  {
    OffsetSum(TagBlocks(d.media), i, seq(i, j requires 0 <= j < i => ExplodedSize(d.media[j].tags)));
  }


  /** Element `k` of one record's list gives that record's row `k`. */
  lemma StatusBlockAt(m: Media, k: nat)
    requires k < |Items(m.statusDistribution)|
    ensures k < |StatusBlock(m)| && StatusBlock(m)[k] == Key(m) + StatusCells(Some(Items(m.statusDistribution)[k]))
  {
    assert Explode(m.statusDistribution)[k] == Some(Items(m.statusDistribution)[k]);
  }

  /** Element `k` of record `i`'s list lands at the record's offset plus `k`. */
  lemma StatusFrameAt(ms: seq<Media>, i: nat, k: nat)
    requires i < |ms| && k < |Items(ms[i].statusDistribution)|
    ensures Offset(StatusBlocks(ms), i) + k < |Flatten(StatusBlocks(ms))|
    ensures Flatten(StatusBlocks(ms))[Offset(StatusBlocks(ms), i) + k]
            == Key(ms[i]) + StatusCells(Some(Items(ms[i].statusDistribution)[k]))
    ensures Flatten(StatusBlocks(ms))[Offset(StatusBlocks(ms), i) + k][..3] == Key(ms[i])
    ensures Flatten(StatusBlocks(ms))[Offset(StatusBlocks(ms), i) + k][3..] == StatusCells(Some(Items(ms[i].statusDistribution)[k]))
  {
    StatusBlockAt(ms[i], k);
    assert StatusBlocks(ms)[i] == StatusBlock(ms[i]);
    FlattenAt(StatusBlocks(ms), i, k);
    var row := Key(ms[i]) + StatusCells(Some(Items(ms[i].statusDistribution)[k]));
    assert row[..3] == Key(ms[i]) && row[3..] == StatusCells(Some(Items(ms[i].statusDistribution)[k]));
  }

  lemma StatusAt(d: Dataset, i: nat, k: nat)
    requires Status(d).Rows? && i < |d.media| && k < |Items(d.media[i].statusDistribution)|
    ensures Offset(StatusBlocks(d.media), i) + k < |Status(d).rows|
    ensures Status(d).rows[Offset(StatusBlocks(d.media), i) + k][..3] == Key(d.media[i])
    ensures Status(d).rows[Offset(StatusBlocks(d.media), i) + k][3..]
            == StatusCells(Some(Items(d.media[i].statusDistribution)[k]))
  {
    StatusShape(d);
    StatusFrameAt(d.media, i, k);
  }

  lemma StatusCount(d: Dataset)
    requires Status(d).Rows?
    ensures |Status(d).rows|
            == Sum(seq(|d.media|, i requires 0 <= i < |d.media| => ExplodedSize(d.media[i].statusDistribution)))
  {
    StatusShape(d);
    var sizes := seq(|d.media|, i requires 0 <= i < |d.media| => ExplodedSize(d.media[i].statusDistribution));
    FlattenLength(StatusBlocks(d.media));
    TotalLengthSum(StatusBlocks(d.media), sizes);
  }
  /** Record `i`'s status rows start after the rows of every record before it. */
  lemma StatusOffset(d: Dataset, i: nat)
    requires i <= |d.media|
    ensures Offset(StatusBlocks(d.media), i)
            == Sum(seq(i, j requires 0 <= j < i => ExplodedSize(d.media[j].statusDistribution)))
  {
    OffsetSum(StatusBlocks(d.media), i, seq(i, j requires 0 <= j < i => ExplodedSize(d.media[j].statusDistribution)));
  }


  /* ---------------------------------------------------------------------
     studios: two explodes, the key from the studio's own media node
     --------------------------------------------------------------------- */

  lemma StudiosShape(d: Dataset)
    requires Studios(d).Rows?
    ensures Studios(d).rows == Flatten(StudioBlocks(d.media))
  {
    if !Selectable(d, ["studios"]) || !SomeStudio(d.media) || !SomeStudioMedia(d.media) {
    }
  }

  /** Media node `k` of studio `j` of record `i` gives one row, keyed by that
      node and not by record `i`. */
  lemma StudiosAt(d: Dataset, i: nat, j: nat, k: nat)
    requires Studios(d).Rows? && i < |d.media|
    requires j < |Items(d.media[i].studios)|
    requires k < |Items(Items(d.media[i].studios)[j].media)|
    ensures Offset(StudioBlocks(d.media), i) + Offset(StudioNodeBlocks(d.media[i]), j) + k < |Studios(d).rows|
    ensures Studios(d).rows[Offset(StudioBlocks(d.media), i) + Offset(StudioNodeBlocks(d.media[i]), j) + k]
            == RefKey(Some(Items(Items(d.media[i].studios)[j].media)[k]))
               + [IntCell(Items(d.media[i].studios)[j].id), StrCell(Items(d.media[i].studios)[j].name)]
  {
    StudiosShape(d);
    StudioFrameAt(d.media, i, j, k);
  }
  /** Rows one record's studios give: for each exploded studio, one per
      media node it lists, or one when it lists none or is itself null. */
  function StudioRowCount(m: Media): nat {
    var studios := Explode(m.studios);
    Sum(seq(|studios|, j requires 0 <= j < |studios| => ExplodedSize(StudioMedia(studios[j]))))
  }

  /** One record's studio rows number `StudioRowCount`. */
  lemma StudioBlockSize(m: Media)
    ensures |StudioBlock(m)| == StudioRowCount(m)
  {
    var studios := Explode(m.studios);
    var sizes := seq(|studios|, j requires 0 <= j < |studios| => ExplodedSize(StudioMedia(studios[j])));
    FlattenLength(StudioNodeBlocks(m));
    TotalLengthSum(StudioNodeBlocks(m), sizes);
  }

  /** The studio frame has, per record, one row per media node of each of
      its studios, counting one for a studio without nodes and one for a
      record without studios. */
  lemma StudiosCount(d: Dataset)
    requires Studios(d).Rows?
    ensures |Studios(d).rows| == Sum(seq(|d.media|, i requires 0 <= i < |d.media| => StudioRowCount(d.media[i])))
  {
    StudiosShape(d);
    var sizes := seq(|d.media|, i requires 0 <= i < |d.media| => StudioRowCount(d.media[i]));
    forall i | 0 <= i < |d.media|
      ensures |StudioBlocks(d.media)[i]| == sizes[i]
    {
      StudioBlockSize(d.media[i]);
    }
    FlattenLength(StudioBlocks(d.media));
    TotalLengthSum(StudioBlocks(d.media), sizes);
  }

  /** Record `i`'s studio rows start after the rows of every record before it. */
  lemma StudiosOffset(d: Dataset, i: nat)
    requires i <= |d.media|
    ensures Offset(StudioBlocks(d.media), i) == Sum(seq(i, j requires 0 <= j < i => StudioRowCount(d.media[j])))
  {
    var sizes := seq(i, j requires 0 <= j < i => StudioRowCount(d.media[j]));
    forall j | 0 <= j < i
      ensures |StudioBlocks(d.media)[j]| == sizes[j]
    {
      StudioBlockSize(d.media[j]);
    }
    OffsetSum(StudioBlocks(d.media), i, sizes);
  }


  /** Media node `k` of one studio gives that studio's row `k`. */
  lemma StudioNodeAt(s: Studio, k: nat)
    requires k < |Items(s.media)|
    ensures k < |StudioNodeRows(Some(s))|
    ensures StudioNodeRows(Some(s))[k] == RefKey(Some(Items(s.media)[k])) + [IntCell(s.id), StrCell(s.name)]
  {
    assert StudioMedia(Some(s)) == s.media;
    assert Explode(s.media)[k] == Some(Items(s.media)[k]);
  }

  /** The same position stated over the concatenated record blocks. */
  lemma StudioFrameAt(ms: seq<Media>, i: nat, j: nat, k: nat)
    requires i < |ms| && j < |Items(ms[i].studios)| && k < |Items(Items(ms[i].studios)[j].media)|
    ensures Offset(StudioBlocks(ms), i) + Offset(StudioNodeBlocks(ms[i]), j) + k < |Flatten(StudioBlocks(ms))|
    ensures Flatten(StudioBlocks(ms))[Offset(StudioBlocks(ms), i) + Offset(StudioNodeBlocks(ms[i]), j) + k]
            == RefKey(Some(Items(Items(ms[i].studios)[j].media)[k]))
               + [IntCell(Items(ms[i].studios)[j].id), StrCell(Items(ms[i].studios)[j].name)]
  {
    var s := Items(ms[i].studios)[j];
    var nodes := StudioNodeBlocks(ms[i]);
    assert StudioBlocks(ms)[i] == Flatten(nodes);
    assert Explode(ms[i].studios)[j] == Some(s);
    assert nodes[j] == StudioNodeRows(Some(s));
    StudioNodeAt(s, k);
    FlattenAt2(StudioBlocks(ms), nodes, i, j, k);
  }

  /** A record whose only studio lists another anime contributes that anime's
      key: the outer record's id is dropped. */
  lemma StudiosKeyFromNode()
    ensures
      var ref := MediaRef(Some(2), Some("FALL"), Some(2019));
      var studio := Studio(Some(7), Some("Bones"), Some([ref]));
      var m := Media(Some(1), Some("FALL"), Some(2019), None, None, None, None, None, None, None,
                     None, None, None, None, None, Null, Some([studio]), None, None, None, None);
      Studios(Dataset({}, [m])) == Rows(StudioColumns, [[Int(2), Str("FALL"), Int(2019), Int(7), Str("Bones")]])
  {
    var ref := MediaRef(Some(2), Some("FALL"), Some(2019));
    var studio := Studio(Some(7), Some("Bones"), Some([ref]));
    var m := Media(Some(1), Some("FALL"), Some(2019), None, None, None, None, None, None, None,
                   None, None, None, None, None, Null, Some([studio]), None, None, None, None);
    var row := [Int(2), Str("FALL"), Int(2019), Int(7), Str("Bones")];
    assert SomeStudio([m]) by { assert |Items([m][0].studios)| > 0; }
    assert SomeStudioMedia([m]) by { assert |Items(Items([m][0].studios)[0].media)| > 0; }
    assert Explode(Some([ref])) == [Some(ref)];
    assert StudioRow(Some(studio), Some(ref)) == row;
    assert StudioNodeRows(Some(studio)) == [row];
    assert Explode(Some([studio])) == [Some(studio)];
    assert StudioNodeBlocks(m) == [[row]];
    assert Flatten([[row]]) == [row] by { assert [[row]][1..] == []; }
    assert StudioBlocks([m]) == [[row]];
  }

  /* ---------------------------------------------------------------------
     reviews and users
     --------------------------------------------------------------------- */

  lemma ReviewsShape(d: Dataset)
    requires Reviews(d).Rows?
    ensures Reviews(d).rows == Flatten(ReviewBlocks(d.media))
  {
    if !Selectable(d, ["reviews"]) || !SomeReview(d.media) || !SomeReviewMedia(d.media) || !SomeReviewUser(d.media) {
    }
  }

  lemma UsersShape(d: Dataset)
    requires Users(d).Rows?
    ensures Users(d).rows == Flatten(UserBlocks(d.media))
  {
    if !Selectable(d, ["reviews"]) || !SomeReview(d.media) || !SomeReviewUser(d.media) || !SomeAvatar(d.media) {
    }
  }
  /** One review row per review, and one null row for each record without
      reviews. */
  lemma ReviewsCount(d: Dataset)
    requires Reviews(d).Rows?
    ensures |Reviews(d).rows| == Sum(seq(|d.media|, i requires 0 <= i < |d.media| => ExplodedSize(d.media[i].reviews)))
  {
    ReviewsShape(d);
    var sizes := seq(|d.media|, i requires 0 <= i < |d.media| => ExplodedSize(d.media[i].reviews));
    FlattenLength(ReviewBlocks(d.media));
    TotalLengthSum(ReviewBlocks(d.media), sizes);
  }

  /** One user row per review, whoever wrote it, and one null row for each
      record without reviews: the same count as the review frame, whether
      or not that frame exists. */
  lemma UsersCount(d: Dataset)
    requires Users(d).Rows?
    ensures |Users(d).rows| == Sum(seq(|d.media|, i requires 0 <= i < |d.media| => ExplodedSize(d.media[i].reviews)))
  {
    UsersShape(d);
    var sizes := seq(|d.media|, i requires 0 <= i < |d.media| => ExplodedSize(d.media[i].reviews));
    FlattenLength(UserBlocks(d.media));
    TotalLengthSum(UserBlocks(d.media), sizes);
  }

  /** Record `i`'s review rows, and its user rows, start after those of every
      record before it. */
  lemma ReviewsOffset(d: Dataset, i: nat)
    requires i <= |d.media|
    ensures Offset(ReviewBlocks(d.media), i) == Sum(seq(i, j requires 0 <= j < i => ExplodedSize(d.media[j].reviews)))
    ensures Offset(UserBlocks(d.media), i) == Sum(seq(i, j requires 0 <= j < i => ExplodedSize(d.media[j].reviews)))
  {
    OffsetSum(ReviewBlocks(d.media), i, seq(i, j requires 0 <= j < i => ExplodedSize(d.media[j].reviews)));
    OffsetSum(UserBlocks(d.media), i, seq(i, j requires 0 <= j < i => ExplodedSize(d.media[j].reviews)));
  }


  /** Element `k` of one record's list gives that record's row `k`. */
  lemma ReviewBlockAt(m: Media, k: nat)
    requires k < |Items(m.reviews)|
    ensures k < |ReviewBlock(m)| && ReviewBlock(m)[k] == ReviewRow(Some(Items(m.reviews)[k]))
  {
    assert Explode(m.reviews)[k] == Some(Items(m.reviews)[k]);
  }

  /** Element `k` of record `i`'s list lands at the record's offset plus `k`. */
  lemma ReviewFrameAt(ms: seq<Media>, i: nat, k: nat)
    requires i < |ms| && k < |Items(ms[i].reviews)|
    ensures Offset(ReviewBlocks(ms), i) + k < |Flatten(ReviewBlocks(ms))|
    ensures Flatten(ReviewBlocks(ms))[Offset(ReviewBlocks(ms), i) + k] == ReviewRow(Some(Items(ms[i].reviews)[k]))
  {
    ReviewBlockAt(ms[i], k);
    assert ReviewBlocks(ms)[i] == ReviewBlock(ms[i]);
    FlattenAt(ReviewBlocks(ms), i, k);
  }

  /** Review `k` of record `i` gives one row, whose key is the review's own
      media node and whose times are the epoch instants. */
  lemma ReviewsAt(d: Dataset, i: nat, k: nat)
    requires Reviews(d).Rows? && i < |d.media| && k < |Items(d.media[i].reviews)|
    ensures Offset(ReviewBlocks(d.media), i) + k < |Reviews(d).rows|
    ensures
      var n := Items(d.media[i].reviews)[k];
      var r := Reviews(d).rows[Offset(ReviewBlocks(d.media), i) + k];
      && r[0] == IntCell(n.id)
      && r[1] == IntCell(n.rating) && r[2] == IntCell(n.ratingAmount)
      && r[3] == StrCell(n.body) && r[4] == StrCell(n.summary)
      && r[5] == EpochCell(n.createdAt) && r[6] == EpochCell(n.updatedAt)
      && r[7..10] == RefKey(n.media)
      && r[10] == UserIdCell(n.user)
  {
    ReviewsShape(d);
    ReviewFrameAt(d.media, i, k);
    ReviewRowCells(Items(d.media[i].reviews)[k]);
  }

  /** Element `k` of one record's list gives that record's row `k`. */
  lemma UserBlockAt(m: Media, k: nat)
    requires k < |Items(m.reviews)|
    ensures k < |UserBlock(m)| && UserBlock(m)[k] == UserRow(Items(m.reviews)[k].user)
  {
    assert Explode(m.reviews)[k] == Some(Items(m.reviews)[k]);
  }

  /** Element `k` of record `i`'s list lands at the record's offset plus `k`. */
  lemma UserFrameAt(ms: seq<Media>, i: nat, k: nat)
    requires i < |ms| && k < |Items(ms[i].reviews)|
    ensures Offset(UserBlocks(ms), i) + k < |Flatten(UserBlocks(ms))|
    ensures Flatten(UserBlocks(ms))[Offset(UserBlocks(ms), i) + k] == UserRow(Items(ms[i].reviews)[k].user)
  {
    var blocks := UserBlocks(ms);
    UserBlockAt(ms[i], k);
    assert blocks[i] == UserBlock(ms[i]);
    FlattenAt(blocks, i, k);
  }

  /** Review `k` of record `i` gives one user row: its author's id, name,
      donator tier and badge, creation instant and the two avatar sizes, or
      all nulls when the author is null. */
  lemma UsersAt(d: Dataset, i: nat, k: nat)
    requires Users(d).Rows? && i < |d.media| && k < |Items(d.media[i].reviews)|
    ensures Offset(UserBlocks(d.media), i) + k < |Users(d).rows|
    ensures Users(d).rows[Offset(UserBlocks(d.media), i) + k] == UserRow(Items(d.media[i].reviews)[k].user)
    ensures
      var u, r := Items(d.media[i].reviews)[k].user, Users(d).rows[Offset(UserBlocks(d.media), i) + k];
      && (u.None? ==> forall c :: 0 <= c < 7 ==> r[c] == Null)
      && (u.Some? ==>
            && r[0] == IntCell(u.value.id) && r[1] == StrCell(u.value.name)
            && r[2] == IntCell(u.value.donatorTier) && r[3] == StrCell(u.value.donatorBadge)
            && r[4] == EpochCell(u.value.createdAt))
      && (u.Some? && u.value.avatar.Some? ==>
            r[5] == StrCell(u.value.avatar.value.large) && r[6] == StrCell(u.value.avatar.value.medium))
      && (u.Some? && u.value.avatar.None? ==> r[5] == Null && r[6] == Null)
  {
    UsersShape(d);
    UserFrameAt(d.media, i, k);
    UserRowCells(Items(d.media[i].reviews)[k].user);
  }

  /** Users are not de-duplicated: two reviews by the same author give two
      equal rows. */
  lemma UsersRepeat(d: Dataset, i: nat, k1: nat, k2: nat)
    requires Users(d).Rows? && i < |d.media| && k1 < k2 < |Items(d.media[i].reviews)|
    requires Items(d.media[i].reviews)[k1].user == Items(d.media[i].reviews)[k2].user
    ensures Offset(UserBlocks(d.media), i) + k1 != Offset(UserBlocks(d.media), i) + k2
    ensures Offset(UserBlocks(d.media), i) + k2 < |Users(d).rows|
    ensures Users(d).rows[Offset(UserBlocks(d.media), i) + k1] == Users(d).rows[Offset(UserBlocks(d.media), i) + k2]
  {
    UsersAt(d, i, k1);
    UsersAt(d, i, k2);
  }

  /* ---------------------------------------------------------------------
     the null row of a record whose list is null or empty
     --------------------------------------------------------------------- */

  /** A record without tags gives one row: null tag cells, then its key. */
  lemma TagsNone(d: Dataset, i: nat)
    requires Tags(d).Rows? && i < |d.media| && |Items(d.media[i].tags)| == 0
    ensures Offset(TagBlocks(d.media), i) < |Tags(d).rows|
    ensures Tags(d).rows[Offset(TagBlocks(d.media), i)] == [Null, Null, Null, Null] + Key(d.media[i])
  {
    TagsShape(d);
    var ms := d.media;
    assert Explode(ms[i].tags) == [None];
    assert TagBlock(ms[i])[0] == TagCells(None) + Key(ms[i]);
    assert TagBlocks(ms)[i] == TagBlock(ms[i]);
    FlattenAt(TagBlocks(ms), i, 0);
  }

  /** A record without status entries gives one row: its key, then nulls. */
  lemma StatusNone(d: Dataset, i: nat)
    requires Status(d).Rows? && i < |d.media| && |Items(d.media[i].statusDistribution)| == 0
    ensures Offset(StatusBlocks(d.media), i) < |Status(d).rows|
    ensures Status(d).rows[Offset(StatusBlocks(d.media), i)] == Key(d.media[i]) + [Null, Null]
  {
    StatusShape(d);
    var ms := d.media;
    assert Explode(ms[i].statusDistribution) == [None];
    assert StatusBlock(ms[i])[0] == Key(ms[i]) + StatusCells(None);
    assert StatusBlocks(ms)[i] == StatusBlock(ms[i]);
    FlattenAt(StatusBlocks(ms), i, 0);
  }

  /** A record without studios gives one row of nulls: the record's own key
      was dropped before the explode, and there is no media node to key it. */
  lemma StudiosNone(d: Dataset, i: nat)
    requires Studios(d).Rows? && i < |d.media| && |Items(d.media[i].studios)| == 0
    ensures Offset(StudioBlocks(d.media), i) < |Studios(d).rows|
    ensures Studios(d).rows[Offset(StudioBlocks(d.media), i)] == [Null, Null, Null, Null, Null]
  {
    StudiosShape(d);
    var ms := d.media;
    StudioBlockNone(ms[i]);
    assert StudioBlocks(ms)[i] == StudioBlock(ms[i]);
    FlattenAt(StudioBlocks(ms), i, 0);
  }

  lemma StudioBlockNone(m: Media)
    requires |Items(m.studios)| == 0
    ensures StudioBlock(m) == [[Null, Null, Null, Null, Null]]
  {
    var row := StudioRow(None, None);
    assert row == [Null, Null, Null] + [Null, Null] == [Null, Null, Null, Null, Null];
    assert Explode(m.studios) == [None];
    var none: Option<Studio> := None;
    assert |Items(StudioMedia(none))| == 0;
    assert StudioNodeRows(none) == [row];
    assert StudioNodeBlocks(m) == [[row]];
    assert Flatten([[row]]) == [row] by { assert [[row]][1..] == []; }
    assert StudioBlock(m) == Flatten(StudioNodeBlocks(m)) == [row];
  }

  /** A record without reviews gives one review row of nulls: the key the
      row carries is the review's own media node, and there is none. */
  lemma ReviewsNone(d: Dataset, i: nat)
    requires Reviews(d).Rows? && i < |d.media| && |Items(d.media[i].reviews)| == 0
    ensures Offset(ReviewBlocks(d.media), i) < |Reviews(d).rows|
    ensures Reviews(d).rows[Offset(ReviewBlocks(d.media), i)]
            == [Null, Null, Null, Null, Null, Null, Null, Null, Null, Null, Null]
  {
    ReviewsShape(d);
    var ms := d.media;
    ReviewBlockNone(ms[i]);
    assert ReviewBlocks(ms)[i] == ReviewBlock(ms[i]);
    FlattenAt(ReviewBlocks(ms), i, 0);
  }

  lemma ReviewBlockNone(m: Media)
    requires |Items(m.reviews)| == 0
    ensures |ReviewBlock(m)| == 1
    ensures ReviewBlock(m)[0] == [Null, Null, Null, Null, Null, Null, Null, Null, Null, Null, Null]
  {
    assert Explode(m.reviews) == [None];
  }

  /** A record without reviews gives one user row of nulls. */
  lemma UsersNone(d: Dataset, i: nat)
    requires Users(d).Rows? && i < |d.media| && |Items(d.media[i].reviews)| == 0
    ensures Offset(UserBlocks(d.media), i) < |Users(d).rows|
    ensures Users(d).rows[Offset(UserBlocks(d.media), i)] == [Null, Null, Null, Null, Null, Null, Null]
  {
    UsersShape(d);
    var ms := d.media;
    UserBlockNone(ms[i]);
    assert UserBlocks(ms)[i] == UserBlock(ms[i]);
    FlattenAt(UserBlocks(ms), i, 0);
  }

  lemma UserBlockNone(m: Media)
    requires |Items(m.reviews)| == 0
    ensures |UserBlock(m)| == 1 && UserBlock(m)[0] == [Null, Null, Null, Null, Null, Null, Null]
  {
    assert Explode(m.reviews) == [None];
    assert Author(None) == None;
  }

  /** Cell `c` of a row, null past its end. */
  function Cell(r: Row, c: nat): Value {
    if c < |r| then r[c] else Null
  }

  /** Column `c` of a frame. */
  function ColumnOf(rows: seq<Row>, c: nat): (col: seq<Value>)
    ensures |col| == |rows|
  {
    seq(|rows|, j requires 0 <= j < |rows| => Cell(rows[j], c))
  }

  lemma ColumnAppend(a: seq<Row>, b: seq<Row>, c: nat)
    ensures ColumnOf(a + b, c) == ColumnOf(a, c) + ColumnOf(b, c)
  {
  }

  function BlockColumns(blocks: seq<seq<Row>>, c: nat): seq<seq<Value>> {
    seq(|blocks|, i requires 0 <= i < |blocks| => ColumnOf(blocks[i], c))
  }

  /** Taking a column commutes with flattening. */
  lemma {:induction false} ColumnFlatten(blocks: seq<seq<Row>>, c: nat)
    ensures ColumnOf(Flatten(blocks), c) == Flatten(BlockColumns(blocks, c))
    decreases |blocks|
  {
    if |blocks| > 0 {
      ColumnFlatten(blocks[1..], c);
      ColumnAppend(blocks[0], Flatten(blocks[1..]), c);
      assert BlockColumns(blocks, c)[1..] == BlockColumns(blocks[1..], c);
    }
  }

  /** Within one record, user row `k` and review row `k` come from the same node. */
  lemma AuthorColumn(m: Media)
    ensures ColumnOf(UserBlock(m), 0) == ColumnOf(ReviewBlock(m), 10)
  {
    var nodes := Explode(m.reviews);
    var ub, rb := UserBlock(m), ReviewBlock(m);
    forall k | 0 <= k < |nodes|
      ensures Cell(ub[k], 0) == Cell(rb[k], 10)
    {
      assert ub[k] == UserRow(Author(nodes[k]));
      assert rb[k] == ReviewRow(nodes[k]);
      if nodes[k].Some? {
        ReviewRowCells(nodes[k].value);
      }
    }
  }

  /** When both frames exist, user row `j` is the author of review row `j`:
      the two projections explode the same review nodes in the same order. */
  lemma UsersMatchReviews(d: Dataset)
    requires Users(d).Rows? && Reviews(d).Rows?
    ensures |Users(d).rows| == |Reviews(d).rows|
    ensures ColumnOf(Users(d).rows, 0) == ColumnOf(Reviews(d).rows, 10)
  {
    UsersShape(d);
    ReviewsShape(d);
    var ub, rb := UserBlocks(d.media), ReviewBlocks(d.media);
    ColumnFlatten(ub, 0);
    ColumnFlatten(rb, 10);
    forall i | 0 <= i < |d.media|
      ensures BlockColumns(ub, 0)[i] == BlockColumns(rb, 10)[i]
    {
      AuthorColumn(d.media[i]);
    }
    assert BlockColumns(ub, 0) == BlockColumns(rb, 10);
  }

  /* ---------------------------------------------------------------------
     sentinels
     --------------------------------------------------------------------- */

  /** A missing column is not a schema error, so the extra handler of
      `reviews` selects the same sentinel as the generic one. */
  lemma ReviewsHandlerRedundant(e: PolarsError)
    ensures ReviewsSentinel(e) == Sentinel(e)
    ensures ReviewsSentinel(e) == Schema501 <==> e == SchemaError
  {
  }

  /** A unit in which no anime has a review: both review-derived projections
      answer `501` rather than an empty frame. */
  lemma NoReviews(d: Dataset)
    requires "reviews" !in d.absent
    requires forall i :: 0 <= i < |d.media| ==> |Items(d.media[i].reviews)| == 0
    ensures Reviews(d) == Schema501 && Users(d) == Schema501
  {
  }

  /** When no review names its media node, reviews fails while users, which
      never looks at that node, can still produce its frame. */
  lemma UsersWithoutReviewMedia(d: Dataset)
    requires "reviews" !in d.absent
    requires SomeReviewUser(d.media) && SomeAvatar(d.media) && !SomeReviewMedia(d.media)
    ensures Reviews(d) == Schema501
    ensures Users(d).Rows?
  {
  }

  /** The frame lacking a top-level column gives `None`, whatever the records. */
  lemma MissingColumn(d: Dataset, readsAsDate: string -> bool)
    requires "id" in d.absent && "reviews" in d.absent && "studios" in d.absent
    ensures Anime(d, readsAsDate) == NoneResult && WebAssets(d) == NoneResult
    ensures Genres(d) == NoneResult && Tags(d) == NoneResult && Status(d) == NoneResult
    ensures Studios(d) == NoneResult && Reviews(d) == NoneResult && Users(d) == NoneResult
  {
    assert !Selectable(d, AnimeSelection);
    assert !Selectable(d, WebAssetSelection);
    assert !Selectable(d, GenreSelection);
    assert !Selectable(d, TagSelection);
    assert !Selectable(d, StatusSelection);
    assert !Selectable(d, ["studios"]);
    assert !Selectable(d, ["reviews"]);
  }
}
