/** The nested anime records the API returns for one (year, season) unit, as
    the aggregated frame holds them, and the flat cells the projections emit.

    A JSON null is `None`. A connection object `{nodes: [...]}` is kept as the
    list it wraps: a null wrapper and an empty list lead every projection to the
    same result, so the model does not tell them apart. */
module Records {
  import opened Basics

  /** One cell of an output row. `Date(text)` is the calendar date that
      parsing `text` under `%Y-%m-%d` yields; `Datetime(s)` is the instant `s`
      seconds after the Unix epoch. Parsing and epoch conversion are left
      uninterpreted: a cell records what was converted, not the calendar. */
  datatype Value =
    | Null
    | Int(i: int)
    | Str(s: string)
    | Bool(b: bool)
    | Date(text: string)
    | Datetime(seconds: int)
    | Object(fields: seq<Value>)

  type Row = seq<Value>

  function IntCell(x: Option<int>): Value {
    if x.Some? then Int(x.value) else Null
  }

  function StrCell(x: Option<string>): Value {
    if x.Some? then Str(x.value) else Null
  }

  function BoolCell(x: Option<bool>): Value {
    if x.Some? then Bool(x.value) else Null
  }

  datatype Title = Title(english: Option<string>, native: Option<string>, romaji: Option<string>)

  /** AniList's fuzzy date: any part may be unknown. */
  datatype FuzzyDate = FuzzyDate(year: Option<int>, month: Option<int>, day: Option<int>)

  datatype CoverImage = CoverImage(
    medium: Option<string>, large: Option<string>, extraLarge: Option<string>, color: Option<string>)

  /** The `{id, season, seasonYear}` media node embedded in studios and reviews. */
  datatype MediaRef = MediaRef(id: Option<int>, season: Option<string>, seasonYear: Option<int>)

  datatype Studio = Studio(id: Option<int>, name: Option<string>, media: Option<seq<MediaRef>>)

  datatype Tag = Tag(
    id: Option<int>, isAdult: Option<bool>, category: Option<string>, description: Option<string>)

  datatype Avatar = Avatar(large: Option<string>, medium: Option<string>)

  datatype User = User(
    id: Option<int>, name: Option<string>, donatorTier: Option<int>, donatorBadge: Option<string>,
    createdAt: Option<int>, avatar: Option<Avatar>)

  /** A review node; `createdAt` and `updatedAt` are epoch seconds. */
  datatype Review = Review(
    id: Option<int>, rating: Option<int>, ratingAmount: Option<int>, body: Option<string>,
    summary: Option<string>, createdAt: Option<int>, updatedAt: Option<int>,
    media: Option<MediaRef>, user: Option<User>)

  datatype StatusCount = StatusCount(amount: Option<int>, status: Option<string>)

  /** One anime record: one row of the aggregated frame. `trailer` is passed
      through untouched, so its shape is left open. */
  datatype Media = Media(
    id: Option<int>, season: Option<string>, seasonYear: Option<int>,
    title: Option<Title>, format: Option<string>, meanScore: Option<int>,
    popularity: Option<int>, episodes: Option<int>, favourites: Option<int>,
    duration: Option<int>, startDate: Option<FuzzyDate>, endDate: Option<FuzzyDate>,
    bannerImage: Option<string>, coverImage: Option<CoverImage>, siteUrl: Option<string>,
    trailer: Value,
    studios: Option<seq<Studio>>, genres: Option<seq<string>>, tags: Option<seq<Tag>>,
    reviews: Option<seq<Review>>, statusDistribution: Option<seq<StatusCount>>)

  /** The aggregated frame of one unit: its records in fetch order, and the
      top-level columns the frame lacks because the query did not ask for them. */
  datatype Dataset = Dataset(absent: set<string>, media: seq<Media>)

  /** The frame has every column of `columns`. */
  predicate Selectable(d: Dataset, columns: seq<string>) {
    forall c :: c in columns ==> c !in d.absent
  }

  /** The elements of a list-valued field; a null list has none. */
  function Items<T>(xs: Option<seq<T>>): seq<T> {
    if xs.Some? then xs.value else []
  }
}
