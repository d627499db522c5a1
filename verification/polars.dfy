/** The part of the dataframe library's behaviour the projections depend on,
    defined on the record types of `Records`:

    - `explode` gives one row per list element and a single null row for a
      null or empty list;
    - `unnest` of a null struct gives null fields;
    - a nested level at which no record holds a value is inferred with the
      Null dtype, and `unnest` of a column that is not a struct raises
      `SchemaError`;
    - a string concatenation with a null operand is null;
    - `from_epoch` reads integers as seconds and keeps nulls. */
module Polars {
  import opened Basics
  import opened Records

  /** The exceptions a projection can meet: a dtype that is not the one an
      operation needs, a column the frame lacks, a value a conversion rejects. */
  datatype PolarsError = SchemaError | ColumnNotFound | ComputeError

  /** `explode` on one list cell. */
  function Explode<T>(xs: Option<seq<T>>): (r: seq<Option<T>>)
    ensures |r| == if |Items(xs)| == 0 then 1 else |Items(xs)|
    ensures |Items(xs)| == 0 ==> r == [None]
    ensures |Items(xs)| > 0 ==> forall k :: 0 <= k < |r| ==> r[k] == Some(Items(xs)[k])
  {
    if |Items(xs)| == 0 then [None]
    else seq(|Items(xs)|, k requires 0 <= k < |Items(xs)| => Some(Items(xs)[k]))
  }

  /** The non-null cells of a column, in order. */
  function Somes<T>(r: seq<Option<T>>): seq<T> {
    if |r| == 0 then [] else (if r[0].Some? then [r[0].value] else []) + Somes(r[1..])
  }

  /** `explode` loses and invents no element: it never gives an empty
      column, its non-null cells read back the list, and it gives a null
      cell exactly when the list is null or empty. */
  lemma ExplodeKeepsItems<T>(xs: Option<seq<T>>)
    ensures |Explode(xs)| >= 1
    ensures Somes(Explode(xs)) == Items(xs)
    ensures None in Explode(xs) <==> |Items(xs)| == 0
  {
    if |Items(xs)| == 0 {
      var r := Explode(xs);
      assert r == [None];
      assert Somes(r) == [] + Somes(r[1..]);
    } else {
      SomesOfPresent(Items(xs), Explode(xs));
      assert Explode(xs)[0] == Some(Items(xs)[0]);
    }
  }

  /** A column of `Some(s[k])` cells reads back `s`. */
  lemma {:induction false} SomesOfPresent<T>(s: seq<T>, r: seq<Option<T>>)
    requires |r| == |s| && forall k :: 0 <= k < |r| ==> r[k] == Some(s[k])
    ensures Somes(r) == s
    ensures None !in r
  {
    if |s| > 0 {
      SomesOfPresent(s[1..], r[1..]);
      assert s == [s[0]] + s[1..];
      assert r == [r[0]] + r[1..];
    }
  }

  /** `year.cast(Utf8) + "-" + month.cast(Utf8) + "-" + day.cast(Utf8)`. */
  function JoinDate(year: int, month: int, day: int): string {
    IntText(year) + "-" + IntText(month) + "-" + IntText(day)
  }

  /** The joined text of an unnested fuzzy date; null when the date or any of
      its parts is null. */
  function DateText(date: Option<FuzzyDate>): Option<string> {
    if date.Some? && date.value.year.Some? && date.value.month.Some? && date.value.day.Some?
    then Some(JoinDate(date.value.year.value, date.value.month.value, date.value.day.value))
    else None
  }

  /** `str.strptime(pl.Date, "%Y-%m-%d")` applied to the joined text. */
  function DateCell(date: Option<FuzzyDate>): Value {
    match DateText(date)
    case None => Null
    case Some(text) => Date(text)
  }

  /** Strict `strptime` raises unless every non-null text is a date; which
      texts are dates is the calendar's business, passed in as `readsAsDate`. */
  predicate AllReadAsDates(dates: seq<Option<FuzzyDate>>, readsAsDate: string -> bool) {
    forall k :: 0 <= k < |dates| ==> DateText(dates[k]).None? || readsAsDate(DateText(dates[k]).value)
  }

  /** `pl.from_epoch(column)` with the default unit of seconds. */
  function EpochCell(seconds: Option<int>): Value {
    if seconds.Some? then Datetime(seconds.value) else Null
  }

  /* ---------------------------------------------------------------------
     Reading the joined date text back: the text keeps the three parts apart.
     --------------------------------------------------------------------- */

  /** Index of the first '-' in `s`. */
  function FirstDash(s: string): (r: Option<nat>)
    ensures r.Some? ==> r.value < |s| && s[r.value] == '-' && forall k :: 0 <= k < r.value ==> s[k] != '-'
    ensures r.None? ==> forall k :: 0 <= k < |s| ==> s[k] != '-'
    decreases |s|
  {
    if |s| == 0 then None
    else if s[0] == '-' then Some(0)
    else match FirstDash(s[1..])
      case None => None
      case Some(i) => Some(i + 1)
  }

  /** Splits `Y-M-D` made of unsigned decimal numbers into its parts. */
  function ReadDate(text: string): Option<(nat, nat, nat)> {
    match FirstDash(text)
    case None => None
    case Some(i) => ReadParts(text[..i], text[i + 1..])
  }

  function ReadParts(yearText: string, rest: string): Option<(nat, nat, nat)> {
    match FirstDash(rest)
    case None => None
    case Some(j) =>
      var y, m, d := ReadNat(yearText), ReadNat(rest[..j]), ReadNat(rest[j + 1..]);
      if y.Some? && m.Some? && d.Some? then Some((y.value, m.value, d.value)) else None
  }

  lemma DigitsFirstDash(digits: string, tail: string)
    requires forall k :: 0 <= k < |digits| ==> IsDigit(digits[k])
    ensures FirstDash(digits + "-" + tail) == Some(|digits|)
  {
    var s := digits + "-" + tail;
    var r := FirstDash(s);
    assert s[|digits|] == '-';
    assert forall k :: 0 <= k < |digits| ==> s[k] == digits[k];
    if r.None? {
      assert false;
    }
  }

  /** For a date with no negative part, the joined text reads back as the
      same year, month and day. */
  lemma ReadJoinDate(year: nat, month: nat, day: nat)
    ensures ReadDate(JoinDate(year, month, day)) == Some((year, month, day))
  {
    var ys, ms, ds := NatText(year), NatText(month), NatText(day);
    assert IntText(year) == ys && IntText(month) == ms && IntText(day) == ds;
    var text := JoinDate(year, month, day);
    var rest := ms + "-" + ds;
    assert text == ys + "-" + rest;
    DigitsFirstDash(ys, rest);
    assert text[..|ys|] == ys;
    assert text[|ys| + 1..] == rest;
    DigitsFirstDash(ms, ds);
    assert rest[..|ms|] == ms;
    assert rest[|ms| + 1..] == ds;
    ReadNatText(year);
    ReadNatText(month);
    ReadNatText(day);
    assert ReadParts(ys, rest) == Some((year, month, day));
  }

  /** The joined text is not zero-padded: 2014, 4, 2 give "2014-4-2", and it is
      up to the parse whether `%m` and `%d` accept single digits. */
  lemma JoinDateExample()
    ensures JoinDate(2014, 4, 2) == "2014-4-2"
    ensures ReadDate(JoinDate(2014, 4, 2)) == Some((2014, 4, 2))
  {
    JoinDateText();
    ReadJoinDate(2014, 4, 2);
  }

  lemma JoinDateText()
    ensures JoinDate(2014, 4, 2) == "2014-4-2"
  {
    YearText();
    assert NatText(4) == [DigitChar(4)] == "4";
    assert NatText(2) == [DigitChar(2)] == "2";
    assert JoinDate(2014, 4, 2) == "2014" + "-" + "4" + "-" + "2";
  }

  /** The digits of 2014, most significant first. */
  lemma YearText()
    ensures NatText(2014) == "2014"
  {
    assert NatText(2) == [DigitChar(2)] == "2";
    assert NatText(20) == NatText(2) + [DigitChar(0)] == "20";
    assert NatText(201) == NatText(20) + [DigitChar(1)] == "201";
    assert NatText(2014) == NatText(201) + [DigitChar(4)] == "2014";
  }
}
