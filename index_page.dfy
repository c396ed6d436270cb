/**
 * The comparison page (src/pages/Index.jsx): the guard in front of its `/fetch-stars`
 * request, and `formatChartData`, which merges the two returned series into chart rows.
 *
 * `toLocaleDateString` depends on the locale, so the calendar-day label of a date value is
 * the parameter `dayKey`.
 */
module IndexPage {
  import opened Common
  import opened JsSort
  import Server

  // ---------------------------------------------------------------- the request guard

  /** The request the page sends: the body `{repo1, repo2}` and its Authorization header. */
  datatype StarsRequest = StarsRequest(repo1: string, repo2: string, authorization: string)

  /**
   * The page's `fetchStars`: with either URL empty it throws before any request; otherwise it
   * posts both URLs with `Bearer <token>`.
   */
  function StarsRequestFor(repo1: string, repo2: string, token: string)
    : (r: Result<StarsRequest, string>)
    ensures r.Err? <==> repo1 == "" || repo2 == ""
    ensures r.Err? ==> r.error == "Please enter both repository URLs"
    ensures r.Ok? ==> r.value.repo1 == repo1 && r.value.repo2 == repo2
  {
    if repo1 == "" || repo2 == "" then Err("Please enter both repository URLs")
    else Ok(StarsRequest(repo1, repo2, "Bearer " + token))
  }

  /** The header the page builds hands the server's gate exactly the stored token. */
  lemma RequestCarriesToken(repo1: string, repo2: string, token: string)
    requires StarsRequestFor(repo1, repo2, token).Ok?
    requires ' ' !in token
    ensures Server.BearerToken(Some(StarsRequestFor(repo1, repo2, token).value.authorization))
      == Some(token)
  {
    Server.BearerTokenField("Bearer", token, "");
    assert "Bearer " + token == "Bearer" + " " + token + "";
  }

  // ---------------------------------------------------------------- chart rows

  /** The `data` the page holds: the server's `{repo1, repo2}`, either of which may be missing. */
  datatype ChartData = ChartData(repo1: Option<seq<Server.Star>>, repo2: Option<seq<Server.Star>>)

  /** A property value of a chart row: the day label, or a count that may be `null`. */
  datatype Cell = Label(day: string) | Count(value: Option<int>)

  /** A chart row: an object with the properties `date`, `[repo1]` and `[repo2]`. */
  type Row = map<string, Cell>

  /** `series || []`. */
  function SeriesOf(series: Option<seq<Server.Star>>): (s: seq<Server.Star>)
    ensures series.Some? ==> s == series.value
    ensures series.None? ==> s == []
  {
    match series
    case Some(s) => s
    case None => []
  }

  /** `series.map(d => d.date)`. */
  function Dates(series: seq<Server.Star>): (dates: seq<string>)
    ensures |dates| == |series|
    ensures forall i :: 0 <= i < |series| ==> dates[i] == series[i].date
  {
    if |series| == 0 then [] else [series[0].date] + Dates(series[1..])
  }

  /** Some entry of `series` has the date value `d`. */
  predicate HasDate(series: seq<Server.Star>, d: string)
  {
    exists i :: 0 <= i < |series| && series[i].date == d
  }

  /**
   * `[...new Set([...dates of series1, ...dates of series2])].sort()`: every date value of
   * either series, once each, ascending.
   */
  function ChartDates(series1: seq<Server.Star>, series2: seq<Server.Star>)
    : (dates: seq<string>)
    ensures Ascending(dates) && Distinct(dates)
    ensures forall d :: d in dates <==> HasDate(series1, d) || HasDate(series2, d)
    ensures |dates| <= |series1| + |series2|
  {
    var all := Dates(series1) + Dates(series2);
    DatesHaveDate(series1);
    DatesHaveDate(series2);
    SortedUnique(all)
  }

  /** The date values listed by `Dates` are exactly those some entry has. */
  lemma DatesHaveDate(series: seq<Server.Star>)
    ensures forall d :: d in Dates(series) <==> HasDate(series, d)
  {
    forall d ensures d in Dates(series) <==> HasDate(series, d) {
      if d in Dates(series) {
        var i :| 0 <= i < |series| && Dates(series)[i] == d;
        assert series[i].date == d;
      }
      if HasDate(series, d) {
        var i :| 0 <= i < |series| && series[i].date == d;
        assert Dates(series)[i] == d;
      }
    }
  }

  /** Entry `i` is the first one of `series` on the calendar day `day`. */
  predicate FirstOnDay(series: seq<Server.Star>, day: string, dayKey: string -> string, i: int)
  {
    && 0 <= i < |series|
    && dayKey(series[i].date) == day
    && forall j :: 0 <= j < i ==> dayKey(series[j].date) != day
  }

  /**
   * `series.find(d => same day)?.count || null`: the count of the first entry on that day,
   * or `null` when there is none or its count is 0.
   */
  function FirstCount(series: seq<Server.Star>, day: string, dayKey: string -> string)
    : (v: Option<int>)
    ensures v.Some? ==>
      exists i :: FirstOnDay(series, day, dayKey, i) && series[i].count == v.value
    ensures v.Some? ==> v.value != 0
    ensures v.None? ==> forall i :: FirstOnDay(series, day, dayKey, i) ==> series[i].count == 0
  {
    if |series| == 0 then None
    else if dayKey(series[0].date) == day then
      assert FirstOnDay(series, day, dayKey, 0);
      if series[0].count == 0 then None else Some(series[0].count)
    else
      var v := FirstCount(series[1..], day, dayKey);
      assert forall i :: FirstOnDay(series, day, dayKey, i) <==>
                         i > 0 && FirstOnDay(series[1..], day, dayKey, i - 1) by {
        forall i ensures FirstOnDay(series, day, dayKey, i) <==>
                         i > 0 && FirstOnDay(series[1..], day, dayKey, i - 1) {
          if i > 0 && FirstOnDay(series[1..], day, dayKey, i - 1) {
            forall j | 0 <= j < i ensures dayKey(series[j].date) != day {
              if j > 0 {
                assert series[j] == series[1..][j - 1];
              }
            }
          }
          if FirstOnDay(series, day, dayKey, i) {
            assert i != 0;
            forall j | 0 <= j < i - 1 ensures dayKey(series[1..][j].date) != day {
              assert series[1..][j] == series[j + 1];
            }
          }
        }
      }
      if v.Some? then
        var i :| FirstOnDay(series[1..], day, dayKey, i) && series[1..][i].count == v.value;
        assert FirstOnDay(series, day, dayKey, i + 1);
        v
      else
        v
  }

  /** The row for one date value: `{date: day, [repo1]: …, [repo2]: …}`, later keys winning. */
  function RowFor(date: string, series1: seq<Server.Star>, series2: seq<Server.Star>,
                  repo1: string, repo2: string, dayKey: string -> string): (row: Row)
    ensures row.Keys == {"date", repo1, repo2}
    ensures repo1 != "date" && repo2 != "date" ==> row["date"] == Label(dayKey(date))
    ensures repo1 != repo2 ==> row[repo1] == Count(FirstCount(series1, dayKey(date), dayKey))
    ensures row[repo2] == Count(FirstCount(series2, dayKey(date), dayKey))
  {
    var day := dayKey(date);
    map["date" := Label(day)]
      [repo1 := Count(FirstCount(series1, day, dayKey))]
      [repo2 := Count(FirstCount(series2, day, dayKey))]
  }

  /** `formatChartData(data)`; `repo1` and `repo2` are the URLs the page shows, used as keys. */
  function FormatChartData(data: Option<ChartData>, repo1: string, repo2: string,
                           dayKey: string -> string)
    : (rows: seq<Row>)
    ensures data.None? ==> rows == []
    ensures data.Some? ==>
      var series1 := SeriesOf(data.value.repo1);
      var series2 := SeriesOf(data.value.repo2);
      var dates := ChartDates(series1, series2);
      && |rows| == |dates|
      && forall i :: 0 <= i < |rows| ==>
           && rows[i].Keys == {"date", repo1, repo2}
           && (repo1 != "date" && repo2 != "date" ==> rows[i]["date"] == Label(dayKey(dates[i])))
           && (repo1 != repo2 ==>
                 rows[i][repo1] == Count(FirstCount(series1, dayKey(dates[i]), dayKey)))
           && rows[i][repo2] == Count(FirstCount(series2, dayKey(dates[i]), dayKey))
  {
    match data
    case None => []
    case Some(d) =>
      var series1 := SeriesOf(d.repo1);
      var series2 := SeriesOf(d.repo2);
      var dates := ChartDates(series1, series2);
      seq(|dates|, i requires 0 <= i < |dates| =>
        RowFor(dates[i], series1, series2, repo1, repo2, dayKey))
  }

  /**
   * One row per distinct date value of the two series (so no more rows than entries), in
   * ascending order of those values; a missing series counts as empty.
   */
  lemma ChartRowsCoverDates(data: ChartData, repo1: string, repo2: string,
                            dayKey: string -> string)
    ensures var series1 := SeriesOf(data.repo1);
      var series2 := SeriesOf(data.repo2);
      var rows := FormatChartData(Some(data), repo1, repo2, dayKey);
      && |rows| <= |series1| + |series2|
      && (data.repo1.None? && data.repo2.None? ==> rows == [])
      && (forall d :: HasDate(series1, d) || HasDate(series2, d) ==>
            exists i :: 0 <= i < |rows| && ChartDates(series1, series2)[i] == d)
  {
  }

  /**
   * Rows for date values on the same calendar day repeat the same label and the same counts:
   * the lookup keys on the day, not on the date value.
   */
  lemma SameDayRowsAgree(data: ChartData, repo1: string, repo2: string,
                         dayKey: string -> string)
    ensures var rows := FormatChartData(Some(data), repo1, repo2, dayKey);
      var dates := ChartDates(SeriesOf(data.repo1), SeriesOf(data.repo2));
      forall i, j :: 0 <= i < |rows| && 0 <= j < |rows| && dayKey(dates[i]) == dayKey(dates[j])
        ==> rows[i] == rows[j]
  {
  }

  /** When both inputs hold the same URL, rows carry one series key, holding repo2's count. */
  lemma SameUrlKeepsRepo2(data: ChartData, url: string, dayKey: string -> string)
    requires url != "date"
    ensures var rows := FormatChartData(Some(data), url, url, dayKey);
      var dates := ChartDates(SeriesOf(data.repo1), SeriesOf(data.repo2));
      forall i :: 0 <= i < |rows| ==>
        rows[i] == map["date" := Label(dayKey(dates[i])),
                       url := Count(FirstCount(SeriesOf(data.repo2), dayKey(dates[i]), dayKey))]
  {
    var series1 := SeriesOf(data.repo1);
    var series2 := SeriesOf(data.repo2);
    var rows := FormatChartData(Some(data), url, url, dayKey);
    var dates := ChartDates(series1, series2);
    forall i | 0 <= i < |rows|
      ensures rows[i] == map["date" := Label(dayKey(dates[i])),
                             url := Count(FirstCount(series2, dayKey(dates[i]), dayKey))]
    {
      assert rows[i] == RowFor(dates[i], series1, series2, url, url, dayKey);
      RowForSameUrl(dates[i], series1, series2, url, dayKey);
    }
  }

  /** With one URL for both inputs, the `[repo2]` entry overwrites the `[repo1]` one. */
  lemma RowForSameUrl(date: string, series1: seq<Server.Star>, series2: seq<Server.Star>,
                      url: string, dayKey: string -> string)
    requires url != "date"
    ensures RowFor(date, series1, series2, url, url, dayKey)
      == map["date" := Label(dayKey(date)), url := Count(FirstCount(series2, dayKey(date), dayKey))]
  {
  }

  /** The merged date values do not depend on which series is repo1 and which is repo2. */
  lemma ChartDatesSymmetric(series1: seq<Server.Star>, series2: seq<Server.Star>)
    ensures ChartDates(series1, series2) == ChartDates(series2, series1)
  {
    AscendingUnique(ChartDates(series1, series2), ChartDates(series2, series1));
  }
}
