/**
 * The page-level logic of the dashboard: reading the city list, the
 * responsive layout numbers, picking the selected forecast day, and the
 * pass over the cities that builds the comparison and export tables.
 */
module Dashboard {
  import opened Wrappers
  import opened Text
  import opened Weather

  // ----- The city list -----

  /** `[c.strip() for c in cities_input.split(",")]`. */
  function ParseCities(input: string): seq<string>
  {
    var pieces := Split(input, ',');
    seq(|pieces|, k requires 0 <= k < |pieces| => Strip(pieces[k]))
  }

  /** One city per comma-separated piece (so one more than the number of
      commas, empty pieces included), in input order; each city is its
      piece without the surrounding whitespace and holds no comma. */
  lemma ParseCitiesSpec(input: string)
    ensures |ParseCities(input)| == Count(input, ',') + 1
    ensures forall k :: 0 <= k < |ParseCities(input)| ==>
      ParseCities(input)[k] == Strip(Split(input, ',')[k]) && ',' !in ParseCities(input)[k]
    ensures Join(Split(input, ','), ',') == input
  {
    var pieces := Split(input, ',');
    SplitSpec(input, ',');
    forall k | 0 <= k < |pieces| ensures ',' !in Strip(pieces[k]) {
      StripIsSlice(pieces[k]);
      var i := |pieces[k]| - |TrimStart(pieces[k])|;
      var j := i + |Strip(pieces[k])|;
      assert forall c :: c in pieces[k][i..j] ==> c in pieces[k];
    }
  }

  /** `"a, ,b".split(",")` is `["a", " ", "b"]`, built from the right. */
  lemma SplitExample()
    ensures Split("a, ,b", ',') == ["a", " ", "b"]
  {
    assert "b"[1..] == "" && ['b'] + "" == "b";
    assert Split("b", ',') == ["b"];
    assert ",b"[1..] == "b";
    assert Split(",b", ',') == ["", "b"];
    assert " ,b"[1..] == ",b" && [' '] + "" == " ";
    assert Split(" ,b", ',') == [" ", "b"];
    assert ", ,b"[1..] == " ,b";
    assert Split(", ,b", ',') == ["", " ", "b"];
    assert "a, ,b"[1..] == ", ,b" && ['a'] + "" == "a";
  }

  /** Empty pieces are kept: a piece made only of whitespace (or nothing,
      as between two adjacent commas) still gives a city, whose name is
      empty. */
  lemma EmptyPieceKept(input: string, k: nat)
    requires k < |Split(input, ',')|
    requires forall i :: 0 <= i < |Split(input, ',')[k]| ==> IsSpace(Split(input, ',')[k][i])
    ensures k < |ParseCities(input)| && ParseCities(input)[k] == ""
  {
    StripOfSpaces(Split(input, ',')[k]);
  }

  // ----- Layout -----

  /** Narrow screens stack the cities vertically. */
  predicate IsMobile(screenWidth: int)
  {
    screenWidth < 700
  }

  /** `min(screen_width // 3, 300)`: the largest width of at most 300
      pixels that fits three times into the screen width. */
  function IconWidth(screenWidth: int): (w: int)
    ensures w <= 300 && 3 * w <= screenWidth
    ensures w == 300 || screenWidth < 3 * w + 3
  {
    var third := screenWidth / 3;
    if third < 300 then third else 300
  }

  /** Over the width slider's range, 320 to 1600 pixels. */
  lemma SliderRange(screenWidth: int)
    requires 320 <= screenWidth <= 1600
    ensures 106 <= IconWidth(screenWidth) <= 300
    ensures IconWidth(screenWidth) == 300 <==> screenWidth >= 900
    ensures IsMobile(screenWidth) <==> screenWidth < 700
  {
  }

  // ----- The selected forecast day -----

  /** `next((d for d in forecast if d["date"].date() == selected), None)`:
      the first forecast entry on the selected date, or none. */
  function ForecastForDate(forecast: seq<ForecastDay>, selected: Date): (r: Option<ForecastDay>)
    ensures r.None? <==> forall k :: 0 <= k < |forecast| ==> forecast[k].date != selected
    ensures r.Some? ==> r.value.date == selected
    ensures r.Some? ==>
      exists k :: 0 <= k < |forecast| && forecast[k] == r.value
        && forall j :: 0 <= j < k ==> forecast[j].date != selected
  {
    if |forecast| == 0 then None
    else if forecast[0].date == selected then Some(forecast[0])
    else
      var r := ForecastForDate(forecast[1..], selected);
      assert forall k :: 1 <= k < |forecast| ==> forecast[k] == forecast[1..][k - 1];
      r
  }

  // ----- The comparison table -----

  /** Which of a day's two temperatures a comparison column holds. */
  datatype Half = Day | Night

  function Reading(d: ForecastDay, half: Half): real
  {
    match half
    case Day => d.tempDay
    case Night => d.tempNight
  }

  /** One city's temperature series indexed by date. */
  function Series(forecast: seq<ForecastDay>, half: Half): map<Date, real>
  {
    if |forecast| == 0 then map[]
    else Series(forecast[1..], half)[forecast[0].date := Reading(forecast[0], half)]
  }

  /** A series has a value for exactly the dates of the forecast, and that
      value is the reading of the day the selected-day lookup finds. */
  lemma {:induction false} SeriesMatchesLookup(forecast: seq<ForecastDay>, half: Half, d: Date)
    ensures d in Series(forecast, half) <==> ForecastForDate(forecast, d).Some?
    ensures d in Series(forecast, half) ==>
      Series(forecast, half)[d] == Reading(ForecastForDate(forecast, d).value, half)
  {
    if |forecast| > 0 && forecast[0].date != d {
      SeriesMatchesLookup(forecast[1..], half, d);
    }
  }

  /** A named column of the comparison table. Columns are kept in a
      sequence, so a city entered twice gives two columns of that name. */
  datatype Column = Column(name: string, series: map<Date, real>)

  /** The two columns one found city contributes. */
  function CityColumns(w: CityWeather): seq<Column>
  {
    [Column(w.city + "_day", Series(w.forecast, Day)),
     Column(w.city + "_night", Series(w.forecast, Night))]
  }

  // ----- The export table -----

  /** One row of the export: a forecast day tagged with its city. */
  datatype ExportRow = ExportRow(day: ForecastDay, city: string)

  function CityRows(w: CityWeather): (rows: seq<ExportRow>)
    ensures |rows| == |w.forecast|
    ensures forall j :: 0 <= j < |rows| ==> rows[j].day == w.forecast[j] && rows[j].city == w.city
  {
    seq(|w.forecast|, j requires 0 <= j < |w.forecast| => ExportRow(w.forecast[j], w.city))
  }

  // ----- The pass over the cities -----

  /** The found cities, in order. */
  function Successes(fetched: seq<Option<CityWeather>>): seq<CityWeather>
  {
    if |fetched| == 0 then []
    else
      var before := Successes(fetched[..|fetched| - 1]);
      match fetched[|fetched| - 1]
      case Some(w) => before + [w]
      case None => before
  }

  /** The total number of forecast days of some cities. */
  function DayCount(ws: seq<CityWeather>): nat
  {
    if |ws| == 0 then 0 else DayCount(ws[..|ws| - 1]) + |ws[|ws| - 1].forecast|
  }

  /** The comparison table after the cities of `fetched` were processed. */
  function ComparisonColumns(fetched: seq<Option<CityWeather>>): seq<Column>
  {
    if |fetched| == 0 then []
    else
      var before := ComparisonColumns(fetched[..|fetched| - 1]);
      match fetched[|fetched| - 1]
      case Some(w) => before + CityColumns(w)
      case None => before
  }

  /** The export table after the cities of `fetched` were processed. */
  function ExportTable(fetched: seq<Option<CityWeather>>): seq<ExportRow>
  {
    if |fetched| == 0 then []
    else
      var before := ExportTable(fetched[..|fetched| - 1]);
      match fetched[|fetched| - 1]
      case Some(w) => before + CityRows(w)
      case None => before
  }

  /** The queries reported as not found, in order. */
  function NotFoundCities(cities: seq<string>, fetched: seq<Option<CityWeather>>): seq<string>
    requires |cities| == |fetched|
  {
    if |fetched| == 0 then []
    else
      var before := NotFoundCities(cities[..|cities| - 1], fetched[..|fetched| - 1]);
      if fetched[|fetched| - 1].None? then before + [cities[|cities| - 1]] else before
  }

  /** A city that was not found adds no row, no column and one message; a
      found city appends its rows and its two columns. */
  lemma {:induction false} PassStep(cities: seq<string>, fetched: seq<Option<CityWeather>>,
                                    city: string, result: Option<CityWeather>)
    requires |cities| == |fetched|
    ensures result.None? ==>
      && ExportTable(fetched + [result]) == ExportTable(fetched)
      && ComparisonColumns(fetched + [result]) == ComparisonColumns(fetched)
      && NotFoundCities(cities + [city], fetched + [result]) == NotFoundCities(cities, fetched) + [city]
    ensures result.Some? ==>
      && ExportTable(fetched + [result]) == ExportTable(fetched) + CityRows(result.value)
      && ComparisonColumns(fetched + [result]) == ComparisonColumns(fetched) + CityColumns(result.value)
      && NotFoundCities(cities + [city], fetched + [result]) == NotFoundCities(cities, fetched)
  {
  }

  /** The export has one row per forecast day of the found cities: cities
      that were not found contribute nothing. */
  lemma {:induction false} ExportTableSize(fetched: seq<Option<CityWeather>>)
    ensures |ExportTable(fetched)| == DayCount(Successes(fetched))
  {
    if |fetched| > 0 {
      var before := fetched[..|fetched| - 1];
      ExportTableSize(before);
      var s := Successes(before);
      if fetched[|fetched| - 1].Some? {
        assert (s + [fetched[|fetched| - 1].value])[..|s|] == s;
      }
    }
  }

  /** Rows come in city order and, within a city, in forecast order: the
      `j`-th day of the `k`-th city sits after the rows of the found cities
      before it, tagged with that city's name. */
  lemma {:induction false} ExportTableAt(fetched: seq<Option<CityWeather>>, k: nat, j: nat)
    requires k < |fetched| && fetched[k].Some? && j < |fetched[k].value.forecast|
    ensures DayCount(Successes(fetched[..k])) + j < |ExportTable(fetched)|
    ensures ExportTable(fetched)[DayCount(Successes(fetched[..k])) + j]
      == ExportRow(fetched[k].value.forecast[j], fetched[k].value.city)
    decreases |fetched|
  {
    var n := |fetched| - 1;
    var before := fetched[..n];
    var prev := ExportTable(before);
    ExportTableSize(before);
    if k < n {
      assert before[..k] == fetched[..k];
      ExportTableAt(before, k, j);
      if fetched[n].Some? {
        assert ExportTable(fetched) == prev + CityRows(fetched[n].value);
      } else {
        assert ExportTable(fetched) == prev;
      }
    } else {
      assert before == fetched[..k];
      assert ExportTable(fetched) == prev + CityRows(fetched[k].value);
    }
  }

  /** Every found city adds exactly its two columns, `{city}_day` and
      `{city}_night`, in the order the cities were processed; cities that
      were not found add none. */
  lemma {:induction false} ComparisonShape(fetched: seq<Option<CityWeather>>)
    ensures |ComparisonColumns(fetched)| == 2 * |Successes(fetched)|
    ensures forall i :: 0 <= i < |Successes(fetched)| ==>
      ComparisonColumns(fetched)[2 * i .. 2 * i + 2] == CityColumns(Successes(fetched)[i])
  {
    if |fetched| > 0 {
      var before := fetched[..|fetched| - 1];
      ComparisonShape(before);
      var s := Successes(before);
      var cols := ComparisonColumns(before);
      if fetched[|fetched| - 1].Some? {
        var w := fetched[|fetched| - 1].value;
        var all := cols + CityColumns(w);
        forall i | 0 <= i < |s| + 1 ensures all[2 * i .. 2 * i + 2] == CityColumns((s + [w])[i]) {
          if i < |s| {
            assert all[2 * i .. 2 * i + 2] == cols[2 * i .. 2 * i + 2];
          } else {
            assert all[2 * i .. 2 * i + 2] == CityColumns(w);
          }
        }
      }
    }
  }

  /** Some day of the forecast falls on `d`. */
  ghost predicate CoversDate(forecast: seq<ForecastDay>, d: Date)
  {
    exists j :: 0 <= j < |forecast| && forecast[j].date == d
  }

  /** The dates the comparison table has rows for: the union of its
      columns' dates (an outer join on date). */
  function TableDates(columns: seq<Column>): set<Date>
  {
    if |columns| == 0 then {}
    else TableDates(columns[..|columns| - 1]) + columns[|columns| - 1].series.Keys
  }

  /** The comparison table has a row for a date exactly when some found
      city's forecast covers it; a city lacking a date that another has
      leaves a gap rather than removing the row. */
  lemma {:induction false} ComparisonDates(fetched: seq<Option<CityWeather>>, d: Date)
    ensures d in TableDates(ComparisonColumns(fetched)) <==>
      exists w :: w in Successes(fetched) && CoversDate(w.forecast, d)
  {
    if |fetched| > 0 {
      var before := fetched[..|fetched| - 1];
      ComparisonDates(before, d);
      var s := Successes(before);
      if fetched[|fetched| - 1].Some? {
        var w := fetched[|fetched| - 1].value;
        var cols := ComparisonColumns(before);
        var pair := CityColumns(w);
        var all := cols + pair;
        assert all[..|cols| + 1] == cols + [pair[0]];
        assert all[..|cols| + 1][..|cols|] == cols;
        assert TableDates(all) == TableDates(cols) + pair[0].series.Keys + pair[1].series.Keys;
        SeriesMatchesLookup(w.forecast, Day, d);
        SeriesMatchesLookup(w.forecast, Night, d);
        assert CoversDate(w.forecast, d) <==> ForecastForDate(w.forecast, d).Some?;
        assert w in s + [w];
        assert forall v :: v in s + [w] <==> v in s || v == w;
      }
    }
  }

  /** Processing two found cities yields both, in order. */
  lemma TwoFound(first: CityWeather, second: CityWeather)
    ensures Successes([Some(first), Some(second)]) == [first, second]
    ensures DayCount([first, second]) == |first.forecast| + |second.forecast|
  {
    var f := [Some(first), Some(second)];
    assert f[..1] == [Some(first)] && f[..1][..0] == [];
    assert Successes(f[..1]) == [first];
    assert [first, second][..1] == [first] && [first][..0] == [];
    assert DayCount([first]) == |first.forecast|;
  }

  /** Two found cities whose forecasts cover the same dates give four
      columns, one row per forecast day of either city in the export, and
      comparison rows for exactly the shared dates. */
  lemma TwoCitiesSameDates(first: CityWeather, second: CityWeather)
    requires forall d :: CoversDate(first.forecast, d) <==> CoversDate(second.forecast, d)
    ensures |ComparisonColumns([Some(first), Some(second)])| == 4
    ensures |ExportTable([Some(first), Some(second)])| == |first.forecast| + |second.forecast|
    ensures forall d :: d in TableDates(ComparisonColumns([Some(first), Some(second)])) <==>
      CoversDate(first.forecast, d)
  {
    var f := [Some(first), Some(second)];
    TwoFound(first, second);
    ComparisonShape(f);
    ExportTableSize(f);
    forall d ensures d in TableDates(ComparisonColumns(f)) <==> CoversDate(first.forecast, d) {
      ComparisonDates(f, d);
      assert forall w :: w in [first, second] <==> w == first || w == second;
    }
  }

  /** When no city is found both tables stay empty and every query is
      reported. */
  lemma {:induction false} NoneFound(cities: seq<string>, fetched: seq<Option<CityWeather>>)
    requires |cities| == |fetched|
    requires forall k :: 0 <= k < |fetched| ==> fetched[k].None?
    ensures ExportTable(fetched) == [] && ComparisonColumns(fetched) == []
    ensures NotFoundCities(cities, fetched) == cities
  {
    if |fetched| > 0 {
      var n := |fetched| - 1;
      NoneFound(cities[..n], fetched[..n]);
      assert cities[..n] + [cities[n]] == cities;
    }
  }

  /** `for i, city in enumerate(cities)`: fetch results are given, one per
      city; each found city's two columns join the comparison table and
      its rows, tagged with the provider's name for the city, join the
      export table; each missing city's query is reported. */
  method RunPass(cities: seq<string>, fetched: seq<Option<CityWeather>>)
    returns (comparison: seq<Column>, download: seq<ExportRow>, notFound: seq<string>)
    requires |cities| == |fetched|
    ensures comparison == ComparisonColumns(fetched)
    ensures download == ExportTable(fetched)
    ensures notFound == NotFoundCities(cities, fetched)
    ensures |download| == DayCount(Successes(fetched))
    ensures |comparison| == 2 * |Successes(fetched)|
  {
    comparison, download, notFound := [], [], [];
    for i := 0 to |fetched|
      invariant comparison == ComparisonColumns(fetched[..i])
      invariant download == ExportTable(fetched[..i])
      invariant notFound == NotFoundCities(cities[..i], fetched[..i])
    {
      PassStep(cities[..i], fetched[..i], cities[i], fetched[i]);
      assert fetched[..i + 1] == fetched[..i] + [fetched[i]];
      assert cities[..i + 1] == cities[..i] + [cities[i]];
      match fetched[i]
      case Some(w) =>
        comparison := comparison + CityColumns(w);
        download := download + CityRows(w);
      case None =>
        notFound := notFound + [cities[i]];
    }
    assert fetched[..|fetched|] == fetched;
    assert cities[..|cities|] == cities;
    ExportTableSize(fetched);
    ComparisonShape(fetched);
  }
}
