/**
 * The extreme-weather banners shown under the selected forecast day.
 */
module Alerts {
  import opened Weather

  datatype AlertKind = HotDay | ColdDay | HighUv | HighRain

  const HotAbove: real := 35.0
  const ColdBelow: real := 10.0
  const UvFrom: real := 7.0
  const RainFrom: int := 50

  /** The banners for one forecast day, in the order they are shown: the
      hot test with the cold test in its `elif`, then the UV test, then
      the rain test. */
  function DayAlerts(day: ForecastDay): (r: seq<AlertKind>)
    ensures HotDay in r <==> day.tempDay > HotAbove
    ensures ColdDay in r <==> day.tempDay < ColdBelow
    ensures HighUv in r <==> day.uv >= UvFrom
    ensures HighRain in r <==> day.chanceOfRain >= RainFrom
    ensures !(HotDay in r && ColdDay in r)
    ensures forall i, j :: 0 <= i < j < |r| ==> r[i] != r[j]
    ensures |r| <= 3
    ensures (HotDay in r || ColdDay in r) ==> r[0] == HotDay || r[0] == ColdDay
    ensures HighRain in r ==> r[|r| - 1] == HighRain
    ensures forall i, j :: 0 <= i < |r| && 0 <= j < |r| && r[i] == HighUv && r[j] == HighRain ==> i < j
  {
    var temperature :=
      if day.tempDay > HotAbove then [HotDay]
      else if day.tempDay < ColdBelow then [ColdDay]
      else [];
    var uv := if day.uv >= UvFrom then [HighUv] else [];
    var rain := if day.chanceOfRain >= RainFrom then [HighRain] else [];
    temperature + uv + rain
  }

  /** The thresholds are exclusive for temperature and inclusive for UV and
      rain: 35 and 10 raise no temperature banner, 7 and 50 raise theirs. */
  lemma Boundaries(d: ForecastDay)
    ensures d.tempDay == 35.0 ==> HotDay !in DayAlerts(d) && ColdDay !in DayAlerts(d)
    ensures d.tempDay == 35.01 ==> HotDay in DayAlerts(d)
    ensures d.tempDay == 10.0 ==> ColdDay !in DayAlerts(d) && HotDay !in DayAlerts(d)
    ensures d.tempDay == 9.99 ==> ColdDay in DayAlerts(d)
    ensures d.uv == 6.99 ==> HighUv !in DayAlerts(d)
    ensures d.uv == 7.0 ==> HighUv in DayAlerts(d)
    ensures d.chanceOfRain == 49 ==> HighRain !in DayAlerts(d)
    ensures d.chanceOfRain == 50 ==> HighRain in DayAlerts(d)
  {
  }
}
