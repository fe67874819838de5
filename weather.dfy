/**
 * The provider's forecast response, the flat records the dashboard builds
 * from it, and `get_weather`'s normalisation of one into the other.
 * The HTTP request itself is not modelled: the decoded response body is
 * the input.
 */
module Weather {

  /** A calendar date with no time of day (what `datetime.strptime(...,
      "%Y-%m-%d")` yields and `.date()` compares). */
  datatype Date = Date(year: int, month: int, day: int)

  // ----- The provider's response body -----

  datatype Condition = Condition(text: string, icon: string)

  /** `forecastday[k]["day"]`. */
  datatype DaySummary = DaySummary(
    maxtempC: real, mintempC: real, condition: Condition,
    maxwindKph: real, avghumidity: int, dailyChanceOfRain: int, uv: real)

  /** `forecastday[k]["astro"]`. */
  datatype Astro = Astro(sunrise: string, sunset: string)

  /** One element of `forecast.forecastday`. */
  datatype ProviderDay = ProviderDay(date: Date, day: DaySummary, astro: Astro)

  datatype Location = Location(name: string, region: string, country: string)

  datatype Current = Current(
    tempC: real, humidity: int, condition: Condition, windKph: real, windDir: string)

  /** A response body either carries the provider's `error` object (an
      unknown city, a bad key) or the location, current conditions and
      the forecast days. */
  datatype Response =
    | ProviderError(code: int, message: string)
    | Payload(location: Location, current: Current, forecastday: seq<ProviderDay>)

  // ----- The dashboard's flat records -----

  /** One forecast day as `get_weather` flattens it. */
  datatype ForecastDay = ForecastDay(
    date: Date, tempDay: real, tempNight: real, weather: string,
    windKph: real, humidity: int, chanceOfRain: int, uv: real,
    sunrise: string, sunset: string, icon: string)

  /** The dictionary `get_weather` returns for a found city. */
  datatype CityWeather = CityWeather(
    city: string, region: string, country: string,
    temp: real, humidity: int, weather: string, windKph: real, windDir: string,
    sunrise: string, sunset: string, icon: string,
    forecast: seq<ForecastDay>)

  /** What one call to `get_weather` comes to: `None` for a provider
      error, the record for a found city, or the `IndexError` that
      `forecast[0]` raises when the provider sent no forecast days. */
  datatype Fetch = NotFound | Malformed | Found(weather: CityWeather)

  const Scheme: string := "http:"

  /** Icon references arrive protocol-relative and are made absolute by
      prefixing the scheme, unconditionally. */
  function AbsoluteIcon(icon: string): (r: string)
    ensures |r| == |icon| + 5
    ensures r[..5] == "http:" && r[5..] == icon
  {
    Scheme + icon
  }

  /** A protocol-relative icon `//x` becomes `http://x`. */
  lemma ProtocolRelativeIcon(rest: string)
    ensures AbsoluteIcon("//" + rest) == "http://" + rest
  {
  }

  /** The prefix is added even to a reference that already has a scheme,
      so the operation is not idempotent: applying it twice never gives
      the same string as applying it once. */
  lemma {:induction false} AbsoluteIconNotIdempotent(icon: string)
    ensures AbsoluteIcon(AbsoluteIcon(icon)) != AbsoluteIcon(icon)
    ensures AbsoluteIcon("http:" + icon) == "http:http:" + icon
  {
  }

  /** The record built for one provider day inside `get_weather`'s loop. */
  function FlattenDay(d: ProviderDay): ForecastDay
  {
    ForecastDay(
      d.date, d.day.maxtempC, d.day.mintempC, d.day.condition.text,
      d.day.maxwindKph, d.day.avghumidity, d.day.dailyChanceOfRain, d.day.uv,
      d.astro.sunrise, d.astro.sunset, AbsoluteIcon(d.day.condition.icon))
  }

  /** Reads a flat record back as the provider day it came from; defined
      only for records whose icon carries the scheme prefix. */
  function UnflattenDay(f: ForecastDay): (d: ProviderDay)
    requires |f.icon| >= 5 && f.icon[..5] == Scheme
    ensures FlattenDay(d) == f
  {
    assert Scheme + f.icon[5..] == f.icon;
    ProviderDay(
      f.date,
      DaySummary(f.tempDay, f.tempNight, Condition(f.weather, f.icon[5..]),
                 f.windKph, f.humidity, f.chanceOfRain, f.uv),
      Astro(f.sunrise, f.sunset))
  }

  /** Flattening loses nothing: every field of the provider day is kept,
      the day temperature is `maxtemp_c`, the night temperature
      `mintemp_c`, and the provider day can be read back. */
  lemma FlattenRoundTrip(d: ProviderDay)
    ensures FlattenDay(d).tempDay == d.day.maxtempC && FlattenDay(d).tempNight == d.day.mintempC
    ensures UnflattenDay(FlattenDay(d)) == d
  {
  }

  /** Two provider days flatten to the same record only if they are equal. */
  lemma FlattenInjective(d: ProviderDay, e: ProviderDay)
    requires FlattenDay(d) == FlattenDay(e)
    ensures d == e
  {
  }

  /** The record's own invariant: a non-empty forecast whose first day
      supplies the snapshot's sunrise and sunset. */
  predicate WellFormed(w: CityWeather)
  {
    |w.forecast| > 0 && w.sunrise == w.forecast[0].sunrise && w.sunset == w.forecast[0].sunset
  }

  /** The normalisation `get_weather` performs on a decoded response:
      `None` on an error, otherwise one flat record per forecast day, in
      the provider's order, and the current snapshot with absolute icon
      and the first day's sunrise and sunset. */
  method GetWeather(response: Response) returns (r: Fetch)
    ensures response.ProviderError? <==> r == NotFound
    ensures r == Malformed <==> response.Payload? && |response.forecastday| == 0
    ensures r.Found? ==> WellFormed(r.weather)
    ensures r.Found? ==>
      && |r.weather.forecast| == |response.forecastday|
      && (forall k :: 0 <= k < |response.forecastday| ==>
            r.weather.forecast[k] == FlattenDay(response.forecastday[k]))
      && r.weather.city == response.location.name
      && r.weather.region == response.location.region
      && r.weather.country == response.location.country
      && r.weather.temp == response.current.tempC
      && r.weather.humidity == response.current.humidity
      && r.weather.weather == response.current.condition.text
      && r.weather.windKph == response.current.windKph
      && r.weather.windDir == response.current.windDir
      && r.weather.icon == AbsoluteIcon(response.current.condition.icon)
      && r.weather.sunrise == response.forecastday[0].astro.sunrise
      && r.weather.sunset == response.forecastday[0].astro.sunset
  {
    if response.ProviderError? {
      return NotFound;
    }
    var days := response.forecastday;
    var forecast: seq<ForecastDay> := [];
    for k := 0 to |days|
      invariant |forecast| == k
      invariant forall j :: 0 <= j < k ==> forecast[j] == FlattenDay(days[j])
    {
      forecast := forecast + [FlattenDay(days[k])];
    }
    if |forecast| == 0 {
      return Malformed;
    }
    var location, current := response.location, response.current;
    r := Found(CityWeather(
      location.name, location.region, location.country,
      current.tempC, current.humidity, current.condition.text,
      current.windKph, current.windDir,
      forecast[0].sunrise, forecast[0].sunset,
      AbsoluteIcon(current.condition.icon),
      forecast));
  }
}
