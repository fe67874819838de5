# Weather dashboard: a Dafny model of its data logic

The weather dashboard is a Streamlit script (`main.py`). It reads a
comma-separated list of cities and fetches a 7-day forecast for each city
from WeatherAPI. For each found city it shows the current conditions, an
animation chosen from the condition text, the forecast for a selected day
and alert banners. It then builds two cross-city tables: a comparison
table of day/night temperatures keyed by date, and an export table with
one row per forecast day per city, offered as a CSV download.

This project models the deterministic part of that script. The rendering,
the HTTP calls and the library calls are not modelled.

- `wrappers.dfy` (`Wrappers`): `Option`, which stands for Python's `None` or a value.
- `text.dfy` (`Text`): the string operations the script relies on.
  These are `str.lower`, the substring test `p in s`, `str.split(",")` and `str.strip()`.
  Each is proved against an independent characterisation. Lower-casing is
  proved idempotent, and the key match used for animations ignores case.
- `weather.dfy` (`Weather`): the provider's response body as a datatype, and
  the flat `ForecastDay`/`CityWeather` records.
  `GetWeather` is `get_weather`'s normalisation, written as the loop the source has.
- `alerts.dfy` (`Alerts`): the hot/cold/UV/rain banners of the selected day.
- `animation.dfy` (`Animation`): the two ways an animation is chosen from a
  condition text. One is the keyed table searched in declaration order; the
  other is the background's fixed priority chain.
- `dashboard.dfy` (`Dashboard`): the parsed city list, the layout numbers,
  the selected-day lookup, and the pass over the cities. `RunPass` is a loop
  that accumulates the comparison and export tables.

Temperatures, wind speed and UV index are exact `real`s, because the script only
compares them with constants and passes them through. Percentages are `int`s.
Dates are `(year, month, day)` triples.

Where the script's behaviour may be unexpected, the model follows the code:

- The forecast keeps however many days the provider sent, in the provider's
  order. Nothing enforces exactly seven days or sorts them by date.
- Comparison column names and export row tags use the provider's location name
  (`weather['city']`), not the query text. The not-found message uses the query text.
- The `http:` prefix is added to every icon unconditionally. An icon that already
  has a scheme becomes `http:http:...` (`AbsoluteIconNotIdempotent`).
- An empty `forecastday` list makes `forecast[0]` raise. `GetWeather` reports this
  as the `Malformed` outcome. It is not treated as a valid result.

## Model

| member | source | states |
|---|---|---|
| `Text.Lower` | main.py:39 | lower-casing keeps the length and maps each character through `LowerChar` (A–Z shifted to a–z, every other character unchanged) |
| `Text.LowerIdempotent` | main.py:39 | a lower-cased string holds no upper-case ASCII letter, and lower-casing it again changes nothing |
| `Text.ContainsIff` | main.py:39 | the left-to-right scan used for `p in s` holds exactly when `p` occurs at some position of `s` |
| `Text.ContainedCharsOccur` | main.py:39 | a string found in `s` is no longer than `s`, and each of its characters occurs in `s` |
| `Text.SplitSpec` | main.py:129 | `split(",")` gives (number of commas + 1) pieces; no piece contains a comma; joining the pieces with commas gives back the input |
| `Text.TrimStart` | main.py:129 | the result is a suffix of the input; everything removed is whitespace; the result is empty or starts with a non-whitespace character |
| `Text.TrimEnd` | main.py:129 | the result is a prefix of the input; everything removed is whitespace; the result is empty or ends with a non-whitespace character |
| `Text.StripIsSlice` | main.py:129 | `strip()` keeps the contiguous slice that starts where the leading whitespace ends |
| `Text.StripCutsTrailingSpace` | main.py:129 | everything `strip()` cuts after the kept slice is whitespace (what it cuts before is covered by `TrimStart`) |
| `Text.StripHasNoOuterSpace` | main.py:129 | the stripped string is empty or neither starts nor ends with whitespace |
| `Text.StripOfSpaces` | main.py:129 | a string made only of whitespace strips to the empty string |
| `Dashboard.ParseCitiesSpec` | main.py:129 | the city list has (commas + 1) entries in input order; each entry is its stripped piece and contains no comma; empty pieces are kept |
| `Dashboard.SplitExample` | main.py:129 | `"a, ,b".split(",")` gives the three pieces `"a"`, `" "` and `"b"` |
| `Dashboard.EmptyPieceKept` | main.py:129 | a piece that is empty or only whitespace is still a city, with the empty name, at the same position |
| `Dashboard.SliderRange` | main.py:132-134 | over the slider's 320–1600 px, the mobile layout is used exactly below 700 px; the icon width lies in 106–300 and is 300 exactly from 900 px |
| `Dashboard.IconWidth` | main.py:159 | `min(w // 3, 300)` is the largest width ≤ 300 whose triple fits in the screen width |
| `Weather.AbsoluteIcon` | main.py:103 | the icon is the input with `http:` in front: 5 characters longer, prefix `http:`, rest unchanged |
| `Weather.ProtocolRelativeIcon` | main.py:116 | a protocol-relative icon `//x` becomes `http://x` |
| `Weather.AbsoluteIconNotIdempotent` | main.py:103 | prefixing twice never equals prefixing once; an already-absolute `http:x` becomes `http:http:x` |
| `Weather.UnflattenDay` | main.py:92-104 | a flat record whose icon carries the prefix reads back as a provider day that flattens to the same record |
| `Weather.FlattenRoundTrip` | main.py:94-95 | day temperature is `maxtemp_c`, night temperature is `mintemp_c`, and flattening a provider day then reading it back gives the same provider day |
| `Weather.FlattenInjective` | main.py:92-104 | two provider days with the same flat record are equal: flattening drops no field |
| `Weather.GetWeather` | main.py:85-119 | an error response gives not-found. An empty forecast list is the `forecast[0]` failure. Otherwise: one flat record per provider day in the same order, snapshot fields copied from location/current, absolute icon, sunrise and sunset from day 0 |
| `Alerts.DayAlerts` | main.py:197-204 | hot exactly when `temp_day > 35`, cold exactly when `temp_day < 10`, never both; UV exactly when `uv >= 7`, rain exactly when `chance_of_rain >= 50`; no banner twice; shown in the script's order: the temperature banner first, UV before rain, rain last |
| `Alerts.Boundaries` | main.py:197-204 | 35 and 10 raise no temperature banner, 35.01 is hot, 9.99 is cold; 6.99 UV and 49 % rain raise nothing, 7 and 50 do |
| `Animation.LottieForCondition` | main.py:37-41 | returns none exactly when no key occurs in the condition (ignoring case); otherwise the animation of the first key in declaration order that occurs |
| `Animation.BackgroundFor` | main.py:46-55 | sun/clear gives the sun background; otherwise cloud gives the cloud background; otherwise rain/thunder gives the rain background; otherwise snow gives the snow background; otherwise none — each as an if-and-only-if |
| `Animation.KeyMatchesIgnoresCase` | main.py:39 | whether a key matches a condition does not change when either the condition or the key is lower-cased first |
| `Animation.MistChoices` | main.py:34 | "Mist" matches the table's mist key but gets no background |
| `Animation.ThunderBackground` | main.py:52-53 | a bare "Thunder" gets the rain background |
| `Animation.ThunderHasNoKey` | main.py:26-41 | a bare "Thunder" matches no table key, because the key is "Thunderstorm" |
| `Dashboard.ForecastForDate` | main.py:178 | returns none exactly when no entry has the selected date; otherwise an entry on that date that is the first such entry |
| `Dashboard.SeriesMatchesLookup` | main.py:207-209 | a city's day/night series has a value exactly for its forecast dates, and that value is the reading of the day the selected-day lookup finds |
| `Dashboard.CityRows` | main.py:213-214 | a found city gives one export row per forecast day, in order, each tagged with the city's name |
| `Dashboard.PassStep` | main.py:148-219 | a not-found city adds no row and no column and adds its query to the messages; a found city appends its rows and its two columns |
| `Dashboard.ExportTableSize` | main.py:212-215 | the export's length is the total forecast length of the found cities |
| `Dashboard.ExportTableAt` | main.py:213-215 | day `j` of city `k` is the row after all rows of the found cities before `k`, tagged with city `k`'s name |
| `Dashboard.ComparisonShape` | main.py:207-210 | there are two columns per found city, `{city}_day` then `{city}_night`, in processing order; not-found cities add none |
| `Dashboard.ComparisonDates` | main.py:210 | the comparison table has a row for a date exactly when some found city's forecast covers that date (an outer join on date) |
| `Dashboard.TwoFound` | main.py:148-151 | processing two found cities yields both in order, and their total forecast length is the sum of the two |
| `Dashboard.TwoCitiesSameDates` | main.py:148-215 | two found cities with the same dates give 4 columns, the sum of their forecast lengths in export rows, and rows for exactly those dates |
| `Dashboard.NoneFound` | main.py:218-219 | when no city is found both tables stay empty and every query is reported |
| `Dashboard.RunPass` | main.py:148-219 | the loop's tables and messages equal the specification functions; the export has one row per forecast day of the found cities; there are two columns per found city |

## Left out

- HTTP: `load_lottie` and the request in `get_weather` are network I/O. The decoded response body is an input, and so is each city's fetch result in `RunPass`.
- `load_lottie`'s status-code check and the download of the animation JSON are I/O. `LottieForCondition` and `BackgroundFor` return the chosen URL.
- The `WEATHER_API_KEY` lookup and its error banner (main.py:13-15) are process configuration.
- All Streamlit rendering is UI: `st.*`, `st_lottie`, the CSS, the widgets, the per-city containers or columns, and the text shown per city.
- The Plotly chart (main.py:224-238) is UI.
- The CSV formatting of `to_csv` is library behaviour. The export table is the sequence of rows it would format.
- `date.today()` is a clock read, and the `date_input` bounds are a widget. The selected date is a parameter of `ForecastForDate`.
- `datetime.strptime` is library behaviour. Provider dates are already `(year, month, day)` triples.
- pandas behaviour is not modelled. This covers index alignment, the sorting of the joined index, and the column order details of `pd.concat`. It also covers duplicate dates within one city's forecast: pandas keeps them as repeated index labels, while a `Series` keeps the first day's reading for that date.
- Floating-point arithmetic is not modelled. Numbers are exact, because the script only compares and copies them.
- Exceptions other than the empty-forecast `IndexError` are left out. A missing key cannot happen in the typed response, and transport failures are outside the model. `RunPass` covers passes in which every `get_weather` call returned; a pass aborted by an exception is not modelled.
- `response.get("error")` tests truthiness. The model treats any error object as "not found". It does not model a present but empty or falsy `error` value, which the script would pass on to the key lookups.
- `RunPass` does not build the per-city display. That display covers the background, animation, selected day and banners; its parts are modelled separately by `BackgroundFor`, `LottieForCondition`, `IconWidth`, `ForecastForDate` and `DayAlerts`.
- Lower: only the ASCII letters are case-mapped. Python's `str.lower` maps all of Unicode. The condition texts and keys compared are ASCII.
- Duplicate widget keys are not modelled. Two queries that resolve to the same city create two `date_input` widgets with the same label and arguments, and so the same widget identity (main.py:172-177). Two cities with the same condition text, when it has a background, create two `bg_{condition}` keys (main.py:59). Streamlit stops the pass with an error in both cases, so duplicate columns never reach the tables. The model does not stop there: `RunPass` keeps both cities' columns and rows.
