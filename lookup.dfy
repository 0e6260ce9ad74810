/**
 * The lookup adapter: how the combined outcome of the geocoding call and the
 * current-weather call becomes the display record the application shows.
 *
 * The two network calls are not modelled; their combined result is the
 * abstract `Outcome`. Numbers coming from the weather service are kept
 * opaque, as the text the application renders for them.
 */
module Lookup {

  /** A number returned by the weather service, kept as its rendered text. */
  type Number = string

  /** A reading on the display record: a measured number, or the "--" marker. */
  datatype Reading = Placeholder | Measured(value: Number)

  /** The display record: the city name, temperature, humidity and condition text. */
  datatype WeatherRecord = WeatherRecord(name: string, temp: Reading, humidity: Reading, description: string)

  /**
   * What the two calls produced: no geocoding match, a match followed by a
   * current-weather answer, or an exception somewhere along the way.
   */
  datatype Outcome =
    | NotFound
    | Found(resolvedName: string, temperature: Number, windspeed: Number)
    | Failed

  const NotFoundText: string := "City not found"
  const ErrorText: string := "Error fetching weather"
  const WindPrefix: string := "Wind "
  const WindSuffix: string := " km/h"

  /** The condition text built from the wind speed. */
  function WindText(windspeed: Number): (d: string)
    ensures |d| == |WindPrefix| + |windspeed| + |WindSuffix|
    ensures d[..|WindPrefix|] == WindPrefix && d[|d| - |WindSuffix|..] == WindSuffix
  {
    WindPrefix + windspeed + WindSuffix
  }

  /** The placeholder record both failure paths return: the input name and the marker twice. */
  function PlaceholderRecord(cityName: string, description: string): (r: WeatherRecord)
    ensures r.name == cityName && r.description == description
    ensures r.temp == Placeholder && r.humidity == Placeholder
  {
    WeatherRecord(cityName, Placeholder, Placeholder, description)
  }

  /** The record `fetchLiveWeather(cityName)` returns for the outcome `o`. */
  function Normalise(cityName: string, o: Outcome): (r: WeatherRecord)
    ensures r.humidity == Placeholder
    ensures r.temp.Placeholder? <==> !o.Found?
    ensures o.NotFound? ==> r == PlaceholderRecord(cityName, NotFoundText)
    ensures o.Failed? ==> r == PlaceholderRecord(cityName, ErrorText)
    ensures o.Found? ==> r.name == o.resolvedName && r.temp == Measured(o.temperature)
                         && r.description == WindText(o.windspeed)
  {
    match o
    case NotFound => PlaceholderRecord(cityName, NotFoundText)
    case Found(name, temperature, windspeed) =>
      WeatherRecord(name, Measured(temperature), Placeholder, WindText(windspeed))
    case Failed => PlaceholderRecord(cityName, ErrorText)
  }

  /** Whether a condition text has the shape "Wind <speed> km/h". */
  predicate IsWindText(d: string) {
    |d| >= |WindPrefix| + |WindSuffix|
    && d[..|WindPrefix|] == WindPrefix
    && d[|d| - |WindSuffix|..] == WindSuffix
  }

  /** The wind speed written inside a condition text of that shape. */
  function WindOf(d: string): (w: Number)
    requires IsWindText(d)
    ensures |w| == |d| - |WindPrefix| - |WindSuffix|
  {
    d[|WindPrefix|..|d| - |WindSuffix|]
  }

  /**
   * Reads the outcome back from a display record: a measured temperature
   * only comes from a successful lookup, and the two failures differ only
   * in their condition text.
   */
  function Recover(r: WeatherRecord): Outcome {
    if r.temp.Measured? && IsWindText(r.description) then
      Found(r.name, r.temp.value, WindOf(r.description))
    else if r.description == NotFoundText then
      NotFound
    else
      Failed
  }

  lemma WindTextRoundTrip(w: Number)
    ensures IsWindText(WindText(w)) && WindOf(WindText(w)) == w
  {
    var d := WindText(w);
    assert d[|WindPrefix|..|d| - |WindSuffix|] == w by {
      assert forall i :: 0 <= i < |w| ==> d[|WindPrefix| + i] == w[i];
    }
  }

  /** No information about the outcome is lost: it can be read back from the record. */
  lemma RecoverNormalise(cityName: string, o: Outcome)
    ensures Recover(Normalise(cityName, o)) == o
  {
    match o
    case Found(_, _, w) => WindTextRoundTrip(w);
    case NotFound =>
    case Failed =>
      assert ErrorText[0] != NotFoundText[0];
  }

  /** Different outcomes for the same input never produce the same record. */
  lemma NormaliseInjective(cityName: string, o1: Outcome, o2: Outcome)
    requires Normalise(cityName, o1) == Normalise(cityName, o2)
    ensures o1 == o2
  {
    RecoverNormalise(cityName, o1);
    RecoverNormalise(cityName, o2);
  }
}
