/**
 * The state of the weather widget and the handlers that change it.
 *
 * `handleSearch` is split at its `await fetch(...)`: `BeginSearch` is the
 * part before the request (the trim check, raising the loading flag,
 * clearing the error) and returns the query the request is sent with, or
 * `None` when no request is made; `CompleteSearch` is the part after it
 * (the success branch, the `catch` and the `finally`), given what the
 * request came back with as a `FetchOutcome`.
 */
module Widget {
  import opened Wrappers
  import opened Text
  import opened Messages

  /** The record shown after a successful search. */
  datatype WeatherData = WeatherData(temperature: int, description: string, location: string, unit: string)

  /** How the request ended: a body holding the temperature, the condition
      text and the place name; an HTTP status that is not ok; or an
      exception (network failure, a body that is not JSON, or a body without
      the `current`, `current.condition` or `location` object). */
  datatype FetchOutcome =
    | Ok(tempC: int, conditionText: string, locationName: string)
    | HttpNotOk
    | Threw

  const InvalidLocation := "Please enter a valid location."
  const CityNotFound := "City not found. Please try again"

  class WeatherWidget {
    var location: string
    var weather: Option<WeatherData>
    var error: Option<string>
    var isLoading: bool

    /** The widget never shows a result and an error together, no error is
        set while a request is in flight, and every stored result is in
        Celsius, so the temperature line of a valid widget is always one of
        the five band messages. */
    predicate Valid()
      reads this
      ensures Valid() && weather.Some? ==>
                TemperatureMessage(weather.value.temperature, weather.value.unit)
                == Render(Band(weather.value.temperature), weather.value.temperature)
    {
      && !(weather.Some? && error.Some?)
      && (isLoading ==> error.None?)
      && (weather.Some? ==> weather.value.unit == "C")
    }

    /** The initial state: empty input, no result, no error, not loading. */
    constructor ()
      ensures Valid()
      ensures location == "" && weather == None && error == None && !isLoading
    {
      location := "";
      weather := None;
      error := None;
      isLoading := false;
    }

    /** Typing in the search box replaces the input text; nothing else changes. */
    method SetLocation(text: string)
      requires Valid()
      modifies this
      ensures Valid()
      ensures location == text
      ensures weather == old(weather) && error == old(error) && isLoading == old(isLoading)
    {
      location := text;
    }

    /** The part of `handleSearch` before the request. A blank input sets the
        validation error, drops the result and sends nothing; any other input
        raises the loading flag, clears the error and sends its trimmed text,
        leaving the previous result on screen while loading. The input text
        is left as typed in both cases. */
    method BeginSearch() returns (query: Option<string>)
      requires Valid()
      requires !isLoading
      modifies this
      ensures Valid()
      ensures query.None? <==> IsBlank(old(location))
      ensures location == old(location)
      ensures query.None? ==>
                && error == Some(InvalidLocation)
                && weather == None
                && isLoading == old(isLoading)
      ensures query.Some? ==>
                && query.value == Trim(location)
                && query.value != []
                && !IsSpace(query.value[0]) && !IsSpace(query.value[|query.value| - 1])
                && isLoading
                && error == None
                && weather == old(weather)
    {
      var trimmedLocation := Trim(location);
      if trimmedLocation == "" {
        error := Some(InvalidLocation);
        weather := None;
        return None;
      }
      isLoading := true;
      error := None;
      query := Some(trimmedLocation);
    }

    /** The part of `handleSearch` after the request. A readable body becomes
        the new result in Celsius; a status that is not ok and an exception
        both drop the result and set the not-found error. Loading ends
        whatever happened, and the input text is untouched. */
    method CompleteSearch(outcome: FetchOutcome)
      requires Valid()
      requires isLoading
      modifies this
      ensures Valid()
      ensures !isLoading
      ensures location == old(location)
      ensures outcome.Ok? ==>
                && weather == Some(WeatherData(outcome.tempC, outcome.conditionText, outcome.locationName, "C"))
                && error == old(error)
                && error == None
      ensures !outcome.Ok? ==> weather == None && error == Some(CityNotFound)
    {
      var thrown := false;
      match outcome {
        case HttpNotOk =>
          thrown := true;
        case Threw =>
          thrown := true;
        case Ok(tempC, conditionText, locationName) =>
          weather := Some(WeatherData(tempC, conditionText, locationName, "C"));
      }
      if thrown {
        error := Some(CityNotFound);
        weather := None;
      }
      isLoading := false;
    }

    /** One whole `handleSearch` from any state the form can be submitted
        in: no request for a blank input, otherwise the trimmed text is
        sent; afterwards loading is over and exactly one of result and error
        is set, as the outcome dictates. */
    method Search(outcome: FetchOutcome) returns (sent: Option<string>)
      requires Valid()
      requires !isLoading
      modifies this
      ensures Valid()
      ensures !isLoading
      ensures location == old(location)
      ensures sent.None? <==> IsBlank(location)
      ensures sent.Some? ==> sent.value == Trim(location)
      ensures sent.None? ==> weather == None && error == Some(InvalidLocation)
      ensures sent.Some? && outcome.Ok? ==>
                weather == Some(WeatherData(outcome.tempC, outcome.conditionText, outcome.locationName, "C")) &&
                error == None
      ensures sent.Some? && !outcome.Ok? ==> weather == None && error == Some(CityNotFound)
      ensures weather.Some? != error.Some?
    {
      sent := BeginSearch();
      if sent.Some? {
        CompleteSearch(outcome);
      }
    }

    /** `handleClear`: back to an empty input with no result and no error.
        The loading flag is not touched. */
    method Clear()
      requires Valid()
      modifies this
      ensures Valid()
      ensures location == "" && weather == None && error == None
      ensures isLoading == old(isLoading)
    {
      weather := None;
      error := None;
      location := "";
    }

    /** The three lines shown under a result, read for the given hour:
        the temperature, condition and location messages. */
    function ResultLines(hour: Hour): (lines: Option<(string, string, string)>)
      reads this
      requires Valid()
      ensures lines.Some? <==> weather.Some?
      ensures lines.Some? ==>
                && lines.value.0 == Render(Band(weather.value.temperature), weather.value.temperature)
                && lines.value.1 == WeatherMessage(weather.value.description)
                && lines.value.2 == LocationMessage(weather.value.location, hour)
    {
      match weather
      case None => None
      case Some(w) =>
        Some((TemperatureMessage(w.temperature, w.unit),
              WeatherMessage(w.description),
              LocationMessage(w.location, hour)))
    }
  }
}
