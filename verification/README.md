# Weather widget: a verified model

This project models the logic of `WeatherWidget`, a React component that
looks up the current weather for a city. The component keeps four pieces of
state: the input text `location`, the last result `weather`, an `error`
message and an `isLoading` flag. It has two handlers. The search handler
trims the input, refuses a blank one and otherwise requests the weather; the
clear handler resets the form. Three helpers turn a result into text: a
banded temperature message, a condition sentence looked up case-insensitively,
and the location followed by "- at Night" or "- during the Day".

Files:

- `wrappers.dfy`: module `Wrappers`, the `Option` type that stands for the
  component's nullable values.
- `text.dfy`: module `Text`, the ASCII `trim` and `toLowerCase` the component
  uses, with their defining properties.
- `numerals.dfy`: module `Numerals`, decimal text for an integral temperature
  (`ShowInt`) and its read-back, showing that the rendering loses nothing.
- `messages.dfy`: module `Messages`, `getTemperatureMessage`,
  `getWeatherMessage` and `getLocationMessage` as functions, with lemmas.
- `widget.dfy`: module `Widget`, class `WeatherWidget` with the four state
  fields and the handlers as methods. `handleSearch` is split at its
  `await fetch(...)` into `BeginSearch` and `CompleteSearch`. The request's
  result is the datatype `FetchOutcome = Ok(tempC, conditionText,
  locationName) | HttpNotOk | Threw`.

The class invariant `Valid()` holds in every reachable state:

- a result and an error are never set together;
- no error is set while a request is in flight;
- every stored result is in Celsius.

The constructor establishes `Valid()` and every method preserves it;
`ResultLines` reads a valid state. As a consequence, the
non-Celsius branch of the temperature message is never reached from the
widget's state.

Three facts about the code that the model keeps:

- Clearing does not reset the loading flag (lines 57-61).
- The stored record carries a `unit` field, always "C" (line 43).
- While a request is in flight no error is set: the search handler clears it
  before the request (line 31), and only the `catch` sets it again (line 49).

## Model

| member | source | states |
|---|---|---|
| `Text.SkipLeading` | components/weather-widget.tsx:23 | the scan for the start of the trimmed text stops at the first character that is not white space (or at the end), and everything it passes over is white space |
| `Text.SkipTrailing` | components/weather-widget.tsx:23 | the scan for the end of the trimmed text stops after the last character that is not white space (or at the start), and everything it passes over is white space |
| `Text.Trim` | components/weather-widget.tsx:23-24 | the trimmed input is empty exactly when the input is blank, and otherwise starts and ends with a non-space character |
| `Text.TrimSlice` | components/weather-widget.tsx:23 | the trimmed text is the contiguous middle of the input, and everything cut on either side of it is white space |
| `Text.TrimIdempotent` | components/weather-widget.tsx:23 | trimming twice is trimming once (a fact about `trim` itself, which the widget does not rely on) |
| `Text.ToLower` | components/weather-widget.tsx:83 | lower-casing keeps the length, folds each character on its own (A-Z to a-z, every other character kept) and leaves no upper-case letter |
| `Text.ToLowerIdempotent` | components/weather-widget.tsx:83 | lower-casing twice is lower-casing once (a fact about `toLowerCase` itself, which the widget does not rely on) |
| `Text.ToLowerMatchesKey` | components/weather-widget.tsx:83-101 | for a key without capitals, the lower-cased text equals the key exactly when the text spells the key up to case (both directions) |
| `Numerals.ShowNat` | components/weather-widget.tsx:66 | a natural number is written as at least one digit, with no leading zero, starting with '0' only for zero |
| `Numerals.ShowInt` | components/weather-widget.tsx:66-78 | the interpolated temperature starts with a minus sign exactly when it is negative, followed by digits |
| `Numerals.ParseShowNat` | components/weather-widget.tsx:66-78 | reading back the digits of a natural number gives the number |
| `Numerals.ReadShowInt` | components/weather-widget.tsx:66-78 | reading back the rendered temperature gives the temperature |
| `Numerals.ShowIntInjective` | components/weather-widget.tsx:66-78 | two different temperatures are never rendered as the same text |
| `Messages.Band` | components/weather-widget.tsx:64-75 | the band index, computed arithmetically, is one of the five bands |
| `Messages.BandRanges` | components/weather-widget.tsx:65-75 | band 0 is exactly below 0, 1 is [0,10), 2 is [10,20), 3 is [20,30) and 4 is 30 or more, so the bands are disjoint and cover all readings |
| `Messages.BandMonotone` | components/weather-widget.tsx:65-75 | a warmer reading never falls in a colder band |
| `Messages.TemperatureMessage` | components/weather-widget.tsx:63-80 | for unit "C" the if/else chain agrees with the arithmetic band: the message is the template of the reading's band with the rendered reading inside it |
| `Messages.TemperatureMessageOtherUnit` | components/weather-widget.tsx:77-79 | for any other unit the message is the reading, a degree sign and the unit, ending with the unit verbatim |
| `Messages.LeadsDistinct` | components/weather-widget.tsx:66-74 | the five band messages differ in their first six characters |
| `Messages.RenderLead` | components/weather-widget.tsx:66-74 | every band message begins with its band's first six characters, whatever the reading |
| `Messages.RenderInjective` | components/weather-widget.tsx:65-75 | a Celsius message determines both its band and the reading it embeds |
| `Messages.TemperatureMessageInjective` | components/weather-widget.tsx:63-79 | for a fixed unit, two different readings never get the same message |
| `Messages.ConditionMessage` | components/weather-widget.tsx:83-104 | the switch has a sentence exactly for the nine fixed condition keys |
| `Messages.ConditionKeyLowerCase` | components/weather-widget.tsx:84-100 | none of the nine keys has an upper-case letter, so each is reachable through lower-casing |
| `Messages.LowerCaseFindsKey` | components/weather-widget.tsx:83-101 | lower-casing a text gives one of the nine keys exactly when the text spells that key up to case |
| `Messages.WeatherMessage` | components/weather-widget.tsx:82-105 | any spelling of a key up to case gets that key's sentence, and a text that spells no key is returned unchanged, with its own case |
| `Messages.LocationMessage` | components/weather-widget.tsx:107-111 | the message starts with the location and a space, and its length is exactly that plus the ending ("- at Night", 10 characters, or "- during the Day", 16), so with LocationMessageShape nothing lies between the space and the ending; its last character is 't' at night and 'y' by day |
| `Messages.LocationMessageShape` | components/weather-widget.tsx:107-111 | the message ends with "- at Night" exactly for hours 18-23 and 0-5 and with "- during the Day" exactly for hours 6-17 |
| `Messages.LocationMessageInjective` | components/weather-widget.tsx:107-111 | the message determines the location and whether it was night |
| `Messages.FreezingExample` | components/weather-widget.tsx:65-66 | -5 °C gives the freezing message with "-5" in it |
| `Messages.PleasantExample` | components/weather-widget.tsx:71-72 | 25 °C gives the pleasant message with "25" in it |
| `Messages.HotExample` | components/weather-widget.tsx:73-74 | 35 °C gives the hot message with "35" in it |
| `Messages.ConditionExamples` | components/weather-widget.tsx:83-103 | "Rain", capitalised, still gets the umbrella sentence, and "Hail", which is not in the table, is echoed verbatim |
| `Messages.NightAndDayExample` | components/weather-widget.tsx:108-110 | hour 20 gives "- at Night", hour 10 gives "- during the Day" |
| `Widget.WeatherWidget.Valid` | components/weather-widget.tsx:16-19 | in a valid state a stored result's temperature line is always one of the five Celsius band messages |
| `Widget.WeatherWidget.constructor` | components/weather-widget.tsx:16-19 | initial state: empty input, no result, no error, not loading; the invariant holds |
| `Widget.WeatherWidget.SetLocation` | components/weather-widget.tsx:129 | typing replaces the input text and changes nothing else |
| `Widget.WeatherWidget.BeginSearch` | components/weather-widget.tsx:21-31 | a blank input sets "Please enter a valid location.", drops the result, sends no request and leaves loading and input alone; any other input sends its trimmed text, sets loading, clears the error and keeps the previous result |
| `Widget.WeatherWidget.CompleteSearch` | components/weather-widget.tsx:33-54 | a readable body becomes the result with unit "C" and the error stays absent; a status that is not ok or an exception drops the result and sets "City not found. Please try again"; loading ends in every case and the input is untouched |
| `Widget.WeatherWidget.Clear` | components/weather-widget.tsx:57-61 | result and error are dropped and the input emptied; the loading flag is unchanged |
| `Widget.WeatherWidget.Search` | components/weather-widget.tsx:21-55 | one whole search from any state the form can be submitted in: no request for a blank input, otherwise the trimmed text is sent; loading is over afterwards and exactly one of result and error is set, as the outcome dictates |
| `Widget.WeatherWidget.ResultLines` | components/weather-widget.tsx:145-160 | the result lines are shown exactly when there is a result; the temperature line is the Celsius band message, the condition line the condition sentence and the location line the location message |

## Left out

- The request itself is not modelled. This covers the URL, the API key taken
  from the environment, `fetch` and the JSON field extraction (lines 34 and
  38). It is I/O against a third-party service. Its result enters as
  `FetchOutcome`, and the query text is returned by `BeginSearch`.
- `console.error` (line 48) is left out. It is a logging side effect only.
- `new Date().getHours()` (line 108) reads the wall clock. The hour is a
  parameter of type `Hour` (0 to 23) instead.
- Temperatures are integers. `ShowInt` renders them the way a template
  literal renders an integral number of magnitude at most 2^53, every one of
  which is exactly a JavaScript number printed as its own digits. Fractional
  readings, larger magnitudes and JavaScript's shortest round-trip
  formatting (which prints 2^60 as "1152921504606847000" and 10^21 as
  "1e+21") are left out.
- `FetchOutcome` does not cover a body whose `current`, `current.condition`
  and `location` objects exist but lack a leaf field (`temp_c`,
  `condition.text` or `name`, lines 40-42). Such a field reads as
  `undefined`, the record is stored anyway, and rendering it would print
  "undefined" or throw (line 153). The model's records always hold a number
  and two strings.
- `trim` and `toLowerCase` work over ASCII only: six white-space characters
  and the letters A-Z. Unicode white space and case mapping are left out.
- `Widget.WeatherWidget.BeginSearch` requires that no request is in flight.
  The submit button is disabled while loading (line 133), so the form cannot
  be submitted again before the request ends. Overlapping searches and their
  race are left out.
- `Widget.WeatherWidget.CompleteSearch` requires that a request is in flight.
  It only ever runs as the continuation of a `BeginSearch` that sent one.
- Rendering is left out: markup, styling, icons and the error line
  (lines 113-164). The exception is `ResultLines`, which models which
  messages the result panel shows.
- `e.preventDefault()` (line 22) is left out. It is browser form behaviour
  with no effect on the state.
