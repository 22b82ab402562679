/**
 * The three pure helpers the widget renders a result with:
 * `getTemperatureMessage`, `getWeatherMessage` and `getLocationMessage`.
 */
module Messages {
  import opened Wrappers
  import opened Text
  import opened Numerals

  // ---------------------------------------------------------------------
  // Temperature message
  // ---------------------------------------------------------------------

  /** The five Celsius bands, coldest first: below 0, [0, 10), [10, 20),
      [20, 30) and 30 or more. Computed arithmetically, independently of the
      if/else chain of `TemperatureMessage`. */
  function Band(temperature: int): (b: nat)
    ensures b < 5
  {
    if temperature < 0 then 0 else if temperature >= 30 then 4 else temperature / 10 + 1
  }

  /** Text before and after the number, one pair per band. */
  function Template(k: nat): (t: (string, string))
    requires k < 5
    ensures |t.0| >= 6
  {
    if k == 0 then ("It's freezing at ", "°C. Bundle up!")
    else if k == 1 then ("It's quite cold at ", "°C. Wear warm clothes.")
    else if k == 2 then ("The temperature is ", "°C. Comfortable for a light jacket.")
    else if k == 3 then ("It's a pleasant ", "°C. Enjoy the nice weather!")
    else ("It's hot at ", "°C. Stay hydrated!")
  }

  /** The message of band `k` with `temperature` filled in. */
  function Render(k: nat, temperature: int): (m: string)
    requires k < 5
  {
    Template(k).0 + ShowInt(temperature) + Template(k).1
  }

  /** `getTemperatureMessage`: for unit "C" the first band whose upper bound
      exceeds the temperature; any other unit gives the bare reading. The
      if/else chain agrees with the arithmetic `Band`: for "C" the message is
      the template of the temperature's band with the rendered temperature
      in the middle. */
  function TemperatureMessage(temperature: int, unit: string): (r: string)
    ensures unit == "C" ==> r == Render(Band(temperature), temperature)
  {
    if unit == "C" then
      if temperature < 0 then Render(0, temperature)
      else if temperature < 10 then Render(1, temperature)
      else if temperature < 20 then Render(2, temperature)
      else if temperature < 30 then Render(3, temperature)
      else Render(4, temperature)
    else
      ShowInt(temperature) + "°" + unit
  }

  /** Each band is exactly its interval, so the bands are disjoint and
      together cover every temperature. */
  lemma BandRanges(t: int)
    ensures Band(t) == 0 <==> t < 0
    ensures Band(t) == 1 <==> 0 <= t < 10
    ensures Band(t) == 2 <==> 10 <= t < 20
    ensures Band(t) == 3 <==> 20 <= t < 30
    ensures Band(t) == 4 <==> 30 <= t
  {
  }

  /** A warmer reading never falls in a colder band. */
  lemma BandMonotone(t1: int, t2: int)
    requires t1 <= t2
    ensures Band(t1) <= Band(t2)
  {
  }

  /** For any other unit the message is the reading, a degree sign and the
      unit, so it ends with the unit verbatim. The first clause only unfolds
      the `else` branch of `TemperatureMessage`; the second says the message
      ends with the degree sign and the unit. */
  lemma TemperatureMessageOtherUnit(t: int, unit: string)
    requires unit != "C"
    ensures TemperatureMessage(t, unit) == ShowInt(t) + "°" + unit
    ensures var r := TemperatureMessage(t, unit);
            |r| > |unit| && r[|r| - |unit|..] == unit && r[|r| - |unit| - 1] == '°'
  {
    var r := TemperatureMessage(t, unit);
    assert r == (ShowInt(t) + "°") + unit;
  }

  /** The first six characters of the message of band `k`. */
  function Lead(k: nat): (l: string)
    requires k < 5
  {
    Template(k).0[..6]
  }

  /** The five templates differ within their first six characters. */
  lemma LeadsDistinct()
    ensures forall k1, k2 :: 0 <= k1 < 5 && 0 <= k2 < 5 && Lead(k1) == Lead(k2) ==> k1 == k2
  {
    assert Lead(0) == "It's f";
    assert Lead(1) == "It's q";
    assert Lead(2) == "The te";
    assert Lead(3) == "It's a";
    assert Lead(4) == "It's h";
  }

  /** A rendered message begins with the lead of its band. */
  lemma RenderLead(k: nat, t: int)
    requires k < 5
    ensures |Render(k, t)| >= 6 && Render(k, t)[..6] == Lead(k)
  {
  }

  /** A rendered message determines both its band and its temperature. */
  lemma RenderInjective(k1: nat, t1: int, k2: nat, t2: int)
    requires k1 < 5 && k2 < 5
    requires Render(k1, t1) == Render(k2, t2)
    ensures k1 == k2 && t1 == t2
  {
    var r := Render(k1, t1);
    LeadsDistinct();
    RenderLead(k1, t1);
    RenderLead(k2, t2);
    assert k1 == k2;
    var p := Template(k1).0;
    var s1, s2 := ShowInt(t1), ShowInt(t2);
    assert |s1| == |s2|;
    assert s1 == r[|p|..|p| + |s1|];
    assert s2 == r[|p|..|p| + |s2|];
    ShowIntInjective(t1, t2);
  }

  /** With the unit fixed, the temperature message determines the
      temperature: no two readings share a message. */
  lemma TemperatureMessageInjective(t1: int, t2: int, unit: string)
    requires TemperatureMessage(t1, unit) == TemperatureMessage(t2, unit)
    ensures t1 == t2
  {
    if unit == "C" {
      RenderInjective(Band(t1), t1, Band(t2), t2);
    } else {
      var s1, s2 := ShowInt(t1), ShowInt(t2);
      var tail := "°" + unit;
      assert TemperatureMessage(t1, unit) == s1 + tail;
      assert TemperatureMessage(t2, unit) == s2 + tail;
      assert s1 == (s1 + tail)[..|s1|];
      assert s2 == (s2 + tail)[..|s2|];
      ShowIntInjective(t1, t2);
    }
  }

  // ---------------------------------------------------------------------
  // Condition message
  // ---------------------------------------------------------------------

  /** The nine condition texts the widget recognises, all lower case. */
  const ConditionKeys: set<string> :=
    {"sunny", "partly cloudy", "cloudy", "overcast", "rain", "thunderstorm", "snow", "mist", "fog"}

  /** The canned sentence for a lower-cased condition text, if it has one. */
  function ConditionMessage(key: string): (m: Option<string>)
    ensures m.Some? <==> key in ConditionKeys
  {
    match key
    case "sunny" => Some("It's a beautiful sunny day!")
    case "partly cloudy" => Some("Expect some clouds and sunshine.")
    case "cloudy" => Some("It's cloudy today!")
    case "overcast" => Some("The sky is overcast")
    case "rain" => Some("Don't forget your umbrella! It's raining.")
    case "thunderstorm" => Some("Thunderstorms are expected today.")
    case "snow" => Some("Bundle up! It's snowing.")
    case "mist" => Some("It's misty outside.")
    case "fog" => Some("Be careful, there's fog outside.")
    case _ => None
  }

  /** No key of the table has an upper-case letter, so each key is its own
      lower-cased form. */
  lemma ConditionKeyLowerCase(k: string)
    requires k in ConditionKeys
    ensures forall i :: 0 <= i < |k| ==> !IsUpper(k[i])
  {
  }

  /** Lower-casing a text gives a key of the table exactly when the text
      spells that key up to case. */
  lemma LowerCaseFindsKey(d: string)
    ensures forall k :: k in ConditionKeys ==> (ToLower(d) == k <==> CaseVariant(d, k))
  {
    forall k | k in ConditionKeys
      ensures ToLower(d) == k <==> CaseVariant(d, k)
    {
      ConditionKeyLowerCase(k);
      ToLowerMatchesKey(d, k);
    }
  }

  /** `getWeatherMessage`: the canned sentence of the lower-cased condition
      text, or the text itself, unchanged, when it has none. The lookup
      ignores case: any spelling of a key up to case gets that key's
      sentence, and a text that spells no key is returned as is, with its
      own case. */
  function WeatherMessage(description: string): (r: string)
    ensures forall k :: k in ConditionKeys && CaseVariant(description, k) ==>
              r == ConditionMessage(k).value
    ensures (forall k :: k in ConditionKeys ==> !CaseVariant(description, k)) ==> r == description
  {
    LowerCaseFindsKey(description);
    match ConditionMessage(ToLower(description))
    case Some(m) => m
    case None => description
  }

  // ---------------------------------------------------------------------
  // Location message
  // ---------------------------------------------------------------------

  /** An hour of the local clock, as `Date.prototype.getHours` returns it. */
  type Hour = h: int | 0 <= h < 24

  /** Night is from 18:00 up to 06:00. */
  predicate IsNight(hour: Hour) {
    hour >= 18 || hour < 6
  }

  /** `getLocationMessage`, with the hour passed in instead of read from
      the clock. The message starts with the location and a space, is
      exactly as long as that and the night or day ending together, and its
      last character tells night ('t') from day ('y'). */
  function LocationMessage(location: string, hour: Hour): (r: string)
    ensures |r| == |location| + 1 + (if IsNight(hour) then 10 else 16)
    ensures r[..|location|] == location && r[|location|] == ' '
    ensures r[|r| - 1] == if IsNight(hour) then 't' else 'y'
  {
    location + " " + (if IsNight(hour) then "- at Night" else "- during the Day")
  }

  predicate EndsWith(s: string, suffix: string) {
    |suffix| <= |s| && s[|s| - |suffix|..] == suffix
  }

  /** The message ends with "- at Night" exactly for the hours 18 to 23
      and 0 to 5, and with "- during the Day" exactly for the hours 6 to 17. */
  lemma LocationMessageShape(location: string, hour: Hour)
    ensures EndsWith(LocationMessage(location, hour), "- at Night") <==> (18 <= hour || hour < 6)
    ensures EndsWith(LocationMessage(location, hour), "- during the Day") <==> 6 <= hour < 18
  {
    var r := LocationMessage(location, hour);
    var n := |r|;
    assert r[n - 1] == (if IsNight(hour) then 't' else 'y');
    if IsNight(hour) {
      assert r == (location + " ") + "- at Night";
      assert !EndsWith(r, "- during the Day") by {
        if |r| >= 16 {
          assert r[n - 16..][15] == r[n - 1];
        }
      }
    } else {
      assert r == (location + " ") + "- during the Day";
      assert r[n - 10..][9] == r[n - 1];
    }
  }

  /** The message determines the location and whether it was night. */
  lemma LocationMessageInjective(l1: string, h1: Hour, l2: string, h2: Hour)
    requires LocationMessage(l1, h1) == LocationMessage(l2, h2)
    ensures l1 == l2 && IsNight(h1) == IsNight(h2)
  {
    var r := LocationMessage(l1, h1);
    var tail := " " + (if IsNight(h1) then "- at Night" else "- during the Day");
    assert r == l1 + tail;
    assert r == l2 + tail;
    assert l1 == r[..|l1|];
    assert l2 == r[..|l2|];
  }

  // ---------------------------------------------------------------------
  // Worked examples
  // ---------------------------------------------------------------------

  lemma FreezingExample()
    ensures TemperatureMessage(-5, "C") == "It's freezing at " + "-5" + "°C. Bundle up!"
  {
    assert ShowInt(-5) == "-5";
    assert TemperatureMessage(-5, "C") == Render(0, -5);
  }

  lemma PleasantExample()
    ensures TemperatureMessage(25, "C") == "It's a pleasant " + "25" + "°C. Enjoy the nice weather!"
  {
    assert ShowNat(2) == "2";
    assert ShowNat(25) == "25";
    assert ShowInt(25) == "25";
    assert TemperatureMessage(25, "C") == Render(3, 25);
  }

  lemma HotExample()
    ensures TemperatureMessage(35, "C") == "It's hot at " + "35" + "°C. Stay hydrated!"
  {
    assert ShowNat(3) == "3";
    assert ShowNat(35) == "35";
    assert ShowInt(35) == "35";
    assert TemperatureMessage(35, "C") == Render(4, 35);
  }

  lemma ConditionExamples()
    ensures WeatherMessage("Rain") == "Don't forget your umbrella! It's raining."
    ensures WeatherMessage("Hail") == "Hail"
  {
    assert CaseVariant("Rain", "rain");
    assert ToLower("Hail") == "hail";
    assert ConditionMessage("hail") == None;
  }

  lemma NightAndDayExample()
    ensures LocationMessage("Paris", 20) == "Paris - at Night"
    ensures LocationMessage("Paris", 10) == "Paris - during the Day"
  {
  }
}
