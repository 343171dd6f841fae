/** The two pure helpers the views use to style a sample: the night test on
    the icon code (`isNightTime`) and the condition-to-gradient mapping
    (`getWeatherGradientClass`). */
module Presentation {

  const NightClass := "weather-gradient-night"
  const ClearClass := "weather-gradient-clear"
  const CloudsClass := "weather-gradient-clouds"
  const RainClass := "weather-gradient-rain"
  const ThunderstormClass := "weather-gradient-thunderstorm"
  const SnowClass := "weather-gradient-snow"
  const MistClass := "weather-gradient-mist"

  /** The condition categories the switch recognises, lower-cased. */
  const KnownCategories: set<string> :=
    {"clear", "clouds", "rain", "drizzle", "thunderstorm", "snow", "mist", "fog", "haze"}

  /** The tags a daytime sample can get: every tag except the night one. */
  const DayClasses: set<string> :=
    {ClearClass, CloudsClass, RainClass, ThunderstormClass, SnowClass, MistClass}

  function LowerChar(c: char): char {
    if 'A' <= c <= 'Z' then (c as int + 32) as char else c
  }

  /** `toLowerCase` on the ASCII letters. */
  function ToLower(s: string): string {
    seq(|s|, i requires 0 <= i < |s| => LowerChar(s[i]))
  }

  /** Night wins over the category; otherwise the lower-cased category picks
      the tag, rain/drizzle and mist/fog/haze share one, and anything
      unrecognised is styled as clear. */
  function GetWeatherGradientClass(weatherMain: string, isNight: bool): (r: string)
    ensures r == NightClass <==> isNight
    ensures !isNight ==> r in DayClasses
    ensures r == ClearClass <==>
      !isNight && (ToLower(weatherMain) == "clear" || ToLower(weatherMain) !in KnownCategories)
    ensures r == CloudsClass <==> !isNight && ToLower(weatherMain) == "clouds"
    ensures r == RainClass <==> !isNight && ToLower(weatherMain) in {"rain", "drizzle"}
    ensures r == ThunderstormClass <==> !isNight && ToLower(weatherMain) == "thunderstorm"
    ensures r == SnowClass <==> !isNight && ToLower(weatherMain) == "snow"
    ensures r == MistClass <==> !isNight && ToLower(weatherMain) in {"mist", "fog", "haze"}
  {
    if isNight then NightClass
    else
      match ToLower(weatherMain)
      case "clear" => ClearClass
      case "clouds" => CloudsClass
      case "rain" => RainClass
      case "drizzle" => RainClass
      case "thunderstorm" => ThunderstormClass
      case "snow" => SnowClass
      case "mist" => MistClass
      case "fog" => MistClass
      case "haze" => MistClass
      case _ => ClearClass
  }

  lemma {:induction false} ToLowerIdempotent(s: string)
    ensures ToLower(ToLower(s)) == ToLower(s)
  {
    var t := ToLower(s);
    assert forall i :: 0 <= i < |t| ==> LowerChar(t[i]) == t[i];
  }

  /** The mapping depends on the category only through its lower-cased form. */
  lemma GradientIgnoresCase(weatherMain: string, isNight: bool)
    ensures GetWeatherGradientClass(weatherMain, isNight)
         == GetWeatherGradientClass(ToLower(weatherMain), isNight)
  {
    ToLowerIdempotent(weatherMain);
  }

  /** The categories that collapse: rain with drizzle, mist with fog and haze,
      and an unrecognised category with clear. */
  lemma GradientCollapses(other: string, isNight: bool)
    requires ToLower(other) !in KnownCategories
    ensures GetWeatherGradientClass("rain", isNight) == GetWeatherGradientClass("drizzle", isNight)
    ensures GetWeatherGradientClass("mist", isNight) == GetWeatherGradientClass("fog", isNight)
         == GetWeatherGradientClass("haze", isNight)
    ensures GetWeatherGradientClass(other, isNight) == GetWeatherGradientClass("clear", isNight)
  {
    assert ToLower("rain") == "rain" && ToLower("drizzle") == "drizzle";
    assert ToLower("mist") == "mist" && ToLower("fog") == "fog" && ToLower("haze") == "haze";
    assert ToLower("clear") == "clear";
  }

  lemma GradientExamples()
    ensures GetWeatherGradientClass("Rain", false) == RainClass
    ensures GetWeatherGradientClass("Clear", true) == NightClass
  {
    assert ToLower("Rain") == "rain";
  }

  /** `haystack.includes(needle)`: the needle occurs as a contiguous run,
      that is, at some position of the haystack. */
  predicate Includes(haystack: string, needle: string)
    ensures Includes(haystack, needle) <==> exists i :: OccursAt(haystack, needle, i)
    decreases |haystack|
  {
    IncludesShift(haystack, needle);
    assert |needle| <= |haystack| ==> haystack[..|needle|] == haystack[0..|needle|];
    assert haystack == [] && needle == [] ==> OccursAt(haystack, needle, 0);
    (|needle| <= |haystack| && haystack[..|needle|] == needle)
    || (haystack != [] && Includes(haystack[1..], needle))
  }

  /** `needle` occurs in `haystack` starting at position `i`. */
  predicate OccursAt(haystack: string, needle: string, i: int) {
    0 <= i && i + |needle| <= |haystack| && haystack[i..i + |needle|] == needle
  }

  /** Occurrences in the haystack past its first character are the
      occurrences in its tail, shifted by one. */
  lemma IncludesShift(haystack: string, needle: string)
    ensures haystack != [] ==>
      ((exists i :: OccursAt(haystack, needle, i))
        <==> OccursAt(haystack, needle, 0) || exists i :: OccursAt(haystack[1..], needle, i))
  {
    if haystack != [] {
      var tail := haystack[1..];
      forall i | OccursAt(tail, needle, i) ensures OccursAt(haystack, needle, i + 1) {
        assert haystack[i + 1..i + 1 + |needle|] == tail[i..i + |needle|];
      }
      forall i | 0 < i && OccursAt(haystack, needle, i) ensures OccursAt(tail, needle, i - 1) {
        assert tail[i - 1..] == haystack[i..];
        assert tail[i - 1..i - 1 + |needle|] == haystack[i..i + |needle|];
      }
    }
  }

  /** For a one-character needle, inclusion is plain membership. */
  lemma {:induction false} IncludesChar(haystack: string, c: char)
    ensures Includes(haystack, [c]) <==> c in haystack
    decreases |haystack|
  {
    if haystack != [] {
      IncludesChar(haystack[1..], c);
      assert haystack == [haystack[0]] + haystack[1..];
    }
  }

  /** A sample is a night sample exactly when its icon code contains 'n'
      (the provider's icon codes end in 'd' by day and 'n' by night). */
  function IsNightTime(iconCode: string): (r: bool)
    ensures r <==> 'n' in iconCode
  {
    IncludesChar(iconCode, 'n');
    Includes(iconCode, "n")
  }

  lemma NightTimeExamples()
    ensures IsNightTime("10n")
    ensures !IsNightTime("10d")
  {
    assert "10n"[2] == 'n';
  }
}
