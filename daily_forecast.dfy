/** `getDailyForecast`: reduce a time-ordered list of 3-hourly samples to at
    most five, one per upcoming day.

    The code keeps three time references apart, and so does this model:
    - the day key is the UTC date of the sample (`UtcDay`);
    - "today" and the skip test use the local date (`LocalDay`);
    - the noon window uses the local hour (`LocalHour`).
    The host's clock and time zone become parameters: `today` is the local
    day number of the current date and `offset` is the fixed distance of
    local time from UTC, in seconds. */
module DailyForecast {
  import opened Wrappers
  import opened WeatherTypes

  const SecondsPerDay := 86400
  const SecondsPerHour := 3600

  /** No more than this many days are reported. */
  const MaxDays := 5

  /** Days since the epoch of the UTC date of `dt`: the key
      `toISOString().split('T')[0]` names. The UTC day runs from its
      midnight up to the next one. */
  function UtcDay(dt: int): (d: int)
    ensures d * SecondsPerDay <= dt < (d + 1) * SecondsPerDay
  {
    dt / SecondsPerDay
  }

  /** Days since the epoch of the local date of `dt`: the local day runs
      from its local midnight up to the next one. */
  function LocalDay(dt: int, offset: int): (d: int)
    ensures d * SecondsPerDay <= dt + offset < (d + 1) * SecondsPerDay
    ensures offset == 0 ==> d == UtcDay(dt)
  {
    (dt + offset) / SecondsPerDay
  }

  /** The local hour of `dt`, as `getHours` gives it: the number of whole
      hours since local midnight. */
  function LocalHour(dt: int, offset: int): (h: int)
    ensures 0 <= h < 24
    ensures h * SecondsPerHour <= dt + offset - LocalDay(dt, offset) * SecondsPerDay < (h + 1) * SecondsPerHour
  {
    ((dt + offset) % SecondsPerDay) / SecondsPerHour
  }

  /** `date.setHours(0, 0, 0, 0) === today`: the sample lies between local
      midnight of today and the next local midnight. */
  predicate IsToday(w: WeatherData, today: int, offset: int)
    ensures IsToday(w, today, offset)
        <==> today * SecondsPerDay <= w.dt + offset < (today + 1) * SecondsPerDay
  {
    LocalDay(w.dt, offset) == today
  }

  /** Local hour between 12 and 15 inclusive: the sample lies between local
      12:00 and local 16:00, excluded. */
  predicate InNoonWindow(w: WeatherData, offset: int)
    ensures InNoonWindow(w, offset)
        <==> 12 * SecondsPerHour <= w.dt + offset - LocalDay(w.dt, offset) * SecondsPerDay < 16 * SecondsPerHour
  {
    12 <= LocalHour(w.dt, offset) <= 15
  }

  // ---------------------------------------------------------------------
  // The two list operations the code performs for a new day.

  /** `forecastList.filter(...)`: the samples whose UTC day is `day`, in
      input order. */
  function DayForecasts(list: seq<WeatherData>, day: int): (r: seq<WeatherData>)
    ensures |r| <= |list|
    ensures forall w :: w in r <==> w in list && UtcDay(w.dt) == day
  {
    if list == [] then []
    else if UtcDay(list[0].dt) == day then [list[0]] + DayForecasts(list[1..], day)
    else DayForecasts(list[1..], day)
  }

  /** `dayForecasts.find(...)`: the first sample in the noon window. */
  function FindNoon(list: seq<WeatherData>, offset: int): (r: Option<WeatherData>)
    ensures r.Some? ==> r.value in list && InNoonWindow(r.value, offset)
    ensures r.Some? ==>
      exists j :: (0 <= j < |list| && list[j] == r.value
                   && forall i :: 0 <= i < j ==> !InNoonWindow(list[i], offset))
    ensures r.None? <==> forall w :: w in list ==> !InNoonWindow(w, offset)
  {
    if list == [] then None
    else if InNoonWindow(list[0], offset) then Some(list[0])
    else
      var r := FindNoon(list[1..], offset);
      assert r.Some? ==>
        exists j :: (0 <= j < |list| && list[j] == r.value
                     && forall i :: 0 <= i < j ==> !InNoonWindow(list[i], offset)) by {
        if r.Some? {
          var j :| 0 <= j < |list[1..]| && list[1..][j] == r.value
            && forall i :: 0 <= i < j ==> !InNoonWindow(list[1..][i], offset);
          assert list[j + 1] == r.value;
          assert forall i :: 0 <= i < j + 1 ==> !InNoonWindow(list[i], offset) by {
            forall i | 0 <= i < j + 1 ensures !InNoonWindow(list[i], offset) {
              if i > 0 { assert list[i] == list[1..][i - 1]; }
            }
          }
        }
      }
      r
  }

  // ---------------------------------------------------------------------
  // An index-based reference definition of the result.

  /** The first index of `s` at which `p` holds, or `|s|` if there is none. */
  function FirstIndex<T>(s: seq<T>, p: T -> bool): (j: nat)
    ensures j <= |s|
    ensures j < |s| ==> p(s[j])
    ensures forall i :: 0 <= i < j ==> !p(s[i])
  {
    if s == [] then 0
    else if p(s[0]) then 0
    else 1 + FirstIndex(s[1..], p)
  }

  predicate OnDay(w: WeatherData, day: int) {
    UtcDay(w.dt) == day
  }

  predicate NoonOnDay(w: WeatherData, day: int, offset: int) {
    OnDay(w, day) && InNoonWindow(w, offset)
  }

  /** A sample that can start `day`: it has that UTC day and its local date
      is not today. */
  predicate StartsDay(w: WeatherData, day: int, today: int, offset: int) {
    OnDay(w, day) && !IsToday(w, today, offset)
  }

  function OnDayTest(day: int): WeatherData -> bool {
    w => OnDay(w, day)
  }

  function NoonOnDayTest(day: int, offset: int): WeatherData -> bool {
    w => NoonOnDay(w, day, offset)
  }

  function StartsDayTest(day: int, today: int, offset: int): WeatherData -> bool {
    w => StartsDay(w, day, today, offset)
  }

  /** The sample reported for `day`: the first of that UTC day, anywhere in
      the input, that lies in the noon window, or else the first of that UTC
      day; none when the input has no sample of that day. */
  function Representative(list: seq<WeatherData>, day: int, offset: int): (r: Option<WeatherData>)
    ensures r.Some? <==> exists i :: 0 <= i < |list| && OnDay(list[i], day)
    ensures r.Some? ==> r.value in list && OnDay(r.value, day)
  {
    var n := FirstIndex(list, NoonOnDayTest(day, offset));
    var f := FirstIndex(list, OnDayTest(day));
    if n < |list| then Some(list[n])
    else if f < |list| then Some(list[f])
    else
      assert forall i :: 0 <= i < |list| ==> !OnDayTest(day)(list[i]);
      None
  }

  /** The UTC days reached by a sample whose local date is not today, each
      once, in the order they are first reached. */
  function StartedDays(list: seq<WeatherData>, today: int, offset: int): seq<int>
  {
    if list == [] then []
    else
      var prev := StartedDays(list[..|list| - 1], today, offset);
      var w := list[|list| - 1];
      if IsToday(w, today, offset) || UtcDay(w.dt) in prev then prev
      else prev + [UtcDay(w.dt)]
  }

  /** What `getDailyForecast` returns: the representatives of the first five
      started days. */
  function Expected(list: seq<WeatherData>, today: int, offset: int): (r: seq<WeatherData>)
    ensures |r| <= MaxDays
  {
    var days := StartedDays(list, today, offset);
    var n := if |days| < MaxDays then |days| else MaxDays;
    seq(n, k requires 0 <= k < n =>
      StartedDaysSound(list, today, offset, days[k]);
      Representative(list, days[k], offset).value)
  }

  // ---------------------------------------------------------------------
  // Properties of the started days.

  predicate Distinct(days: seq<int>) {
    forall a, b :: 0 <= a < b < |days| ==> days[a] != days[b]
  }

  /** Each day of `days` is reached by a non-today sample before the next. */
  predicate InStartOrder(list: seq<WeatherData>, days: seq<int>, today: int, offset: int) {
    forall a, b :: 0 <= a < b < |days| ==>
      FirstIndex(list, StartsDayTest(days[a], today, offset))
        < FirstIndex(list, StartsDayTest(days[b], today, offset))
  }

  /** A day is started exactly when some sample of that UTC day is not from
      today. */
  lemma {:induction false} StartedDaysMembership(list: seq<WeatherData>, today: int, offset: int, day: int)
    ensures day in StartedDays(list, today, offset)
        <==> exists i :: 0 <= i < |list| && StartsDay(list[i], day, today, offset)
    decreases |list|
  {
    if list != [] {
      var prefix := list[..|list| - 1];
      StartedDaysMembership(prefix, today, offset, day);
      if day in StartedDays(prefix, today, offset) {
        var i :| 0 <= i < |prefix| && StartsDay(prefix[i], day, today, offset);
        assert list[i] == prefix[i];
      }
    }
  }

  lemma StartedDaysSound(list: seq<WeatherData>, today: int, offset: int, day: int)
    requires day in StartedDays(list, today, offset)
    ensures exists i :: 0 <= i < |list| && OnDay(list[i], day)
  {
    StartedDaysMembership(list, today, offset, day);
  }

  /** No day is started twice. */
  lemma {:induction false} StartedDaysDistinct(list: seq<WeatherData>, today: int, offset: int)
    ensures Distinct(StartedDays(list, today, offset))
    decreases |list|
  {
    if list != [] {
      var prefix := list[..|list| - 1];
      StartedDaysDistinct(prefix, today, offset);
      var prev := StartedDays(prefix, today, offset);
      var days := StartedDays(list, today, offset);
      forall a, b | 0 <= a < b < |days| ensures days[a] != days[b] {
        assert days[a] == prev[a];
        if b == |prev| {
          assert days[b] !in prev;
          assert prev[a] in prev;
        } else {
          assert days[b] == prev[b];
        }
      }
    }
  }

  /** Days are started in the order of their first non-today sample. */
  lemma {:induction false} StartedDaysOrdered(list: seq<WeatherData>, today: int, offset: int)
    ensures InStartOrder(list, StartedDays(list, today, offset), today, offset)
    decreases |list|
  {
    if list != [] {
      var prefix := list[..|list| - 1];
      var prev := StartedDays(prefix, today, offset);
      var days := StartedDays(list, today, offset);
      StartedDaysOrdered(prefix, today, offset);
      forall a, b | 0 <= a < b < |days|
        ensures FirstIndex(list, StartsDayTest(days[a], today, offset))
              < FirstIndex(list, StartsDayTest(days[b], today, offset))
      {
        assert days[a] == prev[a];
        if b < |prev| {
          assert days[b] == prev[b];
          assert FirstIndex(prefix, StartsDayTest(days[a], today, offset))
               < FirstIndex(prefix, StartsDayTest(days[b], today, offset));
          FirstIndexAgrees(list, |prefix|, today, offset, days[a]);
          FirstIndexAgrees(list, |prefix|, today, offset, days[b]);
        } else {
          assert days[a] in prev;
          FirstIndexInPrefix(list, |prefix|, today, offset, days[a]);
          FirstIndexNotInPrefix(list, |prefix|, today, offset, days[b]);
        }
      }
    }
  }

  /** A day started within the first `n` samples has its first starting
      sample there. */
  lemma FirstIndexInPrefix(list: seq<WeatherData>, n: nat, today: int, offset: int, day: int)
    requires n <= |list|
    requires day in StartedDays(list[..n], today, offset)
    ensures FirstIndex(list, StartsDayTest(day, today, offset)) < n
  {
    var prefix := list[..n];
    StartedDaysMembership(prefix, today, offset, day);
    var i :| 0 <= i < n && StartsDay(prefix[i], day, today, offset);
    assert StartsDayTest(day, today, offset)(list[i]);
  }

  /** A day not started within the first `n` samples has no starting sample
      there. */
  lemma FirstIndexNotInPrefix(list: seq<WeatherData>, n: nat, today: int, offset: int, day: int)
    requires n <= |list|
    requires day !in StartedDays(list[..n], today, offset)
    ensures FirstIndex(list, StartsDayTest(day, today, offset)) >= n
  {
    var prefix := list[..n];
    StartedDaysMembership(prefix, today, offset, day);
    var j := FirstIndex(list, StartsDayTest(day, today, offset));
  }

  /** For a day started within the first `n` samples, its first starting
      sample is the same in the prefix as in the whole list. */
  lemma FirstIndexAgrees(list: seq<WeatherData>, n: nat, today: int, offset: int, day: int)
    requires n <= |list|
    requires day in StartedDays(list[..n], today, offset)
    ensures FirstIndex(list, StartsDayTest(day, today, offset))
         == FirstIndex(list[..n], StartsDayTest(day, today, offset))
  {
    var prefix := list[..n];
    var p := StartsDayTest(day, today, offset);
    FirstIndexInPrefix(list, n, today, offset, day);
    var j, k := FirstIndex(list, p), FirstIndex(prefix, p);
    assert prefix[j] == list[j];
  }

  // ---------------------------------------------------------------------
  // The filter-then-find the code performs picks the reference sample.

  /** The first noon-window sample of `dayForecasts` is the first sample of
      that day in the noon window in the whole input. */
  lemma {:induction false} FindNoonMatchesReference(list: seq<WeatherData>, day: int, offset: int)
    ensures var n := FirstIndex(list, NoonOnDayTest(day, offset));
      FindNoon(DayForecasts(list, day), offset) == if n < |list| then Some(list[n]) else None
  {
    if list != [] {
      var tail := list[1..];
      FindNoonMatchesReference(tail, day, offset);
      var p := NoonOnDayTest(day, offset);
      if !p(list[0]) {
        assert FirstIndex(list, p) == 1 + FirstIndex(tail, p);
        if FirstIndex(tail, p) < |tail| {
          assert list[1 + FirstIndex(tail, p)] == tail[FirstIndex(tail, p)];
        }
        if OnDay(list[0], day) {
          assert DayForecasts(list, day) == [list[0]] + DayForecasts(tail, day);
        }
      }
    }
  }

  /** The first sample of `dayForecasts` is the first sample of that day. */
  lemma {:induction false} FirstOfDayMatchesReference(list: seq<WeatherData>, day: int)
    ensures var f := FirstIndex(list, OnDayTest(day));
      DayForecasts(list, day) != [] ==> f < |list| && DayForecasts(list, day)[0] == list[f]
  {
    if list != [] && !OnDay(list[0], day) {
      var tail := list[1..];
      FirstOfDayMatchesReference(tail, day);
      var p := OnDayTest(day);
      assert FirstIndex(list, p) == 1 + FirstIndex(tail, p);
      if FirstIndex(tail, p) < |tail| {
        assert list[1 + FirstIndex(tail, p)] == tail[FirstIndex(tail, p)];
      }
    }
  }

  /** The representative of a day present in the input is the sample the
      code's filter-then-find yields for it. */
  lemma RepresentativeIsSelected(list: seq<WeatherData>, day: int, offset: int)
    requires exists i :: 0 <= i < |list| && OnDay(list[i], day)
    ensures var dayForecasts := DayForecasts(list, day);
      match FindNoon(dayForecasts, offset)
      case Some(noon) => Representative(list, day, offset) == Some(noon)
      case None => dayForecasts != [] && Representative(list, day, offset) == Some(dayForecasts[0])
  {
    FindNoonMatchesReference(list, day, offset);
    FirstOfDayMatchesReference(list, day);
    var i :| 0 <= i < |list| && OnDay(list[i], day);
    assert list[i] in DayForecasts(list, day);
  }

  // ---------------------------------------------------------------------
  // The aggregator itself.

  /** Walk the samples in order; skip those whose local date is today; for
      each new UTC day, while fewer than five are kept, keep its first
      noon-window sample or else its first sample. */
  method GetDailyForecast(forecastList: seq<WeatherData>, today: int, offset: int)
    returns (dailyData: seq<WeatherData>)
    ensures dailyData == Expected(forecastList, today, offset)
    ensures |dailyData| <= MaxDays
    ensures forall k :: 0 <= k < |dailyData| ==> dailyData[k] in forecastList
    ensures forall a, b :: 0 <= a < b < |dailyData| ==> UtcDay(dailyData[a].dt) != UtcDay(dailyData[b].dt)
  {
    dailyData := [];
    var days: set<int> := {};
    ghost var started: seq<int> := [];
    for i := 0 to |forecastList|
      invariant Progress(forecastList, today, offset, i, started, dailyData, days)
    {
      var item := forecastList[i];
      var day := UtcDay(item.dt);
      if IsToday(item, today, offset) {
        SkipStep(forecastList, today, offset, i, started, dailyData, days);
      } else if day !in days && |dailyData| < MaxDays {
        var dayForecasts := DayForecasts(forecastList, day);
        var noonForecast := FindNoon(dayForecasts, offset);
        RepresentativeIsSelected(forecastList, day, offset);
        if noonForecast.Some? {
          PushStep(forecastList, today, offset, i, started, dailyData, days, noonForecast.value);
          dailyData := dailyData + [noonForecast.value];
          days := days + {day};
          started := started + [day];
        } else if |dayForecasts| > 0 {
          PushStep(forecastList, today, offset, i, started, dailyData, days, dayForecasts[0]);
          dailyData := dailyData + [dayForecasts[0]];
          days := days + {day};
          started := started + [day];
        }
      } else {
        SkipStep(forecastList, today, offset, i, started, dailyData, days);
        if day !in started {
          started := started + [day];
        }
      }
    }
    ProgressDone(forecastList, today, offset, started, dailyData, days);
    ExpectedFromInput(forecastList, today, offset);
    ExpectedDistinctDays(forecastList, today, offset);
  }

  /** The loop invariant of `GetDailyForecast` after `i` samples: `started`
      holds the started days so far, the result holds the representatives of
      the first five of them, and while fewer than five are kept `days` holds
      exactly the started days. */
  ghost predicate Progress(list: seq<WeatherData>, today: int, offset: int, i: nat,
                           started: seq<int>, dailyData: seq<WeatherData>, days: set<int>)
  {
    && i <= |list|
    && started == StartedDays(list[..i], today, offset)
    && |dailyData| == (if |started| < MaxDays then |started| else MaxDays)
    && (forall k :: 0 <= k < |dailyData| ==> Representative(list, started[k], offset) == Some(dailyData[k]))
    && (|started| < MaxDays ==> forall d :: d in days <==> d in started)
  }

  /** One more sample extends the started days by its UTC day exactly when
      it is not from today and its day is new. */
  lemma StartedDaysStep(list: seq<WeatherData>, i: nat, today: int, offset: int)
    requires i < |list|
    ensures var prev := StartedDays(list[..i], today, offset);
      StartedDays(list[..i + 1], today, offset)
        == if IsToday(list[i], today, offset) || UtcDay(list[i].dt) in prev then prev
           else prev + [UtcDay(list[i].dt)]
  {
    assert list[..i + 1][..i] == list[..i];
  }

  /** A sample that adds nothing to the result keeps the invariant: it is
      from today, its day is already kept, or five days are kept. */
  lemma SkipStep(list: seq<WeatherData>, today: int, offset: int, i: nat,
                 started: seq<int>, dailyData: seq<WeatherData>, days: set<int>)
    requires i < |list| && Progress(list, today, offset, i, started, dailyData, days)
    requires IsToday(list[i], today, offset) || UtcDay(list[i].dt) in days || |dailyData| >= MaxDays
    ensures var day := UtcDay(list[i].dt);
      Progress(list, today, offset, i + 1,
               if IsToday(list[i], today, offset) || day in started then started else started + [day],
               dailyData, days)
  {
    StartedDaysStep(list, i, today, offset);
  }

  /** Keeping the representative of a new day keeps the invariant. */
  lemma PushStep(list: seq<WeatherData>, today: int, offset: int, i: nat,
                 started: seq<int>, dailyData: seq<WeatherData>, days: set<int>, w: WeatherData)
    requires i < |list| && Progress(list, today, offset, i, started, dailyData, days)
    requires !IsToday(list[i], today, offset) && UtcDay(list[i].dt) !in days && |dailyData| < MaxDays
    requires Representative(list, UtcDay(list[i].dt), offset) == Some(w)
    ensures var day := UtcDay(list[i].dt);
      Progress(list, today, offset, i + 1, started + [day], dailyData + [w], days + {day})
  {
    StartedDaysStep(list, i, today, offset);
  }

  /** After the last sample the result is `Expected`. */
  lemma ProgressDone(list: seq<WeatherData>, today: int, offset: int,
                     started: seq<int>, dailyData: seq<WeatherData>, days: set<int>)
    requires Progress(list, today, offset, |list|, started, dailyData, days)
    ensures dailyData == Expected(list, today, offset)
  {
    assert list[..|list|] == list;
  }

  // ---------------------------------------------------------------------
  // What the result promises.

  /** The k-th reported sample is the representative of the k-th started
      day. */
  lemma ExpectedAt(list: seq<WeatherData>, today: int, offset: int, k: nat)
    requires k < |Expected(list, today, offset)|
    ensures var day := StartedDays(list, today, offset)[k];
      Representative(list, day, offset) == Some(Expected(list, today, offset)[k])
      && OnDay(Expected(list, today, offset)[k], day)
  {
    var days := StartedDays(list, today, offset);
    StartedDaysSound(list, today, offset, days[k]);
  }

  /** Every reported sample is one of the input samples. */
  lemma ExpectedFromInput(list: seq<WeatherData>, today: int, offset: int)
    ensures forall k :: 0 <= k < |Expected(list, today, offset)| ==> Expected(list, today, offset)[k] in list
  {
    forall k | 0 <= k < |Expected(list, today, offset)|
      ensures Expected(list, today, offset)[k] in list
    {
      ExpectedAt(list, today, offset, k);
    }
  }

  /** No two reported samples share a UTC day, and the k-th one has the k-th
      started day. */
  lemma ExpectedDistinctDays(list: seq<WeatherData>, today: int, offset: int)
    ensures var r := Expected(list, today, offset);
      forall k :: 0 <= k < |r| ==> UtcDay(r[k].dt) == StartedDays(list, today, offset)[k]
    ensures var r := Expected(list, today, offset);
      forall a, b :: 0 <= a < b < |r| ==> UtcDay(r[a].dt) != UtcDay(r[b].dt)
  {
    StartedDaysDistinct(list, today, offset);
    var r := Expected(list, today, offset);
    forall k | 0 <= k < |r| ensures UtcDay(r[k].dt) == StartedDays(list, today, offset)[k] {
      ExpectedAt(list, today, offset, k);
    }
  }

  /** The reported sample of a day is the first sample of that UTC day in
      the noon window when there is one, and the first sample of that UTC day
      when there is none. */
  lemma ExpectedPrefersNoon(list: seq<WeatherData>, today: int, offset: int, k: nat)
    requires k < |Expected(list, today, offset)|
    ensures var w := Expected(list, today, offset)[k];
      (exists j :: 0 <= j < |list| && NoonOnDay(list[j], UtcDay(w.dt), offset)) ==>
        exists j :: 0 <= j < |list| && w == list[j] && NoonOnDay(list[j], UtcDay(w.dt), offset)
          && forall i :: 0 <= i < j ==> !NoonOnDay(list[i], UtcDay(w.dt), offset)
    ensures var w := Expected(list, today, offset)[k];
      (forall j :: 0 <= j < |list| ==> !NoonOnDay(list[j], UtcDay(w.dt), offset)) ==>
        exists j :: 0 <= j < |list| && w == list[j] && OnDay(list[j], UtcDay(w.dt))
          && forall i :: 0 <= i < j ==> !OnDay(list[i], UtcDay(w.dt))
  {
    ExpectedAt(list, today, offset, k);
    var w := Expected(list, today, offset)[k];
    var day := UtcDay(w.dt);
    var n := FirstIndex(list, NoonOnDayTest(day, offset));
    var f := FirstIndex(list, OnDayTest(day));
    if exists j :: 0 <= j < |list| && NoonOnDay(list[j], day, offset) {
      var j :| 0 <= j < |list| && NoonOnDay(list[j], day, offset);
      assert NoonOnDayTest(day, offset)(list[j]);
      assert n < |list| && w == list[n];
      assert forall i :: 0 <= i < n ==> !NoonOnDayTest(day, offset)(list[i]);
    } else {
      assert f < |list| && w == list[f];
      assert forall i :: 0 <= i < f ==> !OnDayTest(day)(list[i]);
    }
  }

  /** Every reported day is reached by a sample whose local date is not
      today. */
  lemma ExpectedDaysStarted(list: seq<WeatherData>, today: int, offset: int)
    ensures var r := Expected(list, today, offset);
      forall k :: 0 <= k < |r| ==>
        exists i :: 0 <= i < |list| && StartsDay(list[i], UtcDay(r[k].dt), today, offset)
  {
    var r := Expected(list, today, offset);
    ExpectedDistinctDays(list, today, offset);
    forall k | 0 <= k < |r|
      ensures exists i :: 0 <= i < |list| && StartsDay(list[i], UtcDay(r[k].dt), today, offset)
    {
      StartedDaysMembership(list, today, offset, UtcDay(r[k].dt));
    }
  }

  /** The result is empty exactly when every sample's local date is today;
      in particular the empty input gives the empty result. */
  lemma ExpectedEmpty(list: seq<WeatherData>, today: int, offset: int)
    ensures Expected(list, today, offset) == []
        <==> forall i :: 0 <= i < |list| ==> IsToday(list[i], today, offset)
  {
    var days := StartedDays(list, today, offset);
    if exists i :: 0 <= i < |list| && !IsToday(list[i], today, offset) {
      var i :| 0 <= i < |list| && !IsToday(list[i], today, offset);
      StartedDaysMembership(list, today, offset, UtcDay(list[i].dt));
      assert StartsDay(list[i], UtcDay(list[i].dt), today, offset);
      assert |Expected(list, today, offset)| > 0;
    } else if days != [] {
      StartedDaysMembership(list, today, offset, days[0]);
      assert false;
    }
  }

  /** Fewer than five results means every upcoming day was reported. */
  lemma ExpectedComplete(list: seq<WeatherData>, today: int, offset: int)
    ensures var r := Expected(list, today, offset);
      |r| < MaxDays ==>
        forall i :: 0 <= i < |list| && !IsToday(list[i], today, offset) ==>
          exists k :: 0 <= k < |r| && UtcDay(r[k].dt) == UtcDay(list[i].dt)
  {
    var r := Expected(list, today, offset);
    var days := StartedDays(list, today, offset);
    ExpectedDistinctDays(list, today, offset);
    if |r| < MaxDays {
      forall i | 0 <= i < |list| && !IsToday(list[i], today, offset)
        ensures exists k :: 0 <= k < |r| && UtcDay(r[k].dt) == UtcDay(list[i].dt)
      {
        var day := UtcDay(list[i].dt);
        StartedDaysMembership(list, today, offset, day);
        assert StartsDay(list[i], day, today, offset);
        var k :| 0 <= k < |days| && days[k] == day;
        assert UtcDay(r[k].dt) == day;
      }
    }
  }

  /** A non-today sample of `first` comes before every non-today sample of
      `second`. */
  predicate ReachedBefore(list: seq<WeatherData>, first: int, second: int, today: int, offset: int) {
    exists i :: 0 <= i < |list| && StartsDay(list[i], first, today, offset)
      && forall j :: 0 <= j <= i ==> !StartsDay(list[j], second, today, offset)
  }

  /** The results follow the order in which their days are first reached by
      a non-today sample. */
  lemma ExpectedInStartOrder(list: seq<WeatherData>, today: int, offset: int)
    ensures var r := Expected(list, today, offset);
      forall a, b :: 0 <= a < b < |r| ==>
        ReachedBefore(list, UtcDay(r[a].dt), UtcDay(r[b].dt), today, offset)
  {
    var r := Expected(list, today, offset);
    var days := StartedDays(list, today, offset);
    ExpectedDistinctDays(list, today, offset);
    StartedDaysOrdered(list, today, offset);
    forall a, b | 0 <= a < b < |r|
      ensures ReachedBefore(list, UtcDay(r[a].dt), UtcDay(r[b].dt), today, offset)
    {
      var pa, pb := StartsDayTest(days[a], today, offset), StartsDayTest(days[b], today, offset);
      var i := FirstIndex(list, pa);
      assert i < FirstIndex(list, pb);
      assert pa(list[i]);
      assert forall j :: 0 <= j <= i ==> !pb(list[j]);
    }
  }

  /** A sample carrying only a timestamp. */
  function SampleAt(dt: int): WeatherData {
    WeatherData("", "", 0.0, 0.0, 0.0, 0.0, "", "", "", dt)
  }

  /** The skip test uses the local date but the day key and the noon search
      use the UTC date over the whole input, so a sample whose local date is
      today can be reported. Ten hours east of UTC, on local day 0: the
      02:00 UTC sample (local noon of today) is skipped as today's, the
      15:00 UTC sample (local 01:00 tomorrow) starts UTC day 0, and the noon
      search over UTC day 0 picks the skipped sample. */
  lemma TodaysSampleCanBeReported()
    ensures var early, late := SampleAt(2 * 3600), SampleAt(15 * 3600);
      IsToday(early, 0, 10 * 3600)
      && Expected([early, late], 0, 10 * 3600) == [early]
  {
    var early, late := SampleAt(2 * 3600), SampleAt(15 * 3600);
    var list := [early, late];
    assert list[..1] == [early];
    assert StartedDays([early], 0, 10 * 3600) == [];
    assert StartedDays(list, 0, 10 * 3600) == [0];
    assert NoonOnDayTest(0, 10 * 3600)(list[0]);
    assert FirstIndex(list, NoonOnDayTest(0, 10 * 3600)) == 0;
  }
}
