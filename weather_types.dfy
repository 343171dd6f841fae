/** The records of the weather service and the two projections that turn a
    provider response into them (the success paths of `getCurrentWeather`
    and `getForecast`). Network access, URL building and the response-status
    check are not part of this module: a response arrives here already
    decoded into the `Raw*` shapes below. */
module WeatherTypes {
  import opened Wrappers

  /** A normalised sample: conditions at one instant for one city. The
      numeric payload is carried but never interpreted; `dt` is Unix time in
      seconds. */
  datatype WeatherData = WeatherData(
    city: string,
    country: string,
    temperature: real,
    feelsLike: real,
    humidity: real,
    windSpeed: real,
    description: string,
    icon: string,
    main: string,
    dt: int)

  /** The city the provider resolved the query to. */
  datatype City = City(name: string, country: string)

  /** The forecast bundle: normalised samples plus the resolved city. */
  datatype ForecastData = ForecastData(list: seq<WeatherData>, city: City)

  // The provider's JSON, as far as the projections read it.
  datatype RawMain = RawMain(temp: real, feelsLike: real, humidity: real)
  datatype RawWind = RawWind(speed: real)
  datatype RawCondition = RawCondition(description: string, icon: string, main: string)

  /** One entry of the forecast response's `list`. */
  datatype RawItem = RawItem(main: RawMain, wind: RawWind, weather: seq<RawCondition>, dt: int)

  /** The forecast response: a flat `list` and one `city` header. */
  datatype RawForecast = RawForecast(list: seq<RawItem>, city: City)

  /** The current-conditions response. */
  datatype RawCurrent = RawCurrent(
    name: string, country: string, main: RawMain, wind: RawWind,
    weather: seq<RawCondition>, dt: int)

  /** Reading `weather[0]` of an empty condition array fails (a property
      access on `undefined`); the failure propagates to the caller. */
  datatype ProjectionError = MissingCondition

  /** The sample built from one forecast entry: measurements, time and first
      condition from the entry, city and country from the response header. */
  function ProjectItem(item: RawItem, city: City): (w: WeatherData)
    requires item.weather != []
    ensures w.city == city.name && w.country == city.country
    ensures w.dt == item.dt
    ensures w.temperature == item.main.temp && w.feelsLike == item.main.feelsLike
    ensures w.humidity == item.main.humidity && w.windSpeed == item.wind.speed
    ensures w.description == item.weather[0].description
    ensures w.icon == item.weather[0].icon && w.main == item.weather[0].main
  {
    WeatherData(
      city.name, city.country,
      item.main.temp, item.main.feelsLike, item.main.humidity, item.wind.speed,
      item.weather[0].description, item.weather[0].icon, item.weather[0].main,
      item.dt)
  }

  /** `list.map(...)`: project every entry in order, failing as soon as an
      entry has no condition. */
  function ProjectList(items: seq<RawItem>, city: City): (r: Result<seq<WeatherData>, ProjectionError>)
    ensures r.Failure? <==> exists i :: 0 <= i < |items| && items[i].weather == []
    ensures r.Success? ==> |r.value| == |items|
    ensures r.Success? ==> forall i :: 0 <= i < |items| ==>
      items[i].weather != [] && r.value[i] == ProjectItem(items[i], city)
  {
    if items == [] then Success([])
    else if items[0].weather == [] then Failure(MissingCondition)
    else
      match ProjectList(items[1..], city)
      case Failure(e) => Failure(e)
      case Success(rest) => Success([ProjectItem(items[0], city)] + rest)
  }

  /** The success path of `getForecast`: every entry projected and stamped
      with the header's city and country, and the header copied. */
  function ProcessForecast(data: RawForecast): (r: Result<ForecastData, ProjectionError>)
    ensures r.Failure? <==> exists i :: 0 <= i < |data.list| && data.list[i].weather == []
    ensures r.Success? ==> r.value.city == data.city && |r.value.list| == |data.list|
    ensures r.Success? ==> forall i :: 0 <= i < |data.list| ==>
      r.value.list[i].city == data.city.name && r.value.list[i].country == data.city.country &&
      r.value.list[i].dt == data.list[i].dt &&
      r.value.list[i].icon == data.list[i].weather[0].icon &&
      r.value.list[i].main == data.list[i].weather[0].main
    ensures r.Success? ==> forall i :: 0 <= i < |data.list| ==>
      data.list[i].weather != [] && r.value.list[i] == ProjectItem(data.list[i], data.city)
  {
    match ProjectList(data.list, data.city)
    case Failure(e) => Failure(e)
    case Success(samples) => Success(ForecastData(samples, City(data.city.name, data.city.country)))
  }

  /** The success path of `getCurrentWeather`: name and country from the
      response itself, first condition, measurements and time. */
  function ProjectCurrent(data: RawCurrent): (r: Result<WeatherData, ProjectionError>)
    ensures r.Failure? <==> data.weather == []
    ensures r.Success? ==>
      r.value.city == data.name && r.value.country == data.country && r.value.dt == data.dt
    ensures r.Success? ==>
      r.value.temperature == data.main.temp && r.value.feelsLike == data.main.feelsLike &&
      r.value.humidity == data.main.humidity && r.value.windSpeed == data.wind.speed
    ensures r.Success? ==>
      r.value.description == data.weather[0].description &&
      r.value.icon == data.weather[0].icon && r.value.main == data.weather[0].main
  {
    if data.weather == [] then Failure(MissingCondition)
    else Success(WeatherData(
      data.name, data.country,
      data.main.temp, data.main.feelsLike, data.main.humidity, data.wind.speed,
      data.weather[0].description, data.weather[0].icon, data.weather[0].main,
      data.dt))
  }
}
