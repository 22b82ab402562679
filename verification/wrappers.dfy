/** The nullable values of the widget (`WeatherData | null`, `string | null`). */
module Wrappers {

  datatype Option<+T> = None | Some(value: T)

}
