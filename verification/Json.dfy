/** JSON values as Python loads them. A number is a real, whether it was written as
    an integer or not; `NaN` is the one value Python does not find equal to itself,
    and `Inf` is what a literal too large for a float, like 1e999, loads as. */
module Json {

  datatype Json =
    | Null
    | Bool(b: bool)
    | Num(n: real)
    | NaN
    | Inf(negative: bool)
    | Str(s: string)
    | Arr(items: seq<Json>)
    | Obj(fields: map<string, Json>)

  /** `dict.get`: a missing key reads as None. */
  function Get(fields: map<string, Json>, key: string): Json {
    if key in fields then fields[key] else Null
  }
}
