/** JSON values as the programs hold them in memory. */
module Json {
  /**
   * `Text(v, n)` is a string that is JSON text of `v`: the one that is printed for `v` when `n` is 0, otherwise one
   * with other spaces, escapes or order of keys. `String(s)` is any string that is not JSON text.
   */
  datatype Json =
    | Null
    | Bool(b: bool)
    | Number(n: int)
    | String(s: string)
    | Text(value: Json, spelling: nat)
    | List(items: seq<Json>)
    | Object(fields: map<string, Json>)
}
