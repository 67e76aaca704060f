/** JSON values. An object keeps its members in enumeration order; a number keeps what the program can ask of it. */
module Json {
  datatype Number =
    | Whole(n: int)
    | Fraction(text: string)
    | NonFinite

  datatype Json =
    | Null
    | Bool(b: bool)
    | Num(x: Number)
    | Str(s: string)
    | Arr(items: seq<Json>)
    | Obj(members: seq<(string, Json)>)

  /** JSON equality: objects compare by name, whatever the order of their members. */
  ghost predicate Same(a: Json, b: Json)
    decreases a
  {
    match (a, b)
    case (Arr(xs), Arr(ys)) =>
      |xs| == |ys| && forall i | 0 <= i < |xs| :: Same(xs[i], ys[i])
    case (Obj(xs), Obj(ys)) =>
      && |xs| == |ys|
      && forall i | 0 <= i < |xs| :: exists j | 0 <= j < |ys| :: xs[i].0 == ys[j].0 && Same(xs[i].1, ys[j].1)
    case _ => a == b
  }
}
