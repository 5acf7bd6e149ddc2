/**
 * The statistics the explorer receives from its statistics service: a node
 * for a position, with one record per candidate move. Every numeric field may
 * be NaN (absent in the service's JSON, hence `undefined`).
 */
module Stats {
  import opened JsNumber

  /** A string-valued field that may also be `undefined` or `null`. */
  datatype Label = Missing | NullLabel | Text(s: string)

  /** One candidate move of a position (a child record of a node). */
  datatype MoveStat = MoveStat(
    move: string,       // coordinate notation, e.g. "e2e4"
    moveSan: string,    // algebraic notation, e.g. "e4"
    score: Num,
    total: Num,
    winrate: Num,
    pwe: Num,
    lazy: Num,
    signedWWR: Num,
    winSwing: Num)

  /** The statistics of a position; `children` are the records under the keys 0, 1, 2, ... */
  datatype Node = Node(total: Num, score: Num, winrate: Num, opening: Label, children: seq<MoveStat>)

  /** What `convertScore` and friends yield: the string "unknown" or a number. */
  datatype Value = Unknown | Number(n: Num)

  /** The value as an operand of `*`, `-` or `isNaN`: "unknown" converts to NaN. */
  function ToNum(v: Value): (n: Num)
    ensures v.Unknown? ==> n.NaN?
    ensures v.Number? ==> n == v.n
  {
    match v
    case Unknown => NaN
    case Number(n) => n
  }

  /** The move label that marks a failed lookup at the statistics service. */
  const UnknownMove: string := "unkn"
}
