/**
 * The side-relative conversions of main.js:1125-1144 and the name-to-statistic
 * mapping of the sorting criteria (main.js:720-729, 752-775, 899-910).
 */
module Conversions {
  import opened Wrappers
  import opened JsNumber
  import opened Stats

  /** `convertScore`: "unknown" for NaN, otherwise the value times 100, negated when Black is to move. */
  function ConvertScore(e: Num, turn: Option<string>): (v: Value)
    ensures v.Unknown? <==> e.NaN?
    ensures e.Fin? && turn != Some("b") ==> v == Number(Fin(100.0 * e.r))
    ensures e.Fin? && turn == Some("b") ==> v == Number(Fin(-100.0 * e.r))
    ensures e.Inf? ==> v == Number(Inf(e.negative != (turn == Some("b"))))
  {
    if IsNaN(e) then Unknown
    else
      var score := Mul(e, Fin(100.0));
      Number(if turn == Some("b") then Mul(score, Fin(-1.0)) else score)
  }

  /** `convertEval`: "unknown" for NaN, otherwise the value divided by 100, negated when Black is to move. */
  function ConvertEval(e: Num, turn: Option<string>): (v: Value)
    ensures v.Unknown? <==> e.NaN?
    ensures e.Fin? && turn != Some("b") ==> v == Number(Fin(e.r / 100.0))
    ensures e.Fin? && turn == Some("b") ==> v == Number(Fin(-(e.r / 100.0)))
  {
    if IsNaN(e) then Unknown
    else
      var evaluation := Div(e, Fin(100.0));
      Number(if turn == Some("b") then Mul(evaluation, Fin(-1.0)) else evaluation)
  }

  /** Converting a statistic to a score and back, for the same side to move, gives the statistic. */
  lemma EvalUndoesScore(e: Num, turn: Option<string>)
    requires !e.NaN?
    ensures ConvertEval(ToNum(ConvertScore(e, turn)), turn) == Number(e)
  {
  }

  /** The two sides see opposite scores. */
  lemma ScoreFlipsWithTurn(e: Num)
    requires !e.NaN?
    ensures ToNum(ConvertScore(e, Some("b"))) == Neg(ToNum(ConvertScore(e, Some("w"))))
  {
  }

  /** The names a sorting dropdown offers. */
  datatype Criterion = Tricky | WRtimid | Forceful | Patient | WR | PopWR | NoBias | Popularity

  /** The statistics a criterion can stand for; NotLazy is derived, the others are fields of a move. */
  datatype Stat = Pwe | WinSwing | Lazy | NotLazy | Winrate | SignedWWR | Score | Total

  /** `criteriaMap`: which statistic each criterion stands for. */
  function CriteriaMap(c: Criterion): Stat
  {
    match c
    case Tricky => Pwe
    case WRtimid => WinSwing
    case Forceful => Lazy
    case Patient => NotLazy
    case WR => Winrate
    case PopWR => SignedWWR
    case NoBias => Score
    case Popularity => Total
  }

  /** Different criteria stand for different statistics. */
  lemma CriteriaMapInjective(c: Criterion, d: Criterion)
    ensures CriteriaMap(c) == CriteriaMap(d) ==> c == d
  {
  }

  /** The property name under which a statistic is stored on a move record. */
  function StatName(s: Stat): string
  {
    match s
    case Pwe => "pwe"
    case WinSwing => "winSwing"
    case Lazy => "lazy"
    case NotLazy => "notLazy"
    case Winrate => "winrate"
    case SignedWWR => "signedWWR"
    case Score => "score"
    case Total => "total"
  }

  /** The option value of a criterion in the dropdowns. */
  function CriterionName(c: Criterion): string
  {
    match c
    case Tricky => "tricky"
    case WRtimid => "WRtimid"
    case Forceful => "forceful"
    case Patient => "patient"
    case WR => "WR"
    case PopWR => "popWR"
    case NoBias => "noBias"
    case Popularity => "popularity"
  }

  /** Statistic names and criterion names never coincide, so comparing one with the other is always false. */
  lemma NamesNeverCollide(s: Stat, c: Criterion)
    ensures StatName(s) != CriterionName(c)
  {
    match s {
      case Pwe =>
        assert StatName(s)[0] == 'p';
        assert StatName(s) != "popularity" by { assert |StatName(s)| != |"popularity"|; }
      case _ =>
    }
  }

  /** Statistics stored from the side to move's opponent's perspective and converted by `convertScore`. */
  predicate SideRelative(s: Stat)
  {
    s == Pwe || s == WinSwing || s == Lazy || s == SignedWWR || s == Winrate
  }

  /** `move[stat]` for a stored statistic; `notLazy` is no property of a move record, so it reads `undefined`. */
  function Field(m: MoveStat, s: Stat): Num
  {
    match s
    case Pwe => m.pwe
    case WinSwing => m.winSwing
    case Lazy => m.lazy
    case NotLazy => NaN
    case Winrate => m.winrate
    case SignedWWR => m.signedWWR
    case Score => m.score
    case Total => m.total
  }

  /** The derived "patient" statistic `1.25 * score - 0.25 * convertScore(lazy, turn)`. */
  function NotLazyOf(m: MoveStat, turn: Option<string>): (v: Num)
    ensures m.score.Fin? && m.lazy.Fin? ==>
      v == Fin(1.25 * m.score.r - 0.25 * (if turn == Some("b") then -100.0 else 100.0) * m.lazy.r)
    ensures m.lazy.NaN? || m.score.NaN? ==> v.NaN?
  {
    Sub(Mul(Fin(1.25), m.score), Mul(Fin(0.25), ToNum(ConvertScore(m.lazy, turn))))
  }

  /** The factor `convertScore` applies for the side to move. */
  function SideFactor(turn: Option<string>): real
  {
    if turn == Some("b") then -100.0 else 100.0
  }

  /**
   * The value a move shows on a channel bound to statistic `s`
   * (main.js:752-758, and the comparison values of main.js:901-910).
   * Only a side-relative statistic can show "unknown"; a stored statistic
   * is unknown exactly when its field is NaN; a side-relative one is scaled
   * for the side to move, and score and total are shown as stored.
   */
  function ChannelValue(m: MoveStat, s: Stat, turn: Option<string>): (v: Value)
    ensures v.Unknown? <==> SideRelative(s) && Field(m, s).NaN?
    ensures s != NotLazy ==> (IsNaN(ToNum(v)) <==> IsNaN(Field(m, s)))
    ensures SideRelative(s) && Field(m, s).Fin? ==> v == Number(Fin(SideFactor(turn) * Field(m, s).r))
    ensures SideRelative(s) && Field(m, s).Inf? ==> v == Number(Inf(Field(m, s).negative != (turn == Some("b"))))
    ensures !SideRelative(s) && s != NotLazy ==> v == Number(Field(m, s))
    ensures s == NotLazy && m.score.Fin? && m.lazy.Fin? ==>
      v == Number(Fin(1.25 * m.score.r - 0.25 * SideFactor(turn) * m.lazy.r))
    ensures s == NotLazy && (m.score.NaN? || m.lazy.NaN?) ==> IsNaN(ToNum(v))
  {
    if SideRelative(s) then ConvertScore(Field(m, s), turn)
    else if s == NotLazy then Number(NotLazyOf(m, turn))
    else Number(Field(m, s))
  }

  /**
   * How a channel value depends on the side to move: a stored statistic
   * shows the same value to both sides, and a known side-relative one shows
   * opposite values to White and Black.
   */
  lemma ChannelValueSides(m: MoveStat, s: Stat)
    ensures !SideRelative(s) && s != NotLazy ==> ChannelValue(m, s, Some("w")) == ChannelValue(m, s, Some("b"))
    ensures SideRelative(s) && !Field(m, s).NaN? ==>
      ToNum(ChannelValue(m, s, Some("b"))) == Neg(ToNum(ChannelValue(m, s, Some("w"))))
  {
    if SideRelative(s) && !Field(m, s).NaN? {
      ScoreFlipsWithTurn(Field(m, s));
    }
  }
}
