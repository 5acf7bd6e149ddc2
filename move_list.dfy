/**
 * The comparator that orders the move list under the board
 * (main.js:884-918): moves are compared on the statistic of the criterion
 * last edited for the side to move, larger first, unknown values last, and
 * equal values by number of games.
 */
module MoveList {
  import opened Wrappers
  import opened JsNumber
  import opened Stats
  import opened Conversions
  import opened Fen
  import opened FrontierInput

  /** The three colour channels of a sorting dropdown row. */
  datatype Channel = Red | Green | Blue

  /** `sortingState.lastEdited`: the channel each side edited last. */
  datatype LastEdited = LastEdited(player: Channel, opponent: Channel)

  /** `sortingState[side][channel]` */
  function Selected(ch: Channels, c: Channel): Criterion
  {
    match c
    case Red => ch.red
    case Green => ch.green
    case Blue => ch.blue
  }

  /** The criterion the list is sorted by: the one last edited for the side to move. */
  function ListCriterion(sorting: SortingState, edited: LastEdited, flipped: bool, turn: Option<string>): Criterion
  {
    if IsOpponent(flipped, turn) then Selected(sorting.opponent, edited.opponent)
    else Selected(sorting.player, edited.player)
  }

  /** The two boxes of dropdowns: the player's and the opponent's. */
  datatype Side = Player | Opponent

  /** `sortingState` as the page starts: tricky, WRtimid and forceful for both sides, blue last edited. */
  const DefaultSorting := SortingState(Channels(Tricky, WRtimid, Forceful), Channels(Tricky, WRtimid, Forceful))
  const DefaultEdited := LastEdited(Blue, Blue)

  /** On a fresh page the list is sorted by `forceful`, whoever is to move. */
  lemma DefaultIsForceful(flipped: bool, turn: Option<string>)
    ensures ListCriterion(DefaultSorting, DefaultEdited, flipped, turn) == Forceful
  {
  }

  function SetChannel(ch: Channels, c: Channel, v: Criterion): Channels
  {
    match c
    case Red => ch.(red := v)
    case Green => ch.(green := v)
    case Blue => ch.(blue := v)
  }

  /** `updateSortingState`: store the choice in the row and mark that channel as last edited. */
  function UpdateSorting(sorting: SortingState, edited: LastEdited, side: Side, c: Channel, v: Criterion): (SortingState, LastEdited)
  {
    match side
    case Player => (sorting.(player := SetChannel(sorting.player, c, v)), edited.(player := c))
    case Opponent => (sorting.(opponent := SetChannel(sorting.opponent, c, v)), edited.(opponent := c))
  }

  /**
   * After a choice in one side's box, that side's moves are listed by the
   * chosen criterion and the other side's ordering is untouched.
   */
  lemma UpdateSortingSelects(sorting: SortingState, edited: LastEdited, side: Side, c: Channel, v: Criterion,
                             flipped: bool, turn: Option<string>)
    ensures var (s2, e2) := UpdateSorting(sorting, edited, side, c, v);
      (side == Opponent) == IsOpponent(flipped, turn) ==> ListCriterion(s2, e2, flipped, turn) == v
    ensures var (s2, e2) := UpdateSorting(sorting, edited, side, c, v);
      (side == Opponent) != IsOpponent(flipped, turn) ==> ListCriterion(s2, e2, flipped, turn) == ListCriterion(sorting, edited, flipped, turn)
  {
  }

  /** The value a move is compared on, as an operand of `isNaN`, `===` and `-`. */
  function ComparisonValue(m: MoveStat, c: Criterion, turn: Option<string>): Num
  {
    ToNum(ChannelValue(m, CriteriaMap(c), turn))
  }

  /** The comparator as written: the first `return 1` also covers two unknown values. */
  function CompareAsWritten(a: MoveStat, b: MoveStat, c: Criterion, turn: Option<string>): Num
  {
    var av, bv := ComparisonValue(a, c, turn), ComparisonValue(b, c, turn);
    if IsNaN(av) && IsNaN(bv) then Fin(1.0)
    else if IsNaN(av) then Fin(1.0)
    else if IsNaN(bv) then Fin(-1.0)
    else if StrictEq(av, bv) then Sub(b.total, a.total)
    else if turn == Some("b") && CriterionName(c) == StatName(Winrate) then Sub(av, bv)
    else Sub(bv, av)
  }

  /** The comparator with two unknown values compared equal. */
  function Compare(a: MoveStat, b: MoveStat, c: Criterion, turn: Option<string>): Num
  {
    if IsNaN(ComparisonValue(a, c, turn)) && IsNaN(ComparisonValue(b, c, turn)) then Fin(0.0)
    else CompareAsWritten(a, b, c, turn)
  }

  /**
   * How `Array.prototype.sort` reads a comparator's result: -1 puts the
   * first argument first, 1 puts it last, and 0 (also for NaN) keeps the
   * two in their current order.
   */
  function Sign(r: Num): (s: int)
    ensures -1 <= s <= 1
  {
    if Lt(r, Fin(0.0)) then -1 else if Lt(Fin(0.0), r) then 1 else 0
  }

  /** The sign of `y - x` says which of the two is larger, NaN and infinities included. */
  lemma SignOfDifference(x: Num, y: Num)
    ensures Sign(Sub(y, x)) == -1 <==> Lt(y, x)
    ensures Sign(Sub(y, x)) == 1 <==> Lt(x, y)
  {
    match (x, y)
    case (Fin(p), Fin(q)) =>
      assert Sub(y, x) == Fin(q - p);
    case _ =>
  }

  /** The winrate branch never fires: a criterion name is never a statistic name. */
  lemma WinrateBranchDead(a: MoveStat, b: MoveStat, c: Criterion, turn: Option<string>)
    ensures var av, bv := ComparisonValue(a, c, turn), ComparisonValue(b, c, turn);
      !IsNaN(av) && !IsNaN(bv) && !StrictEq(av, bv) ==> CompareAsWritten(a, b, c, turn) == Sub(bv, av)
  {
    NamesNeverCollide(Winrate, c);
  }

  /** Two moves whose values are both unknown each claim to come after the other. */
  lemma UnknownPairInconsistent(a: MoveStat, b: MoveStat, c: Criterion, turn: Option<string>)
    requires IsNaN(ComparisonValue(a, c, turn)) && IsNaN(ComparisonValue(b, c, turn))
    ensures Sign(CompareAsWritten(a, b, c, turn)) == 1 && Sign(CompareAsWritten(b, a, c, turn)) == 1
  {
  }

  /** A move with a known value comes before one with an unknown value, whatever the order of the arguments. */
  lemma UnknownLast(a: MoveStat, b: MoveStat, c: Criterion, turn: Option<string>)
    requires IsNaN(ComparisonValue(a, c, turn)) && !IsNaN(ComparisonValue(b, c, turn))
    ensures Sign(Compare(a, b, c, turn)) == 1 && Sign(Compare(b, a, c, turn)) == -1
  {
  }

  /** With two different known values, the move with the larger value comes first; Black's winrate included. */
  lemma LargerValueFirst(a: MoveStat, b: MoveStat, c: Criterion, turn: Option<string>)
    requires var av, bv := ComparisonValue(a, c, turn), ComparisonValue(b, c, turn);
      !IsNaN(av) && !IsNaN(bv) && !StrictEq(av, bv)
    ensures var av, bv := ComparisonValue(a, c, turn), ComparisonValue(b, c, turn);
      (Sign(Compare(a, b, c, turn)) == -1 <==> Lt(bv, av)) && (Sign(Compare(a, b, c, turn)) == 1 <==> Lt(av, bv))
  {
    WinrateBranchDead(a, b, c, turn);
    SignOfDifference(ComparisonValue(a, c, turn), ComparisonValue(b, c, turn));
  }

  /** With equal known values, the move played in more games comes first. */
  lemma TieByGames(a: MoveStat, b: MoveStat, c: Criterion, turn: Option<string>)
    requires StrictEq(ComparisonValue(a, c, turn), ComparisonValue(b, c, turn))
    ensures Sign(Compare(a, b, c, turn)) == -1 <==> Lt(b.total, a.total)
    ensures Sign(Compare(a, b, c, turn)) == 1 <==> Lt(a.total, b.total)
  {
    SignOfDifference(a.total, b.total);
  }

  lemma SignNeg(x: Num, y: Num)
    ensures Sign(Sub(y, x)) == -Sign(Sub(x, y))
  {
    SignOfDifference(x, y);
    SignOfDifference(y, x);
  }

  /** The corrected comparator is consistent: swapping the arguments flips its verdict. */
  lemma CompareAntisymmetric(a: MoveStat, b: MoveStat, c: Criterion, turn: Option<string>)
    ensures Sign(Compare(a, b, c, turn)) == -Sign(Compare(b, a, c, turn))
  {
    var av, bv := ComparisonValue(a, c, turn), ComparisonValue(b, c, turn);
    if !IsNaN(av) && !IsNaN(bv) {
      if StrictEq(av, bv) {
        SignNeg(a.total, b.total);
      } else {
        WinrateBranchDead(a, b, c, turn);
        WinrateBranchDead(b, a, c, turn);
        SignNeg(av, bv);
      }
    }
  }
}
