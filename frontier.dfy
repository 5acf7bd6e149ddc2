/**
 * The input `investigateFrontier` builds for the frontier module
 * (main.js:710-841): which candidate moves are considered, the point of
 * coordinates each one gets from the sorting criteria of the side concerned,
 * and the opening-name labels of the queue items that fill the gaps the
 * frontier leaves.
 */
module FrontierInput {
  import opened Wrappers
  import opened JsNumber
  import opened Stats
  import opened Conversions
  import opened Fen
  import opened Filters
  import opened StatsCache
  import opened FetchQueue

  /** The largest score drop from the best move that still counts (`hardGambitFilter`). */
  const HardGambitFilter: real := 125.0

  /** One side's dropdown selections for the three colour channels. */
  datatype Channels = Channels(red: Criterion, green: Criterion, blue: Criterion)

  /** `sortingState`: the player's and the opponent's selections. */
  datatype SortingState = SortingState(player: Channels, opponent: Channels)

  /** What the frontier keeps about a candidate move; `node` is its cached statistics, if any. */
  datatype ElementData = ElementData(move: string, moveSan: string, fen: string, node: Option<Node>)

  datatype Element = Element(point: seq<Value>, data: ElementData)

  datatype ColoredElement = ColoredElement(color: string, data: ElementData)

  /**
   * The frontier module, whose source is not part of this model: the colored
   * elements it starts with, and what they are after `filterElements` runs on
   * the given aggression bounds and elements. The call sits in a `try` whose
   * `catch` only logs, so the function also stands for whatever a throwing
   * call leaves behind.
   */
  datatype FrontierModule = FrontierModule(
    initial: Option<seq<ColoredElement>>,
    filter: (real, real, seq<Element>) -> Option<seq<ColoredElement>>)

  /**
   * The chess rules `fenAfterMove` asks chess.js for: the normal form of a
   * loaded position, and the position after a move in algebraic notation, or
   * None when the move is illegal.
   */
  datatype Rules = Rules(load: string -> string, play: (string, string) -> Option<string>)

  /** `fenAfterMove`: the position after a move; an illegal move and a move that changes nothing both throw. */
  function FenAfterMove(rules: Rules, fen: string, moveSan: string): Result<string, string>
  {
    var pre := rules.load(fen);
    match rules.play(pre, moveSan)
    case None => Err("Failed to make move: " + moveSan)
    case Some(post) => if post == pre then Err("Move did not change board state: " + moveSan) else Ok(post)
  }

  /** Everything the frontier input depends on besides the parent node. */
  datatype Context = Context(
    boardState: string,
    flipped: bool,
    sorting: SortingState,
    minPopularity: real,
    rules: Rules,
    entries: map<string, Entry>,
    ratings: seq<nat>,
    timeControls: seq<string>,
    now: int)

  function Turn(ctx: Context): Option<string>
  {
    TurnFromFen(ctx.boardState)
  }

  /** The criteria used: the opponent's when the side to move is the one at the top of the board. */
  function CriteriaOf(ctx: Context): Channels
  {
    if IsOpponent(ctx.flipped, Turn(ctx)) then ctx.sorting.opponent else ctx.sorting.player
  }

  /**
   * A candidate move is considered when it is at least `minPopularity` of the
   * parent's games and scores less than 125 below the parent's first move.
   */
  predicate Eligible(m: MoveStat, parent: Node, minPopularity: real)
    requires parent.children != []
  {
    Ge(Div(m.total, parent.total), Fin(minPopularity)) &&
    Lt(Sub(parent.children[0].score, m.score), Fin(HardGambitFilter))
  }

  /** With finite statistics and a positive parent total, eligibility is the comparison of the two ratios it reads. */
  lemma EligibleOnFiniteStats(m: MoveStat, parent: Node, minPopularity: real)
    requires parent.children != []
    requires m.total.Fin? && parent.total.Fin? && parent.total.r > 0.0
    requires m.score.Fin? && parent.children[0].score.Fin?
    ensures Eligible(m, parent, minPopularity) <==>
      m.total.r / parent.total.r >= minPopularity && parent.children[0].score.r - m.score.r < HardGambitFilter
  {
  }

  /** A move whose score or total is missing is never considered. */
  lemma MissingStatsNotEligible(m: MoveStat, parent: Node, minPopularity: real)
    requires parent.children != []
    requires m.score.NaN? || m.total.NaN?
    ensures !Eligible(m, parent, minPopularity)
  {
  }

  function B2I(b: bool): nat
  {
    if b then 1 else 0
  }

  /** The number of coordinates pushed after the first four. */
  function Extras(ch: Channels, opponent: bool): nat
  {
    var red, green, blue := CriteriaMap(ch.red), CriteriaMap(ch.green), CriteriaMap(ch.blue);
    B2I(green != SignedWWR) + B2I(green != WinSwing) + B2I(red != Pwe) + B2I(blue != Lazy) +
    B2I(blue != NotLazy) + B2I(red != Winrate && opponent) + B2I(opponent)
  }

  /** `[v]` when the condition holds, otherwise nothing: one conditional `point.push`. */
  function PushIf(c: bool, v: Value): (r: seq<Value>)
    ensures |r| == B2I(c)
    ensures c ==> r == [v]
  {
    if c then [v] else []
  }

  /**
   * The point of a candidate move: the three channel values and the score,
   * then the statistics that no channel shows. The last test compares a
   * statistic name with the criterion name "popularity", which never matches,
   * so the popularity share is pushed on every opponent turn.
   */
  function BuildPoint(m: MoveStat, parent: Node, ch: Channels, turn: Option<string>, opponent: bool): (p: seq<Value>)
    ensures |p| == 4 + Extras(ch, opponent)
    ensures p[..4] == [ChannelValue(m, CriteriaMap(ch.red), turn), ChannelValue(m, CriteriaMap(ch.green), turn),
                       ChannelValue(m, CriteriaMap(ch.blue), turn), Number(m.score)]
    ensures opponent ==> p[|p| - 1] == Number(Div(m.total, parent.total))
  {
    var head := [ChannelValue(m, CriteriaMap(ch.red), turn), ChannelValue(m, CriteriaMap(ch.green), turn),
                 ChannelValue(m, CriteriaMap(ch.blue), turn), Number(m.score)];
    var tail := ExtraValues(m, parent, ch, turn, opponent);
    assert (head + tail)[..4] == head;
    head + tail
  }

  /** The pushes after the first four coordinates, in the order they are made. */
  function ExtraValues(m: MoveStat, parent: Node, ch: Channels, turn: Option<string>, opponent: bool): (t: seq<Value>)
    ensures |t| == Extras(ch, opponent)
    ensures opponent ==> t != [] && t[|t| - 1] == Number(Div(m.total, parent.total))
  {
    var red, green, blue := CriteriaMap(ch.red), CriteriaMap(ch.green), CriteriaMap(ch.blue);
    var popularity := PushIf(StatName(red) != CriterionName(Popularity) && opponent, Number(Div(m.total, parent.total)));
    NamesNeverCollide(red, Popularity);
    PushIf(green != SignedWWR, ConvertScore(m.signedWWR, turn))
    + PushIf(green != WinSwing, ConvertScore(m.winSwing, turn))
    + PushIf(red != Pwe, ConvertScore(m.pwe, turn))
    + PushIf(blue != Lazy, ConvertScore(m.lazy, turn))
    + PushIf(blue != NotLazy, Number(NotLazyOf(m, turn)))
    + PushIf(red != Winrate && opponent, ConvertScore(m.winrate, turn))
    + popularity
  }

  /** A point has between 8 and 11 coordinates on an opponent turn, between 6 and 9 otherwise. */
  lemma PointLength(m: MoveStat, parent: Node, ch: Channels, turn: Option<string>, opponent: bool)
    ensures var n := |BuildPoint(m, parent, ch, turn, opponent)|;
      (opponent ==> 8 <= n <= 11) && (!opponent ==> 6 <= n <= 9)
  {
  }

  /** The element of an eligible move: its point, and its position after the move with that position's cached node. */
  function ElementFor(ctx: Context, parent: Node, m: MoveStat): (r: Result<Element, string>)
  {
    match FenAfterMove(ctx.rules, ctx.boardState, m.moveSan)
    case Err(e) => Err(e)
    case Ok(fen) =>
      var node := Lookup(ctx.entries, CacheKey(fen, ctx.ratings, ctx.timeControls), ctx.now);
      var ch := CriteriaOf(ctx);
      Ok(Element(BuildPoint(m, parent, ch, Turn(ctx), IsOpponent(ctx.flipped, Turn(ctx))), ElementData(m.move, m.moveSan, fen, node)))
  }

  /** `grandpaMoves.length`: how many children carry a non-empty move. */
  function CountMoves(children: seq<MoveStat>): (n: nat)
    ensures n <= |children|
  {
    if children == [] then 0
    else CountMoves(children[..|children| - 1]) + B2I(children[|children| - 1].move != "")
  }

  /** The elements of the first k children, in order; the first move whose position cannot be computed aborts. */
  function Collect(ctx: Context, parent: Node, k: nat): Result<seq<Element>, string>
    requires k <= |parent.children|
  {
    if k == 0 then Ok([])
    else
      match Collect(ctx, parent, k - 1)
      case Err(e) => Err(e)
      case Ok(es) =>
        var m := parent.children[k - 1];
        if !Eligible(m, parent, ctx.minPopularity) then Ok(es)
        else
          match ElementFor(ctx, parent, m)
          case Err(e) => Err(e)
          case Ok(el) => Ok(es + [el])
  }

  /** The eligible moves among the first k children, in order. */
  function EligibleAmong(ctx: Context, parent: Node, k: nat): seq<MoveStat>
    requires k <= |parent.children|
  {
    if k == 0 then []
    else
      var m := parent.children[k - 1];
      EligibleAmong(ctx, parent, k - 1) + (if Eligible(m, parent, ctx.minPopularity) then [m] else [])
  }

  /** When collection succeeds, there is exactly one element per eligible move, in the moves' order. */
  lemma {:induction false} CollectOnePerEligibleMove(ctx: Context, parent: Node, k: nat)
    requires k <= |parent.children|
    ensures Collect(ctx, parent, k).Ok? ==>
      var es, ms := Collect(ctx, parent, k).value, EligibleAmong(ctx, parent, k);
      |es| == |ms| && forall j :: 0 <= j < |es| ==> ElementFor(ctx, parent, ms[j]) == Ok(es[j])
  {
    if k > 0 {
      CollectOnePerEligibleMove(ctx, parent, k - 1);
    }
  }

  /** Collection fails exactly when some eligible move among the first k has no computable position. */
  lemma {:induction false} CollectFailsOnBadMove(ctx: Context, parent: Node, k: nat)
    requires k <= |parent.children|
    ensures Collect(ctx, parent, k).Err? <==>
      exists j :: 0 <= j < k && Eligible(parent.children[j], parent, ctx.minPopularity) &&
        FenAfterMove(ctx.rules, ctx.boardState, parent.children[j].moveSan).Err?
  {
    if k > 0 {
      CollectFailsOnBadMove(ctx, parent, k - 1);
    }
  }

  /** Once collection has failed, later children do not change the outcome. */
  lemma {:induction false} CollectFailureSticks(ctx: Context, parent: Node, i: nat, k: nat)
    requires i <= k <= |parent.children|
    requires Collect(ctx, parent, i).Err?
    ensures Collect(ctx, parent, k) == Collect(ctx, parent, i)
  {
    if k > i {
      CollectFailureSticks(ctx, parent, i, k - 1);
    }
  }

  /** The loop of `investigateFrontier` that asks the frontier to add an element per eligible move. */
  method CollectElements(ctx: Context, parent: Node) returns (r: Result<seq<Element>, string>)
    ensures r == Collect(ctx, parent, CountMoves(parent.children))
  {
    var count := CountMoves(parent.children);
    var elements: seq<Element> := [];
    var i := 0;
    while i < count
      invariant 0 <= i <= count
      invariant Collect(ctx, parent, i) == Ok(elements)
    {
      var m := parent.children[i];
      if Eligible(m, parent, ctx.minPopularity) {
        var el := ElementFor(ctx, parent, m);
        if el.Err? {
          CollectFailureSticks(ctx, parent, i + 1, count);
          return Err(el.error);
        }
        elements := elements + [el.value];
      }
      i := i + 1;
    }
    return Ok(elements);
  }

  /** `frontier.coloredElements` after the filter step, which runs only when there are elements. */
  function ColoredAfterFilter(frontier: FrontierModule, minAggression: real, maxAggression: real, elements: seq<Element>): Option<seq<ColoredElement>>
  {
    if |elements| > 0 then frontier.filter(minAggression, maxAggression, elements) else frontier.initial
  }

  /** The label of a gap-filling queue item: the parent's opening name (empty when absent), a space, the move. */
  function SuggestedName(opening: Label, moveSan: string): (s: string)
    ensures opening.Text? ==> s == opening.s + " " + moveSan
    ensures !opening.Text? ==> s == " " + moveSan
  {
    var base := match opening
      case Missing => ""
      case NullLabel => ""
      case Text(t) => t;
    base + " " + moveSan
  }

  /** The queue items gap-filling pushes: one per colored element without a cached node, in order. */
  function GapItems(colored: seq<ColoredElement>, opening: Label): seq<QueueItem>
  {
    if colored == [] then []
    else
      var last := colored[|colored| - 1];
      GapItems(colored[..|colored| - 1], opening) +
        (if last.data.node.None? then [QueueItem(last.data.fen, 1, Label(SuggestedName(opening, last.data.moveSan)))] else [])
  }

  /** One more element extends the gap items of a prefix by that element's item, if any. */
  lemma GapItemsStep(colored: seq<ColoredElement>, i: nat, opening: Label)
    requires i < |colored|
    ensures GapItems(colored[..i + 1], opening) == GapItems(colored[..i], opening) +
      (if colored[i].data.node.None? then [QueueItem(colored[i].data.fen, 1, Label(SuggestedName(opening, colored[i].data.moveSan)))] else [])
  {
    var longer := colored[..i + 1];
    assert longer[..|longer| - 1] == colored[..i] && longer[|longer| - 1] == colored[i];
  }

  /** The number of colored elements whose node is missing. */
  function Uncached(colored: seq<ColoredElement>): nat
  {
    if colored == [] then 0
    else Uncached(colored[..|colored| - 1]) + B2I(colored[|colored| - 1].data.node.None?)
  }

  /** Gap-filling queues exactly one item per uncached element, for that element's position and label. */
  lemma {:induction false} GapItemsPerUncached(colored: seq<ColoredElement>, opening: Label)
    ensures |GapItems(colored, opening)| == Uncached(colored)
    ensures forall it :: it in GapItems(colored, opening) <==>
      exists e :: e in colored && e.data.node.None? &&
        it == QueueItem(e.data.fen, 1, Label(SuggestedName(opening, e.data.moveSan)))
  {
    if colored != [] {
      var init := colored[..|colored| - 1];
      GapItemsPerUncached(init, opening);
      assert colored == init + [colored[|colored| - 1]];
    }
  }
}
