/**
 * The explorer's sequential control: the fetch queue and its two flags, the
 * lookup decision of `establishNode` (main.js:419-471), the LIFO drain of
 * `processQueue` (main.js:474-516), the board refresh `onBoardUpdate`
 * (main.js:520-597) with the gap-filling of `investigateFrontier`
 * (main.js:710-841), and the filter buttons (main.js:284-311).
 *
 * The statistics service is an oracle: `responses` lists what successive
 * requests return, None standing for a failed request (`null`). The clock is
 * the parameter `now` of each operation.
 */
module Explorer {
  import opened Wrappers
  import opened JsNumber
  import opened Stats
  import opened Filters
  import opened StatsCache
  import opened FetchQueue
  import opened FrontierInput

  /** What `establishNode` comes to. */
  datatype Established =
    | NoFen                                         // an empty position: it returns `undefined`
    | Done(response: Option<Node>, madeAPIcall: bool)
    | Starved                                       // every request failed; the source retries for ever
    | Threw                                         // `saveToGraph` read the first child of a node without children

  /** What one run of `processQueue` comes to. */
  datatype Drain =
    | Skipped   // busy, a refresh in progress, or nothing queued
    | Drained   // the queue was emptied; `onBoardUpdate` follows
    | Stuck     // a request never succeeded; `isProcessing` stays set

  /** What one run of `onBoardUpdate` comes to. */
  datatype Refreshed =
    | Busy                                        // another refresh holds the flag
    | Pending                                     // no usable statistics yet; the position is queued
    | Shown(colored: Option<seq<ColoredElement>>) // the frontier was computed (None: the frontier module left it undefined)
    | Failed                                      // an exception left the refresh through its `finally`
    | Waiting                                     // the position's request never succeeded; the flag stays set

  /** A cached node is used only when its total is truthy. */
  predicate Usable(hit: Option<Node>)
  {
    hit.Some? && Truthy(hit.value.total)
  }

  /** The position of the first successful response, if any. */
  function FirstAnswer(rs: seq<Option<Node>>): (i: Option<nat>)
    ensures i.Some? ==> i.value < |rs| && rs[i.value].Some? && forall j :: 0 <= j < i.value ==> rs[j].None?
    ensures i.None? ==> forall j :: 0 <= j < |rs| ==> rs[j].None?
  {
    if rs == [] then None
    else if rs[0].Some? then Some(0)
    else match FirstAnswer(rs[1..])
      case None => None
      case Some(k) => Some(k + 1)
  }

  /** The node `establishNode` goes on with, whether the service was asked, and how many responses that took. */
  datatype Answer = Answer(node: Node, asked: bool, consumed: nat)

  function Answered(hit: Option<Node>, rs: seq<Option<Node>>): (a: Option<Answer>)
    ensures a.Some? && a.value.asked ==> 0 < a.value.consumed <= |rs| && rs[a.value.consumed - 1] == Some(a.value.node)
    ensures a.Some? && !a.value.asked ==> a.value.consumed == 0 && hit == Some(a.value.node)
    ensures a.Some? ==> (a.value.asked <==> !Usable(hit))
    ensures Usable(hit) ==> a.Some?
  {
    if Usable(hit) then Some(Answer(hit.value, false, 0))
    else match FirstAnswer(rs)
      case None => None
      case Some(i) => Some(Answer(rs[i].value, true, i + 1))
  }

  /** A blank or undefined opening name is replaced by the backup label before saving. */
  function Backfilled(n: Node, backup: Label): Node
  {
    if n.opening == Missing || n.opening == Text("") then n.(opening := backup) else n
  }

  /** `saveToGraph` refuses a node whose first child is the marker of a failed lookup. */
  predicate Refusable(node: Node)
  {
    node.children != [] && node.children[0].move == UnknownMove
  }

  /** What establishNode returns for the node it reached. */
  function SettleResult(n: Node, asked: bool, backup: Label): Established
  {
    if IsNaN(n.total) then Done(Some(n), asked)
    else if n.children == [] then Threw
    else Done(Some(Backfilled(n, backup)), asked)
  }

  /**
   * The cache after establishNode's post-processing of the node it reached:
   * a NaN total is not saved; otherwise the node, its opening backfilled,
   * goes through `saveToGraph`.
   */
  function AfterSettle(v: CacheView<string>, key: string, n: Node, backup: Label, now: int, sizeOf: seq<Record<string>> -> nat): (r: CacheView<string>)
    requires WellFormed(v.state) && sizeOf([]) <= MaxBytes
    ensures WellFormed(r.state)
    ensures v.counter < SaveEvery ==> r.counter < SaveEvery
  {
    if IsNaN(n.total) then v else AfterPut(v, key, Backfilled(n, backup), now, sizeOf)
  }

  /** A node with a NaN total leaves the cache as it was, whatever entry the key had. */
  lemma NaNTotalNeverSaved(v: CacheView<string>, key: string, n: Node, backup: Label, now: int, sizeOf: seq<Record<string>> -> nat)
    requires WellFormed(v.state) && sizeOf([]) <= MaxBytes
    requires IsNaN(n.total)
    ensures AfterSettle(v, key, n, backup, now, sizeOf) == v
  {
  }

  /**
   * A saved node (one that is not the last before a persist, so that no
   * pruning follows) is stored under its key with the current time, its
   * opening backfilled when it was blank or undefined, and every other key
   * keeps its entry.
   */
  lemma SavedNodeStored(v: CacheView<string>, key: string, n: Node, backup: Label, now: int, sizeOf: seq<Record<string>> -> nat)
    requires WellFormed(v.state) && sizeOf([]) <= MaxBytes
    requires !IsNaN(n.total) && n.children != [] && !Refusable(n) && v.counter + 1 < SaveEvery
    ensures var after := AfterSettle(v, key, n, backup, now, sizeOf).state.entries;
      && key in after && after[key].timestamp == now
      && after[key].node.opening == (if n.opening == Missing || n.opening == Text("") then backup else n.opening)
      && after[key].node.children == n.children && after[key].node.total == n.total
      && forall k :: k in v.state.entries && k != key ==> k in after && after[k] == v.state.entries[k]
  {
  }

  /** The marker of a failed lookup is never saved. */
  lemma RefusedNodeNotSaved(v: CacheView<string>, key: string, n: Node, backup: Label, now: int, sizeOf: seq<Record<string>> -> nat)
    requires WellFormed(v.state) && sizeOf([]) <= MaxBytes
    requires Refusable(n)
    ensures AfterSettle(v, key, n, backup, now, sizeOf) == v
  {
  }

  /** What the drain of the queue reads and changes: the cache, the pending responses and the request count. */
  datatype Progress = Progress(view: CacheView<string>, responses: seq<Option<Node>>, calls: nat)

  /**
   * One item of processQueue: a depth-0 item whose cached node is usable is
   * skipped; otherwise the position is established with an `undefined`
   * backup label, and a request made counts once establishNode returned.
   * None: every request failed.
   */
  function ItemStep(p: Progress, ratings: seq<nat>, timeControls: seq<string>, item: QueueItem, now: int,
                    sizeOf: seq<Record<string>> -> nat): (r: Option<Progress>)
    requires WellFormed(p.view.state) && sizeOf([]) <= MaxBytes
    ensures r.Some? ==> WellFormed(r.value.view.state)
    ensures r.Some? && p.view.counter < SaveEvery ==> r.value.view.counter < SaveEvery
  {
    var key := CacheKey(item.fen, ratings, timeControls);
    var hit := Lookup(p.view.state.entries, key, now);
    if item.depth <= 0 && Usable(hit) then Some(p)
    else if item.fen == "" then Some(p)
    else match Answered(hit, p.responses)
      case None => None
      case Some(a) =>
        var counted := a.asked && SettleResult(a.node, a.asked, Missing).Done?;
        Some(Progress(AfterSettle(p.view, key, a.node, Missing, now, sizeOf), p.responses[a.consumed..],
                      p.calls + if counted then 1 else 0))
  }

  /** The items in the order given, each on what the previous ones left; None once one of them starved. */
  function Run(p: Progress, ratings: seq<nat>, timeControls: seq<string>, items: seq<QueueItem>, now: int,
               sizeOf: seq<Record<string>> -> nat): (r: Option<Progress>)
    requires WellFormed(p.view.state) && sizeOf([]) <= MaxBytes
    ensures r.Some? ==> WellFormed(r.value.view.state)
    ensures r.Some? && p.view.counter < SaveEvery ==> r.value.view.counter < SaveEvery
  {
    if items == [] then Some(p)
    else match Run(p, ratings, timeControls, items[..|items| - 1], now, sizeOf)
      case None => None
      case Some(q) => ItemStep(q, ratings, timeControls, items[|items| - 1], now, sizeOf)
  }

  /** One more item extends a run by that item's step. */
  lemma RunStep(p: Progress, ratings: seq<nat>, timeControls: seq<string>, items: seq<QueueItem>, item: QueueItem, now: int,
                sizeOf: seq<Record<string>> -> nat, q: Progress)
    requires WellFormed(p.view.state) && sizeOf([]) <= MaxBytes
    requires Run(p, ratings, timeControls, items, now, sizeOf) == Some(q)
    ensures Run(p, ratings, timeControls, items + [item], now, sizeOf) == ItemStep(q, ratings, timeControls, item, now, sizeOf)
  {
    assert (items + [item])[..|items|] == items;
  }

  /** A depth-0 item that is already usably cached changes nothing. */
  lemma CachedItemSkipped(p: Progress, ratings: seq<nat>, timeControls: seq<string>, item: QueueItem, now: int,
                          sizeOf: seq<Record<string>> -> nat)
    requires WellFormed(p.view.state) && sizeOf([]) <= MaxBytes
    requires item.depth <= 0 && Usable(Lookup(p.view.state.entries, CacheKey(item.fen, ratings, timeControls), now))
    ensures ItemStep(p, ratings, timeControls, item, now, sizeOf) == Some(p)
  {
  }

  /**
   * An item starves exactly when it needs the service and no response
   * succeeds; otherwise it leaves a suffix of the responses and counts at
   * most one request, and only one that was asked.
   */
  lemma ItemStepBounds(p: Progress, ratings: seq<nat>, timeControls: seq<string>, item: QueueItem, now: int,
                       sizeOf: seq<Record<string>> -> nat)
    requires WellFormed(p.view.state) && sizeOf([]) <= MaxBytes
    ensures var key := CacheKey(item.fen, ratings, timeControls);
      var hit := Lookup(p.view.state.entries, key, now);
      ItemStep(p, ratings, timeControls, item, now, sizeOf).None? <==>
        !(item.depth <= 0 && Usable(hit)) && item.fen != "" && Answered(hit, p.responses).None?
    ensures var r := ItemStep(p, ratings, timeControls, item, now, sizeOf);
      r.Some? ==>
        && p.calls <= r.value.calls <= p.calls + 1
        && Suffix(r.value.responses, p.responses)
        && (r.value.calls > p.calls ==> |r.value.responses| < |p.responses|)
  {
    var key := CacheKey(item.fen, ratings, timeControls);
    var hit := Lookup(p.view.state.entries, key, now);
    var r := ItemStep(p, ratings, timeControls, item, now, sizeOf);
    if r.Some? && !(item.depth <= 0 && Usable(hit)) && item.fen != "" {
      var a := Answered(hit, p.responses).value;
      assert r.value.responses == p.responses[a.consumed..];
    }
  }

  /** `t` is what is left of `s` once some of its first elements are taken. */
  ghost predicate Suffix<T>(t: seq<T>, s: seq<T>)
  {
    |t| <= |s| && t == s[|s| - |t|..]
  }

  /**
   * A drain that got through its items counted at most one request per item,
   * and each counted request consumed a response.
   */
  lemma {:induction false} RunBounds(p: Progress, ratings: seq<nat>, timeControls: seq<string>, items: seq<QueueItem>, now: int,
                                     sizeOf: seq<Record<string>> -> nat)
    requires WellFormed(p.view.state) && sizeOf([]) <= MaxBytes
    ensures var r := Run(p, ratings, timeControls, items, now, sizeOf);
      r.Some? ==>
        && p.calls <= r.value.calls <= p.calls + |items|
        && Suffix(r.value.responses, p.responses)
        && r.value.calls - p.calls <= |p.responses| - |r.value.responses|
  {
    if items != [] && Run(p, ratings, timeControls, items, now, sizeOf).Some? {
      var init := items[..|items| - 1];
      RunBounds(p, ratings, timeControls, init, now, sizeOf);
      var q := Run(p, ratings, timeControls, init, now, sizeOf).value;
      ItemStepBounds(q, ratings, timeControls, items[|items| - 1], now, sizeOf);
      var r := ItemStep(q, ratings, timeControls, items[|items| - 1], now, sizeOf).value;
      SuffixTransitive(r.responses, q.responses, p.responses);
    }
  }

  /** What is left of what is left is what is left. */
  lemma SuffixTransitive<T>(a: seq<T>, b: seq<T>, c: seq<T>)
    requires Suffix(a, b) && Suffix(b, c)
    ensures Suffix(a, c)
  {
    assert c[|c| - |b|..][|b| - |a|..] == c[|c| - |a|..];
  }

  /**
   * The backup label a queued item carries is never read: a node saved for
   * it whose opening is blank or undefined is stored with an undefined one,
   * whatever the item's label.
   */
  lemma QueuedLabelIgnored(p: Progress, ratings: seq<nat>, timeControls: seq<string>, item: QueueItem, now: int,
                           sizeOf: seq<Record<string>> -> nat)
    requires WellFormed(p.view.state) && sizeOf([]) <= MaxBytes
    requires item.depth > 0 && item.fen != "" && p.view.counter + 1 < SaveEvery
    requires var hit := Lookup(p.view.state.entries, CacheKey(item.fen, ratings, timeControls), now);
      var a := Answered(hit, p.responses);
      a.Some? && !IsNaN(a.value.node.total) && a.value.node.children != [] && !Refusable(a.value.node)
      && a.value.node.opening in {Missing, Text("")}
    ensures var key := CacheKey(item.fen, ratings, timeControls);
      var r := ItemStep(p, ratings, timeControls, item, now, sizeOf);
      r.Some? && key in r.value.view.state.entries && r.value.view.state.entries[key].node.opening == Missing
  {
    var key := CacheKey(item.fen, ratings, timeControls);
    var a := Answered(Lookup(p.view.state.entries, key, now), p.responses).value;
    SavedNodeStored(p.view, key, a.node, Missing, now, sizeOf);
  }

  /** `minPopularity`, left at its default by every call of investigateFrontier. */
  const MinPopularity: real := 0.004

  /** The frontier input, colored by the frontier module; an exception of `fenAfterMove` surfaces as Err. */
  function Investigated(ctx: Context, frontier: FrontierModule, grandpa: Node, minAggression: real, maxAggression: real): Result<Option<seq<ColoredElement>>, string>
  {
    match Collect(ctx, grandpa, CountMoves(grandpa.children))
    case Err(e) => Err(e)
    case Ok(elements) => Ok(ColoredAfterFilter(frontier, minAggression, maxAggression, elements))
  }

  /** The items investigateFrontier queues as a side effect: the gap-filling items of a computed frontier. */
  function Queued(r: Result<Option<seq<ColoredElement>>, string>, opening: Label): seq<QueueItem>
  {
    if r.Ok? && r.value.Some? then GapItems(r.value.value, opening) else []
  }

  /**
   * investigateFrontier as written: the filter that collects the node's
   * moves (main.js:733) reads `.move` of every value of the node, and a
   * `null` opening name is such a value, so the call throws before any move
   * is looked at.
   */
  function InvestigatedAsWritten(ctx: Context, frontier: FrontierModule, grandpa: Node, minAggression: real, maxAggression: real): Result<Option<seq<ColoredElement>>, string>
  {
    if grandpa.opening == NullLabel then Err("Cannot read properties of null (reading 'move')")
    else Investigated(ctx, frontier, grandpa, minAggression, maxAggression)
  }

  /** As written, a node whose opening name is `null` queues nothing, so the `null` test of the label code never fires. */
  lemma NullOpeningQueuesNothing(ctx: Context, frontier: FrontierModule, grandpa: Node, minAggression: real, maxAggression: real)
    requires grandpa.opening == NullLabel
    ensures InvestigatedAsWritten(ctx, frontier, grandpa, minAggression, maxAggression).Err?
    ensures Queued(InvestigatedAsWritten(ctx, frontier, grandpa, minAggression, maxAggression), grandpa.opening) == []
  {
  }

  /**
   * With the filter skipping `null`, a node whose opening name is `null` has
   * its uncached moves queued, one each, labelled with a space and the move.
   */
  lemma NullOpeningGapFilled(ctx: Context, frontier: FrontierModule, grandpa: Node, minAggression: real, maxAggression: real,
                             colored: seq<ColoredElement>)
    requires grandpa.opening == NullLabel
    requires Investigated(ctx, frontier, grandpa, minAggression, maxAggression) == Ok(Some(colored))
    ensures var q := Queued(Investigated(ctx, frontier, grandpa, minAggression, maxAggression), grandpa.opening);
      && |q| == Uncached(colored)
      && forall it :: it in q <==>
           exists e :: e in colored && e.data.node.None? && it == QueueItem(e.data.fen, 1, Label(" " + e.data.moveSan))
  {
    GapItemsPerUncached(colored, grandpa.opening);
  }

  /**
   * The items the pre-calculation queues: for each colored element with a
   * node, what investigating that node's frontier queues. An element without
   * a node makes its call throw (`Object.values(null)`) inside a promise
   * nobody awaits, which queues nothing.
   */
  function Precalculated(base: Context, frontier: FrontierModule, colored: seq<ColoredElement>): seq<QueueItem>
  {
    if colored == [] then []
    else Precalculated(base, frontier, colored[..|colored| - 1]) + PrecalcItems(base, frontier, colored[|colored| - 1])
  }

  function PrecalcItems(base: Context, frontier: FrontierModule, e: ColoredElement): seq<QueueItem>
  {
    if e.data.node.None? then []
    else Queued(Investigated(base.(boardState := e.data.fen), frontier, e.data.node.value, 0.01, 0.99), e.data.node.value.opening)
  }

  /** One more element extends the pre-calculated items of a prefix by that element's items. */
  lemma PrecalculatedStep(base: Context, frontier: FrontierModule, colored: seq<ColoredElement>, i: nat,
                          q0: seq<QueueItem>, before: seq<QueueItem>, after: seq<QueueItem>)
    requires i < |colored|
    requires before == q0 + Precalculated(base, frontier, colored[..i])
    requires after == before + PrecalcItems(base, frontier, colored[i])
    ensures after == q0 + Precalculated(base, frontier, colored[..i + 1])
  {
    var longer := colored[..i + 1];
    assert longer[..|longer| - 1] == colored[..i] && longer[|longer| - 1] == colored[i];
    assert Precalculated(base, frontier, longer) == Precalculated(base, frontier, colored[..i]) + PrecalcItems(base, frontier, colored[i]);
  }

  /** An element without a node contributes nothing to the pre-calculation. */
  lemma {:induction false} PrecalculatedSkipsUncached(base: Context, frontier: FrontierModule, colored: seq<ColoredElement>)
    requires forall e :: e in colored ==> e.data.node.None?
    ensures Precalculated(base, frontier, colored) == []
  {
    if colored != [] {
      var init := colored[..|colored| - 1];
      assert forall e :: e in init ==> e in colored;
      PrecalculatedSkipsUncached(base, frontier, init);
      assert colored[|colored| - 1] in colored;
    }
  }

  /** What the explorer's operations read but only the filter buttons and the board change. */
  datatype Settings = Settings(
    ratings: seq<nat>,          // `selectedRatings`
    timeControls: seq<string>,  // `selectedTimeControls`
    boardState: string,         // `game.fen()`
    flipped: bool,              // the board shows black at the bottom
    sorting: SortingState)

  /** investigateFrontier's view of the page for the given settings and cache entries. */
  function ContextOf(s: Settings, rules: Rules, entries: map<string, Entry>, now: int): Context
  {
    Context(s.boardState, s.flipped, s.sorting, MinPopularity, rules, entries, s.ratings, s.timeControls, now)
  }

  /**
   * The end of onBoardUpdate once the position's node is known: its
   * frontier is investigated (queueing the gaps) and, when the queue is then
   * empty, the frontier's positions are pre-calculated; without colored
   * elements that loop throws. The outcome and the queue left.
   */
  function FrontierOutcome(ctx: Context, frontier: FrontierModule, node: Node, q: seq<QueueItem>): (Refreshed, seq<QueueItem>)
  {
    var res := Investigated(ctx, frontier, node, 0.01, 0.99);
    var q1 := q + Queued(res, node.opening);
    if res.Err? then (Failed, q1)
    else if q1 != [] then (Shown(res.value), q1)
    else if res.value.None? then (Failed, q1)
    else (Shown(res.value), Precalculated(ctx, frontier, res.value.value))
  }

  /** What a refresh of the board reads and changes besides its flag. */
  datatype World = World(queue: seq<QueueItem>, view: CacheView<string>, responses: seq<Option<Node>>, calls: nat)

  /**
   * establishNode on the queue, the cache, the responses and the request
   * count: an empty position changes nothing; a miss with `cacheOnly` queues
   * the position; otherwise the cached node or the first successful response
   * is settled, and when none succeeds the responses are used up.
   */
  function EstablishOutcome(ratings: seq<nat>, timeControls: seq<string>, fen: string, backup: Label, priority: real,
                            cacheOnly: bool, w: World, now: int, sizeOf: seq<Record<string>> -> nat): (Established, World)
    requires WellFormed(w.view.state) && sizeOf([]) <= MaxBytes
  {
    var key := CacheKey(fen, ratings, timeControls);
    var hit := Lookup(w.view.state.entries, key, now);
    if fen == "" then (NoFen, w)
    else if hit.None? && cacheOnly then (Done(None, true), w.(queue := w.queue + [QueueItem(fen, 1, Level(priority))]))
    else match Answered(hit, w.responses)
      case None => (Starved, w.(responses := []))
      case Some(a) =>
        (SettleResult(a.node, a.asked, backup),
         w.(view := AfterSettle(w.view, key, a.node, backup, now, sizeOf), responses := w.responses[a.consumed..]))
  }

  /**
   * establishNode's cases: a queued position is the only change to the
   * queue; a miss with `cacheOnly` asks nothing and leaves the cache; a
   * starved request leaves the cache; a found node is settled, and the
   * responses up to its own are gone. A usable cached node asks nothing,
   * and a cached node with a falsy total is fetched, even with `cacheOnly`.
   */
  lemma EstablishOutcomeCases(ratings: seq<nat>, timeControls: seq<string>, fen: string, backup: Label, priority: real,
                              cacheOnly: bool, w: World, now: int, sizeOf: seq<Record<string>> -> nat)
    requires WellFormed(w.view.state) && sizeOf([]) <= MaxBytes
    ensures var out := EstablishOutcome(ratings, timeControls, fen, backup, priority, cacheOnly, w, now, sizeOf);
      var r := out.0;
      var key := CacheKey(fen, ratings, timeControls);
      var hit := Lookup(w.view.state.entries, key, now);
      var a := Answered(hit, w.responses);
      && out.1.calls == w.calls
      && (fen == "" ==> out == (NoFen, w))
      && (r.Done? && r.response.None? ==> out.1.queue == w.queue + [QueueItem(fen, 1, Level(priority))])
      && (!(r.Done? && r.response.None?) ==> out.1.queue == w.queue)
      && (r == Starved ==> out.1.responses == [])
      && (fen != "" && hit.None? && cacheOnly ==> r == Done(None, true) && out.1.responses == w.responses && out.1.view == w.view)
      && (fen != "" && !(hit.None? && cacheOnly) && a.None? ==> r == Starved && out.1.view == w.view)
      && (fen != "" && !(hit.None? && cacheOnly) && a.Some? ==>
            && out.1.responses == w.responses[a.value.consumed..]
            && r == SettleResult(a.value.node, a.value.asked, backup)
            && out.1.view == AfterSettle(w.view, key, a.value.node, backup, now, sizeOf))
      && (fen != "" && Usable(hit) ==> a.Some? && !a.value.asked && out.1.responses == w.responses)
      && (fen != "" && hit.Some? && !Usable(hit) ==> r == Starved || (a.Some? && a.value.asked))
  {
  }

  /**
   * The body of onBoardUpdate's `try`: the current position is established
   * from the cache with a blank backup label and a request made is counted.
   * A miss leaves the position queued; a starved request waits for ever; an
   * empty position or a node without children fails; otherwise the node's
   * frontier is shown.
   */
  function PositionOutcome(s: Settings, rules: Rules, frontier: FrontierModule, w: World, now: int,
                           sizeOf: seq<Record<string>> -> nat): (Refreshed, World)
    requires WellFormed(w.view.state) && sizeOf([]) <= MaxBytes
  {
    var est := EstablishOutcome(s.ratings, s.timeControls, s.boardState, Text(""), 1.0, true, w, now, sizeOf);
    Presented(s, rules, frontier, est.0, est.1, now)
  }

  /** What onBoardUpdate makes of establishNode's result `est`, given what establishNode left. */
  function Presented(s: Settings, rules: Rules, frontier: FrontierModule, est: Established, w1: World, now: int): (Refreshed, World)
  {
    match est
    case Starved => (Waiting, w1)
    case Done(response, asked) =>
      var w2 := w1.(calls := w1.calls + if asked then 1 else 0);
      if response.None? then (Pending, w2)
      else
        var shown := FrontierOutcome(ContextOf(s, rules, w2.view.state.entries, now), frontier, response.value, w2.queue);
        (shown.0, w2.(queue := shown.1))
    case _ => (Failed, w1)
  }

  /** onBoardUpdate when no other refresh holds the flag: the newest tenth of the queue goes, then the position is shown. */
  function RefreshOutcome(s: Settings, rules: Rules, frontier: FrontierModule, w: World, now: int,
                          sizeOf: seq<Record<string>> -> nat): (Refreshed, World)
    requires WellFormed(w.view.state) && sizeOf([]) <= MaxBytes
  {
    PositionOutcome(s, rules, frontier, w.(queue := w.queue[..KeptOnRefresh(|w.queue|)]), now, sizeOf)
  }

  /**
   * A refresh is never busy; it queues the position (and nothing else) when
   * the cache misses; a starved refresh has used up the responses.
   */
  lemma RefreshOutcomeCases(s: Settings, rules: Rules, frontier: FrontierModule, w: World, now: int,
                            sizeOf: seq<Record<string>> -> nat)
    requires WellFormed(w.view.state) && sizeOf([]) <= MaxBytes
    ensures var out := RefreshOutcome(s, rules, frontier, w, now, sizeOf);
      && out.0 != Busy
      && (out.0 == Pending ==> out.1.queue == w.queue[..KeptOnRefresh(|w.queue|)] + [QueueItem(s.boardState, 1, Level(1.0))])
      && (out.0 == Waiting ==> out.1.responses == [])
  {
    var q0 := w.queue[..KeptOnRefresh(|w.queue|)];
    var w0 := w.(queue := q0);
    var est := EstablishOutcome(s.ratings, s.timeControls, s.boardState, Text(""), 1.0, true, w0, now, sizeOf);
    EstablishOutcomeCases(s.ratings, s.timeControls, s.boardState, Text(""), 1.0, true, w0, now, sizeOf);
    PresentedCases(s, rules, frontier, est.0, est.1, now);
    assert RefreshOutcome(s, rules, frontier, w, now, sizeOf) == Presented(s, rules, frontier, est.0, est.1, now);
  }

  /** Presenting is never busy; it is pending only for a queued miss and waits only for a starved request, each changing nothing. */
  lemma PresentedCases(s: Settings, rules: Rules, frontier: FrontierModule, est: Established, w1: World, now: int)
    ensures var out := Presented(s, rules, frontier, est, w1, now);
      && out.0 != Busy
      && (out.0 == Pending ==> est.Done? && est.response.None? && out.1.queue == w1.queue)
      && (out.0 == Waiting ==> est == Starved && out.1 == w1)
  {
    if est.Done? && est.response.Some? {
      var ctx := ContextOf(s, rules, w1.view.state.entries, now);
      var shown := FrontierOutcome(ctx, frontier, est.response.value, w1.queue);
      assert shown.0.Failed? || shown.0.Shown?;
    }
  }

  /**
   * A refresh never drops more than the newest tenth of the queue: what
   * survives the truncation stays at the front, and the request count grows
   * by at most one.
   */
  lemma RefreshKeepsPrefix(s: Settings, rules: Rules, frontier: FrontierModule, w: World, now: int,
                           sizeOf: seq<Record<string>> -> nat)
    requires WellFormed(w.view.state) && sizeOf([]) <= MaxBytes
    ensures var out := RefreshOutcome(s, rules, frontier, w, now, sizeOf);
      && w.queue[..KeptOnRefresh(|w.queue|)] <= out.1.queue
      && w.calls <= out.1.calls <= w.calls + 1
  {
    var q0 := w.queue[..KeptOnRefresh(|w.queue|)];
    var w0 := w.(queue := q0);
    var est := EstablishOutcome(s.ratings, s.timeControls, s.boardState, Text(""), 1.0, true, w0, now, sizeOf);
    EstablishOutcomeCases(s.ratings, s.timeControls, s.boardState, Text(""), 1.0, true, w0, now, sizeOf);
    PresentedKeepsPrefix(s, rules, frontier, est.0, est.1, now);
    var out := Presented(s, rules, frontier, est.0, est.1, now);
    assert RefreshOutcome(s, rules, frontier, w, now, sizeOf) == out;
    assert q0 <= est.1.queue <= out.1.queue;
  }

  /** Showing the position keeps what establishNode left queued at the front and counts at most one request. */
  lemma PresentedKeepsPrefix(s: Settings, rules: Rules, frontier: FrontierModule, est: Established, w1: World, now: int)
    ensures var out := Presented(s, rules, frontier, est, w1, now);
      w1.queue <= out.1.queue && w1.calls <= out.1.calls <= w1.calls + 1
  {
    if est.Done? && est.response.Some? {
      var ctx := ContextOf(s, rules, w1.view.state.entries, now);
      var res := Investigated(ctx, frontier, est.response.value, 0.01, 0.99);
      assert w1.queue <= w1.queue + Queued(res, est.response.value.opening);
    }
  }

  /**
   * A shown frontier is the investigated frontier of the position's node,
   * taken from the cache or the first successful response, with the cache as
   * establishNode left it.
   */
  lemma ShownIsInvestigated(s: Settings, rules: Rules, frontier: FrontierModule, w: World, now: int,
                            sizeOf: seq<Record<string>> -> nat)
    requires WellFormed(w.view.state) && sizeOf([]) <= MaxBytes
    requires RefreshOutcome(s, rules, frontier, w, now, sizeOf).0.Shown?
    ensures var key := CacheKey(s.boardState, s.ratings, s.timeControls);
      var a := Answered(Lookup(w.view.state.entries, key, now), w.responses);
      var out := RefreshOutcome(s, rules, frontier, w, now, sizeOf);
      && a.Some?
      && var n := if IsNaN(a.value.node.total) then a.value.node else Backfilled(a.value.node, Text(""));
      && out.1.view == AfterSettle(w.view, key, a.value.node, Text(""), now, sizeOf)
      && Investigated(ContextOf(s, rules, out.1.view.state.entries, now), frontier, n, 0.01, 0.99) == Ok(out.0.colored)
  {
    var w0 := w.(queue := w.queue[..KeptOnRefresh(|w.queue|)]);
    var est := EstablishOutcome(s.ratings, s.timeControls, s.boardState, Text(""), 1.0, true, w0, now, sizeOf);
    EstablishOutcomeCases(s.ratings, s.timeControls, s.boardState, Text(""), 1.0, true, w0, now, sizeOf);
    assert est.0.Done? && est.0.response.Some?;
  }

  class Explorer {
    const cache: StatsCache<string>
    /** `fenQueue` */
    var queue: seq<QueueItem>
    var isProcessing: bool
    var isUpdatingBoard: bool
    var apiCalls: nat
    var settings: Settings
    /** What the next requests to the statistics service return. */
    var responses: seq<Option<Node>>
    const rules: Rules
    const frontier: FrontierModule

    ghost predicate Valid()
      reads this, cache
    {
      cache.Valid()
    }

    /** Every field but the queue is as it was. */
    twostate predicate OthersKept()
      reads this
    {
      responses == old(responses) && apiCalls == old(apiCalls)
      && isProcessing == old(isProcessing) && isUpdatingBoard == old(isUpdatingBoard)
      && settings == old(settings)
    }

    /** The cache key of a position under the current filters. */
    function Key(fen: string): string
      reads this
    {
      CacheKey(fen, settings.ratings, settings.timeControls)
    }

    /** What investigateFrontier reads besides its arguments. */
    function ContextFor(fen: string, now: int): Context
      reads this, cache
    {
      ContextOf(settings.(boardState := fen), rules, cache.entries, now)
    }

    /** The page's start: the default filters, an empty queue, and the persisted cache loaded. */
    constructor(sizeOf: seq<Record<string>> -> nat, stored: Option<seq<Record<string>>>, rules: Rules,
                frontier: FrontierModule, responses: seq<Option<Node>>, boardState: string, flipped: bool, sorting: SortingState)
      requires sizeOf([]) <= MaxBytes
      ensures Valid() && fresh(cache)
      ensures stored.None? ==> cache.State() == CacheState([], map[]) && cache.stored == stored
      ensures stored.Some? ==> cache.State() == LoadAsWritten(CacheState([], map[]), stored, sizeOf).value
      ensures cache.saveCounter == 0 && cache.sizeOf == sizeOf
      ensures queue == [] && !isProcessing && !isUpdatingBoard && apiCalls == 0
      ensures settings == Settings([1800, 2000, 2200, 2500], ["blitz", "rapid", "classical"], boardState, flipped, sorting)
      ensures this.responses == responses
      ensures this.rules == rules && this.frontier == frontier
    {
      var c := new StatsCache(sizeOf, stored);
      c.Load();
      cache := c;
      queue := [];
      isProcessing := false;
      isUpdatingBoard := false;
      apiCalls := 0;
      settings := Settings([1800, 2000, 2200, 2500], ["blitz", "rapid", "classical"], boardState, flipped, sorting);
      this.responses := responses;
      this.rules := rules;
      this.frontier := frontier;
    }

    /** `addToQueue` */
    method AddToQueue(fen: string, depth: int, priority: Priority)
      modifies this
      ensures queue == old(queue) + [QueueItem(fen, depth, priority)]
      ensures responses == old(responses) && apiCalls == old(apiCalls)
      ensures isProcessing == old(isProcessing) && isUpdatingBoard == old(isUpdatingBoard)
      ensures settings == old(settings)
    {
      queue := queue + [QueueItem(fen, depth, priority)];
    }

    /** The retry loop of establishNode: ask until a request succeeds. */
    method FetchUntilAnswered() returns (answer: Option<Node>)
      modifies this
      ensures var i := FirstAnswer(old(responses));
        && (i.None? ==> answer.None? && responses == [])
        && (i.Some? ==> answer == old(responses)[i.value] && responses == old(responses)[i.value + 1..])
      ensures queue == old(queue) && apiCalls == old(apiCalls)
      ensures isProcessing == old(isProcessing) && isUpdatingBoard == old(isUpdatingBoard)
      ensures settings == old(settings)
    {
      answer := None;
      ghost var skipped := 0;
      while answer.None?
        invariant 0 <= skipped <= |old(responses)|
        invariant responses == old(responses)[skipped..]
        invariant forall j :: 0 <= j < skipped - (if answer.Some? then 1 else 0) ==> old(responses)[j].None?
        invariant answer.Some? ==> 0 < skipped && answer == old(responses)[skipped - 1]
        invariant queue == old(queue) && apiCalls == old(apiCalls)
        invariant isProcessing == old(isProcessing) && isUpdatingBoard == old(isUpdatingBoard)
        invariant settings == old(settings)
        decreases |responses|, if answer.None? then 1 else 0
      {
        if responses == [] {
          return;
        }
        answer := responses[0];
        responses := responses[1..];
        skipped := skipped + 1;
      }
    }

    /**
     * `establishNode`: a usable cached node is taken as it is; a miss with
     * `cacheOnly` queues the position and returns at once; anything else
     * asks the service until it answers. A node with a NaN total is not
     * saved; otherwise its opening is backfilled and `saveToGraph` runs,
     * which also renews a cached node's timestamp.
     *
     * The `processQueue()` call after queueing returns at once, because its
     * only caller with `cacheOnly` (onBoardUpdate) holds `isUpdatingBoard`;
     * the precondition states that.
     */
    method Establish(fen: string, backup: Label, priority: real, cacheOnly: bool, now: int) returns (r: Established)
      requires Valid()
      requires cacheOnly ==> isUpdatingBoard
      modifies this, cache
      ensures Valid()
      ensures apiCalls == old(apiCalls)
      ensures isProcessing == old(isProcessing) && isUpdatingBoard == old(isUpdatingBoard)
      ensures settings == old(settings)
      ensures fen == "" ==> r == NoFen && unchanged(this, cache)
      ensures (r, World(queue, cache.View(), responses, apiCalls))
        == EstablishOutcome(settings.ratings, settings.timeControls, fen, backup, priority, cacheOnly,
                            old(World(queue, cache.View(), responses, apiCalls)), now, cache.sizeOf)
    {
      if fen == "" {
        return NoFen;
      }
      var key := Key(fen);
      var hit := Lookup(cache.entries, key, now);
      var response := hit;
      var madeAPIcall := false;
      if hit.Some? {
        if !Truthy(hit.value.total) {
          response := None;
        }
      } else if cacheOnly {
        AddToQueue(fen, 1, Level(priority));
        return Done(None, true);
      }
      if response.None? {
        response := FetchUntilAnswered();
        if response.None? {
          return Starved;
        }
        madeAPIcall := true;
      }
      r := Settle(key, response.value, madeAPIcall, backup, now);
    }

    /** The post-processing of establishNode: save the node unless its total is NaN, backfilling a blank opening. */
    method Settle(key: string, n: Node, asked: bool, backup: Label, now: int) returns (r: Established)
      requires Valid()
      modifies cache
      ensures Valid()
      ensures r == SettleResult(n, asked, backup)
      ensures cache.View() == AfterSettle(old(cache.View()), key, n, backup, now, cache.sizeOf)
    {
      if IsNaN(n.total) {
        // the `graph.delete` here targets a map nothing else uses
        return Done(Some(n), asked);
      }
      var saved := Backfilled(n, backup);
      var outcome := cache.Put(key, saved, now);
      if outcome == FirstChildMissing {
        return Threw;
      }
      return Done(Some(saved), asked);
    }

    /**
     * `processQueue`: unless busy, refreshing or idle, pop and establish the
     * newest item until the queue is empty. The label a gap-filling item
     * carries sits under `priority`, so the backup name read from the item
     * is `undefined`. Exceptions of an item are caught and logged.
     */
    method ProcessQueue(now: int) returns (popped: seq<QueueItem>, outcome: Drain)
      requires Valid()
      modifies this, cache
      ensures Valid()
      ensures settings == old(settings)
      ensures isUpdatingBoard == old(isUpdatingBoard)
      ensures outcome == Skipped <==> old(isProcessing) || old(isUpdatingBoard) || old(queue) == []
      ensures outcome == Skipped ==> popped == [] && unchanged(this, cache)
      ensures outcome == Drained ==> queue == [] && popped == Reversed(old(queue)) && !isProcessing
      ensures outcome == Stuck ==> queue + Reversed(popped) == old(queue) && isProcessing && responses == []
      ensures var start := old(Progress(cache.View(), responses, apiCalls));
        outcome == Drained ==>
          Run(start, settings.ratings, settings.timeControls, popped, now, cache.sizeOf) == Some(Progress(cache.View(), responses, apiCalls))
      ensures var start := old(Progress(cache.View(), responses, apiCalls));
        outcome == Stuck ==>
          && popped != []
          && var before := Run(start, settings.ratings, settings.timeControls, popped[..|popped| - 1], now, cache.sizeOf);
          && before.Some?
          && ItemStep(before.value, settings.ratings, settings.timeControls, popped[|popped| - 1], now, cache.sizeOf).None?
          && Progress(cache.View(), responses, apiCalls) == before.value.(responses := [])
    {
      if isProcessing || isUpdatingBoard || queue == [] {
        return [], Skipped;
      }
      ghost var start := Progress(cache.View(), responses, apiCalls);
      isProcessing := true;
      var stuck;
      popped, stuck := Drain(start, now);
      if stuck {
        return popped, Stuck;
      }
      isProcessing := false;
      return popped, Drained;
    }

    /**
     * processQueue's loop: pop and process items, newest first, until the
     * queue is empty or an item starves. `start` is the state the drain began in.
     */
    method Drain(ghost start: Progress, now: int) returns (popped: seq<QueueItem>, stuck: bool)
      requires Valid()
      requires WellFormed(start.view.state) && cache.sizeOf([]) <= MaxBytes
      requires start == Progress(cache.View(), responses, apiCalls)
      modifies this, cache
      ensures Valid()
      ensures settings == old(settings)
      ensures isProcessing == old(isProcessing) && isUpdatingBoard == old(isUpdatingBoard)
      ensures queue + Reversed(popped) == old(queue)
      ensures !stuck ==> queue == [] && Run(start, settings.ratings, settings.timeControls, popped, now, cache.sizeOf) == Some(Progress(cache.View(), responses, apiCalls))
      ensures stuck ==>
        && popped != [] && responses == []
        && var before := Run(start, settings.ratings, settings.timeControls, popped[..|popped| - 1], now, cache.sizeOf);
        && before.Some?
        && ItemStep(before.value, settings.ratings, settings.timeControls, popped[|popped| - 1], now, cache.sizeOf).None?
        && Progress(cache.View(), responses, apiCalls) == before.value.(responses := [])
    {
      popped := [];
      while queue != []
        invariant Valid()
        invariant queue + Reversed(popped) == old(queue)
        invariant isProcessing == old(isProcessing) && isUpdatingBoard == old(isUpdatingBoard)
        invariant settings == old(settings)
        invariant Run(start, settings.ratings, settings.timeControls, popped, now, cache.sizeOf) == Some(Progress(cache.View(), responses, apiCalls))
        decreases |queue|
      {
        ghost var before, q := popped, queue;
        var item;
        item, stuck := PopAndProcess(start, before, now);
        popped := popped + [item];
        PopStep(q, before, old(queue));
        assert queue == q[..|q| - 1] && popped == before + [q[|q| - 1]];
        assert popped[..|popped| - 1] == before;
        if stuck {
          return;
        }
      }
      stuck := false;
    }

    /**
     * One turn of processQueue's loop: pop the newest item and process it.
     * `start` is the state the drain began in and `before` the items it
     * has popped so far.
     */
    method PopAndProcess(ghost start: Progress, ghost before: seq<QueueItem>, now: int) returns (item: QueueItem, stuck: bool)
      requires Valid() && queue != []
      requires WellFormed(start.view.state) && cache.sizeOf([]) <= MaxBytes
      requires Run(start, settings.ratings, settings.timeControls, before, now, cache.sizeOf) == Some(Progress(cache.View(), responses, apiCalls))
      modifies this, cache
      ensures Valid()
      ensures item == old(queue[|queue| - 1]) && queue == old(queue[..|queue| - 1])
      ensures settings == old(settings)
      ensures isProcessing == old(isProcessing) && isUpdatingBoard == old(isUpdatingBoard)
      ensures stuck ==> responses == []
      ensures !stuck ==> Run(start, settings.ratings, settings.timeControls, before + [item], now, cache.sizeOf) == Some(Progress(cache.View(), responses, apiCalls))
      ensures stuck ==> && ItemStep(old(Progress(cache.View(), responses, apiCalls)), settings.ratings, settings.timeControls, item, now, cache.sizeOf).None?
                        && Progress(cache.View(), responses, apiCalls) == old(Progress(cache.View(), [], apiCalls))
    {
      ghost var current := Progress(cache.View(), responses, apiCalls);
      item := queue[|queue| - 1];
      queue := queue[..|queue| - 1];
      stuck := ProcessItem(item, now);
      RunStep(start, settings.ratings, settings.timeControls, before, item, now, cache.sizeOf, current);
    }

    /**
     * The body of processQueue's loop for one popped item: establish it
     * unless it is a depth-0 item already cached; count the requests made.
     */
    method ProcessItem(item: QueueItem, now: int) returns (stuck: bool)
      requires Valid()
      modifies this, cache
      ensures Valid()
      ensures queue == old(queue) && settings == old(settings)
      ensures isProcessing == old(isProcessing) && isUpdatingBoard == old(isUpdatingBoard)
      ensures stuck ==> responses == []
      ensures apiCalls == old(apiCalls) || apiCalls == old(apiCalls) + 1
      ensures item.depth <= 0 && Usable(Lookup(old(cache.entries), old(Key(item.fen)), now)) ==> !stuck && unchanged(this, cache)
      ensures var step := ItemStep(old(Progress(cache.View(), responses, apiCalls)), settings.ratings, settings.timeControls, item, now, cache.sizeOf);
        && (stuck <==> step.None?)
        && (step.Some? ==> Progress(cache.View(), responses, apiCalls) == step.value)
        && (step.None? ==> Progress(cache.View(), responses, apiCalls) == old(Progress(cache.View(), [], apiCalls)))
    {
      var cached := Lookup(cache.entries, Key(item.fen), now);
      if item.depth > 0 || !Usable(cached) {
        var r := Establish(item.fen, Missing, 1.2, false, now);
        if r == Starved {
          return true;
        }
        if r.Done? && r.madeAPIcall {
          apiCalls := apiCalls + 1;
        }
      }
      return false;
    }

    /** Gap-filling: queue each colored element without a cached node, labelled with the parent's opening and the move. */
    method GapFill(colored: seq<ColoredElement>, opening: Label)
      modifies this
      ensures queue == old(queue) + GapItems(colored, opening)
      ensures responses == old(responses) && apiCalls == old(apiCalls)
      ensures isProcessing == old(isProcessing) && isUpdatingBoard == old(isUpdatingBoard)
      ensures settings == old(settings)
    {
      var i := 0;
      while i < |colored|
        invariant 0 <= i <= |colored|
        invariant queue == old(queue) + GapItems(colored[..i], opening)
        invariant responses == old(responses) && apiCalls == old(apiCalls)
        invariant isProcessing == old(isProcessing) && isUpdatingBoard == old(isUpdatingBoard)
        invariant settings == old(settings)
      {
        GapItemsStep(colored, i, opening);
        var e := colored[i];
        if e.data.node.None? {
          AddToQueue(e.data.fen, 1, Label(SuggestedName(opening, e.data.moveSan)));
        }
        i := i + 1;
      }
      assert colored[..i] == colored;
    }

    /**
     * `investigateFrontier`: build the input, let the frontier module color
     * it, then fill its gaps; `ctx` is what it reads from the page (the
     * position, the orientation, the sorting criteria, the filters and the
     * cache).
     */
    method InvestigateFrontier(ctx: Context, grandpa: Node, minAggression: real, maxAggression: real)
      returns (r: Result<Option<seq<ColoredElement>>, string>)
      modifies this
      ensures r == Investigated(ctx, frontier, grandpa, minAggression, maxAggression)
      ensures queue == old(queue) + Queued(r, grandpa.opening)
      ensures responses == old(responses) && apiCalls == old(apiCalls)
      ensures isProcessing == old(isProcessing) && isUpdatingBoard == old(isUpdatingBoard)
      ensures settings == old(settings)
    {
      var elements := CollectElements(ctx, grandpa);
      if elements.Err? {
        return Err(elements.error);
      }
      var colored := ColoredAfterFilter(frontier, minAggression, maxAggression, elements.value);
      if colored.Some? {
        GapFill(colored.value, grandpa.opening);
      }
      return Ok(colored);
    }

    /** The pre-calculation loop of onBoardUpdate over the colored frontier; none of its calls is awaited. */
    method Precalculate(base: Context, colored: seq<ColoredElement>)
      modifies this
      ensures queue == old(queue) + Precalculated(base, frontier, colored)
      ensures OthersKept()
    {
      var i := 0;
      while i < |colored|
        invariant 0 <= i <= |colored|
        invariant queue == old(queue) + Precalculated(base, frontier, colored[..i])
        invariant OthersKept()
      {
        ghost var before := queue;
        PrecalculateOne(base, colored[i]);
        PrecalculatedStep(base, frontier, colored, i, old(queue), before, queue);
        i := i + 1;
      }
      assert colored[..i] == colored;
    }

    /** One step of the pre-calculation loop: investigate the element's position if it has a node. */
    method PrecalculateOne(base: Context, e: ColoredElement)
      modifies this
      ensures queue == old(queue) + PrecalcItems(base, frontier, e)
      ensures OthersKept()
    {
      if e.data.node.Some? {
        var _ := InvestigateFrontier(base.(boardState := e.data.fen), e.data.node.value, 0.01, 0.99);
      }
    }

    /**
     * `onBoardUpdate`: unless another refresh holds the flag, drop the newest
     * tenth of the queue, establish the current position from the cache
     * (queueing it on a miss), compute its frontier, and pre-calculate the
     * frontier's positions once the queue is empty. The flag is released on
     * every way out except a request that never succeeds.
     */
    method Refresh(now: int) returns (r: Refreshed)
      requires Valid()
      modifies this, cache
      ensures Valid()
      ensures settings == old(settings)
      ensures isProcessing == old(isProcessing)
      ensures r == Busy <==> old(isUpdatingBoard)
      ensures r == Busy ==> unchanged(this, cache)
      ensures r != Busy && r != Waiting ==> !isUpdatingBoard
      ensures r == Waiting ==> isUpdatingBoard && responses == []
      ensures r == Pending ==> queue == old(queue)[..KeptOnRefresh(|old(queue)|)] + [QueueItem(old(settings.boardState), 1, Level(1.0))]
      ensures apiCalls >= old(apiCalls)
      ensures !old(isUpdatingBoard) ==>
        (r, World(queue, cache.View(), responses, apiCalls))
          == RefreshOutcome(settings, rules, frontier, old(World(queue, cache.View(), responses, apiCalls)), now, cache.sizeOf)
    {
      if isUpdatingBoard {
        return Busy;
      }
      ghost var w := World(queue, cache.View(), responses, apiCalls);
      RefreshOutcomeCases(settings, rules, frontier, w, now, cache.sizeOf);
      RefreshKeepsPrefix(settings, rules, frontier, w, now, cache.sizeOf);
      isUpdatingBoard := true;
      queue := queue[..KeptOnRefresh(|queue|)];
      r := ShowPosition(now);
    }

    /** The `try` of onBoardUpdate, with the flag held; it is released on every way out but a starved request. */
    method ShowPosition(now: int) returns (r: Refreshed)
      requires Valid() && isUpdatingBoard
      modifies this, cache
      ensures Valid()
      ensures settings == old(settings) && isProcessing == old(isProcessing)
      ensures isUpdatingBoard <==> r == Waiting
      ensures (r, World(queue, cache.View(), responses, apiCalls))
        == PositionOutcome(settings, rules, frontier, old(World(queue, cache.View(), responses, apiCalls)), now, cache.sizeOf)
    {
      var est := Establish(settings.boardState, Text(""), 1.0, true, now);
      r := Present(est, now);
    }

    /** What onBoardUpdate does with establishNode's result, the flag still held. */
    method Present(est: Established, now: int) returns (r: Refreshed)
      requires isUpdatingBoard
      modifies this
      ensures settings == old(settings) && isProcessing == old(isProcessing)
      ensures isUpdatingBoard <==> r == Waiting
      ensures (r, World(queue, cache.View(), responses, apiCalls))
        == Presented(settings, rules, frontier, est, old(World(queue, cache.View(), responses, apiCalls)), now)
    {
      if est == Starved {
        return Waiting;
      }
      if !est.Done? {
        // `undefined` cannot be destructured, and a throw leaves through `finally`
        isUpdatingBoard := false;
        return Failed;
      }
      if est.madeAPIcall {
        apiCalls := apiCalls + 1;
      }
      if est.response.None? {
        isUpdatingBoard := false;
        return Pending;
      }
      assert ContextFor(settings.boardState, now) == ContextOf(settings, rules, cache.View().state.entries, now);
      r := ShowFrontier(est.response.value, now);
    }

    /**
     * The part of onBoardUpdate after the position's statistics were found:
     * compute and fill the frontier, then, when the queue is empty,
     * pre-calculate the frontier's positions; the flag is released in the
     * end (the `finally`).
     */
    method ShowFrontier(node: Node, now: int) returns (r: Refreshed)
      modifies this
      ensures !isUpdatingBoard
      ensures (r, queue) == FrontierOutcome(old(ContextFor(settings.boardState, now)), frontier, node, old(queue))
      ensures responses == old(responses) && apiCalls == old(apiCalls)
      ensures isProcessing == old(isProcessing) && settings == old(settings)
    {
      var ctx := ContextFor(settings.boardState, now);
      var frontierResult := InvestigateFrontier(ctx, node, 0.01, 0.99);
      if frontierResult.Err? {
        isUpdatingBoard := false;
        return Failed;
      }
      var colored := frontierResult.value;
      if queue == [] {
        if colored.None? {
          // iterating over an undefined `coloredElements` throws
          isUpdatingBoard := false;
          return Failed;
        }
        Precalculate(ctx, colored.value);
        assert queue == [] + Precalculated(ctx, frontier, colored.value);
        assert queue == Precalculated(ctx, frontier, colored.value);
      }
      isUpdatingBoard := false;
      return Shown(colored);
    }

    /** One tick of the 200 ms timer: process the queue, and refresh the board when it was drained. */
    method Tick(now: int)
      requires Valid()
      modifies this, cache
      ensures Valid()
      ensures settings == old(settings)
    {
      var _, outcome := ProcessQueue(now);
      if outcome == Drained {
        var _ := Refresh(now);
      }
    }

    /** A click on a rating button that leaves it active or not, followed by a refresh. */
    method ToggleRating(value: nat, nowActive: bool, now: int) returns (r: Refreshed)
      requires Valid()
      modifies this, cache
      ensures Valid()
      ensures settings == old(settings).(ratings := Toggled(old(settings.ratings), value, nowActive))
      ensures r == Busy <==> old(isUpdatingBoard)
      ensures r == Busy ==> unchanged(cache) && queue == old(queue) && responses == old(responses) && apiCalls == old(apiCalls)
      ensures r == Pending ==> queue == old(queue)[..KeptOnRefresh(|old(queue)|)] + [QueueItem(old(settings.boardState), 1, Level(1.0))]
      ensures !old(isUpdatingBoard) ==>
        (r, World(queue, cache.View(), responses, apiCalls))
          == RefreshOutcome(settings, rules, frontier, old(World(queue, cache.View(), responses, apiCalls)), now, cache.sizeOf)
    {
      settings := settings.(ratings := Toggled(settings.ratings, value, nowActive));
      r := Refresh(now);
    }

    /** A click on a time-control button, followed by a refresh. */
    method ToggleTimeControl(value: string, nowActive: bool, now: int) returns (r: Refreshed)
      requires Valid()
      modifies this, cache
      ensures Valid()
      ensures settings == old(settings).(timeControls := Toggled(old(settings.timeControls), value, nowActive))
      ensures r == Busy <==> old(isUpdatingBoard)
      ensures r == Busy ==> unchanged(cache) && queue == old(queue) && responses == old(responses) && apiCalls == old(apiCalls)
      ensures r == Pending ==> queue == old(queue)[..KeptOnRefresh(|old(queue)|)] + [QueueItem(old(settings.boardState), 1, Level(1.0))]
      ensures !old(isUpdatingBoard) ==>
        (r, World(queue, cache.View(), responses, apiCalls))
          == RefreshOutcome(settings, rules, frontier, old(World(queue, cache.View(), responses, apiCalls)), now, cache.sizeOf)
    {
      settings := settings.(timeControls := Toggled(settings.timeControls, value, nowActive));
      r := Refresh(now);
    }
  }

  /** Popping after pushing: the reversed list of a longer pop history starts with the newest pop. */
  lemma ReversedSnoc<T>(s: seq<T>, x: T)
    ensures Reversed(s + [x]) == [x] + Reversed(s)
  {
    assert (s + [x])[..|s|] == s;
  }

  /** Popping the last item of `q` onto `popped` keeps `q + Reversed(popped)`. */
  lemma PopStep<T>(q: seq<T>, popped: seq<T>, q0: seq<T>)
    requires q != [] && q + Reversed(popped) == q0
    ensures q[..|q| - 1] + Reversed(popped + [q[|q| - 1]]) == q0
  {
    ReversedSnoc(popped, q[|q| - 1]);
    assert q == q[..|q| - 1] + [q[|q| - 1]];
  }
}
