# Chess opening explorer: a verified model of its core

The explorer shows, for the position on the board, statistics for every
candidate move that it gets from a remote statistics service. It draws
arrows for the interesting moves, and it studies the positions behind them
ahead of time, in the background. This project models the JavaScript core
of the page's `main.js` in Dafny and proves properties of that model:

- **Statistics cache** (`stats_cache.dfy`, class `StatsCache.StatsCache`). An
  insertion-ordered map from cache key to node and timestamp. Entries expire
  after seven days. Every hundredth save persists the map, and when the
  persisted form is over 2 MiB the oldest tenth of the entries is dropped,
  again and again until it fits. The class also covers loading at startup,
  and saving with its refusal of failed lookups.
- **Fetch queue and scheduler** (`fetch_queue.dfy`, `scheduler.dfy`, class
  `Explorer.Explorer`):
  - `addToQueue`.
  - The four outcomes of `establishNode`: no position, a miss queued in
    cache-only mode, a request that never succeeds, and an answer.
  - The guarded last-in-first-out drain of `processQueue`.
  - `onBoardUpdate`: it drops the newest tenth of the queue, establishes
    the position, builds its frontier, fills the gaps and pre-calculates.
  - The rating and time-control toggle buttons.
  - The statistics service is an oracle: a list of the responses that
    successive requests return.
- **Frontier input** (`frontier.dfy`, module `FrontierInput`). Which moves of
  a node are eligible, the coordinate vector ("point") built for each move,
  the position after the move, and the gap-filling queue items. The
  `Frontier` class of the separate frontier module is an uninterpreted
  value: it stands for the filter-and-colour step and for the `try` fallback
  around it.
- **Arrows** (`arrows.dfy`). `queueMove` builds a main arrow and the
  response arrows. `drawQueue` groups the arrows by origin square, sorts
  each group thickest first, smooths its thicknesses and sorts the
  flattened result.
- **Move list** (`move_list.dfy`). The criterion that the list is sorted
  by, its update from the dropdowns, and the comparator.
- **Colouring** (`color.dfy`). `distribution` and `colorOfPoint`, their
  guard branches and the bounds of an intensity.
- **Support modules**:
  - `js_number.dfy`: JavaScript numbers with NaN and the infinities, and
    their arithmetic and comparisons.
  - `conversions.dfy`: `convertScore`, `convertEval` and `criteriaMap`.
  - `fen.dfy`: `getTurnFromFEN` over `split(" ")`.
  - `filters.dfy`: the cache key and the toggling of a selection.
  - `sorting.dfy`: a stable sort, as `Array.prototype.sort` is.

The model follows the code as written, except at the two source defects
under "## Findings" that the rest of the model runs corrected (see
"## Left out"). Behaviour of the code that is easy to overlook:

- A cache hit in `establishNode` saves the node again and so refreshes its
  timestamp.
- `processQueue` destructures a `backupName` field that queue items do not
  have, so every node it establishes gets the backup label `undefined`.
- The pre-calculation calls of `investigateFrontier` are not awaited. A call
  whose element has no node, or whose move cannot be played, has no effect.
- The `width` argument (0.44 in the pre-calculation) is never read.
- The final sort of the arrows in `drawQueue` is descending by thickness,
  so the thickest arrow is drawn first and the thinnest ends on top.
- The size of the persisted cache is checked only when every hundredth save
  persists it and when it is loaded, not after every save.
- A response whose total is NaN is returned without being saved. It is not
  retried, and no cache entry is removed for it.
- The arrow loop of `queueMove` reads the field count of the node's first
  child record, which can differ from node to node.

## Model

| member | source | states |
|---|---|---|
| JsNumber.Add | main.js:757 | JavaScript `+`: NaN exactly when an operand is NaN or two opposite infinities meet |
| JsNumber.Mul | main.js:757 | JavaScript `*`: the real product on finite operands, NaN when an operand is NaN |
| JsNumber.Div | main.js:746 | JavaScript `/`: the real quotient for a non-zero divisor, +Infinity for a positive number over 0, NaN for 0/0 and NaN operands |
| JsNumber.NaNComparesFalse | main.js:746 | every `<` and `>=` with NaN is false, and NaN is not `===` to itself |
| JsNumber.SubSignOrders | main.js:915-917 | for distinct non-NaN numbers, the sign of `y - x` orders them |
| Stats.ToNum | main.js:757 | the string "unknown" becomes NaN when it is an operand of arithmetic or `isNaN` |
| Conversions.ConvertScore | main.js:1137-1144 | "unknown" exactly for NaN; otherwise 100 times the value, negated when Black is to move |
| Conversions.ConvertEval | main.js:1125-1130 | "unknown" exactly for NaN; otherwise the value over 100, negated when Black is to move |
| Conversions.EvalUndoesScore | main.js:1125-1144 | convertEval undoes convertScore for the same side to move |
| Conversions.ScoreFlipsWithTurn | main.js:1137-1144 | White and Black see opposite scores |
| Conversions.CriteriaMap | main.js:720-729 | the statistic that each sorting criterion stands for |
| Conversions.CriteriaMapInjective | main.js:720-729 | different criteria stand for different statistics |
| Conversions.NamesNeverCollide | main.js:754 | no statistic name equals a criterion name |
| Conversions.NotLazyOf | main.js:757 | `1.25 * score - 0.25 * convertScore(lazy)` on finite inputs; NaN when either input is NaN |
| Conversions.ChannelValue | main.js:752-775 | only a side-relative statistic can show "unknown"; a stored statistic is unknown exactly when its field is NaN; a known side-relative statistic is scaled by 100, negated when Black is to move; "patient" is 1.25 score minus 0.25 of the converted lazy, NaN when either is; score and total are shown as stored |
| Conversions.ChannelValueSides | main.js:752-775 | score and total show the same value to both sides; a known side-relative statistic shows opposite values to White and Black |
| Fen.SplitSpace | main.js:1093 | `split(" ")` gives at least one piece, no piece holds a space, and there is more than one piece exactly when the text holds a space |
| Fen.SplitJoin | main.js:1093 | splitting space-joined, space-free fields gives the fields back |
| Fen.TurnFromFen | main.js:1092-1095 | the turn is defined exactly when the FEN holds a space, and it holds no space |
| Fen.TurnOfFields | main.js:1092-1095 | for a FEN given by its fields, the turn is the active-colour field |
| Fen.OpponentIsTopSide | main.js:738 | the opponent's criteria apply exactly when the side to move sits at the top of the board; with no turn, never |
| Filters.NatToString | main.js:429 | the decimal text of a rating is non-empty and all digits |
| Filters.CacheKey | main.js:428-432 | the key starts with the FEN and continues with the filter suffix |
| Filters.KeyDeterminesPosition | main.js:428-432 | under one filter selection, two positions with the same key are the same position |
| Filters.KeyDependsOnOrder | main.js:294-303 | the keys for ratings 1800,2000 and 2000,1800 differ, so the click order of the filters matters for the cache |
| Filters.SwappedPairKeys | main.js:428-432 | two ratings whose texts start differently give different keys in the two orders |
| Filters.FirstRatingAfterFen | main.js:428-432 | right after the FEN and its dash, the key spells the first selected rating |
| Filters.Without | main.js:296 | `filter(v => v !== value)` keeps exactly the other elements; their order and repeats are stated by WithoutConcat and WithoutOnce |
| Filters.WithoutConcat | main.js:296 | the filter works piece by piece, so the kept elements stay in their order, repeats included |
| Filters.WithoutOnce | main.js:296 | removing a value that occurs once leaves what came before and after it, in order |
| Filters.Toggled | main.js:289-305 | activating appends the value at the end; deactivating removes every copy |
| Filters.ToggledOffKeepsOrder | main.js:289-305 | switching a button off removes its one occurrence and keeps the other values in their order, which the cache key depends on |
| Filters.WithoutAbsent | main.js:296 | removing an absent value changes nothing |
| Filters.ToggleOnOff | main.js:289-305 | clicking a button on and then off restores the selection |
| Filters.ToggleKeepsNoRepeats | main.js:289-305 | when the button state matches the selection, a click keeps the selection free of repeats and gives the value the button's new state |
| Sorting.Insert | main.js:633 | inserting adds exactly the element |
| Sorting.InsertSorted | main.js:633 | inserting into a sorted list keeps it sorted |
| Sorting.SortBy | main.js:633 | the sort is a sorted permutation of its input |
| Sorting.WithKey | main.js:633 | the elements with one key, in their order; never longer than the input |
| Sorting.InsertWithKey | main.js:633 | inserting puts the element ahead of every element with the same key and moves no other element with that key |
| Sorting.SortByStable | main.js:633 | the sort is stable: for every key, the elements with that key keep their relative order |
| Sorting.DistinctPermutation | main.js:209 | a rearrangement of a list without repeats has no repeats |
| StatsCache.Lookup | main.js:232-243 | a hit exactly when the key is present and younger than seven days; the hit is the stored node |
| StatsCache.ExpiryIsStrict | main.js:235-236 | a node saved at time t is found before t plus seven days and missed from then on |
| StatsCache.Set | main.js:250-253 | `Map.set` replaces the entry; a new key goes last in the insertion order, an existing key keeps its place |
| StatsCache.SetKeepsWellFormed | main.js:250-253 | `set` keeps the order free of repeats and in step with the entries |
| StatsCache.Delete | main.js:212 | `Map.delete` removes the key from the order and the entries and keeps every other entry |
| StatsCache.DeleteKeepsOrder | main.js:212 | the other keys keep their insertion order |
| StatsCache.DeleteKeepsWellFormed | main.js:212 | `delete` keeps the order free of repeats and in step with the entries |
| StatsCache.DeleteKeys | main.js:211-213 | deleting a list of keys leaves exactly the other entries, unchanged |
| StatsCache.DeleteKeysKeepsWellFormed | main.js:211-213 | the delete loop keeps the map well formed |
| StatsCache.Records | main.js:172-180 | the persisted array has one record per key, in insertion order, with that key's entry |
| StatsCache.LoadedKeepsWellFormed | main.js:197-199 | setting the loaded records keeps the map well formed |
| StatsCache.LoadRecordsRoundTrip | main.js:171-199 | loading what saveCache wrote into an empty map gives the map back, insertion order included |
| StatsCache.LoadPrefix | main.js:197-199 | loading the records of a repeat-free key list gives those keys in that order with their entries |
| StatsCache.PruneCount | main.js:210 | `Math.ceil(n * 0.1)`: the least c with n <= 10c, never more than n |
| StatsCache.PruneVictims | main.js:209-210 | the first ceil(n/10) keys once the entries are sorted, stably, by timestamp |
| StatsCache.PruneVictimsOldest | main.js:209-213 | one pass deletes ceil(n/10) distinct keys of the cache, and none is newer than a key that stays |
| StatsCache.PruneStep | main.js:208-213 | one pass keeps the map well formed, removes ceil(n/10) entries and leaves the rest unchanged |
| StatsCache.PruneStepRemovesOldest | main.js:208-213 | what one pass removes is exactly its victims, and each is no newer than every kept entry |
| StatsCache.Pruned | main.js:171-217 | the saveCache/pruneCache recursion ends with a well-formed map whose persisted form fits in 2 MiB and whose entries are original entries |
| StatsCache.PrunedRemovesOldest | main.js:171-217 | over all passes, no removed entry is newer than a kept one |
| StatsCache.PrunedWhenFits | main.js:186-188 | a persisted form within 2 MiB is not pruned |
| StatsCache.LoadAsWritten | main.js:191-206 | as written, loading fails exactly when nothing is stored |
| StatsCache.FirstVisitThrows | main.js:192-193 | on a first visit (empty storage) loading throws |
| StatsCache.AfterPut | main.js:245-254 | saveToGraph's effect: the map stays well formed and the counter below 100; a node without children or a failed-lookup marker changes nothing; otherwise the map holds only its old entries and the new node stamped with the current time |
| StatsCache.StatsCache.constructor | main.js:166-169 | an empty map with save counter 0 |
| StatsCache.StatsCache.DeleteKey | main.js:212 | the map after `delete` is Delete of the map before |
| StatsCache.StatsCache.PruneOnce | main.js:209-213 | the delete loop of pruneCache leaves PruneStep of the map |
| StatsCache.StatsCache.SaveCache | main.js:171-189 | the map ends as Pruned of the map before, and storage holds its records |
| StatsCache.StatsCache.PruneCache | main.js:208-217 | one pass, then saveCache: Pruned of PruneStep, with storage holding the records |
| StatsCache.StatsCache.SaveIfNeeded | main.js:219-225 | below the hundredth save only the counter moves; the hundredth save resets it and persists the pruned map |
| StatsCache.StatsCache.Put | main.js:245-259 | a node without children throws, a failed lookup is refused (nothing changes in either case), otherwise the node is stored with the current time and the save counted; overall the cache becomes AfterPut |
| StatsCache.StatsCache.Load | main.js:191-206 | with nothing stored nothing changes; otherwise the records are set in order, and storage is rewritten when the blob is over 2 MiB |
| FetchQueue.KeptOnRefresh | main.js:531 | `Math.ceil(n * 0.9)`: the least k with 9n <= 10k, never more than n |
| FetchQueue.RefreshDropsTenth | main.js:531 | a refresh drops exactly floor(n/10) items |
| FetchQueue.ShortQueueSurvives | main.js:531 | a queue of fewer than ten items is kept whole |
| FetchQueue.HundredKeepsNinety | main.js:531 | a queue of a hundred items keeps ninety |
| FetchQueue.Reversed | main.js:480-481 | repeated `pop`s hand out the items last-in first-out |
| FetchQueue.LaterPushPoppedFirst | main.js:154 | of two items pushed in turn, the later is popped first |
| FrontierInput.Eligible | main.js:746 | the eligibility test: the move's share of the games reaches minPopularity, and its score is less than the gambit filter below the best move's |
| FrontierInput.EligibleOnFiniteStats | main.js:746 | with finite statistics, a move is eligible exactly when its share reaches minPopularity and its score drop from the best move is under the gambit filter |
| FrontierInput.MissingStatsNotEligible | main.js:746 | a move with a NaN score or total is never eligible |
| FrontierInput.PushIf | main.js:779-787 | a conditional `push` adds the value exactly when its condition holds |
| FrontierInput.BuildPoint | main.js:752-787 | the point starts with the three channel values and the score, has 4 + Extras coordinates, and ends with the move's share on an opponent turn |
| FrontierInput.PointLength | main.js:777-787 | a point has 8 to 11 coordinates on an opponent turn and 6 to 9 otherwise |
| FrontierInput.CountMoves | main.js:733 | the number of children with a move is at most the number of children |
| FrontierInput.ElementFor | main.js:742-790 | the element of one eligible move: its point, its move, the position after it and that position's cached node; Err when the move cannot be played |
| FrontierInput.Collect | main.js:741-791 | the elements of the first k counted moves, in order; the first move that cannot be played aborts |
| FrontierInput.CollectOnePerEligibleMove | main.js:741-791 | a successful collection has one element per eligible move, in order, with that move's point, position and cached node |
| FrontierInput.CollectFailsOnBadMove | main.js:741-791 | collection fails exactly when some eligible move cannot be played |
| FrontierInput.CollectFailureSticks | main.js:741-791 | after a failure, later moves do not matter |
| FrontierInput.CollectElements | main.js:741-791 | the loop over the moves computes Collect over all counted moves |
| FrontierInput.ColoredAfterFilter | main.js:793-800 | the frontier module colours a non-empty input; an empty one keeps the module's initial colouring |
| FrontierInput.GapItems | main.js:803-838 | the gap-filling items: one per colored element without a node, in order |
| FrontierInput.SuggestedName | main.js:810-816 | the label is the opening name, a space and the move; an absent name counts as empty |
| FrontierInput.GapItemsPerUncached | main.js:803-838 | gap-filling queues one item per colored element without a node, for its position, at depth 1, with its label, and nothing else |
| Arrows.Substring | main.js:661 | `substring` takes the slice when the string is long enough, and never more |
| Arrows.MainThickness | main.js:664-669 | `12 - (7 - rows crossed) / 1000`, the thickness of a main arrow |
| Arrows.LongerMainArrowIsThicker | main.js:664-669 | a main arrow crossing more ranks is thicker |
| Arrows.MainThicknessRange | main.js:664-669 | on the board, a main arrow is between 11.993 and 12 thick |
| Arrows.Responses | main.js:691-707 | the response arrows of the first k children: one for each child at or above the 4% share |
| Arrows.ResponsesPerPopularChild | main.js:691-707 | one response arrow per child at or above the 4% threshold, each flagged as a response, opaque and in the move's colour |
| Arrows.Scanned | main.js:679 | the response loops stop within the children; the bound is the node's own field count |
| Arrows.MoveArrows | main.js:659-708 | the main arrow, then, when the node is known, its response arrows over the children its own field count reaches |
| Arrows.MoveArrowsShape | main.js:659-708 | the main arrow comes first and is the only non-response arrow; without a node it is the only arrow |
| Arrows.QueueMove | main.js:659-708 | the queue grows by exactly the move's arrows |
| Arrows.QueueFrontier | main.js:599-610 | the queue holds the arrows of every colored element, in order |
| Arrows.AddToGroups | main.js:622-628 | one step of the `reduce`: the arrow joins the first group from its square, or starts a new group at the end |
| Arrows.AddToGroupsKeeps | main.js:622-628 | one step of the `reduce` adds exactly that arrow to the groups |
| Arrows.Partition | main.js:622-628 | the groups hold exactly the queued arrows |
| Arrows.Origins | main.js:631 | each group has the origin square of its first arrow |
| Arrows.AddToGroupsOrigins | main.js:622-628 | an arrow from a known square keeps the origins; one from a new square appends its square |
| Arrows.AddToGroupsUniform | main.js:622-628 | every group keeps a single origin square |
| Arrows.PartitionGroups | main.js:622-631 | groups are non-empty, hold one origin each, no two share an origin, and every arrow's origin has a group |
| Arrows.AdjustedThickness | main.js:636-646 | the thickness of the i-th arrow after the pass: the first times 1.2, the last times 0.8, a middle one blended 80/20 with the mean of its updated left neighbour and its right neighbour as the loop reads it (the last arrow already scaled by 0.8) |
| Arrows.AdjustGroup | main.js:636-646 | the adjustment loop leaves the array equal to Adjusted of its old contents |
| Arrows.ProcessGroup | main.js:631-647 | one group: sorted thickest first, then adjusted |
| Arrows.GroupEnds | main.js:635-646 | a processed group keeps its length; with two arrows or more the thickest grows by a fifth and the thinnest shrinks by a fifth |
| Arrows.SortAndAdjust | main.js:631-647 | one group sorted thickest first and then adjusted |
| Arrows.Drawn | main.js:620-657 | the drawing order: groups by origin, each processed, flattened, then sorted thickest first |
| Arrows.DrawQueue | main.js:620-657 | the arrows are drawn in the order Drawn gives |
| Arrows.DrawnThickestFirst | main.js:653 | the drawn arrows go thickest first |
| Arrows.ShapesPermutation | main.js:650-653 | rearranging arrows rearranges their shapes |
| Arrows.DrawnKeepsArrows | main.js:620-657 | every queued arrow is drawn exactly once; only thicknesses change |
| Arrows.SortedGroupEnds | main.js:633 | after the sort, the first arrow is the thickest and the last the thinnest |
| Arrows.AdjustedBetweenEnds | main.js:642-646 | a smoothed middle arrow stays between the adjusted ends and above 0.96 of the old thinnest |
| Arrows.ProcessGroupKeepsEnds | main.js:631-647 | with non-negative thicknesses, a group's thickest arrow stays thickest and its thinnest stays thinnest |
| Color.Round | main.js:859 | `Math.round`: the integer that x + 0.5 falls in |
| Color.Distribution | main.js:843-849 | a value at or below the minimum maps to 0; otherwise the power curve of its position in the range |
| Color.Channel | main.js:855-860 | one intensity: 204 for a one-value range, otherwise minIntensity plus the scaled distribution, rounded |
| Color.ColorOfPoint | main.js:852-863 | grey (204, 204, 204) without ranges; otherwise one channel per coordinate and range |
| Color.AtMinimumDimmest | main.js:844 | a value at or below its range's minimum gets the minimum intensity |
| Color.FlatRangeGrey | main.js:858 | a channel whose range has one value shows 204 |
| Color.ChannelBounded | main.js:852-863 | for a value within its range and a power curve that maps [0, 1] into [0, 1], every intensity lies between minIntensity and 255 |
| MoveList.ListCriterion | main.js:884-898 | the criterion the list is sorted by: the last-edited channel of the opponent's box on an opponent turn, of the player's box otherwise |
| MoveList.UpdateSorting | main.js:980-984 | a choice sets that channel of that side's box and makes it the side's last-edited channel |
| MoveList.DefaultIsForceful | main.js:973-977 | on a fresh page, the list is sorted by "forceful" for either side |
| MoveList.UpdateSortingSelects | main.js:980-984 | after a choice in one side's box, that side is sorted by it and the other side's ordering is unchanged |
| MoveList.CompareAsWritten | main.js:889-918 | the comparator as written: an unknown left value gives 1 even when the right one is unknown too |
| MoveList.Compare | main.js:889-918 | the comparator with two unknown values treated as equal |
| MoveList.Sign | main.js:889-918 | the sort reads a comparator result as -1, 0 or 1 |
| MoveList.SignOfDifference | main.js:915-917 | the sign of `b - a` says which is larger, NaN and infinities included |
| MoveList.WinrateBranchDead | main.js:916 | the Black-winrate branch never fires: with distinct known values the result is always `b - a` |
| MoveList.UnknownPairInconsistent | main.js:912 | as written, two unknown values each claim to come after the other |
| MoveList.UnknownLast | main.js:913-914 | a move with a known value comes before one with an unknown value, in both argument orders |
| MoveList.LargerValueFirst | main.js:915-917 | with distinct known values, the larger comes first, Black's winrate included |
| MoveList.TieByGames | main.js:915 | with equal values, the move played in more games comes first |
| MoveList.CompareAntisymmetric | main.js:889-918 | the corrected comparator flips its verdict when its arguments swap |
| Explorer.FirstAnswer | main.js:447-451 | the first successful response is found, and no earlier one succeeded; None when none did |
| Explorer.Answered | main.js:434-451 | an asked answer is the successful response that ends the retries; an unasked one is the cache hit; the service is asked exactly when the hit is not usable (missing, or a falsy total) |
| Explorer.Backfilled | main.js:461-465 | a blank or undefined opening name is replaced by the backup label |
| Explorer.SettleResult | main.js:454-470 | a NaN total is returned unsaved; a node without children throws in saveToGraph; otherwise the backfilled node is returned |
| Explorer.AfterSettle | main.js:454-467 | the cache after establishNode's post-processing stays well formed, with the save counter below 100 |
| Explorer.NaNTotalNeverSaved | main.js:454-459 | a node with a NaN total leaves the cache as it was |
| Explorer.SavedNodeStored | main.js:460-466 | a savable node is stored under its key, with a blank or undefined opening replaced by the backup |
| Explorer.RefusedNodeNotSaved | main.js:246-249 | the marker of a failed lookup never reaches the cache |
| Explorer.ItemStep | main.js:481-511 | one popped item, on the cache, the responses and the request count: stays well formed; None exactly when a request was needed and none succeeded |
| Explorer.Run | main.js:478-512 | the popped items in order, each on what the previous left; keeps the cache well formed |
| Explorer.CachedItemSkipped | main.js:487-496 | a depth-0 item whose cached node is usable changes nothing |
| Explorer.ItemStepBounds | main.js:487-503 | an item starves exactly when it needs the service and no response succeeds; otherwise it counts at most one request, leaves a suffix of the responses, and a counted request consumed one |
| Explorer.RunBounds | main.js:478-512 | a drain counts at most one request per item, never more than the responses it consumed |
| Explorer.QueuedLabelIgnored | main.js:481-497 | a blank or undefined opening of a node fetched for a queued item is saved as undefined, whatever label the item carries |
| Explorer.Investigated | main.js:710-841 | the colored frontier of a node: Err when one of its eligible moves cannot be played; otherwise what the frontier module makes of the collected elements |
| Explorer.NullOpeningQueuesNothing | main.js:733 | as written, a node whose opening is `null` makes investigateFrontier throw and queue nothing |
| Explorer.NullOpeningGapFilled | main.js:803-838 | with `null` skipped, such a node's uncached moves are queued, one each, labelled with a space and the move |
| Explorer.PrecalculatedSkipsUncached | main.js:585 | elements without a node contribute nothing to the pre-calculation |
| Explorer.EstablishOutcome | main.js:419-471 | establishNode on the queue, the cache, the responses and the request count |
| Explorer.EstablishOutcomeCases | main.js:419-471 | no position changes nothing; only a cache-only miss queues, and it queues the position; a starved request uses up the responses and leaves the cache; a found node is settled with the responses up to its own gone; a usable hit asks nothing, and a hit with a falsy total is fetched even in cache-only mode |
| Explorer.FrontierOutcome | main.js:576-594 | the end of onBoardUpdate: investigate the node's frontier; with the queue empty afterwards, pre-calculate it, failing without colored elements |
| Explorer.Presented | main.js:554-594 | what onBoardUpdate makes of establishNode's result: wait, queue, fail or show the frontier, counting a request made |
| Explorer.PositionOutcome | main.js:536-594 | the `try` of onBoardUpdate: establish the position from the cache, then present it |
| Explorer.RefreshOutcome | main.js:520-597 | onBoardUpdate with the flag free: drop the newest tenth of the queue, then the `try` |
| Explorer.RefreshOutcomeCases | main.js:531-566 | a refresh is never busy; a miss leaves the truncated queue plus the position; a starved refresh used up the responses |
| Explorer.RefreshKeepsPrefix | main.js:531-586 | what survives the truncation stays at the front of the queue, and at most one request is counted |
| Explorer.PresentedCases | main.js:554-594 | showing the position is never busy; it is pending only for a position queued on a miss, and waits only for a starved request, changing nothing |
| Explorer.PresentedKeepsPrefix | main.js:554-586 | showing the position keeps the queue it was given at the front and counts at most one request |
| Explorer.ShownIsInvestigated | main.js:553-579 | a shown frontier is Investigated of the position's node, backfilled unless its total is NaN, over the cache as establishNode left it |
| Explorer.Explorer.constructor | main.js:262-263 | the page starts with an empty queue, both flags clear, no calls counted, the default ratings and time controls, and a fresh cache holding what loadCache loads (nothing when nothing is stored) with save counter 0 |
| Explorer.Explorer.AddToQueue | main.js:150-155 | the item is pushed at the end; nothing else changes |
| Explorer.Explorer.FetchUntilAnswered | main.js:447-451 | the retry loop consumes responses up to and including the first successful one |
| Explorer.Explorer.Establish | main.js:419-471 | the result and the new queue, cache, responses and count are EstablishOutcome of the old ones; no position changes nothing |
| Explorer.Explorer.Settle | main.js:454-470 | the result is SettleResult, and the cache becomes AfterSettle |
| Explorer.Explorer.ProcessQueue | main.js:474-516 | skipped exactly when a flag is held or the queue is empty; a full drain pops the whole queue in reverse and leaves the cache, the responses and the count as Run of the popped items; a stuck drain stops at the first item that starves, with the processing flag held |
| Explorer.Explorer.Drain | main.js:478-512 | the loop of processQueue: what is left of the queue plus the popped items reversed is the old queue; a full drain empties the queue and ends at Run of the popped items; a stuck one ends at the first item that starves, with no responses left |
| Explorer.Explorer.PopAndProcess | main.js:481-511 | one turn of the loop: the newest item is popped; unless it starves, the drain so far plus this item is Run of the popped items; a starved item leaves the cache and the count and no responses |
| Explorer.Explorer.ProcessItem | main.js:481-511 | the cache, the responses and the count become ItemStep of the old ones; stuck exactly when ItemStep starves, leaving the cache and the count and no responses |
| Explorer.Explorer.GapFill | main.js:803-838 | the queue grows by exactly GapItems |
| Explorer.Explorer.InvestigateFrontier | main.js:710-841 | the result is Investigated, and the queue grows by the gap-filling items |
| Explorer.Explorer.Precalculate | main.js:583-586 | the queue grows by exactly Precalculated of the colored elements; nothing else changes |
| Explorer.Explorer.PrecalculateOne | main.js:585 | one element's frontier items are queued when it has a node |
| Explorer.Explorer.Refresh | main.js:520-597 | busy exactly when the flag was held, changing nothing; otherwise the result and the new queue, cache, responses and count are RefreshOutcome of the old ones; the flag is released on every way out but a request that never succeeds |
| Explorer.Explorer.ShowPosition | main.js:536-594 | with the flag held, the result and the new state are PositionOutcome of the old; the flag stays held only when waiting |
| Explorer.Explorer.Present | main.js:554-594 | the result and the new state are Presented of establishNode's result and the old state |
| Explorer.Explorer.ShowFrontier | main.js:576-594 | the result and the queue are FrontierOutcome of the node and the old queue, and the flag is released |
| Explorer.Explorer.Tick | main.js:158-160 | one timer tick processes the queue and refreshes the board after a full drain, keeping the cache well formed |
| Explorer.Explorer.ToggleRating | main.js:298-310 | the ratings become Toggled of the old ratings; then, unless a refresh holds the flag (which changes nothing else), the new state is RefreshOutcome under the new settings |
| Explorer.Explorer.ToggleTimeControl | main.js:291-310 | the time controls become Toggled of the old ones; then, unless a refresh holds the flag, the new state is RefreshOutcome under the new settings |

## Left out

- The user interface is not modelled: the board, the sounds, the highlights, the text and HTML of the move list, the dropdown boxes, `convertFormatEval`, `formatNumber` and the drawing of an arrow on the SVG.
- The network and the API key are not modelled: `fetchCombinedProxyData`, `promptForApiKey` and `handleExpiredApiKey`. The statistics service is an oracle, a list of responses, where a failed request (`null`) is None.
- Timers and concurrency are not modelled. The 200 ms interval is the `Tick` method, the clock is the parameter `now`, and the waits of 200 and 300 ms are dropped. Tasks are taken to run one at a time, in the order written. Pre-calculation calls that nobody awaits run to completion straight away, which is possible because they have no awaits of their own.
- The `processQueue()` call inside `establishNode`'s cache-only branch is dropped. The only cache-only caller holds `isUpdatingBoard`, so that call returns at once.
- The trailing `onBoardUpdate()` of `processQueue` is in `Tick`, not in `ProcessQueue`.
- `Frontier_min.js` is not part of this model. Its `Frontier` class is an uninterpreted value, and a colouring step that throws is one of its possible results.
- chess.js is not part of this model. Loading a FEN and playing a move are parameters (`Rules`), and a move it rejects is None.
- Explorer.Explorer.Tick: states only that the cache stays well formed and the filters do not change. The outcomes are stated by ProcessQueue and Refresh.
- FrontierInput.ElementFor and FrontierInput.FenAfterMove carry no contracts of their own. What they compute is stated by the Collect lemmas and CollectElements.
- Explorer.Explorer.InvestigateFrontier, Explorer.Explorer.Precalculate, Explorer.Explorer.Refresh, Explorer.Explorer.ToggleRating and Explorer.Explorer.ToggleTimeControl run the corrected Explorer.Investigated (through Explorer.FrontierOutcome and Explorer.PrecalcItems), not Explorer.InvestigatedAsWritten. So for a node whose opening is `null` they gap-fill and pre-calculate, where main.js:733 throws and onBoardUpdate leaves through its `finally` with nothing queued. The as-written behaviour is Explorer.InvestigatedAsWritten with Explorer.NullOpeningQueuesNothing.
- Explorer.Explorer.constructor runs the corrected StatsCache.StatsCache.Load when nothing is stored, so a first visit starts with an empty cache, where main.js:193 throws. The as-written behaviour is StatsCache.LoadAsWritten with StatsCache.FirstVisitThrows.
- The `beforeunload` listener that calls `saveCache` when the page closes (main.js:227) is not modelled: the model has no page lifetime.
- `Math.pow` and `Math.log` are not modelled. In `distribution` the power curve is a parameter and its exponent a number, so Color.ChannelBounded takes as a precondition that the curve maps [0, 1] into [0, 1], as a positive exponent does. The `27 * sqrt(share)` thickness of a response arrow is a parameter too.
- Color: the values of a point are real numbers, so a NaN or infinite coordinate is not modelled. The `rgb(...)` text is kept as its three intensities.
- Floating point is exact real arithmetic here. `Math.ceil(n * 0.9)` and `Math.ceil(n * 0.1)` are therefore exact ceilings, and the rounding of the thickness arithmetic is not modelled.
- The size of the persisted cache, the length of `JSON.stringify`, is a function parameter. The model requires only that an empty cache fits.
- JSON parsing and a stored blob that is not valid JSON are not modelled. The stored copy is the record list itself.
- `initializeToggleButtons` only paints buttons and is left out. `updateUI` and `updateSortingBoxes` are left out as user interface.
- The `graph.delete` of `establishNode` on a NaN total is dropped. It deletes from a map that nothing ever fills.

## Findings

| source | as written | input that shows it | evidently intended | confidence | as-written member | corrected member |
|---|---|---|---|---|---|---|
| main.js:192-195 | `loadCache` reads `cacheString.length` before its `if (cacheString)` test | a first visit: `localStorage` holds no `pweCache`, so `getItem` returns `null` and `.length` throws, and the page's initialisation stops | load nothing when nothing is stored | high (not executed) | StatsCache.FirstVisitThrows | StatsCache.StatsCache.Load |
| main.js:912 | the comparator returns 1 when both values are NaN, so `compare(a, b)` and `compare(b, a)` are both 1 | two moves whose sorted statistic is unknown: each is said to come after the other, which breaks the ECMAScript requirement that the comparator of Array.prototype.sort be consistent, so the resulting order is implementation-defined | return 0 for two unknown values | medium (not executed) | MoveList.UnknownPairInconsistent | MoveList.CompareAntisymmetric |
| main.js:733 | the filter `typeof item === 'object' && item.move` reads `.move` of `null`, since `typeof null` is `'object'` | a node whose `opening` is `null`: investigateFrontier throws, so the `null` test at main.js:814 never runs and nothing is gap-filled | skip `null` values and label the queued moves `" " + move` | medium (not executed) | Explorer.NullOpeningQueuesNothing | Explorer.NullOpeningGapFilled |
