/**
 * The arrows drawn for the colored frontier: `queueMove` turns a move and
 * its position's statistics into one main arrow and the response arrows
 * (main.js:659-708), and `drawQueue` groups the arrows by origin square,
 * spreads the thicknesses within each group and orders the whole list
 * thickest first (main.js:620-657).
 */
module Arrows {
  import opened Wrappers
  import opened JsNumber
  import opened Stats
  import opened Sorting
  import opened FrontierInput

  datatype Arrow = Arrow(from: string, to: string, color: string, thickness: real, opacity: real, isResponse: bool)

  // drawQueue changes thicknesses by the fraction `adj` = 0.2; the factors
  // 1.2, 0.8 and 0.2 below are `1 + adj`, `1 - adj` and `adj`.

  /** The default `threshold` of queueMove: responses played in at least 4% of the games get an arrow. */
  const ResponseThreshold: real := 0.04

  /** `s.substring(a, b)` for `a <= b`: both ends are clamped to the string. */
  function Substring(s: string, a: nat, b: nat): (r: string)
    requires a <= b
    ensures |r| <= b - a
    ensures b <= |s| ==> r == s[a..b]
  {
    var hi := if b <= |s| then b else |s|;
    var lo := if a <= hi then a else hi;
    s[lo..hi]
  }

  /** `square.charCodeAt(1) - 49`: the rank digit as a row index, 0 for '1'. */
  function Row(square: string): int
    requires |square| >= 2
  {
    square[1] as int - 49
  }

  function Abs(x: int): nat
  {
    if x < 0 then -x else x
  }

  /** The thickness of a main arrow: `12 - (7 - |rowF - rowT|) / 1000`. */
  function MainThickness(move: string): real
    requires |move| >= 4
  {
    var scale := 7 - Abs(Row(move[0..2]) - Row(move[2..4]));
    12.0 - scale as real / 1000.0
  }

  /** A main arrow that crosses more ranks is slightly thicker, so it sorts before a shorter one of the same move list. */
  lemma LongerMainArrowIsThicker(m1: string, m2: string)
    requires |m1| >= 4 && |m2| >= 4
    requires Abs(Row(m1[0..2]) - Row(m1[2..4])) < Abs(Row(m2[0..2]) - Row(m2[2..4]))
    ensures MainThickness(m1) < MainThickness(m2)
  {
  }

  predicate IsRank(c: char)
  {
    '1' <= c <= '8'
  }

  /** Between two squares of the board, a main arrow is between 11.993 and 12 thick. */
  lemma MainThicknessRange(move: string)
    requires |move| >= 4 && IsRank(move[1]) && IsRank(move[3])
    ensures 11.993 <= MainThickness(move) <= 12.0
  {
    assert move[0..2][1] == move[1] && move[2..4][1] == move[3];
  }

  /** The main arrow of a move: opaque and without the response flag. */
  function MainArrow(move: string, color: string): Arrow
    requires |move| >= 4
  {
    Arrow(Substring(move, 0, 2), Substring(move, 2, 4), color, MainThickness(move), 1.0, false)
  }

  /** The share of the position's games a response was played in. */
  function Share(m: MoveStat, node: Node): Num
  {
    Div(m.total, node.total)
  }

  /**
   * The response arrows for the first k children of a node: one per child
   * whose share reaches the threshold; `thicknessOf` stands for
   * `27 * Math.sqrt(share)`.
   */
  function Responses(node: Node, color: string, thicknessOf: Num -> real, k: nat): seq<Arrow>
    requires k <= |node.children|
  {
    if k == 0 then []
    else
      var m := node.children[k - 1];
      Responses(node, color, thicknessOf, k - 1) +
        (if Ge(Share(m, node), Fin(ResponseThreshold))
         then [Arrow(Substring(m.move, 0, 2), Substring(m.move, 2, 4), color, thicknessOf(Share(m, node)), 1.0, true)]
         else [])
  }

  /** How many of the first k children reach the response threshold. */
  function Popular(node: Node, k: nat): nat
    requires k <= |node.children|
  {
    if k == 0 then 0
    else Popular(node, k - 1) + (if Ge(Share(node.children[k - 1], node), Fin(ResponseThreshold)) then 1 else 0)
  }

  /** One response arrow per child at or above the threshold; each is flagged as a response and drawn opaque. */
  lemma {:induction false} ResponsesPerPopularChild(node: Node, color: string, thicknessOf: Num -> real, k: nat)
    requires k <= |node.children|
    ensures |Responses(node, color, thicknessOf, k)| == Popular(node, k)
    ensures forall a :: a in Responses(node, color, thicknessOf, k) ==> a.isResponse && a.opacity == 1.0 && a.color == color
  {
    if k > 0 {
      ResponsesPerPopularChild(node, color, thicknessOf, k - 1);
    }
  }

  /**
   * The loop bound of queueMove is the number of fields of the node's first
   * child record, and it indexes the node's values, whose first entries are
   * the children; values past the children are numbers or strings that the
   * threshold test skips. So the children scanned are the first
   * `min(fieldsPerMove, number of children)`. The field count is read
   * afresh for each node, so callers give it as a function of the node.
   */
  function Scanned(node: Node, fieldsPerMove: nat): (k: nat)
    ensures k <= |node.children|
  {
    if fieldsPerMove < |node.children| then fieldsPerMove else |node.children|
  }

  /** What queueMove appends for one colored element. */
  function MoveArrows(move: string, node: Option<Node>, color: string, fieldsOf: Node -> nat, thicknessOf: Num -> real): seq<Arrow>
    requires |move| >= 4
  {
    [MainArrow(move, color)] +
      (if node.None? then [] else Responses(node.value, color, thicknessOf, Scanned(node.value, fieldsOf(node.value))))
  }

  /** The main arrow comes first and is the only arrow that is not a response. */
  lemma MoveArrowsShape(move: string, node: Option<Node>, color: string, fieldsOf: Node -> nat, thicknessOf: Num -> real)
    requires |move| >= 4
    ensures var r := MoveArrows(move, node, color, fieldsOf, thicknessOf);
      r[0] == MainArrow(move, color) && forall i :: 1 <= i < |r| ==> r[i].isResponse
    ensures node.None? ==> |MoveArrows(move, node, color, fieldsOf, thicknessOf)| == 1
  {
    if node.Some? {
      var k := Scanned(node.value, fieldsOf(node.value));
      ResponsesPerPopularChild(node.value, color, thicknessOf, k);
      var r := MoveArrows(move, node, color, fieldsOf, thicknessOf);
      forall i | 1 <= i < |r| ensures r[i].isResponse {
        assert r[i] in Responses(node.value, color, thicknessOf, k);
      }
    }
  }

  /** `queueMove`: push the main arrow, then, when the node is known, the response arrows. */
  method QueueMove(move: string, node: Option<Node>, color: string, fieldsOf: Node -> nat, thicknessOf: Num -> real,
                   arrowQueue: seq<Arrow>) returns (r: seq<Arrow>)
    requires |move| >= 4
    ensures r == arrowQueue + MoveArrows(move, node, color, fieldsOf, thicknessOf)
  {
    r := arrowQueue + [MainArrow(move, color)];
    if node.None? {
      return;
    }
    var n := node.value;
    var bound := Scanned(n, fieldsOf(n));
    var i := 0;
    while i < bound
      invariant 0 <= i <= bound
      invariant r == arrowQueue + [MainArrow(move, color)] + Responses(n, color, thicknessOf, i)
    {
      var m := n.children[i];
      if Ge(Share(m, n), Fin(ResponseThreshold)) {
        r := r + [Arrow(Substring(m.move, 0, 2), Substring(m.move, 2, 4), color, thicknessOf(Share(m, n)), 1.0, true)];
      }
      i := i + 1;
    }
  }

  /** The arrows of all colored elements, in the elements' order. */
  function FrontierArrows(colored: seq<ColoredElement>, fieldsOf: Node -> nat, thicknessOf: Num -> real): seq<Arrow>
    requires forall e :: e in colored ==> |e.data.move| >= 4
  {
    if colored == [] then []
    else
      var last := colored[|colored| - 1];
      FrontierArrows(colored[..|colored| - 1], fieldsOf, thicknessOf) +
        MoveArrows(last.data.move, last.data.node, last.color, fieldsOf, thicknessOf)
  }

  /** The loop of `drawColoredFrontier`, before the queue is drawn. */
  method QueueFrontier(colored: seq<ColoredElement>, fieldsOf: Node -> nat, thicknessOf: Num -> real) returns (arrowQueue: seq<Arrow>)
    requires forall e :: e in colored ==> |e.data.move| >= 4
    ensures arrowQueue == FrontierArrows(colored, fieldsOf, thicknessOf)
  {
    arrowQueue := [];
    var i := 0;
    while i < |colored|
      invariant 0 <= i <= |colored|
      invariant arrowQueue == FrontierArrows(colored[..i], fieldsOf, thicknessOf)
    {
      assert colored[..i + 1][..i] == colored[..i];
      var e := colored[i];
      arrowQueue := QueueMove(e.data.move, e.data.node, e.color, fieldsOf, thicknessOf, arrowQueue);
      i := i + 1;
    }
    assert colored[..i] == colored;
  }

  // ---------------------------------------------------------------- drawQueue

  /** The stable descending sort `(a, b) => b.thickness - a.thickness`, as an ascending sort by this key. */
  function NegThickness(a: Arrow): real
  {
    -a.thickness
  }

  /** One step of the `reduce`: the arrow joins the group of its origin, or opens a new group at the end. */
  function AddToGroups(gs: seq<seq<Arrow>>, x: Arrow): (r: seq<seq<Arrow>>)
  {
    if gs == [] then [[x]]
    else if gs[0] != [] && gs[0][0].from == x.from then [gs[0] + [x]] + gs[1..]
    else [gs[0]] + AddToGroups(gs[1..], x)
  }

  /** Adding an arrow to the groups adds exactly that arrow to their contents. */
  lemma {:induction false} AddToGroupsKeeps(gs: seq<seq<Arrow>>, x: Arrow)
    ensures multiset(Flatten(AddToGroups(gs, x))) == multiset(Flatten(gs)) + multiset{x}
  {
    if gs == [] {
      assert Flatten([[x]]) == [x] + Flatten([]);
    } else {
      var r := AddToGroups(gs, x);
      assert Flatten(gs) == gs[0] + Flatten(gs[1..]);
      assert Flatten(r) == r[0] + Flatten(r[1..]);
      if gs[0] != [] && gs[0][0].from == x.from {
        assert r[0] == gs[0] + [x] && r[1..] == gs[1..];
      } else {
        AddToGroupsKeeps(gs[1..], x);
        assert r[0] == gs[0] && r[1..] == AddToGroups(gs[1..], x);
      }
    }
  }

  function Flatten(gs: seq<seq<Arrow>>): seq<Arrow>
  {
    if gs == [] then [] else gs[0] + Flatten(gs[1..])
  }

  /** The groups of `drawQueue`, one per origin square. */
  function Partition(arrows: seq<Arrow>): (gs: seq<seq<Arrow>>)
    ensures multiset(Flatten(gs)) == multiset(arrows)
  {
    if arrows == [] then []
    else
      assert arrows == arrows[..|arrows| - 1] + [arrows[|arrows| - 1]];
      AddToGroupsKeeps(Partition(arrows[..|arrows| - 1]), arrows[|arrows| - 1]);
      AddToGroups(Partition(arrows[..|arrows| - 1]), arrows[|arrows| - 1])
  }

  ghost predicate NonEmptyGroups(gs: seq<seq<Arrow>>)
  {
    forall i :: 0 <= i < |gs| ==> gs[i] != []
  }

  /** The origin square of each group. */
  function Origins(gs: seq<seq<Arrow>>): (os: seq<string>)
    requires NonEmptyGroups(gs)
    ensures |os| == |gs|
    ensures forall i :: 0 <= i < |gs| ==> os[i] == gs[i][0].from
  {
    if gs == [] then [] else [gs[0][0].from] + Origins(gs[1..])
  }

  /** Adding an arrow keeps the existing origins and adds its own at the end when it is new. */
  lemma {:induction false} AddToGroupsOrigins(gs: seq<seq<Arrow>>, x: Arrow)
    requires NonEmptyGroups(gs)
    ensures NonEmptyGroups(AddToGroups(gs, x))
    ensures x.from in Origins(gs) ==> Origins(AddToGroups(gs, x)) == Origins(gs)
    ensures x.from !in Origins(gs) ==> Origins(AddToGroups(gs, x)) == Origins(gs) + [x.from]
  {
    if gs != [] {
      var o := Origins(gs);
      var tail := gs[1..];
      var r := AddToGroups(gs, x);
      assert o == [gs[0][0].from] + Origins(tail);
      if gs[0][0].from == x.from {
        assert r == [gs[0] + [x]] + tail;
        assert Origins(r) == [r[0][0].from] + Origins(r[1..]);
      } else {
        AddToGroupsOrigins(tail, x);
        var rt := AddToGroups(tail, x);
        assert r == [gs[0]] + rt;
        assert r[1..] == rt;
        assert Origins(r) == [gs[0][0].from] + Origins(rt);
        assert x.from in o <==> x.from in Origins(tail);
        if x.from !in o {
          assert Origins(r) == [gs[0][0].from] + (Origins(tail) + [x.from]);
        }
      }
    }
  }

  ghost predicate SameOrigin(g: seq<Arrow>)
  {
    forall a :: a in g ==> a.from == g[0].from
  }

  /** Adding an arrow keeps every group to a single origin. */
  lemma {:induction false} AddToGroupsUniform(gs: seq<seq<Arrow>>, x: Arrow)
    requires NonEmptyGroups(gs)
    requires forall i :: 0 <= i < |gs| ==> SameOrigin(gs[i])
    ensures forall i :: 0 <= i < |AddToGroups(gs, x)| ==> SameOrigin(AddToGroups(gs, x)[i])
  {
    var r := AddToGroups(gs, x);
    if gs == [] {
      assert r == [[x]];
    } else if gs[0][0].from == x.from {
      forall i | 0 <= i < |r| ensures SameOrigin(r[i]) {
        if i > 0 {
          assert r[i] == gs[i];
        }
      }
    } else {
      var tail := gs[1..];
      assert forall i :: 0 <= i < |tail| ==> tail[i] == gs[i + 1];
      AddToGroupsUniform(tail, x);
      forall i | 0 <= i < |r| ensures SameOrigin(r[i]) {
        if i > 0 {
          assert r[i] == AddToGroups(tail, x)[i - 1];
        }
      }
    }
  }

  /** Every group is non-empty and holds the arrows of one origin, and no two groups share an origin. */
  ghost predicate GroupedByOrigin(gs: seq<seq<Arrow>>)
  {
    NonEmptyGroups(gs) && (forall i :: 0 <= i < |gs| ==> SameOrigin(gs[i])) && Distinct(Origins(gs))
  }

  /** The partition groups the arrows by origin square, the origins in the order they first occur. */
  lemma {:induction false} PartitionGroups(arrows: seq<Arrow>)
    ensures GroupedByOrigin(Partition(arrows))
    ensures forall a :: a in arrows ==> a.from in Origins(Partition(arrows))
  {
    if arrows != [] {
      var init, x := arrows[..|arrows| - 1], arrows[|arrows| - 1];
      var gs := Partition(init);
      PartitionGroups(init);
      AddToGroupsOrigins(gs, x);
      AddToGroupsUniform(gs, x);
      var o, o' := Origins(gs), Origins(AddToGroups(gs, x));
      if x.from !in o {
        forall i, j | 0 <= i < j < |o'| ensures o'[i] != o'[j] {
          if j < |o| {
            assert o'[i] == o[i] && o'[j] == o[j];
          } else {
            assert o'[i] == o[i];
          }
        }
      }
      forall a | a in arrows ensures a.from in o' {
        if a != x {
          assert a in init;
        }
      }
    }
  }

  /** The thickness of the i-th arrow of a group after the adjustment loop of drawQueue. */
  function AdjustedThickness(g: seq<Arrow>, i: nat): real
    requires i < |g|
    decreases i
  {
    if i == 0 then
      if |g| == 1 then g[0].thickness * 1.2 * 0.8 else g[0].thickness * 1.2
    else if i == |g| - 1 then g[i].thickness * 0.8
    else
      var next := if i + 1 == |g| - 1 then g[i + 1].thickness * 0.8 else g[i + 1].thickness;
      g[i].thickness * 0.8 + (AdjustedThickness(g, i - 1) + next) / 2.0 * 0.2
  }

  /** A group after adjustment: the same arrows with new thicknesses. */
  function Adjusted(g: seq<Arrow>): (r: seq<Arrow>)
  {
    seq(|g|, i requires 0 <= i < |g| => g[i].(thickness := AdjustedThickness(g, i)))
  }

  /**
   * The in-place adjustment of one sorted group: the first arrow grows by a
   * fifth, the last shrinks by a fifth, and each arrow in between becomes
   * 0.8 of itself plus 0.2 of the mean of its already adjusted predecessor
   * and its successor.
   */
  method AdjustGroup(a: array<Arrow>)
    requires a.Length > 0
    modifies a
    ensures a[..] == Adjusted(old(a[..]))
  {
    ghost var g := a[..];
    var n := a.Length;
    a[0] := a[0].(thickness := a[0].thickness * 1.2);
    a[n - 1] := a[n - 1].(thickness := a[n - 1].thickness * 0.8);
    PartialStart(g, a[..]);
    var i := 1;
    while i < n - 1
      invariant 1 <= i <= if n >= 2 then n - 1 else 1
      invariant a[..] == Partial(g, i)
    {
      var prevThickness := a[i - 1].thickness;
      var nextThickness := a[i + 1].thickness;
      ghost var before := a[..];
      a[i] := a[i].(thickness := a[i].thickness * 0.8 + (prevThickness + nextThickness) / 2.0 * 0.2);
      assert a[..] == before[i := a[i]];
      PartialStep(g, i, before, a[i]);
      i := i + 1;
    }
    PartialEnd(g, i);
  }

  /** The group while the adjustment loop is at `i`: the arrows before `i` and the last one adjusted. */
  function Partial(g: seq<Arrow>, i: nat): (r: seq<Arrow>)
  {
    seq(|g|, j requires 0 <= j < |g| => if j < i || j == |g| - 1 then g[j].(thickness := AdjustedThickness(g, j)) else g[j])
  }

  lemma PartialStart(g: seq<Arrow>, s: seq<Arrow>)
    requires |g| > 0
    requires var n := |g|;
      var s0 := g[0 := g[0].(thickness := g[0].thickness * 1.2)];
      s == s0[n - 1 := s0[n - 1].(thickness := s0[n - 1].thickness * 0.8)]
    ensures s == Partial(g, 1)
  {
  }

  lemma PartialStep(g: seq<Arrow>, i: nat, s: seq<Arrow>, v: Arrow)
    requires 1 <= i < |g| - 1 && s == Partial(g, i)
    requires v == s[i].(thickness := s[i].thickness * 0.8 + (s[i - 1].thickness + s[i + 1].thickness) / 2.0 * 0.2)
    ensures s[i := v] == Partial(g, i + 1)
  {
    assert v == g[i].(thickness := AdjustedThickness(g, i));
  }

  lemma PartialEnd(g: seq<Arrow>, i: nat)
    requires |g| > 0 && i >= 1 && i >= |g| - 1
    ensures Partial(g, i) == Adjusted(g)
  {
  }

  /** One group of drawQueue once it is sorted thickest first and adjusted. */
  function ProcessGroup(g: seq<Arrow>): seq<Arrow>
  {
    Adjusted(SortBy(g, NegThickness))
  }

  /** What drawQueue draws, in drawing order. */
  function Drawn(arrows: seq<Arrow>): seq<Arrow>
  {
    SortBy(Flatten(Processed(Partition(arrows))), NegThickness)
  }

  /** Every group processed. */
  function Processed(gs: seq<seq<Arrow>>): seq<seq<Arrow>>
  {
    seq(|gs|, i requires 0 <= i < |gs| => ProcessGroup(gs[i]))
  }

  lemma ProcessedStep(gs: seq<seq<Arrow>>, i: nat, before: seq<seq<Arrow>>, r: seq<Arrow>)
    requires i < |gs| && before == Processed(gs[..i]) && r == ProcessGroup(gs[i])
    ensures before + [r] == Processed(gs[..i + 1])
  {
  }

  /** The body of the `forEach` over the groups: sort the group, then adjust it in place. */
  method SortAndAdjust(group: seq<Arrow>) returns (r: seq<Arrow>)
    ensures r == ProcessGroup(group)
  {
    var subset := SortBy(group, NegThickness);
    if |subset| == 0 {
      return [];
    }
    var a := new Arrow[|subset|](j requires 0 <= j < |subset| => subset[j]);
    assert a[..] == subset;
    AdjustGroup(a);
    r := a[..];
  }

  /** `drawQueue` up to the drawing itself: partition, sort and adjust each group, flatten, sort. */
  method DrawQueue(arrowQueue: seq<Arrow>) returns (drawn: seq<Arrow>)
    ensures drawn == Drawn(arrowQueue)
  {
    var groups := Partition(arrowQueue);
    var adjusted: seq<seq<Arrow>> := [];
    var i := 0;
    while i < |groups|
      invariant 0 <= i <= |groups|
      invariant adjusted == Processed(groups[..i])
    {
      var r := SortAndAdjust(groups[i]);
      ProcessedStep(groups, i, adjusted, r);
      adjusted := adjusted + [r];
      i := i + 1;
    }
    assert groups[..i] == groups;
    drawn := SortBy(Flatten(adjusted), NegThickness);
  }

  /** The arrows are drawn thickest first. */
  lemma DrawnThickestFirst(arrows: seq<Arrow>)
    ensures var d := Drawn(arrows);
      forall i, j :: 0 <= i < j < |d| ==> d[i].thickness >= d[j].thickness
  {
    var d := Drawn(arrows);
    assert SortedBy(d, NegThickness);
    forall i, j | 0 <= i < j < |d| ensures d[i].thickness >= d[j].thickness {
      assert NegThickness(d[i]) <= NegThickness(d[j]);
    }
  }

  // ------------------------------------------------------- what drawQueue keeps

  /** An arrow without its thickness. */
  function Shape(a: Arrow): Arrow
  {
    a.(thickness := 0.0)
  }

  function Shapes(s: seq<Arrow>): seq<Arrow>
  {
    if s == [] then [] else [Shape(s[0])] + Shapes(s[1..])
  }

  lemma {:induction false} ShapesAppend(s: seq<Arrow>, t: seq<Arrow>)
    ensures Shapes(s + t) == Shapes(s) + Shapes(t)
  {
    if s == [] {
      assert s + t == t;
    } else {
      assert (s + t)[0] == s[0] && (s + t)[1..] == s[1..] + t;
      ShapesAppend(s[1..], t);
    }
  }

  /** Rearranging arrows rearranges their shapes. */
  lemma {:induction false} ShapesPermutation(s: seq<Arrow>, t: seq<Arrow>)
    requires multiset(s) == multiset(t)
    ensures multiset(Shapes(s)) == multiset(Shapes(t))
    decreases |s|
  {
    if s != [] {
      var x, rest := s[0], s[1..];
      assert s == [x] + rest;
      assert x in multiset(t);
      var k :| 0 <= k < |t| && t[k] == x;
      var pre, post := t[..k], t[k + 1..];
      assert t == pre + [x] + post;
      SplitMultiset(pre, x, post);
      assert multiset(rest) == multiset(pre + post) by {
        CancelOne(x, multiset(rest), multiset(pre + post));
      }
      ShapesPermutation(rest, pre + post);
      ShapesAppend([x], rest);
      ShapesAppend(pre + [x], post);
      ShapesAppend(pre, [x]);
      ShapesAppend(pre, post);
      SplitMultiset(Shapes(pre), Shape(x), Shapes(post));
    }
  }

  lemma SplitMultiset<T>(pre: seq<T>, x: T, post: seq<T>)
    ensures multiset(pre + [x] + post) == multiset{x} + multiset(pre + post)
  {
    assert multiset(pre + [x] + post) == multiset(pre + [x]) + multiset(post);
    assert multiset(pre + post) == multiset(pre) + multiset(post);
  }

  lemma CancelOne<T>(x: T, a: multiset<T>, b: multiset<T>)
    requires multiset{x} + a == multiset{x} + b
    ensures a == b
  {
    assert a == (multiset{x} + a) - multiset{x};
    assert b == (multiset{x} + b) - multiset{x};
  }

  /** Flattening groups whose shapes agree one by one gives lists whose shapes agree. */
  lemma {:induction false} FlattenShapes(gs: seq<seq<Arrow>>, hs: seq<seq<Arrow>>)
    requires |gs| == |hs|
    requires forall i :: 0 <= i < |gs| ==> multiset(Shapes(gs[i])) == multiset(Shapes(hs[i]))
    ensures multiset(Shapes(Flatten(gs))) == multiset(Shapes(Flatten(hs)))
  {
    if gs != [] {
      assert forall i :: 0 <= i < |gs| - 1 ==> gs[1..][i] == gs[i + 1] && hs[1..][i] == hs[i + 1];
      FlattenShapes(gs[1..], hs[1..]);
      ShapesAppend(gs[0], Flatten(gs[1..]));
      ShapesAppend(hs[0], Flatten(hs[1..]));
    }
  }

  /** Adjusting a group changes only thicknesses. */
  lemma {:induction false} AdjustedShapes(g: seq<Arrow>, k: nat)
    requires k <= |g|
    ensures Shapes(Adjusted(g)[k..]) == Shapes(g[k..])
    decreases |g| - k
  {
    if k < |g| {
      AdjustedShapes(g, k + 1);
      assert Adjusted(g)[k..] == [Adjusted(g)[k]] + Adjusted(g)[k + 1..];
      assert g[k..] == [g[k]] + g[k + 1..];
    }
  }

  lemma ProcessGroupShapes(g: seq<Arrow>)
    ensures multiset(Shapes(ProcessGroup(g))) == multiset(Shapes(g))
  {
    var s := SortBy(g, NegThickness);
    AdjustedShapes(s, 0);
    assert Adjusted(s)[0..] == Adjusted(s) && s[0..] == s;
    ShapesPermutation(s, g);
  }

  /** drawQueue draws every queued arrow exactly once; only thicknesses change. */
  lemma DrawnKeepsArrows(arrows: seq<Arrow>)
    ensures multiset(Shapes(Drawn(arrows))) == multiset(Shapes(arrows))
  {
    var gs := Partition(arrows);
    var hs := Processed(gs);
    forall i | 0 <= i < |gs| ensures multiset(Shapes(hs[i])) == multiset(Shapes(gs[i])) {
      ProcessGroupShapes(gs[i]);
    }
    ShapesPermutation(Drawn(arrows), Flatten(hs));
    FlattenShapes(hs, gs);
    ShapesPermutation(Flatten(gs), arrows);
  }

  /** The thickest and the thinnest arrow of a group come first and last once it is sorted. */
  lemma SortedGroupEnds(g: seq<Arrow>)
    requires g != []
    ensures var s := SortBy(g, NegThickness);
      && s[0] in g && s[|s| - 1] in g
      && forall k :: 0 <= k < |g| ==> s[|s| - 1].thickness <= g[k].thickness <= s[0].thickness
  {
    var s := SortBy(g, NegThickness);
    assert s[0] in multiset(s) && s[|s| - 1] in multiset(s);
    forall k | 0 <= k < |g| ensures s[|s| - 1].thickness <= g[k].thickness <= s[0].thickness {
      assert g[k] in multiset(g);
      assert g[k] in s;
      var m :| 0 <= m < |s| && s[m] == g[k];
      assert NegThickness(s[0]) <= NegThickness(s[m]) <= NegThickness(s[|s| - 1]);
    }
  }

  /**
   * In a group of two or more, the thickest arrow grows by a fifth and the
   * thinnest shrinks by a fifth; a lone arrow ends at 0.96 of its thickness.
   */
  lemma GroupEnds(g: seq<Arrow>)
    requires g != []
    ensures var s := SortBy(g, NegThickness); var r := ProcessGroup(g);
      && |r| == |g|
      && (|g| >= 2 ==> r[0].thickness == s[0].thickness * 1.2 && r[|r| - 1].thickness == s[|s| - 1].thickness * 0.8)
      && (|g| == 1 ==> r[0].thickness == g[0].thickness * 0.96)
  {
    var s := SortBy(g, NegThickness);
    if |g| == 1 {
      assert s[0] in multiset(g);
      assert s[0] == g[0];
    }
  }

  /**
   * With non-negative thicknesses sorted thickest first, every adjusted arrow
   * stays between the adjusted last and first arrows.
   */
  lemma {:induction false} AdjustedBetweenEnds(g: seq<Arrow>, i: nat)
    requires 2 <= |g| && i < |g|
    requires forall j, k :: 0 <= j < k < |g| ==> g[j].thickness >= g[k].thickness
    requires g[|g| - 1].thickness >= 0.0
    ensures i == 0 || i == |g| - 1 || g[|g| - 1].thickness * 0.96 <= AdjustedThickness(g, i)
    ensures AdjustedThickness(g, |g| - 1) <= AdjustedThickness(g, i) <= AdjustedThickness(g, 0)
    decreases i
  {
    var lo, hi := g[|g| - 1].thickness, g[0].thickness;
    if 0 < i < |g| - 1 {
      AdjustedBetweenEnds(g, i - 1);
      assert lo <= g[i].thickness <= hi;
      assert lo <= g[i + 1].thickness <= hi;
    }
  }

  /** drawQueue keeps the thickest arrow of each group (of non-negative thicknesses) thickest and the thinnest thinnest. */
  lemma ProcessGroupKeepsEnds(g: seq<Arrow>)
    requires |g| >= 2
    requires forall k :: 0 <= k < |g| ==> g[k].thickness >= 0.0
    ensures var r := ProcessGroup(g);
      forall i :: 0 <= i < |r| ==> r[|r| - 1].thickness <= r[i].thickness <= r[0].thickness
  {
    var s := SortBy(g, NegThickness);
    SortedDescending(s);
    SortedGroupEnds(g);
    var m :| 0 <= m < |g| && g[m] == s[|s| - 1];
    AdjustedKeepsEnds(s);
  }

  /** Adjusting a descending group of non-negative thicknesses keeps its first arrow thickest and its last thinnest. */
  lemma AdjustedKeepsEnds(s: seq<Arrow>)
    requires |s| >= 2
    requires forall j, k :: 0 <= j < k < |s| ==> s[j].thickness >= s[k].thickness
    requires s[|s| - 1].thickness >= 0.0
    ensures var r := Adjusted(s);
      forall i :: 0 <= i < |r| ==> r[|r| - 1].thickness <= r[i].thickness <= r[0].thickness
  {
    var r := Adjusted(s);
    forall i | 0 <= i < |r| ensures r[|r| - 1].thickness <= r[i].thickness <= r[0].thickness {
      AdjustedBetweenEnds(s, i);
      assert r[i].thickness == AdjustedThickness(s, i);
    }
  }

  lemma SortedDescending(s: seq<Arrow>)
    requires SortedBy(s, NegThickness)
    ensures forall j, k :: 0 <= j < k < |s| ==> s[j].thickness >= s[k].thickness
  {
    forall j, k | 0 <= j < k < |s| ensures s[j].thickness >= s[k].thickness {
      assert NegThickness(s[j]) <= NegThickness(s[k]);
    }
  }
}
