/**
 * The items of `fenQueue` (main.js:150-155) and the two list operations the
 * explorer applies to it besides `push`: the LIFO `pop` of `processQueue`
 * (main.js:481) and the truncation at the start of every board refresh
 * (main.js:531).
 */
module FetchQueue {

  /**
   * The third field of a queue item: a number when `establishNode` queues a
   * cache miss, an opening-name label when gap-filling queues a frontier move.
   */
  datatype Priority = Level(p: real) | Label(name: string)

  datatype QueueItem = QueueItem(fen: string, depth: int, priority: Priority)

  /** `Math.ceil(n * 0.9)` on exact arithmetic: how many items a refresh keeps. */
  function KeptOnRefresh(n: nat): (k: nat)
    ensures 9 * n <= 10 * k < 9 * n + 10
    ensures k <= n
  {
    (9 * n + 9) / 10
  }

  /** A refresh drops exactly the `floor(n/10)` most recently pushed items. */
  lemma RefreshDropsTenth(n: nat)
    ensures n - KeptOnRefresh(n) == n / 10
  {
  }

  /** Queues shorter than ten items survive a refresh unchanged. */
  lemma ShortQueueSurvives(q: seq<QueueItem>)
    requires |q| < 10
    ensures q[..KeptOnRefresh(|q|)] == q
  {
  }

  /** A queue of a hundred items keeps its ninety oldest. */
  lemma HundredKeepsNinety()
    ensures KeptOnRefresh(100) == 90
  {
  }

  /** The order in which repeated `pop`s hand out the items of a list. */
  function Reversed<T>(s: seq<T>): (r: seq<T>)
    ensures |r| == |s|
    ensures forall i :: 0 <= i < |s| ==> r[i] == s[|s| - 1 - i]
  {
    if s == [] then [] else [s[|s| - 1]] + Reversed(s[..|s| - 1])
  }

  /** Of two items pushed one after the other, the later one is popped first. */
  lemma {:induction false} LaterPushPoppedFirst<T>(q: seq<T>, a: T, b: T)
    ensures Reversed(q + [a] + [b]) == [b, a] + Reversed(q)
  {
    var s := q + [a] + [b];
    var r := [b, a] + Reversed(q);
    assert |Reversed(s)| == |r|;
    forall i | 0 <= i < |r| ensures Reversed(s)[i] == r[i] {
      if i >= 2 {
        assert r[i] == Reversed(q)[i - 2] == q[|q| - 1 - (i - 2)];
      }
    }
  }
}
