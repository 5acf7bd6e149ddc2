/**
 * The filter selection (rating bands and time controls) and the cache key built
 * from it (main.js:262-263, 291-305, 428-432).
 */
module Filters {
  import opened Sorting

  /** The decimal text of a number, as `String(n)` gives it. */
  function NatToString(n: nat): (s: string)
    ensures |s| >= 1
    ensures forall i :: 0 <= i < |s| ==> '0' <= s[i] <= '9'
  {
    if n < 10 then [Digit(n)] else NatToString(n / 10) + [Digit(n % 10)]
  }

  function Digit(d: nat): char
    requires d < 10
  {
    "0123456789"[d]
  }

  /** `ratings.join(",")` */
  function JoinRatings(rs: seq<nat>): (r: string)
    ensures rs != [] ==> |r| >= |NatToString(rs[0])| && r[..|NatToString(rs[0])|] == NatToString(rs[0])
  {
    if rs == [] then "" else if |rs| == 1 then NatToString(rs[0])
    else NatToString(rs[0]) + "," + JoinRatings(rs[1..])
  }

  /** `timeControls.join(",")` */
  function JoinWords(ws: seq<string>): string
  {
    if ws == [] then "" else if |ws| == 1 then ws[0]
    else ws[0] + "," + JoinWords(ws[1..])
  }

  /** `${fen}-${ratings}-${timeControls}`: the key of the statistics cache. */
  function CacheKey(fen: string, ratings: seq<nat>, timeControls: seq<string>): (key: string)
    ensures |key| == |fen| + |Suffix(ratings, timeControls)|
    ensures key[..|fen|] == fen
  {
    fen + Suffix(ratings, timeControls)
  }

  /** The part of the key that comes from the filters. */
  function Suffix(ratings: seq<nat>, timeControls: seq<string>): string
  {
    "-" + JoinRatings(ratings) + "-" + JoinWords(timeControls)
  }

  /** Under one filter selection, different positions never share a key. */
  lemma KeyDeterminesPosition(f1: string, f2: string, ratings: seq<nat>, timeControls: seq<string>)
    requires CacheKey(f1, ratings, timeControls) == CacheKey(f2, ratings, timeControls)
    ensures f1 == f2
  {
    var k := CacheKey(f1, ratings, timeControls);
    assert |f1| == |f2|;
    assert f1 == k[..|f1|] == f2;
  }

  /**
   * The key depends on the order of the selected ratings, not only on which
   * ones are selected: selecting 1800 then 2000 and selecting 2000 then 1800
   * give two keys for the same filters.
   */
  lemma KeyDependsOnOrder(fen: string, timeControls: seq<string>)
    ensures CacheKey(fen, [1800, 2000], timeControls) != CacheKey(fen, [2000, 1800], timeControls)
  {
    LeadingDigits();
    SwappedPairKeys(fen, 1800, 2000, timeControls);
  }

  /** Two ratings whose decimal texts start differently give different keys in the two orders. */
  lemma SwappedPairKeys(fen: string, a: nat, b: nat, timeControls: seq<string>)
    requires NatToString(a)[0] != NatToString(b)[0]
    ensures CacheKey(fen, [a, b], timeControls) != CacheKey(fen, [b, a], timeControls)
  {
    FirstRatingAfterFen(fen, [a, b], timeControls);
    FirstRatingAfterFen(fen, [b, a], timeControls);
  }

  /** Right after the position and its dash, the key spells the first selected rating. */
  lemma FirstRatingAfterFen(fen: string, ratings: seq<nat>, timeControls: seq<string>)
    requires ratings != []
    ensures |CacheKey(fen, ratings, timeControls)| > |fen| + 1
    ensures CacheKey(fen, ratings, timeControls)[|fen| + 1] == NatToString(ratings[0])[0]
  {
    var j := JoinRatings(ratings);
    assert j[0] == j[..|NatToString(ratings[0])|][0];
    var suffix := Suffix(ratings, timeControls);
    assert suffix[1] == j[0];
  }

  lemma LeadingDigits()
    ensures NatToString(1800)[0] == '1' && NatToString(2000)[0] == '2'
  {
    assert NatToString(180)[0] == NatToString(18)[0] == NatToString(1)[0];
    assert NatToString(200)[0] == NatToString(20)[0] == NatToString(2)[0];
  }

  /** The selection without `value` (`list.filter(v => v !== value)`). */
  function Without<T(==, !new)>(s: seq<T>, value: T): (r: seq<T>)
    ensures forall x :: x in r <==> x in s && x != value
    ensures |r| <= |s|
  {
    if s == [] then []
    else (if s[0] == value then [] else [s[0]]) + Without(s[1..], value)
  }

  /**
   * A click on a filter button: the button's class is toggled, then the value
   * is appended when the button became active and removed when it did not.
   */
  function Toggled<T(==, !new)>(s: seq<T>, value: T, nowActive: bool): (r: seq<T>)
    ensures forall x :: x in r <==> (x in s && x != value) || (nowActive && x == value)
    ensures nowActive ==> |r| == |s| + 1 && r[..|s|] == s && r[|s|] == value
  {
    if nowActive then s + [value] else Without(s, value)
  }

  /** Without leaves a selection that does not hold the value as it was. */
  lemma {:induction false} WithoutAbsent<T(!new)>(s: seq<T>, value: T)
    requires value !in s
    ensures Without(s, value) == s
  {
    if s != [] {
      WithoutAbsent(s[1..], value);
      assert s == [s[0]] + s[1..];
    }
  }

  /** Without works piece by piece, so the elements it keeps stay in their order, repeats included. */
  lemma {:induction false} WithoutConcat<T(!new)>(a: seq<T>, b: seq<T>, value: T)
    ensures Without(a + b, value) == Without(a, value) + Without(b, value)
  {
    if a == [] {
      assert a + b == b;
    } else {
      assert (a + b)[0] == a[0] && (a + b)[1..] == a[1..] + b;
      WithoutConcat(a[1..], b, value);
    }
  }

  /** Removing a value that occurs once leaves what came before and after it, in order. */
  lemma WithoutOnce<T(!new)>(pre: seq<T>, post: seq<T>, value: T)
    requires value !in pre + post
    ensures Without(pre + [value] + post, value) == pre + post
  {
    assert value !in pre && value !in post by {
      assert forall x :: x in pre ==> x in pre + post;
      assert forall x :: x in post ==> x in pre + post;
    }
    WithoutConcat(pre + [value], post, value);
    WithoutConcat(pre, [value], value);
    assert Without([value], value) == [] by { assert [value][1..] == []; }
    WithoutAbsent(pre, value);
    WithoutAbsent(post, value);
    assert Without(pre + [value], value) == pre;
  }

  /** Switching a button off removes its one occurrence and keeps the others in their order. */
  lemma ToggledOffKeepsOrder<T(!new)>(pre: seq<T>, post: seq<T>, value: T)
    requires value !in pre + post
    ensures Toggled(pre + [value] + post, value, false) == pre + post
  {
    WithoutOnce(pre, post, value);
  }

  /** Removing what was just appended restores the selection. */
  lemma {:induction false} WithoutAppended<T(!new)>(s: seq<T>, value: T)
    requires value !in s
    ensures Without(s + [value], value) == s
  {
    if s == [] {
    } else {
      assert (s + [value])[1..] == s[1..] + [value];
      WithoutAppended(s[1..], value);
      assert s == [s[0]] + s[1..];
    }
  }

  /** Clicking a button on and off again, starting from a selection without its value, is a round trip. */
  lemma ToggleOnOff<T(!new)>(s: seq<T>, value: T)
    requires value !in s
    ensures Toggled(Toggled(s, value, true), value, false) == s
  {
    WithoutAppended(s, value);
  }

  /**
   * The buttons and the lists agree when a value is selected exactly when its
   * button is active; a click then keeps them in agreement and never makes a
   * value appear twice.
   */
  lemma ToggleKeepsNoRepeats<T(!new)>(s: seq<T>, value: T, wasActive: bool)
    requires wasActive <==> value in s
    requires Distinct(s)
    ensures var r := Toggled(s, value, !wasActive); (value in r <==> !wasActive) && Distinct(r)
  {
    if wasActive {
      WithoutNoRepeats(s, value);
    } else {
      var r := s + [value];
      forall i, j | 0 <= i < j < |r| ensures r[i] != r[j] {
        if j == |s| {
          assert r[i] == s[i];
        } else {
          assert r[i] == s[i] && r[j] == s[j];
        }
      }
    }
  }

  lemma {:induction false} WithoutNoRepeats<T(!new)>(s: seq<T>, value: T)
    requires Distinct(s)
    ensures Distinct(Without(s, value))
  {
    if s != [] {
      var t := s[1..];
      assert Distinct(t) by {
        forall i, j | 0 <= i < j < |t| ensures t[i] != t[j] {
          assert t[i] == s[i + 1] && t[j] == s[j + 1];
        }
      }
      WithoutNoRepeats(t, value);
      var w := Without(t, value);
      if s[0] != value {
        forall k | 0 <= k < |t| ensures t[k] != s[0] {
          assert t[k] == s[k + 1];
        }
        assert s[0] !in w;
        var r := [s[0]] + w;
        assert Without(s, value) == r;
        forall i, j | 0 <= i < j < |r| ensures r[i] != r[j] {
          if i == 0 {
            assert r[j] == w[j - 1];
          } else {
            assert r[i] == w[i - 1] && r[j] == w[j - 1];
          }
        }
      }
    }
  }
}
