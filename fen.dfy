/**
 * The part of a FEN record the explorer reads: its fields are separated by
 * single spaces and the second field is the active colour, "w" or "b"
 * (section 16.1.3.2 of the PGN Standard).
 */
module Fen {
  import opened Wrappers

  /** `s.split(" ")`: the pieces between single spaces, empty pieces included. */
  function SplitSpace(s: string): (parts: seq<string>)
    ensures |parts| >= 1
    ensures forall i :: 0 <= i < |parts| ==> ' ' !in parts[i]
    ensures |parts| > 1 <==> ' ' in s
  {
    if s == [] then [[]]
    else
      var rest := SplitSpace(s[1..]);
      if s[0] == ' ' then [[]] + rest
      else [[s[0]] + rest[0]] + rest[1..]
  }

  /** `parts.join(" ")`, the inverse of SplitSpace. */
  function JoinSpace(parts: seq<string>): string
    requires |parts| >= 1
  {
    if |parts| == 1 then parts[0] else parts[0] + " " + JoinSpace(parts[1..])
  }

  /** Splitting a space-joined list of space-free fields gives the fields back. */
  lemma {:induction false} SplitJoin(parts: seq<string>)
    requires |parts| >= 1
    requires forall i :: 0 <= i < |parts| ==> ' ' !in parts[i]
    ensures SplitSpace(JoinSpace(parts)) == parts
  {
    if |parts| == 1 {
      SplitPlain(parts[0]);
    } else {
      var tail := JoinSpace(parts[1..]);
      SplitJoin(parts[1..]);
      SplitPrefix(parts[0], tail);
      assert parts == [parts[0]] + parts[1..];
    }
  }

  /** A space-free string splits into itself. */
  lemma {:induction false} SplitPlain(w: string)
    requires ' ' !in w
    ensures SplitSpace(w) == [w]
  {
    if w != [] {
      SplitPlain(w[1..]);
      assert w == [w[0]] + w[1..];
    }
  }

  /** A space-free word followed by a space splits off as the first piece. */
  lemma {:induction false} SplitPrefix(w: string, rest: string)
    requires ' ' !in w
    ensures SplitSpace(w + " " + rest) == [w] + SplitSpace(rest)
  {
    if w == [] {
      assert w + " " + rest == [' '] + rest;
      assert (w + " " + rest)[1..] == rest;
    } else {
      SplitPrefix(w[1..], rest);
      assert (w + " " + rest)[1..] == w[1..] + " " + rest;
      assert w == [w[0]] + w[1..];
    }
  }

  /** `getTurnFromFEN`: the second space-separated field, or `undefined` when there is none. */
  function TurnFromFen(fen: string): (turn: Option<string>)
    ensures turn.Some? <==> ' ' in fen
    ensures turn.Some? ==> ' ' !in turn.value
  {
    var parts := SplitSpace(fen);
    if |parts| > 1 then Some(parts[1]) else None
  }

  /** For a FEN record given by its fields, the turn read back is its active-colour field. */
  lemma TurnOfFields(fields: seq<string>)
    requires |fields| >= 2
    requires forall i :: 0 <= i < |fields| ==> ' ' !in fields[i]
    ensures TurnFromFen(JoinSpace(fields)) == Some(fields[1])
  {
    SplitJoin(fields);
  }

  /**
   * main.js:738: the side to move is the "opponent" when it is not the side
   * at the bottom of the board; `flipped` is a board shown from Black's side.
   */
  predicate IsOpponent(flipped: bool, turn: Option<string>)
  {
    (flipped && turn == Some("w")) || (!flipped && turn == Some("b"))
  }

  /**
   * For a proper active colour, the opponent's turn is the one whose colour
   * is at the top of the board; for a missing colour the player's criteria apply.
   */
  lemma OpponentIsTopSide(flipped: bool, turn: Option<string>)
    ensures turn == Some("w") || turn == Some("b") ==>
      (IsOpponent(flipped, turn) <==> (turn == Some("w")) == flipped)
    ensures turn.None? ==> !IsOpponent(flipped, turn)
  {
  }
}
