/** The grouping of a move list into numbered (white, black) rows in
    apps/web/components/MoveHistory.tsx. */
module MoveHistory {
  import opened Protocol

  datatype MovePair = MovePair(number: nat, white: string, black: Option<string>)

  /** Row k: number k + 1, white's move 2k, and black's move 2k + 1 when
      it exists and is not empty (`moves[i + 1] || null`). */
  function PairAt(moves: seq<string>, k: nat): MovePair
    requires 2 * k < |moves|
  {
    MovePair(k + 1, moves[2 * k],
             if 2 * k + 1 < |moves| && moves[2 * k + 1] != "" then Some(moves[2 * k + 1]) else None)
  }

  /** All rows, one per started pair of moves. */
  function Pairs(moves: seq<string>): seq<MovePair> {
    seq((|moves| + 1) / 2, k requires 0 <= k < (|moves| + 1) / 2 => PairAt(moves, k))
  }

  /** The loop of the component: i steps by two, one row per step. There
      are ceil(n / 2) rows for n moves, the count the game page shows. */
  method GroupMoves(moves: seq<string>) returns (movePairs: seq<MovePair>)
    ensures |movePairs| == (|moves| + 1) / 2
    ensures movePairs == Pairs(moves)
  {
    movePairs := [];
    var i := 0;
    while i < |moves|
      invariant i % 2 == 0 && i <= |moves| + 1
      invariant |movePairs| == i / 2
      invariant forall k :: 0 <= k < |movePairs| ==> 2 * k < |moves| && movePairs[k] == PairAt(moves, k)
    {
      movePairs := movePairs + [MovePair(i / 2 + 1, moves[i],
                                         if i + 1 < |moves| && moves[i + 1] != "" then Some(moves[i + 1]) else None)];
      i := i + 2;
    }
  }

  /** Reading the rows back: white's move, then black's when there is one. */
  function Flatten(pairs: seq<MovePair>): seq<string> {
    if pairs == [] then []
    else [pairs[0].white] + (if pairs[0].black.Some? then [pairs[0].black.value] else []) + Flatten(pairs[1..])
  }

  predicate NoEmptyMoves(moves: seq<string>) {
    forall i :: 0 <= i < |moves| ==> moves[i] != ""
  }

  lemma {:induction false} FlattenFrom(moves: seq<string>, k: nat)
    requires NoEmptyMoves(moves)
    requires k <= |Pairs(moves)|
    ensures 2 * k <= |moves| + 1
    ensures Flatten(Pairs(moves)[k..]) == moves[if 2 * k <= |moves| then 2 * k else |moves|..]
    decreases |Pairs(moves)| - k
  {
    var ps := Pairs(moves);
    if k == |ps| {
      assert ps[k..] == [];
    } else {
      FlattenFrom(moves, k + 1);
      assert ps[k..][1..] == ps[k + 1..];
      var p := ps[k];
      assert p == PairAt(moves, k);
      if 2 * k + 1 < |moves| {
        assert moves[2 * k..] == [moves[2 * k], moves[2 * k + 1]] + moves[2 * k + 2..];
      } else {
        assert moves[2 * k..] == [moves[2 * k]];
      }
    }
  }

  /** With no empty entries, the rows read back to exactly the move list. */
  lemma FlattenPairs(moves: seq<string>)
    requires NoEmptyMoves(moves)
    ensures Flatten(Pairs(moves)) == moves
  {
    FlattenFrom(moves, 0);
    assert Pairs(moves)[0..] == Pairs(moves);
  }

  /** With no empty entries, only the last row can lack black's move, and
      it does exactly when the number of moves is odd. */
  lemma OnlyLastPairOpen(moves: seq<string>)
    requires NoEmptyMoves(moves)
    ensures forall k :: 0 <= k < |Pairs(moves)| - 1 ==> Pairs(moves)[k].black.Some?
    ensures |moves| > 0 ==> (Pairs(moves)[|Pairs(moves)| - 1].black.None? <==> |moves| % 2 == 1)
  {
  }

  lemma NoMovesNoPairs()
    ensures Pairs([]) == []
  {
  }
}
