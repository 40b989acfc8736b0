/** Sequence helpers shared by the audio buffers. */
module Seqs {

  /** The elements of all the pieces, piece after piece. */
  function Flatten<T>(pieces: seq<seq<T>>): seq<T> {
    if pieces == [] then [] else Flatten(pieces[..|pieces| - 1]) + pieces[|pieces| - 1]
  }

  /** Flattening distributes over appending a piece. */
  lemma FlattenAppend<T>(pieces: seq<seq<T>>, piece: seq<T>)
    ensures Flatten(pieces + [piece]) == Flatten(pieces) + piece
  {
    assert (pieces + [piece])[..|pieces|] == pieces;
  }

  /** Pieces of equal length `n` flatten to `n` elements per piece. */
  lemma {:induction false} FlattenLength<T>(pieces: seq<seq<T>>, n: nat)
    requires forall i :: 0 <= i < |pieces| ==> |pieces[i]| == n
    ensures |Flatten(pieces)| == n * |pieces|
  {
    if pieces != [] {
      var init := pieces[..|pieces| - 1];
      assert forall i :: 0 <= i < |init| ==> |init[i]| == n by {
        forall i | 0 <= i < |init| ensures |init[i]| == n {
          assert init[i] == pieces[i];
        }
      }
      FlattenLength(init, n);
      assert |Flatten(pieces)| == |Flatten(init)| + n;
      assert n * |pieces| == n * |init| + n;
    }
  }
}
