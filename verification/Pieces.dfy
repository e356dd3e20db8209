/** A sequence cut into pieces, and the places where one piece ends and the next begins. */
module Pieces {
  import opened Prelude

  /** The first `k` pieces, joined. */
  function JoinedTo<T>(ps: seq<seq<T>>, k: nat): seq<T>
    requires k <= |ps|
  {
    if k == 0 then [] else JoinedTo(ps, k - 1) + ps[k - 1]
  }

  function Joined<T>(ps: seq<seq<T>>): seq<T> {
    JoinedTo(ps, |ps|)
  }

  /** Where piece `k` begins. */
  function Offset<T>(ps: seq<seq<T>>, k: nat): nat
    requires k <= |ps|
  {
    |JoinedTo(ps, k)|
  }

  ghost predicate AtBoundary<T>(ps: seq<seq<T>>, i: nat) {
    exists k :: 0 <= k <= |ps| && Offset(ps, k) == i
  }

  ghost predicate NoneEmpty<T>(ps: seq<seq<T>>) {
    forall i :: 0 <= i < |ps| ==> |ps[i]| > 0
  }

  /** Joining up to a place in the second of two sequences of pieces. */
  lemma {:induction false} JoinedToJoins<T>(a: seq<seq<T>>, b: seq<seq<T>>, k: nat)
    requires k <= |b|
    ensures JoinedTo(a + b, |a| + k) == JoinedTo(a, |a|) + JoinedTo(b, k)
    decreases k
  {
    if k == 0 {
      PrefixAlike(a, b, |a|);
    } else {
      JoinedToJoins(a, b, k - 1);
      assert (a + b)[|a| + k - 1] == b[k - 1];
      assert JoinedTo(a + b, |a| + k) == JoinedTo(a + b, |a| + k - 1) + b[k - 1];
      Regroup(JoinedTo(a, |a|), JoinedTo(b, k - 1), b[k - 1]);
    }
  }

  lemma {:induction false} PrefixAlike<T>(a: seq<seq<T>>, b: seq<seq<T>>, k: nat)
    requires k <= |a|
    ensures JoinedTo(a + b, k) == JoinedTo(a, k)
    decreases k
  {
    if k > 0 {
      PrefixAlike(a, b, k - 1);
    }
  }

  lemma JoinedJoins<T>(a: seq<seq<T>>, b: seq<seq<T>>)
    ensures Joined(a + b) == Joined(a) + Joined(b)
  {
    JoinedToJoins(a, b, |b|);
  }

  /** What follows a boundary is the join of the pieces that follow it. */
  lemma TailJoins<T>(ps: seq<seq<T>>, k: nat, j: nat)
    requires k <= |ps| && j <= |ps| - k
    ensures JoinedTo(ps, k + j) == JoinedTo(ps, k) + JoinedTo(ps[k..], j)
  {
    assert ps[..k] + ps[k..] == ps;
    JoinedToJoins(ps[..k], ps[k..], j);
    JoinedToJoins(ps[..k], ps[k..], 0);
  }

  lemma {:induction false} OffsetsGrow<T>(ps: seq<seq<T>>, j: nat, k: nat)
    requires NoneEmpty(ps) && j <= k <= |ps|
    ensures Offset(ps, j) + (k - j) <= Offset(ps, k)
    decreases k - j
  {
    if j < k {
      OffsetsGrow(ps, j, k - 1);
    }
  }

  /** Piece `k` stands at its offset. */
  lemma PieceStands<T>(ps: seq<seq<T>>, k: nat)
    requires k < |ps|
    ensures Offset(ps, k) + |ps[k]| == Offset(ps, k + 1) <= |Joined(ps)|
    ensures Joined(ps)[Offset(ps, k)..Offset(ps, k + 1)] == ps[k]
  {
    TailJoins(ps, k + 1, |ps| - (k + 1));
    var before, rest := JoinedTo(ps, k), JoinedTo(ps[k + 1..], |ps| - (k + 1));
    assert Joined(ps) == before + ps[k] + rest;
  }

  /** Which piece an element belongs to. */
  lemma {:induction false} Locate<T>(ps: seq<seq<T>>, i: nat, n: nat) returns (k: nat)
    requires n <= |ps| && i < Offset(ps, n)
    ensures k < n && Offset(ps, k) <= i < Offset(ps, k + 1)
    decreases n
  {
    if i >= Offset(ps, n - 1) {
      k := n - 1;
    } else {
      k := Locate(ps, i, n - 1);
    }
  }

  /** The start of a piece is the only boundary in it. */
  lemma OnlyBoundaryInPiece<T>(ps: seq<seq<T>>, k: nat, i: nat)
    requires NoneEmpty(ps) && k < |ps| && Offset(ps, k) <= i < Offset(ps, k + 1)
    ensures AtBoundary(ps, i) <==> i == Offset(ps, k)
  {
    if AtBoundary(ps, i) {
      var j :| 0 <= j <= |ps| && Offset(ps, j) == i;
      if j < k {
        OffsetsGrow(ps, j, k);
      } else if j > k {
        OffsetsGrow(ps, k + 1, j);
      }
    }
  }

  /** A place belongs to one piece only. */
  lemma OnePieceOnly<T>(ps: seq<seq<T>>, j: nat, k: nat, i: nat)
    requires NoneEmpty(ps) && j < |ps| && k < |ps|
    requires Offset(ps, j) <= i < Offset(ps, j + 1) && Offset(ps, k) <= i < Offset(ps, k + 1)
    ensures j == k
  {
    if j < k {
      OffsetsGrow(ps, j + 1, k);
    } else if k < j {
      OffsetsGrow(ps, k + 1, j);
    }
  }

  /** A boundary keeps every piece whole on one side. */
  lemma BoundaryCutsNoPiece<T>(ps: seq<seq<T>>, boundary: nat, k: nat)
    requires NoneEmpty(ps) && AtBoundary(ps, boundary) && k < |ps|
    ensures Offset(ps, k + 1) <= boundary || boundary <= Offset(ps, k)
  {
    if Offset(ps, k) < boundary < Offset(ps, k + 1) {
      OnlyBoundaryInPiece(ps, k, boundary);
    }
  }

  /** A place in the earlier pieces is a boundary of them exactly when it is one with later pieces appended. */
  lemma BoundaryStays<T>(ps: seq<seq<T>>, more: seq<seq<T>>, i: nat)
    requires i <= |Joined(ps)|
    ensures AtBoundary(ps + more, i) <==> AtBoundary(ps, i)
  {
    hide JoinedTo;
    if AtBoundary(ps, i) {
      var k :| 0 <= k <= |ps| && Offset(ps, k) == i;
      PrefixAlike(ps, more, k);
      assert Offset(ps + more, k) == i;
    }
    if AtBoundary(ps + more, i) {
      var k :| 0 <= k <= |ps + more| && Offset(ps + more, k) == i;
      if k <= |ps| {
        PrefixAlike(ps, more, k);
        assert Offset(ps, k) == i;
      } else {
        JoinedToJoins(ps, more, k - |ps|);
        assert Offset(ps, |ps|) == i;
      }
    }
  }

  /** The boundaries of what follows a boundary are those of the whole. */
  lemma TailBoundary<T>(ps: seq<seq<T>>, k: nat, i: nat)
    requires NoneEmpty(ps) && k <= |ps|
    ensures AtBoundary(ps[k..], i) <==> AtBoundary(ps, Offset(ps, k) + i)
  {
    hide JoinedTo, NoneEmpty;
    if AtBoundary(ps[k..], i) {
      var j :| 0 <= j <= |ps[k..]| && Offset(ps[k..], j) == i;
      TailJoins(ps, k, j);
      assert Offset(ps, k + j) == Offset(ps, k) + i;
    }
    if AtBoundary(ps, Offset(ps, k) + i) {
      var j :| 0 <= j <= |ps| && Offset(ps, j) == Offset(ps, k) + i;
      if j < k {
        OffsetsGrow(ps, j, k);
      } else {
        TailJoins(ps, k, j - k);
        assert Offset(ps[k..], j - k) == i;
      }
    }
  }
}
