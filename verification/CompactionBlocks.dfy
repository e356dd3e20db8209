/** When a compaction boundary falls between tool blocks, and when it cuts one (src/context.rs). */
module CompactionBlocks {
  import opened Prelude
  import opened Messages
  import opened Compaction
  import opened Pieces

  /** A plain message, or a batch: its leading reasoning if any, its calls, then their results. */
  datatype Block = Plain(m: Message) | Batch(lead: Option<Message>, calls: seq<Message>, results: seq<Message>)

  ghost predicate ValidBlock(b: Block) {
    match b
    case Plain(m) => m.User? || m.Assistant?
    case Batch(lead, calls, results) =>
      && (lead.Some? ==> lead.value.Reasoning?)
      && calls != [] && (forall i :: 0 <= i < |calls| ==> calls[i].ToolCall?)
      && results != [] && (forall i :: 0 <= i < |results| ==> results[i].ToolResult?)
  }

  function Lead(b: Block): seq<Message> {
    if b.Batch? && b.lead.Some? then [b.lead.value] else []
  }

  function Flat(b: Block): seq<Message> {
    match b
    case Plain(m) => [m]
    case Batch(_, calls, results) => Lead(b) + calls + results
  }

  function Flats(bs: seq<Block>): (ps: seq<seq<Message>>)
    ensures |ps| == |bs| && forall i :: 0 <= i < |bs| ==> ps[i] == Flat(bs[i])
  {
    seq(|bs|, i requires 0 <= i < |bs| => Flat(bs[i]))
  }

  /** The pieces of a journal are what these blocks say. */
  ghost predicate MadeOf(ps: seq<seq<Message>>, bs: seq<Block>) {
    |ps| == |bs| && forall i :: 0 <= i < |ps| ==> ValidBlock(bs[i]) && ps[i] == Flat(bs[i])
  }

  lemma MadeOfNoneEmpty(ps: seq<seq<Message>>, bs: seq<Block>)
    requires MadeOf(ps, bs)
    ensures NoneEmpty(ps)
  {
    forall i | 0 <= i < |ps|
      ensures |ps[i]| > 0
    {
      assert ValidBlock(bs[i]) && ps[i] == Flat(bs[i]);
    }
  }

  /** An unled batch of two calls or more. */
  ghost predicate Unled(b: Block) {
    b.Batch? && b.lead.None? && |b.calls| >= 2
  }

  /** The naive boundary falls inside an unled batch of two calls or more, past its first call. */
  ghost predicate InsideUnled(ps: seq<seq<Message>>, bs: seq<Block>, i: int)
    requires |ps| == |bs|
  {
    exists k :: 0 <= k < |bs| && Offset(ps, k) < i < Offset(ps, k + 1) && Unled(bs[k])
  }

  /** Inside block `k`, whose first message is at `start`. */
  ghost predicate LiesAt(ms: seq<Message>, b: Block, start: nat) {
    start + |Flat(b)| <= |ms| && ms[start..start + |Flat(b)|] == Flat(b)
  }

  lemma BlockShape(ms: seq<Message>, b: Block, start: nat)
    requires ValidBlock(b) && b.Batch? && LiesAt(ms, b, start)
    ensures |Flat(b)| == |Lead(b)| + |b.calls| + |b.results|
    ensures b.lead.Some? ==> ms[start].Reasoning?
    ensures forall i :: start + |Lead(b)| <= i < start + |Lead(b)| + |b.calls| ==> ms[i].ToolCall?
    ensures forall i :: start + |Lead(b)| + |b.calls| <= i < start + |Flat(b)| ==> ms[i].ToolResult?
  {
    forall i | start <= i < start + |Flat(b)|
      ensures ms[i] == Flat(b)[i - start]
    {
      assert ms[i] == ms[start..start + |Flat(b)|][i - start];
    }
  }

  /** Where the walk out of a batch ends, from any place in it. */
  lemma BatchSplit(ms: seq<Message>, b: Block, start: nat, keepRecent: nat)
    requires ValidBlock(b) && b.Batch? && LiesAt(ms, b, start) && keepRecent >= 1
    requires start <= |ms| - keepRecent < start + |Flat(b)|
    requires start > 0 ==> !ms[start - 1].ToolCall? && !ms[start - 1].Reasoning?
    ensures (b.lead.Some? || |b.calls| == 1 || |ms| - keepRecent == start) ==> Split(ms, keepRecent) == start
    ensures (b.lead.None? && |b.calls| > 1 && |ms| - keepRecent > start) ==>
        start < Split(ms, keepRecent) < start + |Flat(b)|
  {
    BlockShape(ms, b, start);
    var raw := |ms| - keepRecent;
    var firstCall, firstResult := start + |Lead(b)|, start + |Lead(b)| + |b.calls|;
    var call := BackOverResults(ms, raw);
    assert ms[firstResult - 1].ToolCall?;
    assert call == if raw >= firstResult then firstResult - 1 else raw;
    if call >= firstCall {
      var back := BackOverCalls(ms, call);
      assert b.lead.Some? ==> back == start;
      assert b.lead.None? ==> back == if start == 0 then 0 else start - 1;
    }
  }

  /** A block never ends in a call or in reasoning. */
  lemma BlockEnd(b: Block)
    requires ValidBlock(b)
    ensures |Flat(b)| > 0 && !Flat(b)[|Flat(b)| - 1].ToolCall? && !Flat(b)[|Flat(b)| - 1].Reasoning?
  {
    if b.Batch? {
      assert Flat(b)[|Flat(b)| - 1] == b.results[|b.results| - 1];
    }
  }

  lemma BeforeBlock(ps: seq<seq<Message>>, bs: seq<Block>, k: nat)
    requires MadeOf(ps, bs) && k < |ps| && Offset(ps, k) > 0
    ensures Offset(ps, k) <= |Joined(ps)|
    ensures !Joined(ps)[Offset(ps, k) - 1].ToolCall? && !Joined(ps)[Offset(ps, k) - 1].Reasoning?
  {
    hide ValidBlock, Flat;
    assert k > 0;
    var piece := ps[k - 1];
    BlockEnd(bs[k - 1]);
    PieceStands(ps, k - 1);
    assert Joined(ps)[Offset(ps, k) - 1] == Joined(ps)[Offset(ps, k - 1)..Offset(ps, k)][|piece| - 1];
  }

  lemma PlainSplit(ms: seq<Message>, keepRecent: nat)
    requires 1 <= keepRecent <= |ms| && (ms[|ms| - keepRecent].User? || ms[|ms| - keepRecent].Assistant?)
    ensures Split(ms, keepRecent) == |ms| - keepRecent
  {
  }

  /** The cut made from inside block `k`. */
  lemma SplitFromBlock(ps: seq<seq<Message>>, bs: seq<Block>, k: nat, keepRecent: nat)
    requires MadeOf(ps, bs) && k < |ps| && keepRecent >= 1
    requires Offset(ps, k) <= |Joined(ps)| - keepRecent < Offset(ps, k + 1)
    ensures Offset(ps, k) <= Split(Joined(ps), keepRecent) < Offset(ps, k + 1)
    ensures Split(Joined(ps), keepRecent) == Offset(ps, k)
        <==> !(Unled(bs[k]) && Offset(ps, k) < |Joined(ps)| - keepRecent)
  {
    hide Split, JoinedTo;
    var ms, start, b := Joined(ps), Offset(ps, k), bs[k];
    assert ValidBlock(b) && ps[k] == Flat(b);
    PieceStands(ps, k);
    assert LiesAt(ms, b, start);
    if start > 0 {
      BeforeBlock(ps, bs, k);
    }
    if b.Plain? {
      assert ms[start] == ms[start..start + 1][0] == b.m;
      PlainSplit(ms, keepRecent);
    } else {
      BatchSplit(ms, b, start, keepRecent);
    }
  }

  /** Whether the naive boundary is inside an unled batch is decided by its own block. */
  lemma OwnBlockDecides(ps: seq<seq<Message>>, bs: seq<Block>, k: nat, i: nat)
    requires |ps| == |bs| && NoneEmpty(ps) && k < |ps| && Offset(ps, k) <= i < Offset(ps, k + 1)
    ensures InsideUnled(ps, bs, i) <==> Unled(bs[k]) && Offset(ps, k) < i
  {
    if InsideUnled(ps, bs, i) {
      var j :| 0 <= j < |bs| && Offset(ps, j) < i < Offset(ps, j + 1) && Unled(bs[j]);
      OnePieceOnly(ps, j, k, i);
    }
  }

  /**
   * In a journal of blocks, a first cut falls between blocks exactly when the naive boundary was not inside an unled
   * batch of two calls or more; the code leaves those as they are.
   */
  lemma SplitIsBoundary(ps: seq<seq<Message>>, bs: seq<Block>, keepRecent: nat)
    requires MadeOf(ps, bs) && keepRecent >= 1
    ensures AtBoundary(ps, Split(Joined(ps), keepRecent))
       <==> |Joined(ps)| <= keepRecent || !InsideUnled(ps, bs, |Joined(ps)| - keepRecent)
  {
    hide Split, Unled, InsideUnled, MadeOf, AtBoundary, NoneEmpty, JoinedTo;
    MadeOfNoneEmpty(ps, bs);
    if |Joined(ps)| <= keepRecent {
      StartIsBoundary(ps);
    } else {
      var k := Locate(ps, |Joined(ps)| - keepRecent, |ps|);
      SplitInPiece(ps, bs, k, keepRecent, |Joined(ps)| - keepRecent, Split(Joined(ps), keepRecent));
    }
  }

  lemma StartIsBoundary(ps: seq<seq<Message>>)
    ensures AtBoundary(ps, 0)
  {
    assert Offset(ps, 0) == 0;
  }

  lemma SplitInPiece(ps: seq<seq<Message>>, bs: seq<Block>, k: nat, keepRecent: nat, raw: nat, split: nat)
    requires MadeOf(ps, bs) && NoneEmpty(ps) && k < |ps| && keepRecent >= 1
    requires raw == |Joined(ps)| - keepRecent && split == Split(Joined(ps), keepRecent)
    requires Offset(ps, k) <= raw < Offset(ps, k + 1)
    ensures AtBoundary(ps, split) <==> !InsideUnled(ps, bs, raw)
  {
    hide Split, JoinedTo, Unled;
    SplitFromBlock(ps, bs, k, keepRecent);
    OwnBlockDecides(ps, bs, k, raw);
    OnlyBoundaryInPiece(ps, k, split);
  }

  /** Being inside an unled batch, told from a block boundary on. */
  lemma InsideUnledShifts(ps: seq<seq<Message>>, bs: seq<Block>, k: nat, i: nat)
    requires |ps| == |bs| && NoneEmpty(ps) && k <= |ps|
    ensures InsideUnled(ps[k..], bs[k..], i) <==> InsideUnled(ps, bs, Offset(ps, k) + i)
  {
    hide JoinedTo, NoneEmpty, Unled;
    if InsideUnled(ps[k..], bs[k..], i) {
      var j :| 0 <= j < |bs[k..]| && Offset(ps[k..], j) < i < Offset(ps[k..], j + 1) && Unled(bs[k..][j]);
      TailOffsets(ps, k, j);
      assert Offset(ps, k + j) < Offset(ps, k) + i < Offset(ps, k + j + 1) && Unled(bs[k + j]);
    }
    if InsideUnled(ps, bs, Offset(ps, k) + i) {
      var j :| 0 <= j < |bs| && Offset(ps, j) < Offset(ps, k) + i < Offset(ps, j + 1) && Unled(bs[j]);
      if j < k {
        OffsetsGrow(ps, j + 1, k);
      } else {
        var n := j - k;
        TailOffsets(ps, k, n);
        assert bs[k..][n] == bs[j];
        assert Offset(ps[k..], n) < i < Offset(ps[k..], n + 1) && Unled(bs[k..][n]);
      }
    }
  }

  lemma TailOffsets(ps: seq<seq<Message>>, k: nat, j: nat)
    requires k <= |ps| && j < |ps| - k
    ensures Offset(ps, k + j) == Offset(ps, k) + Offset(ps[k..], j)
    ensures Offset(ps, k + j + 1) == Offset(ps, k) + Offset(ps[k..], j + 1)
  {
    hide JoinedTo;
    TailJoins(ps, k, j);
    TailJoins(ps, k, j + 1);
  }

  lemma TailSplits(ps: seq<seq<Message>>, bs: seq<Block>, k: nat, keepRecent: nat, tail: seq<Message>, split: nat)
    requires MadeOf(ps, bs) && keepRecent >= 1 && k <= |ps|
    requires tail == Joined(ps[k..]) && |tail| > keepRecent && split == Split(tail, keepRecent)
    ensures AtBoundary(ps, Offset(ps, k) + split) <==> !InsideUnled(ps, bs, Offset(ps, k) + |tail| - keepRecent)
  {
    hide Split, JoinedTo, Unled, InsideUnled, AtBoundary, NoneEmpty;
    MadeOfNoneEmpty(ps, bs);
    TailIsMade(ps, bs, k);
    hide MadeOf;
    SplitIsBoundary(ps[k..], bs[k..], keepRecent);
    TailBoundary(ps, k, split);
    InsideUnledShifts(ps, bs, k, |tail| - keepRecent);
  }

  lemma TailIsMade(ps: seq<seq<Message>>, bs: seq<Block>, k: nat)
    requires MadeOf(ps, bs) && k <= |ps|
    ensures |ps| == |bs| && MadeOf(ps[k..], bs[k..])
  {
    hide ValidBlock, Flat;
  }

  /**
   * A plan made from a block boundary ends at one exactly when its naive boundary is not inside an unled batch of two
   * calls or more.
   */
  lemma PlanBoundaryExactly(
    ps: seq<seq<Message>>, bs: seq<Block>, journal: seq<Message>, records: seq<Record>, keepRecent: nat)
    requires MadeOf(ps, bs) && keepRecent >= 1 && journal == Joined(ps)
    requires AtBoundary(ps, Boundary(journal, records))
    requires PlanCompaction(journal, records, keepRecent).Some?
    ensures AtBoundary(ps, PlanCompaction(journal, records, keepRecent).value.upTo)
       <==> !InsideUnled(ps, bs, |journal| - keepRecent)
  {
    hide Split, MadeOf, JoinedTo, Boundary, InsideUnled;
    var k :| 0 <= k <= |ps| && Offset(ps, k) == Boundary(journal, records);
    hide AtBoundary;
    TailJoins(ps, k, |ps| - k);
    var tail := journal[Offset(ps, k)..];
    assert tail == Joined(ps[k..]);
    TailSplits(ps, bs, k, keepRecent, tail, Split(tail, keepRecent));
  }

  /** No kept result loses its call and no kept call its reasoning: a batch is folded whole or kept whole. */
  lemma BoundaryCutsNoBlock(ps: seq<seq<Message>>, bs: seq<Block>, boundary: nat, k: nat)
    requires MadeOf(ps, bs) && AtBoundary(ps, boundary) && k < |ps|
    ensures Offset(ps, k + 1) <= boundary || boundary <= Offset(ps, k)
  {
    MadeOfNoneEmpty(ps, bs);
    BoundaryCutsNoPiece(ps, boundary, k);
  }

  /** The exception is real: of two parallel calls and their results, this boundary folds only the first call away. */
  lemma UnledBatchIsCut(ms: seq<Message>)
    requires |ms| == 4 && ms[0].ToolCall? && ms[1].ToolCall? && ms[2].ToolResult? && ms[3].ToolResult?
    ensures Split(ms, 1) == 1
  {
    assert BackOverResults(ms, 1) == 1;
    assert BackOverResults(ms, 2) == 1;
    assert BackOverCalls(ms, 0) == 0;
  }
}
