/**
 The source-address rotator: a producer that walks the configured address's sequential
 blocks, sends every address of each block in order, and starts over with the first block
 when the block iterator is exhausted. Blocks and addresses are inputs; the IP library
 that computes them is not part of this model.
 */
module Rotator {

  /** An address as the command line needs it: its canonical text and whether it is IPv6. */
  datatype Address = Address(canonical: string, isIPv6: bool)

  /** Sequential blocks are never empty, and an address has at least one block. */
  predicate ValidBlocks(blocks: seq<seq<Address>>) {
    |blocks| > 0 && forall b :: 0 <= b < |blocks| ==> |blocks[b]| > 0
  }

  /** One run of the block iterator: every address of every block, block after block. */
  function Pass(blocks: seq<seq<Address>>): seq<Address> {
    if |blocks| == 0 then [] else blocks[0] + Pass(blocks[1..])
  }

  /** The producer's position: the current block and the next address inside it. */
  datatype Cursor = Cursor(block: nat, offset: nat)

  predicate InRange(blocks: seq<seq<Address>>, c: Cursor) {
    c.block < |blocks| && c.offset < |blocks[c.block]|
  }

  /** The producer's step after sending one address. */
  function Advance(blocks: seq<seq<Address>>, c: Cursor): (next: Cursor)
    requires ValidBlocks(blocks) && InRange(blocks, c)
    ensures InRange(blocks, next)
  {
    if c.offset + 1 < |blocks[c.block]| then Cursor(c.block, c.offset + 1)
    else if c.block + 1 < |blocks| then Cursor(c.block + 1, 0)
    else Cursor(0, 0)
  }

  /** The next `n` addresses the producer sends from cursor `c`. */
  function Emit(blocks: seq<seq<Address>>, c: Cursor, n: nat): (r: seq<Address>)
    requires ValidBlocks(blocks) && InRange(blocks, c)
    ensures |r| == n
    decreases n
  {
    if n == 0 then [] else [blocks[c.block][c.offset]] + Emit(blocks, Advance(blocks, c), n - 1)
  }

  /** The first `n` addresses handed out; the producer starts with an exhausted iterator. */
  function Draws(blocks: seq<seq<Address>>, n: nat): (r: seq<Address>)
    requires ValidBlocks(blocks)
    ensures |r| == n
  {
    Emit(blocks, Cursor(0, 0), n)
  }

  /** Where a cursor sits within one pass. */
  function Position(blocks: seq<seq<Address>>, c: Cursor): nat
    requires c.block <= |blocks|
  {
    |Pass(blocks[..c.block])| + c.offset
  }

  /** The cursor after `k` sends. */
  function AdvanceN(blocks: seq<seq<Address>>, c: Cursor, k: nat): (next: Cursor)
    requires ValidBlocks(blocks) && InRange(blocks, c)
    ensures InRange(blocks, next)
    decreases k
  {
    if k == 0 then c else AdvanceN(blocks, Advance(blocks, c), k - 1)
  }

  /** Until the blocks run out, the producer sends the addresses of one pass in order. */
  lemma DrawsFirstPass(blocks: seq<seq<Address>>, n: nat)
    requires ValidBlocks(blocks) && n <= |Pass(blocks)|
    ensures Draws(blocks, n) == Pass(blocks)[..n]
  {
    EmitFrom(blocks, Cursor(0, 0), n);
  }

  /**
   Once every block has been sent, the producer starts again from the first address of the
   first block: the draws are one whole pass followed by the draws of a fresh producer.
   */
  lemma DrawsRestart(blocks: seq<seq<Address>>, n: nat)
    requires ValidBlocks(blocks)
    ensures Draws(blocks, |Pass(blocks)| + n) == Pass(blocks) + Draws(blocks, n)
  {
    var len := |Pass(blocks)|;
    EmitFrom(blocks, Cursor(0, 0), len);
    EmitSplit(blocks, Cursor(0, 0), len, n);
  }

  /** Within a pass, block b's j-th address follows the addresses of the earlier blocks. */
  lemma PassAt(blocks: seq<seq<Address>>, b: nat, j: nat)
    requires b < |blocks| && j < |blocks[b]|
    ensures |Pass(blocks[..b])| + j < |Pass(blocks)|
    ensures Pass(blocks)[|Pass(blocks[..b])| + j] == blocks[b][j]
  {
    PassPrefix(blocks, b + 1);
    PrefixStep(blocks, b);
  }

  // ---------------------------------------------------------------------------------------
  // Helpers

  lemma PassAppend(blocks: seq<seq<Address>>, last: seq<Address>)
    ensures Pass(blocks + [last]) == Pass(blocks) + last
  {
    if |blocks| == 0 {
      assert [last][1..] == [];
    } else {
      assert (blocks + [last])[1..] == blocks[1..] + [last];
    }
  }

  /** A prefix of the blocks passes over a prefix of the addresses. */
  lemma PassPrefix(blocks: seq<seq<Address>>, b: nat)
    requires b <= |blocks|
    ensures Pass(blocks[..b]) <= Pass(blocks)
  {
    if b > 0 {
      assert blocks[..b][1..] == blocks[1..][..b - 1];
      PassPrefix(blocks[1..], b - 1);
    }
  }

  lemma PrefixStep(blocks: seq<seq<Address>>, b: nat)
    requires b < |blocks|
    ensures Pass(blocks[..b + 1]) == Pass(blocks[..b]) + blocks[b]
  {
    PassAppend(blocks[..b], blocks[b]);
    assert blocks[..b + 1] == blocks[..b] + [blocks[b]];
  }

  lemma PositionInPass(blocks: seq<seq<Address>>, c: Cursor)
    requires InRange(blocks, c)
    ensures Position(blocks, c) < |Pass(blocks)|
    ensures Pass(blocks)[Position(blocks, c)] == blocks[c.block][c.offset]
  {
    PassAt(blocks, c.block, c.offset);
  }

  /** One send moves the cursor one place on, or back to the start after the last address. */
  lemma PositionAdvance(blocks: seq<seq<Address>>, c: Cursor)
    requires ValidBlocks(blocks) && InRange(blocks, c)
    ensures Position(blocks, c) + 1 < |Pass(blocks)| ==>
      Position(blocks, Advance(blocks, c)) == Position(blocks, c) + 1
    ensures Position(blocks, c) + 1 == |Pass(blocks)| ==> Advance(blocks, c) == Cursor(0, 0)
  {
    PositionInPass(blocks, c);
    var b := c.block;
    PrefixStep(blocks, b);
    if c.offset + 1 < |blocks[b]| {
      PassPrefix(blocks, b + 1);
    } else if b + 1 < |blocks| {
      PrefixStep(blocks, b + 1);
      PassPrefix(blocks, b + 2);
    } else {
      assert blocks[..b + 1] == blocks;
    }
  }

  lemma {:induction false} EmitSplit(blocks: seq<seq<Address>>, c: Cursor, a: nat, b: nat)
    requires ValidBlocks(blocks) && InRange(blocks, c)
    ensures Emit(blocks, c, a + b) == Emit(blocks, c, a) + Emit(blocks, AdvanceN(blocks, c, a), b)
    decreases a
  {
    if a > 0 {
      EmitSplit(blocks, Advance(blocks, c), a - 1, b);
    }
  }

  /** From a cursor, the next sends up to the end of the pass are that stretch of the pass. */
  lemma {:induction false} EmitFrom(blocks: seq<seq<Address>>, c: Cursor, n: nat)
    requires ValidBlocks(blocks) && InRange(blocks, c)
    requires Position(blocks, c) + n <= |Pass(blocks)|
    ensures Emit(blocks, c, n) == Pass(blocks)[Position(blocks, c)..Position(blocks, c) + n]
    ensures Position(blocks, c) + n < |Pass(blocks)| ==>
      Position(blocks, AdvanceN(blocks, c, n)) == Position(blocks, c) + n
    ensures Position(blocks, c) + n == |Pass(blocks)| ==> AdvanceN(blocks, c, n) == Cursor(0, 0)
    decreases n
  {
    PositionInPass(blocks, c);
    if n > 0 {
      PositionAdvance(blocks, c);
      var next := Advance(blocks, c);
      assert AdvanceN(blocks, c, n) == AdvanceN(blocks, next, n - 1);
      if Position(blocks, c) + 1 < |Pass(blocks)| {
        EmitFrom(blocks, next, n - 1);
      } else {
        assert n == 1;
      }
    }
  }
}
