/** The block poller of `src/blockchain/ingester.py`, at sample rate 1. */
module Ingester {
  /** A raw transaction, by hash. */
  type Raw = string

  /** The transactions of each block; the chain does not change under the poller. */
  type Chain = int -> seq<Raw>

  /** Where an iteration raised: after `blocks` whole blocks and `txs`
      transactions of the next one. */
  datatype Stop = Never | At(blocks: nat, txs: nat)

  /** What one iteration of the loop meets: the RPC for the head fails, or
      reports `head` and the iteration runs until `stop`. */
  datatype Poll = HeadRaises | Polled(head: int, stop: Stop)

  /** The last block done, everything put into the queue, and the part of it that
      iterations put there before they raised. */
  datatype State = State(lastBlock: int, queue: seq<Raw>, wasted: seq<Raw>)

  /** The transactions of the blocks after `from` up to `to`. */
  function Blocks(chain: Chain, from: int, to: int): seq<Raw>
    decreases to - from
  {
    if to <= from then [] else Blocks(chain, from, to - 1) + chain(to)
  }

  function Take(s: seq<Raw>, n: nat): seq<Raw> {
    if n <= |s| then s[..n] else s
  }

  lemma TakeAll(s: seq<Raw>)
    ensures Take(s, |s|) == s
  {
  }

  /** What an iteration enqueues before it raises. */
  function Partial(chain: Chain, from: int, stop: Stop): seq<Raw>
    requires stop.At?
  {
    Blocks(chain, from, from + stop.blocks) + Take(chain(from + stop.blocks + 1), stop.txs)
  }

  predicate Completes(s: State, p: Poll) {
    p.Polled? && (p.stop.Never? || p.stop.blocks >= p.head - s.lastBlock)
  }

  /** One iteration: `last_block` moves only after every block up to the head was enqueued. */
  function Iterated(s: State, chain: Chain, p: Poll): State {
    if p.HeadRaises? || p.head <= s.lastBlock then s
    else if Completes(s, p) then
      s.(lastBlock := p.head, queue := s.queue + Blocks(chain, s.lastBlock, p.head))
    else
      var part := Partial(chain, s.lastBlock, p.stop);
      s.(queue := s.queue + part, wasted := s.wasted + part)
  }

  function After(start: int, chain: Chain, polls: seq<Poll>): State {
    if polls == [] then State(start, [], [])
    else Iterated(After(start, chain, polls[..|polls| - 1]), chain, polls[|polls| - 1])
  }

  lemma {:induction false} BlocksSplit(chain: Chain, a: int, b: int, c: int)
    requires a <= b <= c
    ensures Blocks(chain, a, c) == Blocks(chain, a, b) + Blocks(chain, b, c)
    decreases c - b
  {
    if b < c {
      BlocksSplit(chain, a, b, c - 1);
    } else {
      assert Blocks(chain, a, b) + [] == Blocks(chain, a, b);
    }
  }

  /** The blocks of a range are in order and each is in it: every block stands
      between those before and those after it. */
  lemma BlockStands(chain: Chain, from: int, b: int, to: int)
    ensures Blocks(chain, b, b) == []
    ensures from < b <= to ==> Blocks(chain, from, to) == Blocks(chain, from, b - 1) + chain(b) + Blocks(chain, b, to)
  {
    if from < b <= to {
      BlocksSplit(chain, from, b, to);
    }
  }

  /** What an iteration enqueues before it raises is a proper part of its work: a
      prefix that ends in the block after `stop.blocks` whole ones. */
  lemma PartialIsPrefix(s: State, chain: Chain, p: Poll)
    requires p.Polled? && p.head > s.lastBlock && !Completes(s, p)
    ensures Partial(chain, s.lastBlock, p.stop) <= Blocks(chain, s.lastBlock, p.head)
    ensures var whole, cut := Blocks(chain, s.lastBlock, s.lastBlock + p.stop.blocks), chain(s.lastBlock + p.stop.blocks + 1);
            |Partial(chain, s.lastBlock, p.stop)| == |whole| + if p.stop.txs < |cut| then p.stop.txs else |cut|
  {
    BlockStands(chain, s.lastBlock, s.lastBlock + p.stop.blocks + 1, p.head);
  }

  /** The iteration runs to its end. */
  predicate Finishes(s: State, p: Poll, b: int) {
    p.Polled? && p.head == b && (p.stop == Never || p.stop.blocks >= b - s.lastBlock)
  }

  /** `last_block` is the highest head among the start and the iterations that ran
      to their end. */
  lemma {:induction false} LastBlockIsHighestDone(start: int, chain: Chain, polls: seq<Poll>)
    ensures var last := After(start, chain, polls).lastBlock;
            && start <= last
            && (last == start || exists k :: 0 <= k < |polls| && Finishes(After(start, chain, polls[..k]), polls[k], last))
            && forall k, b :: 0 <= k < |polls| && Finishes(After(start, chain, polls[..k]), polls[k], b) ==> b <= last
  {
    if polls != [] {
      var n := |polls| - 1;
      var s, t := After(start, chain, polls[..n]), After(start, chain, polls);
      LastBlockIsHighestDone(start, chain, polls[..n]);
      assert t == Iterated(s, chain, polls[n]);
      assert t.lastBlock == if polls[n].Polled? && Finishes(s, polls[n], polls[n].head) && polls[n].head > s.lastBlock
                            then polls[n].head
                            else s.lastBlock;
      hide After, Iterated;
      assert forall k :: 0 <= k < n ==> polls[..n][..k] == polls[..k] && polls[..n][k] == polls[k];
      forall k, b | 0 <= k < |polls| && Finishes(After(start, chain, polls[..k]), polls[k], b)
        ensures b <= t.lastBlock
      {
        if k < n {
          assert Finishes(After(start, chain, polls[..n][..k]), polls[..n][k], b);
        }
      }
      if t.lastBlock != s.lastBlock {
        assert Finishes(After(start, chain, polls[..n]), polls[n], t.lastBlock);
      } else if t.lastBlock != start {
        var k :| 0 <= k < n && Finishes(After(start, chain, polls[..n][..k]), polls[..n][k], t.lastBlock);
        assert Finishes(After(start, chain, polls[..k]), polls[k], t.lastBlock);
      }
    }
  }

  /** `last_block` never moves back, and the queue received every transaction of
      the blocks done so far, plus what failed iterations had put there. */
  lemma {:induction false} NothingIsMissed(start: int, chain: Chain, polls: seq<Poll>)
    ensures var s := After(start, chain, polls);
            && start <= s.lastBlock
            && (polls != [] ==> After(start, chain, polls[..|polls| - 1]).lastBlock <= s.lastBlock)
            && multiset(s.queue) == multiset(Blocks(chain, start, s.lastBlock)) + multiset(s.wasted)
  {
    if polls != [] {
      var s, p := After(start, chain, polls[..|polls| - 1]), polls[|polls| - 1];
      NothingIsMissed(start, chain, polls[..|polls| - 1]);
      if p.Polled? && p.head > s.lastBlock {
        BlocksSplit(chain, start, s.lastBlock, p.head);
        hide Blocks, Partial;
        if !Completes(s, p) {
          var part := Partial(chain, s.lastBlock, p.stop);
          assert multiset(s.queue + part) == multiset(s.queue) + multiset(part);
        }
      }
    }
  }

  /** The iteration raises after it has enqueued something. */
  predicate Wastes(s: State, chain: Chain, p: Poll) {
    p.Polled? && p.head > s.lastBlock && !Completes(s, p) && Partial(chain, s.lastBlock, p.stop) != []
  }

  /** No iteration raises after it has enqueued something. */
  ghost predicate NoneWastes(start: int, chain: Chain, polls: seq<Poll>) {
    forall k :: 0 <= k < |polls| ==> !Wastes(After(start, chain, polls[..k]), chain, polls[k])
  }

  lemma IterationWastesIff(s: State, chain: Chain, p: Poll)
    ensures Iterated(s, chain, p).wasted == s.wasted <==> !Wastes(s, chain, p)
    ensures s.wasted <= Iterated(s, chain, p).wasted
  {
    hide Blocks, Partial;
  }

  lemma {:induction false} WastedIff(start: int, chain: Chain, polls: seq<Poll>)
    ensures After(start, chain, polls).wasted == [] <==> NoneWastes(start, chain, polls)
  {
    hide Iterated, Wastes;
    if polls != [] {
      var n := |polls| - 1;
      WastedIff(start, chain, polls[..n]);
      IterationWastesIff(After(start, chain, polls[..n]), chain, polls[n]);
      NoneWastesStep(start, chain, polls);
      hide NoneWastes;
    }
  }

  lemma NoneWastesStep(start: int, chain: Chain, polls: seq<Poll>)
    requires polls != []
    ensures var n := |polls| - 1;
            NoneWastes(start, chain, polls)
            <==> NoneWastes(start, chain, polls[..n]) && !Wastes(After(start, chain, polls[..n]), chain, polls[n])
  {
    hide After, Wastes;
    var n := |polls| - 1;
    forall k | 0 <= k < n
      ensures polls[..n][..k] == polls[..k] && polls[..n][k] == polls[k]
    {
    }
  }

  /** Each transaction of the blocks done was enqueued once and in chain order if
      and only if no iteration raised after it had enqueued something. */
  lemma {:induction false} ExactlyOnceIffNothingWasted(start: int, chain: Chain, polls: seq<Poll>)
    ensures var s := After(start, chain, polls);
            s.queue == Blocks(chain, start, s.lastBlock) <==> s.wasted == []
    ensures var s := After(start, chain, polls);
            s.queue == Blocks(chain, start, s.lastBlock) <==> NoneWastes(start, chain, polls)
  {
    WastedIff(start, chain, polls);
    var s := After(start, chain, polls);
    NothingIsMissed(start, chain, polls);
    assert |s.queue| == |multiset(s.queue)| == |Blocks(chain, start, s.lastBlock)| + |s.wasted|;
    if s.wasted == [] {
      InChainOrder(start, chain, polls);
    }
  }

  /** With no failure inside an iteration, everything is enqueued once, in chain order. */
  lemma ExactlyOnceWithoutFailures(start: int, chain: Chain, polls: seq<Poll>)
    requires forall k :: 0 <= k < |polls| ==> polls[k].HeadRaises? || polls[k].stop.Never?
    ensures var s := After(start, chain, polls);
            s.queue == Blocks(chain, start, s.lastBlock)
  {
    ExactlyOnceIffNothingWasted(start, chain, polls);
  }

  lemma {:induction false} InChainOrder(start: int, chain: Chain, polls: seq<Poll>)
    requires After(start, chain, polls).wasted == []
    ensures var s := After(start, chain, polls);
            s.queue == Blocks(chain, start, s.lastBlock)
  {
    if polls != [] {
      var s, p := After(start, chain, polls[..|polls| - 1]), polls[|polls| - 1];
      NothingIsMissed(start, chain, polls[..|polls| - 1]);
      InChainOrder(start, chain, polls[..|polls| - 1]);
      if p.Polled? && p.head > s.lastBlock {
        BlocksSplit(chain, start, s.lastBlock, p.head);
        hide Blocks, Partial;
        if !Completes(s, p) {
          var part := Partial(chain, s.lastBlock, p.stop);
          assert part == [] && s.queue + [] == s.queue;
        }
      }
    }
  }

  class BlockIngester {
    var queue: seq<Raw>
    /** What iterations enqueued before they raised. */
    ghost var wasted: seq<Raw>

    constructor ()
      ensures queue == wasted == []
    {
      queue, wasted := [], [];
    }

    /** The loop over the blocks of one iteration; `raised` tells whether it was cut short. */
    method EnqueueBlocks(chain: Chain, lastBlock: int, head: int, stop: Stop) returns (raised: bool)
      requires lastBlock < head
      modifies this`queue
      ensures raised <==> stop.At? && stop.blocks < head - lastBlock
      ensures queue == old(queue) + if raised then Partial(chain, lastBlock, stop) else Blocks(chain, lastBlock, head)
    {
      hide Take;
      var blockNum := lastBlock;
      while blockNum < head
        invariant lastBlock <= blockNum <= head
        invariant stop.At? ==> blockNum - lastBlock <= stop.blocks
        invariant queue == old(queue) + Blocks(chain, lastBlock, blockNum)
      {
        if stop.At? && blockNum - lastBlock == stop.blocks {
          EnqueueBlock(chain(blockNum + 1), stop.txs);
          return true;
        }
        EnqueueBlock(chain(blockNum + 1), |chain(blockNum + 1)|);
        TakeAll(chain(blockNum + 1));
        blockNum := blockNum + 1;
      }
      return false;
    }

    /** Puts the first `txs` transactions of a block into the queue. */
    method EnqueueBlock(block: seq<Raw>, txs: nat)
      modifies this`queue
      ensures queue == old(queue) + Take(block, txs)
    {
      var i := 0;
      while i < |block| && i < txs
        invariant 0 <= i <= |block| && i <= txs
        invariant queue == old(queue) + block[..i]
      {
        queue := queue + [block[i]];
        i := i + 1;
      }
      assert block[..i] == Take(block, txs);
    }

    /** The polling loop, over the iterations that the environment allows it. */
    method StreamViaPolling(start: int, chain: Chain, polls: seq<Poll>) returns (lastBlock: int)
      requires queue == wasted == []
      modifies this
      ensures State(lastBlock, queue, wasted) == After(start, chain, polls)
    {
      lastBlock := start;
      for k := 0 to |polls|
        invariant State(lastBlock, queue, wasted) == After(start, chain, polls[..k])
      {
        assert polls[..k + 1][..k] == polls[..k];
        var p := polls[k];
        if p.Polled? && p.head > lastBlock {
          var raised := EnqueueBlocks(chain, lastBlock, p.head, p.stop);
          if raised {
            wasted := wasted + Partial(chain, lastBlock, p.stop);
          } else {
            lastBlock := p.head;
          }
        }
      }
      assert polls[..|polls|] == polls;
    }
  }
}
