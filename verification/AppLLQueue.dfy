/** AppLLQueue: a FIFO of intrusive nodes with an optional bound kept by a counting semaphore. */
module Queues {

  class LLNode {
    var next: LLNode?

    constructor ()
      ensures next == null
    {
      next := null;
    }
  }

  function Following(nodes: seq<LLNode>, i: nat): LLNode? {
    if i + 1 < |nodes| then nodes[i + 1] else null
  }

  /** `head` starts a null-terminated list of exactly these nodes. */
  ghost predicate Chain(head: LLNode?, nodes: seq<LLNode>)
    reads nodes
  {
    && (head == if nodes == [] then null else nodes[0])
    && (forall i :: 0 <= i < |nodes| ==> nodes[i].next == Following(nodes, i))
    && (forall i, j :: 0 <= i < j < |nodes| ==> nodes[i] != nodes[j])
  }

  /** The part of a list from `cnt` on, still linked, that is not in the queue yet. */
  ghost predicate Pending(tmp: LLNode?, chain: seq<LLNode>, cnt: nat, nodes: seq<LLNode>)
    requires cnt <= |chain|
    reads chain[cnt..]
  {
    && (tmp == if cnt == |chain| then null else chain[cnt])
    && (forall n :: n in chain[cnt..] ==> n !in nodes)
    && (forall i :: cnt <= i < |chain| ==> chain[i] in chain[cnt..] && chain[i].next == Following(chain, i))
    && (forall i, j :: cnt <= i < j < |chain| ==> chain[i] != chain[j])
  }

  lemma PendingAll(node: LLNode?, chain: seq<LLNode>, nodes: seq<LLNode>)
    requires Chain(node, chain) && (forall n :: n in chain ==> n !in nodes)
    ensures Pending(node, chain, 0, nodes)
  {
  }

  /** Taking the first node of the rest leaves the others pending. */
  lemma PendingNext(tmp: LLNode?, chain: seq<LLNode>, cnt: nat, nodes: seq<LLNode>)
    requires cnt <= |chain| && Pending(tmp, chain, cnt, nodes) && tmp != null
    ensures cnt < |chain| && tmp == chain[cnt] && tmp !in nodes && tmp !in chain[cnt + 1..]
    ensures forall n :: n in chain[cnt + 1..] ==> n !in nodes
    ensures Pending(tmp.next, chain, cnt + 1, nodes + [tmp])
  {
    assert chain[cnt..] == [tmp] + chain[cnt + 1..];
    forall i | cnt < i < |chain| ensures chain[i] in chain[cnt + 1..] {
      assert chain[i] == chain[cnt + 1..][i - (cnt + 1)];
    }
  }

  lemma PendingDone(chain: seq<LLNode>, cnt: nat, nodes: seq<LLNode>)
    requires cnt <= |chain| && Pending(null, chain, cnt, nodes)
    ensures cnt == |chain| && chain[..cnt] == chain
  {
  }

  class AppLLQueue {
    var beg: LLNode?
    var end: LLNode?
    var queueSize: nat
    const maxQueueSize: int
    /** limitQueueSize */
    var free: nat
    /** The nodes queued, first in first. */
    ghost var nodes: seq<LLNode>

    /** The links, the ends and the size agree with `nodes`. */
    ghost predicate Linked()
      reads this`beg, this`end, this`queueSize, this`nodes, nodes
    {
      && Chain(beg, nodes)
      && end == (if nodes == [] then null else nodes[|nodes| - 1])
      && queueSize == |nodes|
    }

    ghost predicate Valid()
      reads this, nodes
    {
      && Linked()
      && (maxQueueSize > 0 ==> free + queueSize == maxQueueSize)
    }

    constructor (queueSize: int)
      ensures Valid() && nodes == [] && maxQueueSize == queueSize
    {
      beg, end, this.queueSize, nodes := null, null, 0, [];
      maxQueueSize := queueSize;
      free := if queueSize > 0 then queueSize else 0;
    }

    /** add(node) under the lock */
    method Add(node: LLNode)
      requires Linked() && node !in nodes
      modifies this`beg, this`end, this`queueSize, this`nodes, nodes, node
      ensures Linked() && nodes == old(nodes) + [node]
    {
      node.next := null;
      if beg != null {
        end.next := node;
        end := node;
      } else {
        beg, end := node, node;
      }
      queueSize := queueSize + 1;
      nodes := nodes + [node];
    }

    /** addToQueue(node); on a bounded queue once limitQueueSize has been waited for */
    method AddToQueue(node: LLNode)
      requires Valid() && node !in nodes
      requires maxQueueSize > 0 ==> free > 0
      modifies this`beg, this`end, this`queueSize, this`nodes, this`free, nodes, node
      ensures Valid() && nodes == old(nodes) + [node]
      ensures maxQueueSize > 0 ==> free == old(free) - 1
    {
      if maxQueueSize > 0 {
        free := free - 1;
      }
      Add(node);
    }

    /** addLLToQueue(node): a whole list is appended, node by node; only an unbounded queue takes one. */
    method AddLLToQueue(node: LLNode?, ghost chain: seq<LLNode>) returns (cnt: nat)
      requires Valid() && Chain(node, chain) && (forall n :: n in chain ==> n !in nodes) && maxQueueSize <= 0
      modifies this`beg, this`end, this`queueSize, this`nodes, nodes, chain
      ensures Valid() && nodes == old(nodes) + chain && cnt == |chain|
    {
      hide Chain, Following, Linked;
      var tmp := node;
      ghost var nodes0 := nodes;
      PendingAll(node, chain, nodes);
      cnt := 0;
      while tmp != null
        invariant cnt <= |chain| && nodes == nodes0 + chain[..cnt]
        invariant Linked()
        invariant Pending(tmp, chain, cnt, nodes)
        decreases |chain| - cnt
      {
        var p := tmp;
        PendingNext(tmp, chain, cnt, nodes);
        tmp := tmp.next;
        Add(p);
        cnt := cnt + 1;
      }
      PendingDone(chain, cnt, nodes);
    }

    /** getFromQueue(): the first node, alone, or null */
    method GetFromQueue() returns (node: LLNode?)
      requires Valid()
      modifies this`beg, this`end, this`queueSize, this`nodes, this`free, nodes
      ensures Valid()
      ensures old(nodes) == [] ==> node == null && nodes == [] && free == old(free)
      ensures old(nodes) != [] ==> node == old(nodes)[0] && nodes == old(nodes)[1..] && node.next == null
      ensures old(nodes) != [] && maxQueueSize > 0 ==> free == old(free) + 1
    {
      if beg == null {
        return null;
      }
      ghost var ns := nodes;
      assert ns[0].next == Following(ns, 0);
      var tmp := beg;
      beg := beg.next;
      if beg == null {
        end := null;
      }
      queueSize := queueSize - 1;
      nodes := nodes[1..];
      if maxQueueSize > 0 {
        free := free + 1;
      }
      forall i | 0 <= i < |nodes| ensures nodes[i] != tmp && nodes[i].next == Following(nodes, i) {
        assert ns[i + 1].next == Following(ns, i + 1);
      }
      tmp.next := null;
      node := tmp;
    }

    /** getAllFromQueue(): the whole list, in order, and an empty queue with all its slots free */
    method GetAllFromQueue() returns (node: LLNode?)
      requires Valid()
      modifies this`beg, this`end, this`queueSize, this`nodes, this`free
      ensures Valid() && nodes == [] && Chain(node, old(nodes))
      ensures maxQueueSize > 0 ==> free == maxQueueSize
    {
      if beg == null {
        return null;
      }
      var tmp := beg;
      beg, end := null, null;
      var notify := queueSize;
      queueSize := 0;
      nodes := [];
      while notify > 0 && maxQueueSize > 0
        invariant maxQueueSize > 0 ==> free + notify == maxQueueSize
        invariant beg == null && end == null && queueSize == 0 && nodes == []
      {
        free := free + 1;
        notify := notify - 1;
      }
      node := tmp;
    }
  }

  /** Draining one queue into another keeps every node and its order: what a dying channel's packets go through. */
  method Splice(from: AppLLQueue, to: AppLLQueue) returns (cnt: nat)
    requires from != to && from.Valid() && to.Valid() && to.maxQueueSize <= 0
    requires forall n :: n in from.nodes ==> n !in to.nodes
    modifies from, to, from.nodes, to.nodes
    ensures from.Valid() && to.Valid() && from.nodes == []
    ensures to.nodes == old(to.nodes) + old(from.nodes) && cnt == |old(from.nodes)|
  {
    ghost var chain := from.nodes;
    var list := from.GetAllFromQueue();
    cnt := to.AddLLToQueue(list, chain);
  }
}
