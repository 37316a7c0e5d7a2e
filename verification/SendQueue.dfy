/** The bounded FIFO of common.cpp: sixteen nodes, each with a fixed-size copy of its bytes. */
module SendQueue {
  import opened Bytes

  const QUEUE_CNT := 16
  const SLOT_SIZE := 2 * (0x1_0000 + 64)

  /** A queue node: the copied header and, unless the sender passed no buffer, its bytes. */
  datatype Node<T> = Node(header: T, data: Data)
  datatype Data = NoData | Bytes(bytes: seq<byte>)

  function Clamped(d: Data, size: nat): Data {
    match d
    case NoData => NoData
    case Bytes(s) => Bytes(s[..Min(|s|, size)])
  }

  // ----- runs -----

  datatype Op<T> = Push(node: Node<T>, memory: bool) | Pop

  predicate Accepts<T>(queue: seq<Node<T>>, op: Op<T>) {
    op.Push? && op.memory && |queue| != QUEUE_CNT
  }

  function Apply<T>(queue: seq<Node<T>>, op: Op<T>): seq<Node<T>> {
    if Accepts(queue, op) then queue + [op.node.(data := Clamped(op.node.data, SLOT_SIZE))]
    else if op.Pop? && queue != [] then queue[1..]
    else queue
  }

  function ApplyAll<T>(run: seq<Op<T>>): seq<Node<T>> {
    if run == [] then [] else Apply(ApplyAll(run[..|run| - 1]), run[|run| - 1])
  }

  /** The nodes offered by successful pushes of a run, as they were offered. */
  function Accepted<T>(run: seq<Op<T>>): seq<Node<T>> {
    if run == [] then []
    else
      var init, op := run[..|run| - 1], run[|run| - 1];
      Accepted(init) + if Accepts(ApplyAll(init), op) then [op.node] else []
  }

  function Popped<T>(run: seq<Op<T>>): seq<Node<T>> {
    if run == [] then []
    else
      var init, op := run[..|run| - 1], run[|run| - 1];
      Popped(init) + if op.Pop? && ApplyAll(init) != [] then [ApplyAll(init)[0]] else []
  }

  function AllClamped<T>(nodes: seq<Node<T>>): seq<Node<T>> {
    if nodes == [] then []
    else
      var last := nodes[|nodes| - 1];
      AllClamped(nodes[..|nodes| - 1]) + [last.(data := Clamped(last.data, SLOT_SIZE))]
  }

  /** Conservation and order: in every run, what came out followed by what is still queued is what
      was accepted, each clamped to a slot, and never more than sixteen wait. */
  lemma {:induction false} FirstInFirstOut<T>(run: seq<Op<T>>)
    ensures Popped(run) + ApplyAll(run) == AllClamped(Accepted(run))
    ensures |ApplyAll(run)| <= QUEUE_CNT
  {
    if run != [] {
      var init, op := run[..|run| - 1], run[|run| - 1];
      FirstInFirstOut(init);
      var q := ApplyAll(init);
      if Accepts(q, op) {
        SnocParts(Accepted(init), op.node);
        ConcatAssociative(Popped(init), q, [op.node.(data := Clamped(op.node.data, SLOT_SIZE))]);
        ConcatEmpty(Popped(init));
      } else if op.Pop? && q != [] {
        ConcatEmpty(Accepted(init));
        FirstAndRest(q);
        ConcatAssociative(Popped(init), [q[0]], q[1..]);
      } else {
        ConcatEmpty(Accepted(init));
        ConcatEmpty(Popped(init));
      }
    }
  }

  /** Pushes of these nodes, with memory at hand. */
  function Pushes<T>(nodes: seq<Node<T>>): seq<Op<T>> {
    if nodes == [] then [] else Pushes(nodes[..|nodes| - 1]) + [Push(nodes[|nodes| - 1], true)]
  }

  /** The queue takes exactly the first sixteen of any number of pushes. */
  lemma {:induction false} SixteenFit<T>(nodes: seq<Node<T>>)
    ensures ApplyAll(Pushes(nodes)) == AllClamped(nodes[..Min(|nodes|, 16)])
    ensures |AllClamped(nodes[..Min(|nodes|, 16)])| == Min(|nodes|, 16)
  {
    if nodes != [] {
      var init, last := nodes[..|nodes| - 1], nodes[|nodes| - 1];
      SixteenFit(init);
      SnocParts(Pushes(init), Push(last, true));
      if |nodes| <= 16 {
        assert nodes[..|nodes|] == nodes && init[..|init|] == init;
      } else {
        assert init[..16] == nodes[..16];
      }
    }
  }

  /** A push without memory is refused, whatever the queue holds. */
  lemma NoMemoryNoPush<T>(queue: seq<Node<T>>, node: Node<T>)
    ensures Apply(queue, Push(node, false)) == queue
  {
  }

  /** A message goes through a slot and into a user buffer unharmed exactly when it fits both. */
  lemma SlotRoundTrip(s: seq<byte>, userLen: nat)
    ensures Clamped(Clamped(Bytes(s), SLOT_SIZE), userLen) == Bytes(s)
            <==> |s| <= SLOT_SIZE && |s| <= userLen
  {
  }

  // ----- the queue as written -----

  class PtrQueue<T> {
    var nodes: seq<Node<T>>

    constructor ()
      ensures nodes == []
    {
      nodes := [];
    }

    /** memory says whether the two allocations succeed. */
    method PtrQueuePush(node: Node<T>, memory: bool) returns (ret: int)
      modifies this
      ensures nodes == Apply(old(nodes), Push(node, memory))
      ensures ret == if Accepts(old(nodes), Push(node, memory)) then 0 else -1
    {
      if |nodes| == QUEUE_CNT {
        return -1;
      }
      if !memory {
        return -1;
      }
      var header := node;
      match node.data {
        case NoData =>
        case Bytes(s) =>
          var len := if |s| > SLOT_SIZE then SLOT_SIZE else |s|;
          header := Node(node.header, Bytes(s[..len]));
      }
      nodes := nodes + [header];
      ret := 0;
    }

    /** Pops into a user buffer of the given length; len is the number of bytes copied. Without a buffer
        only the header is handed out and the node's bytes are dropped. */
    method PtrQueuePop(dst: array?<byte>, userLen: nat) returns (ret: int, node: Option<Node<T>>, len: nat)
      requires dst != null ==> userLen <= dst.Length
      modifies this, dst
      ensures nodes == Apply(old(nodes), Pop)
      ensures old(nodes) == [] ==> ret == -1 && node == None && len == 0
      ensures old(nodes) != [] ==> ret == 0 && node == Some(old(nodes)[0])
      ensures dst == null ==> len == 0
      ensures dst != null ==> len <= userLen && dst[len..] == old(dst[len..])
      ensures dst != null && node.Some? ==>
                match Clamped(Clamped(node.value.data, SLOT_SIZE), userLen)
                case NoData => len == 0
                case Bytes(s) => dst[..len] == s
    {
      ret, node, len := -1, None, 0;
      if nodes == [] {
        return;
      }
      ret, node := 0, Some(nodes[0]);
      nodes := nodes[1..];
      if dst == null {
        return;
      }
      match node.value.data {
        case NoData =>
        case Bytes(s) =>
          var slot := if |s| > SLOT_SIZE then SLOT_SIZE else |s|;
          len := if slot > userLen then userLen else slot;
          forall i | 0 <= i < len {
            dst[i] := s[i];
          }
          assert s[..slot][..len] == s[..len];
          assert Clamped(Clamped(node.value.data, SLOT_SIZE), userLen) == Bytes(s[..len]);
      }
    }
  }
}
