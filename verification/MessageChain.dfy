/**
 Message queue chains: a queue of messages represented by one hash. The hash is symbolic, that is
 ideal: different inputs give different hashes and no hash contains itself.
 */
module MessageChain {
  import opened Common

  datatype Digest = Digest(data: Bytes)
  datatype Hash = Zero | Link(prev: Hash, sentAt: nat, digest: Digest)

  function Extend(h: Hash, m: Message): Hash { Link(h, m.sentAt, Digest(m.data)) }

  function Fold(h: Hash, ms: seq<Message>): Hash {
    if ms == [] then h else Extend(Fold(h, ms[..|ms| - 1]), ms[|ms| - 1])
  }

  lemma {:induction false} FoldAppend(h: Hash, a: seq<Message>, b: seq<Message>)
    ensures Fold(h, a + b) == Fold(Fold(h, a), b)
  {
    if b == [] {
      assert a + b == a;
    } else {
      FoldAppend(h, a, b[..|b| - 1]);
      assert (a + b)[..|a + b| - 1] == a + b[..|b| - 1];
    }
  }

  lemma FoldSnoc(h: Hash, a: seq<Message>, m: Message)
    ensures Fold(h, a + [m]) == Extend(Fold(h, a), m)
  {
    assert (a + [m])[..|a|] == a;
  }

  /** A head stands for one queue only: equal heads, equal message sequences. */
  lemma {:induction false} HeadDeterminesQueue(a: seq<Message>, b: seq<Message>)
    requires Fold(Zero, a) == Fold(Zero, b)
    ensures a == b
  {
    if a != [] && b != [] {
      HeadDeterminesQueue(a[..|a| - 1], b[..|b| - 1]);
      assert a == a[..|a| - 1] + [a[|a| - 1]] && b == b[..|b| - 1] + [b[|b| - 1]];
    }
  }

  class MessageQueueChain {
    var hash: Hash

    /** The default chain is empty and has the zero head. */
    constructor ()
      ensures hash == Fold(Zero, [])
    {
      hash := Zero;
    }

    /** A chain read back from storage. */
    constructor Stored(head: Hash)
      ensures hash == head
    {
      hash := head;
    }

    method ExtendHrmp(horizontalMessage: Message)
      modifies this
      ensures hash == Fold(old(hash), [horizontalMessage])
    {
      var prevHead := hash;
      hash := Link(prevHead, horizontalMessage.sentAt, Digest(horizontalMessage.data));
      FoldSnoc(prevHead, [], horizontalMessage);
      assert [] + [horizontalMessage] == [horizontalMessage];
    }

    method ExtendDownward(downwardMessage: Message)
      modifies this
      ensures hash == Fold(old(hash), [downwardMessage])
    {
      var prevHead := hash;
      hash := Link(prevHead, downwardMessage.sentAt, Digest(downwardMessage.data));
      FoldSnoc(prevHead, [], downwardMessage);
      assert [] + [downwardMessage] == [downwardMessage];
    }

    method Head() returns (h: Hash)
      ensures h == hash
    {
      h := hash;
    }
  }

  // ------------------------------------------------------------------ downward messages over whole runs

  /** One block's inherent: the relay's head, the messages submitted, how many the handler pulled. */
  datatype Block = Block(expected: Hash, msgs: seq<Message>, pulled: nat)

  /** The stored head, the messages handed to the handler so far and the number reported to the relay. */
  datatype Downward = Downward(head: Hash, handed: seq<Message>, reported: nat)

  /**
   Processes the downward messages of a block. The head is extended as the handler pulls messages
   from a lazy iterator; the block is rejected (None) if the head does not reach the relay's head.
   */
  function ProcessDownward(s: Downward, b: Block): Option<Downward>
    requires b.pulled <= |b.msgs|
  {
    var head := Fold(s.head, b.msgs[..b.pulled]);
    if head != b.expected then None
    else Some(Downward(head, s.handed + b.msgs[..b.pulled], s.reported + |b.msgs|))
  }

  ghost predicate Pulls(blocks: seq<Block>) { forall b :: b in blocks ==> b.pulled <= |b.msgs| }

  /** The state after the accepted blocks; rejected blocks change nothing. */
  function RunDownward(s: Downward, blocks: seq<Block>): Downward
    requires Pulls(blocks)
  {
    if blocks == [] then s
    else
      assert blocks[|blocks| - 1] in blocks;
      var s' := RunDownward(s, blocks[..|blocks| - 1]);
      var r := ProcessDownward(s', blocks[|blocks| - 1]);
      if r.Some? then r.value else s'
  }

  /** In every reachable state the stored head is the fold of everything handed to the handler. */
  lemma {:induction false} HeadIsFoldOfHanded(blocks: seq<Block>)
    requires Pulls(blocks)
    ensures var s := RunDownward(Downward(Zero, [], 0), blocks); s.head == Fold(Zero, s.handed)
  {
    if blocks != [] {
      var last := blocks[|blocks| - 1];
      assert last in blocks;
      HeadIsFoldOfHanded(blocks[..|blocks| - 1]);
      FoldAppend(Zero, RunDownward(Downward(Zero, [], 0), blocks[..|blocks| - 1]).handed, last.msgs[..last.pulled]);
    }
  }

  /**
   Downward authenticity: if the last block is accepted and the relay's head stands for the queue
   `relay`, then what the handler has been given over the whole run is exactly `relay`.
   */
  lemma HandedIsRelaySequence(blocks: seq<Block>, relay: seq<Message>)
    requires Pulls(blocks) && blocks != []
    requires var last := blocks[|blocks| - 1]; var s := RunDownward(Downward(Zero, [], 0), blocks[..|blocks| - 1]);
             last in blocks && ProcessDownward(s, last).Some? && last.expected == Fold(Zero, relay)
    ensures RunDownward(Downward(Zero, [], 0), blocks).handed == relay
  {
    HeadIsFoldOfHanded(blocks);
    HeadDeterminesQueue(RunDownward(Downward(Zero, [], 0), blocks).handed, relay);
  }

  /** The count reported to the relay is right if and only if the handler drained the iterator in every accepted block. */
  lemma {:induction false} ReportedIffDrained(blocks: seq<Block>)
    requires Pulls(blocks)
    ensures var s := RunDownward(Downward(Zero, [], 0), blocks);
            s.reported >= |s.handed| && (s.reported == |s.handed| <==> AlwaysDrained(blocks))
  {
    if blocks != [] {
      assert blocks[|blocks| - 1] in blocks;
      ReportedIffDrained(blocks[..|blocks| - 1]);
    }
  }

  ghost predicate AlwaysDrained(blocks: seq<Block>)
    requires Pulls(blocks)
  {
    blocks == [] ||
    (assert blocks[|blocks| - 1] in blocks;
     var last := blocks[|blocks| - 1];
     && AlwaysDrained(blocks[..|blocks| - 1])
     && (ProcessDownward(RunDownward(Downward(Zero, [], 0), blocks[..|blocks| - 1]), last).Some? ==> last.pulled == |last.msgs|))
  }
}
