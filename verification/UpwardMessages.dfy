/** Upward messages: a pending queue of which every block sends the longest prefix the relay has room for. */
module UpwardMessages {
  import opened Common

  /** The part of the relay chain's configuration that limits messages from this chain. */
  datatype HostConfig = HostConfig(maxCodeSize: nat, maxUpwardQueueCount: nat, maxUpwardQueueSize: nat,
                                   maxUpwardMessageSize: nat, maxUpwardMessageNumPerCandidate: nat,
                                   hrmpMaxMessageNumPerCandidate: nat)

  function TotalSize(up: seq<Bytes>): nat {
    if up == [] then 0 else |up[0]| + TotalSize(up[1..])
  }

  /** How many messages fit, counted from the front, one place and some bytes at a time. */
  function FitCount(up: seq<Bytes>, capacity: nat, size: nat): (n: nat)
    ensures n <= |up|
  {
    if up == [] || capacity == 0 || |up[0]| > size then 0
    else 1 + FitCount(up[1..], capacity - 1, size - |up[0]|)
  }

  predicate Fits(up: seq<Bytes>, k: nat, capacity: nat, size: nat)
    requires k <= |up|
  {
    k <= capacity && TotalSize(up[..k]) <= size
  }

  /** A prefix fits if and only if it is no longer than the counted one: the count is the longest. */
  lemma {:induction false} FitCountIsLongest(up: seq<Bytes>, capacity: nat, size: nat, k: nat)
    requires k <= |up|
    ensures Fits(up, k, capacity, size) <==> k <= FitCount(up, capacity, size)
  {
    if k > 0 {
      assert up[..k][1..] == up[1..][..k - 1];
      assert TotalSize(up[..k]) == |up[0]| + TotalSize(up[1..][..k - 1]);
      if capacity > 0 && |up[0]| <= size {
        FitCountIsLongest(up[1..], capacity - 1, size - |up[0]|, k - 1);
      }
    }
  }

  function Capacity(cfg: HostConfig, queueCount: nat): nat {
    Min(SatSub(cfg.maxUpwardQueueCount, queueCount), cfg.maxUpwardMessageNumPerCandidate)
  }

  function Room(cfg: HostConfig, queueSize: nat): nat { SatSub(cfg.maxUpwardQueueSize, queueSize) }

  /** How many pending messages a block sends, given the relay's queue of this chain. */
  function SendCount(cfg: HostConfig, queueCount: nat, queueSize: nat, pending: seq<Bytes>): (n: nat)
    ensures n <= |pending|
  {
    FitCount(pending, Capacity(cfg, queueCount), Room(cfg, queueSize))
  }

  /**
   What a block sends, told by the relay's numbers: a first part of the pending messages is sent if and
   only if it is within the number per candidate and, added to what the relay has queued, within its
   count and its size.
   */
  lemma SentIsLongest(cfg: HostConfig, queueCount: nat, queueSize: nat, pending: seq<Bytes>, k: nat)
    requires 0 < k <= |pending|
    ensures k <= SendCount(cfg, queueCount, queueSize, pending) <==>
            && k <= cfg.maxUpwardMessageNumPerCandidate && queueCount + k <= cfg.maxUpwardQueueCount
            && (TotalSize(pending[..k]) == 0 || queueSize + TotalSize(pending[..k]) <= cfg.maxUpwardQueueSize)
  {
    FitCountIsLongest(pending, Capacity(cfg, queueCount), Room(cfg, queueSize), k);
  }

  // ------------------------------------------------------------------ whole runs

  datatype Op =
    | Send(config: Option<HostConfig>, message: Bytes)
    | Finalize(hostConfig: HostConfig, queueCount: nat, queueSize: nat)

  /** Pending messages, with the history of accepted messages and of messages sent in blocks. */
  datatype Upward = Upward(pending: seq<Bytes>, accepted: seq<Bytes>, sent: seq<Bytes>)

  /** Too big a message is refused; without a configuration anything passes. */
  predicate Accepts(config: Option<HostConfig>, message: Bytes) {
    config.None? || |message| <= config.value.maxUpwardMessageSize
  }

  function Step(u: Upward, op: Op): Upward {
    match op
    case Send(config, message) =>
      if Accepts(config, message) then u.(pending := u.pending + [message], accepted := u.accepted + [message]) else u
    case Finalize(cfg, count, size) =>
      var n := SendCount(cfg, count, size, u.pending);
      u.(pending := u.pending[n..], sent := u.sent + u.pending[..n])
  }

  /** A message is queued unless it is larger than the relay's configuration, if known, allows. */
  lemma QueuedIff(u: Upward, config: Option<HostConfig>, message: Bytes)
    ensures Step(u, Send(config, message)) ==
            if config.Some? && |message| > config.value.maxUpwardMessageSize then u
            else Upward(u.pending + [message], u.accepted + [message], u.sent)
  {
  }

  function Run(u: Upward, ops: seq<Op>): Upward
    decreases |ops|
  {
    if ops == [] then u else Run(Step(u, ops[0]), ops[1..])
  }

  /** Lossless FIFO: messages sent in all blocks followed by those pending are the accepted ones, in order. */
  lemma {:induction false} UpwardIsFifo(u: Upward, ops: seq<Op>)
    requires u.sent + u.pending == u.accepted
    ensures var r := Run(u, ops); r.sent + r.pending == r.accepted
    decreases |ops|
  {
    if ops != [] {
      var u' := Step(u, ops[0]);
      assert u'.sent + u'.pending == u'.accepted by {
        match ops[0] {
          case Send(_, message) => Associative(u.sent, u.pending, [message]);
          case Finalize(cfg, count, size) =>
            var n := SendCount(cfg, count, size, u.pending);
            Associative(u.sent, u.pending[..n], u.pending[n..]);
            assert u.pending[..n] + u.pending[n..] == u.pending;
        }
      }
      UpwardIsFifo(u', ops[1..]);
    }
  }
}
