/**
 Inbound horizontal messages: the messages of all channels are merged into one dispatch order, and
 every channel's hash chain must arrive at the head the relay chain has for it.
 */
module HorizontalMessages {
  import opened Common
  import opened MessageChain

  /** One channel's submitted messages; the list of inboxes ascends by sender. */
  datatype Inbox = Inbox(sender: ParaId, msgs: seq<Message>)

  /** An open ingress channel and its head at the relay parent; no head means the empty chain. */
  datatype Channel = Channel(sender: ParaId, mqcHead: Option<Hash>)

  datatype Item = Item(sender: ParaId, msg: Message)

  function InboxSender(): Inbox -> nat { (b: Inbox) => b.sender }
  function ChannelSender(): Channel -> nat { (c: Channel) => c.sender }
  function IsFrom(x: ParaId): Item -> bool { (i: Item) => i.sender == x }

  /** First by relay block, then by sender. */
  function ByTime(): (Item, Item) -> bool {
    (a: Item, b: Item) => a.msg.sentAt < b.msg.sentAt || (a.msg.sentAt == b.msg.sentAt && a.sender <= b.sender)
  }

  function Items(x: ParaId, msgs: seq<Message>): (r: seq<Item>)
    ensures |r| == |msgs| && forall i :: 0 <= i < |r| ==> r[i] == Item(x, msgs[i])
  {
    seq(|msgs|, i requires 0 <= i < |msgs| => Item(x, msgs[i]))
  }

  function Flatten(inboxes: seq<Inbox>): seq<Item> {
    if inboxes == [] then [] else Items(inboxes[0].sender, inboxes[0].msgs) + Flatten(inboxes[1..])
  }

  /** The order in which messages are hashed and handed to the handler. */
  function DispatchOrder(inboxes: seq<Inbox>): seq<Item> { StableSort(Flatten(inboxes), ByTime()) }

  function Payloads(items: seq<Item>): (r: seq<Message>)
    ensures |r| == |items| && forall i :: 0 <= i < |r| ==> r[i] == items[i].msg
  {
    seq(|items|, i requires 0 <= i < |items| => items[i].msg)
  }

  /** The messages of one sender, in list order. */
  function Only(items: seq<Item>, x: ParaId): seq<Message> { Payloads(Filter(items, IsFrom(x))) }

  // ------------------------------------------------------------------ dispatch order

  ghost predicate NonDecreasing(msgs: seq<Message>) {
    forall i, j :: 0 <= i < j < |msgs| ==> msgs[i].sentAt <= msgs[j].sentAt
  }

  /** What `x` submitted. */
  function MessagesOf(inboxes: seq<Inbox>, x: ParaId): seq<Message> {
    if inboxes == [] then [] else if inboxes[0].sender == x then inboxes[0].msgs else MessagesOf(inboxes[1..], x)
  }

  lemma {:induction false} FlattenOnly(inboxes: seq<Inbox>, x: ParaId)
    requires Ascending(inboxes, InboxSender())
    ensures Filter(Flatten(inboxes), IsFrom(x)) == Items(x, MessagesOf(inboxes, x))
  {
    hide Filter;
    if inboxes == [] {
      FilterNone<Item>([], IsFrom(x));
    } else {
      var b := inboxes[0];
      assert Ascending(inboxes[1..], InboxSender()) by {
        forall i, j | 0 <= i < j < |inboxes[1..]| ensures InboxSender()(inboxes[1..][i]) < InboxSender()(inboxes[1..][j]) {
          assert InboxSender()(inboxes[i + 1]) < InboxSender()(inboxes[j + 1]);
        }
      }
      FlattenOnly(inboxes[1..], x);
      FilterAppend(Items(b.sender, b.msgs), Flatten(inboxes[1..]), IsFrom(x));
      if b.sender == x {
        FilterAll(Items(x, b.msgs), IsFrom(x));
        forall i | 0 <= i < |inboxes[1..]| ensures inboxes[1..][i].sender != x {
          assert InboxSender()(inboxes[0]) < InboxSender()(inboxes[i + 1]);
        }
        NotSubmitted(inboxes[1..], x);
        assert Items(x, []) == [];
        assert Items(x, b.msgs) + [] == Items(x, b.msgs);
      } else {
        FilterNone(Items(b.sender, b.msgs), IsFrom(x));
        assert [] + Items(x, MessagesOf(inboxes[1..], x)) == Items(x, MessagesOf(inboxes[1..], x));
      }
    }
  }

  lemma {:induction false} NotSubmitted(inboxes: seq<Inbox>, x: ParaId)
    requires forall i :: 0 <= i < |inboxes| ==> inboxes[i].sender != x
    ensures MessagesOf(inboxes, x) == []
  {
    if inboxes != [] { NotSubmitted(inboxes[1..], x); }
  }

  lemma ByTimeIsOrder()
    ensures TotalPreorder(ByTime())
  {
  }

  /**
   The dispatch order is a merge: nothing is lost or made up, and messages go by relay block and then by
   sender, however the inboxes are listed.
   */
  lemma DispatchIsMerge(inboxes: seq<Inbox>)
    ensures var d := DispatchOrder(inboxes);
            && multiset(d) == multiset(Flatten(inboxes))
            && forall i, j :: 0 <= i < j < |d| ==>
                 d[i].msg.sentAt < d[j].msg.sentAt || (d[i].msg.sentAt == d[j].msg.sentAt && d[i].sender <= d[j].sender)
  {
    hide StableSort;
    ByTimeIsOrder();
    StableSortSorted(Flatten(inboxes), ByTime());
    var d := DispatchOrder(inboxes);
    forall i, j | 0 <= i < j < |d|
      ensures d[i].msg.sentAt < d[j].msg.sentAt || (d[i].msg.sentAt == d[j].msg.sentAt && d[i].sender <= d[j].sender)
    {
      assert ByTime()(d[i], d[j]);
    }
  }

  /**
   Dispatching one sender's messages in the order submitted: this holds if and only if the sender's
   list is non-decreasing in `sent_at`.
   */
  lemma DispatchKeepsChannelOrderIff(inboxes: seq<Inbox>, x: ParaId)
    requires Ascending(inboxes, InboxSender())
    ensures Only(DispatchOrder(inboxes), x) == MessagesOf(inboxes, x) <==> NonDecreasing(MessagesOf(inboxes, x))
  {
    hide Filter;
    hide StableSort;
    var flat, msgs := Flatten(inboxes), MessagesOf(inboxes, x);
    FlattenOnly(inboxes, x);
    ByTimeIsOrder();
    var sorted := StableSort(flat, ByTime());
    if NonDecreasing(msgs) {
      assert SortedBy(Items(x, msgs), ByTime());
      StableSortFilter(flat, ByTime(), IsFrom(x));
      assert Payloads(Items(x, msgs)) == msgs;
    }
    if Only(sorted, x) == msgs {
      StableSortSorted(flat, ByTime());
      FilterSorted(sorted, ByTime(), IsFrom(x));
      var own := Filter(sorted, IsFrom(x));
      forall i, j | 0 <= i < j < |msgs| ensures msgs[i].sentAt <= msgs[j].sentAt {
        assert msgs[i] == own[i].msg && msgs[j] == own[j].msg;
        assert ByTime()(own[i], own[j]);
      }
    }
  }

  // ------------------------------------------------------------------ running heads

  function HeadOf(heads: map<ParaId, Hash>, x: ParaId): Hash { if x in heads then heads[x] else Zero }

  /** The entry of `x` in `running`, taken over from `last` the first time it is needed. */
  function Entry(running: map<ParaId, Hash>, last: map<ParaId, Hash>, x: ParaId): Hash {
    if x in running then running[x] else HeadOf(last, x)
  }

  function RunHeads(running: map<ParaId, Hash>, last: map<ParaId, Hash>, items: seq<Item>): map<ParaId, Hash>
    decreases |items|
  {
    if items == [] then running
    else
      var i := items[0];
      RunHeads(running[i.sender := Extend(Entry(running, last, i.sender), i.msg)], last, items[1..])
  }

  lemma {:induction false} RunHeadsFold(running: map<ParaId, Hash>, last: map<ParaId, Hash>, items: seq<Item>, x: ParaId)
    ensures Entry(RunHeads(running, last, items), last, x) == Fold(Entry(running, last, x), Only(items, x))
    ensures x in RunHeads(running, last, items) <==> x in running || exists i :: 0 <= i < |items| && items[i].sender == x
    decreases |items|
  {
    if items != [] {
      var i := items[0];
      var running' := running[i.sender := Extend(Entry(running, last, i.sender), i.msg)];
      RunHeadsFold(running', last, items[1..], x);
      var rest := Only(items[1..], x);
      if i.sender == x {
        assert Only(items, x) == [i.msg] + rest;
        FoldAppend(Entry(running, last, x), [i.msg], rest);
        FoldSnoc(Entry(running, last, x), [], i.msg);
        assert [] + [i.msg] == [i.msg];
      } else {
        assert Only(items, x) == rest;
      }
      forall k | 0 <= k < |items[1..]| && items[1..][k].sender == x ensures exists n :: 0 <= n < |items| && items[n].sender == x {
        assert items[k + 1].sender == x;
      }
      forall k | 0 <= k < |items| && items[k].sender == x
        ensures i.sender == x || exists n :: 0 <= n < |items[1..]| && items[1..][n].sender == x
      {
        if k > 0 { assert items[1..][k - 1].sender == x; }
      }
    }
  }

  /** Carries over the heads of quiet channels and compares every head with the relay's. */
  function CheckChannels(running: map<ParaId, Hash>, last: map<ParaId, Hash>, channels: seq<Channel>): Option<map<ParaId, Hash>>
    decreases |channels|
  {
    if channels == [] then Some(running)
    else
      var c := channels[0];
      var head := Entry(running, last, c.sender);
      var target := if c.mqcHead.Some? then c.mqcHead.value else Zero;
      if head != target then None
      else CheckChannels(running[c.sender := head], last, channels[1..])
  }

  ghost predicate Open(channels: seq<Channel>, x: ParaId) { exists i :: 0 <= i < |channels| && channels[i].sender == x }

  function Target(c: Channel): Hash { if c.mqcHead.Some? then c.mqcHead.value else Zero }

  lemma {:induction false} CheckedHeads(running: map<ParaId, Hash>, last: map<ParaId, Hash>, channels: seq<Channel>, x: ParaId)
    ensures var r := CheckChannels(running, last, channels);
            r.Some? ==>
              && Entry(r.value, last, x) == Entry(running, last, x)
              && (x in r.value <==> x in running || Open(channels, x))
              && (forall i :: 0 <= i < |channels| && channels[i].sender == x ==> Entry(running, last, x) == Target(channels[i]))
    decreases |channels|
  {
    if channels != [] {
      var c := channels[0];
      var head := Entry(running, last, c.sender);
      if head == Target(c) {
        CheckedHeads(running[c.sender := head], last, channels[1..], x);
        assert Open(channels, x) <==> c.sender == x || Open(channels[1..], x) by { OpenHead(channels, x); }
      }
    }
  }

  lemma OpenHead(channels: seq<Channel>, x: ParaId)
    requires channels != []
    ensures Open(channels, x) <==> channels[0].sender == x || Open(channels[1..], x)
  {
    if Open(channels, x) && channels[0].sender != x {
      var i :| 0 <= i < |channels| && channels[i].sender == x;
      assert channels[1..][i - 1].sender == x;
    }
    if Open(channels[1..], x) {
      var i :| 0 <= i < |channels[1..]| && channels[1..][i].sender == x;
      assert channels[i + 1].sender == x;
    }
  }

  // ------------------------------------------------------------------ the watermark

  function Watermark(w: Option<nat>, items: seq<Item>): Option<nat>
    decreases |items|
  {
    if items == [] then w
    else
      var t := items[0].msg.sentAt;
      Watermark(if w.None? || w.value < t then Some(t) else w, items[1..])
  }

  /** The watermark is the largest relay block among the messages, or nothing if there are none. */
  lemma {:induction false} WatermarkIsMax(w: Option<nat>, items: seq<Item>)
    ensures var r := Watermark(w, items);
            && (r.None? <==> w.None? && items == [])
            && (r.Some? ==>
                  && (r == w || exists i :: 0 <= i < |items| && items[i].msg.sentAt == r.value)
                  && (w.Some? ==> w.value <= r.value)
                  && forall i :: 0 <= i < |items| ==> items[i].msg.sentAt <= r.value)
    decreases |items|
  {
    if items != [] {
      var t := items[0].msg.sentAt;
      var w' := if w.None? || w.value < t then Some(t) else w;
      WatermarkIsMax(w', items[1..]);
      var r := Watermark(w', items[1..]);
      forall i | 0 <= i < |items| ensures items[i].msg.sentAt <= r.value {
        if i > 0 { assert items[i] == items[1..][i - 1]; }
      }
      if r != w {
        if r == w' {
          assert items[0].msg.sentAt == r.value;
        } else {
          var i :| 0 <= i < |items[1..]| && items[1..][i].msg.sentAt == r.value;
          assert items[i + 1].msg.sentAt == r.value;
        }
      }
    }
  }

  // ------------------------------------------------------------------ one block

  datatype Processed = Processed(heads: map<ParaId, Hash>, watermark: nat, dispatched: seq<Item>)

  predicate AllOpen(inboxes: seq<Inbox>, channels: seq<Channel>) {
    forall i :: 0 <= i < |inboxes| ==> Search(channels, ChannelSender(), inboxes[i].sender, 0, |channels|).Some?
  }

  /** Processes the horizontal messages of a block; None is a rejected block. */
  function Process(last: map<ParaId, Hash>, channels: seq<Channel>, inboxes: seq<Inbox>, relayParent: nat): Option<Processed> {
    if !AllOpen(inboxes, channels) then None
    else
      var items := DispatchOrder(inboxes);
      var checked := CheckChannels(RunHeads(map[], last, items), last, channels);
      if checked.None? then None
      else
        var w := Watermark(None, items);
        Some(Processed(checked.value, if w.Some? then w.value else relayParent, items))
  }

  lemma {:induction false} FlattenSender(inboxes: seq<Inbox>, item: Item)
    requires item in Flatten(inboxes)
    ensures exists i :: 0 <= i < |inboxes| && inboxes[i].sender == item.sender
  {
    if item in Items(inboxes[0].sender, inboxes[0].msgs) {
      assert inboxes[0].sender == item.sender;
    } else {
      FlattenSender(inboxes[1..], item);
      var i :| 0 <= i < |inboxes[1..]| && inboxes[1..][i].sender == item.sender;
      assert inboxes[i + 1].sender == item.sender;
    }
  }

  lemma DispatchedAreOpen(inboxes: seq<Inbox>, channels: seq<Channel>, k: nat)
    requires AllOpen(inboxes, channels) && k < |DispatchOrder(inboxes)|
    ensures Open(channels, DispatchOrder(inboxes)[k].sender)
  {
    var item := DispatchOrder(inboxes)[k];
    SameElements(DispatchOrder(inboxes), Flatten(inboxes));
    assert item in DispatchOrder(inboxes);
    FlattenSender(inboxes, item);
    var i :| 0 <= i < |inboxes| && inboxes[i].sender == item.sender;
    var found := Search(channels, ChannelSender(), inboxes[i].sender, 0, |channels|);
    assert ChannelSender()(channels[found.value]) == item.sender;
  }

  /**
   An accepted block leaves heads keyed by exactly the ingress senders; each is the relay's head for
   that channel and extends the previous head by exactly the messages dispatched for it.
   */
  lemma AcceptedHeads(last: map<ParaId, Hash>, channels: seq<Channel>, inboxes: seq<Inbox>, relayParent: nat, x: ParaId)
    requires Process(last, channels, inboxes, relayParent).Some?
    ensures var r := Process(last, channels, inboxes, relayParent).value;
            && (x in r.heads <==> Open(channels, x))
            && (x in r.heads ==> r.heads[x] == Fold(HeadOf(last, x), Only(r.dispatched, x)))
            && (forall i :: 0 <= i < |channels| && channels[i].sender == x ==> x in r.heads && r.heads[x] == Target(channels[i]))
  {
    hide CheckChannels;
    hide RunHeads;
    var items := DispatchOrder(inboxes);
    var running := RunHeads(map[], last, items);
    RunHeadsFold(map[], last, items, x);
    CheckedHeads(running, last, channels, x);
    if x in running {
      var k :| 0 <= k < |items| && items[k].sender == x;
      DispatchedAreOpen(inboxes, channels, k);
    }
  }

  lemma {:induction false} CheckedIff(running: map<ParaId, Hash>, last: map<ParaId, Hash>, channels: seq<Channel>)
    ensures CheckChannels(running, last, channels).Some? <==>
            forall i :: 0 <= i < |channels| ==> Entry(running, last, channels[i].sender) == Target(channels[i])
    decreases |channels|
  {
    if channels != [] {
      var c, rest := channels[0], channels[1..];
      var head := Entry(running, last, c.sender);
      var running' := running[c.sender := head];
      CheckedIff(running', last, rest);
      forall x: ParaId ensures Entry(running', last, x) == Entry(running, last, x) {}
      assert (forall i :: 0 <= i < |channels| ==> Entry(running, last, channels[i].sender) == Target(channels[i])) <==>
             head == Target(c) && forall i :: 0 <= i < |rest| ==> Entry(running, last, rest[i].sender) == Target(rest[i])
      by {
        if forall i :: 0 <= i < |channels| ==> Entry(running, last, channels[i].sender) == Target(channels[i]) {
          forall i | 0 <= i < |rest| ensures Entry(running, last, rest[i].sender) == Target(rest[i]) { assert rest[i] == channels[i + 1]; }
        }
        forall i | 0 < i < |channels| ensures channels[i] == rest[i - 1] {}
      }
    }
  }

  lemma OpenIsFound(channels: seq<Channel>, x: ParaId)
    requires Ascending(channels, ChannelSender())
    ensures Search(channels, ChannelSender(), x, 0, |channels|).Some? <==> Open(channels, x)
  {
    if Open(channels, x) {
      var i :| 0 <= i < |channels| && channels[i].sender == x;
      assert ChannelSender()(channels[i]) == x;
      SearchFinds(channels, ChannelSender(), x, 0, |channels|);
    }
  }

  /**
   Exactly which blocks are accepted: every inbox is found among the channels, which the relay chain lists
   in ascending order, so that this means its channel is open; and on every open channel, quiet ones
   included, the old head extended by the messages dispatched is the relay's head.
   */
  lemma AcceptedIff(last: map<ParaId, Hash>, channels: seq<Channel>, inboxes: seq<Inbox>, relayParent: nat)
    ensures Process(last, channels, inboxes, relayParent).Some? <==>
            && AllOpen(inboxes, channels)
            && forall i :: 0 <= i < |channels| ==>
                 Fold(HeadOf(last, channels[i].sender), Only(DispatchOrder(inboxes), channels[i].sender)) == Target(channels[i])
    ensures Ascending(channels, ChannelSender()) ==>
              (AllOpen(inboxes, channels) <==> forall i :: 0 <= i < |inboxes| ==> Open(channels, inboxes[i].sender))
  {
    hide CheckChannels;
    hide RunHeads;
    hide Fold;
    hide Only;
    var items := DispatchOrder(inboxes);
    CheckedIff(RunHeads(map[], last, items), last, channels);
    forall x: ParaId ensures Entry(RunHeads(map[], last, items), last, x) == Fold(HeadOf(last, x), Only(items, x)) {
      RunHeadsFold(map[], last, items, x);
    }
    if Ascending(channels, ChannelSender()) {
      forall i | 0 <= i < |inboxes|
        ensures Search(channels, ChannelSender(), inboxes[i].sender, 0, |channels|).Some? <==> Open(channels, inboxes[i].sender)
      {
        OpenIsFound(channels, inboxes[i].sender);
      }
    }
  }

  /** The watermark is the largest relay block dispatched, or the relay parent if nothing was. */
  lemma AcceptedWatermark(last: map<ParaId, Hash>, channels: seq<Channel>, inboxes: seq<Inbox>, relayParent: nat)
    requires Process(last, channels, inboxes, relayParent).Some?
    ensures var r := Process(last, channels, inboxes, relayParent).value;
            if r.dispatched == [] then r.watermark == relayParent
            else
              && (exists i :: 0 <= i < |r.dispatched| && r.dispatched[i].msg.sentAt == r.watermark)
              && (forall i :: 0 <= i < |r.dispatched| ==> r.dispatched[i].msg.sentAt <= r.watermark)
  {
    WatermarkIsMax(None, DispatchOrder(inboxes));
  }

  // ------------------------------------------------------------------ whole runs

  datatype Block = Block(channels: seq<Channel>, inboxes: seq<Inbox>, relayParent: nat)

  /** The heads, and for every open channel what was dispatched since it last opened. */
  datatype State = State(heads: map<ParaId, Hash>, seen: map<ParaId, seq<Message>>)

  function SeenOf(seen: map<ParaId, seq<Message>>, x: ParaId): seq<Message> { if x in seen then seen[x] else [] }

  function Next(s: State, b: Block): State {
    match Process(s.heads, b.channels, b.inboxes, b.relayParent)
    case None => s
    case Some(r) => State(r.heads, map x | x in r.heads :: SeenOf(s.seen, x) + Only(r.dispatched, x))
  }

  function Run(s: State, blocks: seq<Block>): State
    decreases |blocks|
  {
    if blocks == [] then s else Run(Next(s, blocks[0]), blocks[1..])
  }

  /** Every head is the fold of what was dispatched on its channel. */
  ghost predicate Tracks(s: State) {
    s.heads.Keys == s.seen.Keys && forall x: ParaId :: x in s.heads ==> s.heads[x] == Fold(Zero, s.seen[x])
  }

  lemma NextTracks(s: State, b: Block)
    requires Tracks(s)
    ensures Tracks(Next(s, b))
  {
    hide Process;
    hide Fold;
    var r := Process(s.heads, b.channels, b.inboxes, b.relayParent);
    if r.Some? {
      var s' := Next(s, b);
      forall x: ParaId | x in s'.heads ensures s'.heads[x] == Fold(Zero, s'.seen[x]) {
        AcceptedHeads(s.heads, b.channels, b.inboxes, b.relayParent, x);
        FoldNothing();
        FoldAppend(Zero, SeenOf(s.seen, x), Only(r.value.dispatched, x));
      }
    }
  }

  lemma FoldNothing()
    ensures Fold(Zero, []) == Zero
  {
  }

  lemma {:induction false} RunTracks(s: State, blocks: seq<Block>)
    requires Tracks(s)
    ensures Tracks(Run(s, blocks))
    decreases |blocks|
  {
    if blocks != [] {
      hide Tracks;
      hide Next;
      NextTracks(s, blocks[0]);
      RunTracks(Next(s, blocks[0]), blocks[1..]);
    }
  }

  /**
   Horizontal authenticity: after any run and one more accepted block, if the relay's head of an open
   channel stands for the queue `relay`, then what was dispatched on that channel since it opened is
   exactly `relay`, in order.
   */
  lemma DispatchedIsRelaySequence(blocks: seq<Block>, b: Block, i: nat, relay: seq<Message>)
    requires i < |b.channels| && Target(b.channels[i]) == Fold(Zero, relay)
    requires Process(Run(State(map[], map[]), blocks).heads, b.channels, b.inboxes, b.relayParent).Some?
    ensures var s := Next(Run(State(map[], map[]), blocks), b); var x := b.channels[i].sender; x in s.seen && s.seen[x] == relay
  {
    hide Process;
    hide Fold;
    var s0 := Run(State(map[], map[]), blocks);
    RunTracks(State(map[], map[]), blocks);
    NextTracks(s0, b);
    var x := b.channels[i].sender;
    AcceptedHeads(s0.heads, b.channels, b.inboxes, b.relayParent, x);
    HeadDeterminesQueue(Next(s0, b).seen[x], relay);
  }
}
