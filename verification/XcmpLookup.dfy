/**
 Looking up the sender of an arriving page: the list of senders is searched by halving but extended
 unsorted while a batch is recorded. Exactly when a lookup misses, and what that does to the list.
 */
module XcmpLookup {
  import opened Common
  import opened XcmpFormat
  import opened XcmpInbound
  import opened XcmpInboundProofs

  predicate IsPageOfData(a: Arrival) { DecodeFormat(a.data).Some? && !DecodeFormat(a.data).value.Signals? }

  function Self(): ParaId -> nat { (x: ParaId) => x }

  predicate Finds(senders: seq<ParaId>, x: ParaId) { Search(senders, Self(), x, 0, |senders|).Some? }

  /** The halving search finds the sender of a data page if the list has it. */
  predicate Hits(senders: seq<ParaId>, a: Arrival) { IsPageOfData(a) && a.sender in senders ==> Finds(senders, a.sender) }

  /** The list of senders once an arrival is recorded. */
  function SendersAfter(senders: seq<ParaId>, a: Arrival): seq<ParaId> {
    if IsPageOfData(a) && !Finds(senders, a.sender) then senders + [a.sender] else senders
  }

  /** No lookup of the batch misses a sender that is in the list. */
  predicate LookupsHit(senders: seq<ParaId>, batch: seq<Arrival>)
    decreases |batch|
  {
    batch == [] || (Hits(senders, batch[0]) && LookupsHit(SendersAfter(senders, batch[0]), batch[1..]))
  }

  lemma {:induction false} SearchSenders(st: seq<InDetails>, x: ParaId, lo: nat, hi: nat)
    requires lo <= hi <= |st|
    ensures Search(Senders(st), Self(), x, lo, hi) == Search(st, BySenderId(), x, lo, hi)
    decreases hi - lo
  {
    if lo < hi {
      var mid := lo + (hi - lo) / 2;
      assert Senders(st)[mid] == st[mid].sender;
      if st[mid].sender < x {
        SearchSenders(st, x, mid + 1, hi);
      } else if st[mid].sender > x {
        SearchSenders(st, x, lo, mid);
      }
    }
  }

  /** On a list that ascends the search misses nothing. */
  lemma AscendingFinds(senders: seq<ParaId>, x: ParaId)
    requires Ascending(senders, Self()) && x in senders
    ensures Finds(senders, x)
  {
    SearchFinds(senders, Self(), x, 0, |senders|);
    var i :| 0 <= i < |senders| && senders[i] == x;
    assert Self()(senders[i]) == x;
  }

  /** The ordinary way to hit: while the list ascends and only senders that wait speak, no lookup misses. */
  lemma {:induction false} KnownSendersHit(senders: seq<ParaId>, batch: seq<Arrival>)
    requires Ascending(senders, Self()) && forall a :: a in batch && IsPageOfData(a) ==> a.sender in senders
    ensures LookupsHit(senders, batch)
    decreases |batch|
  {
    if batch != [] {
      hide Finds;
      assert batch[0] in batch;
      if IsPageOfData(batch[0]) { AscendingFinds(senders, batch[0].sender); }
      KnownSendersHit(senders, batch[1..]);
    }
  }

  /** What an arrival does to the senders of the list: nothing, or one more at the end if the lookup missed. */
  lemma ReceiveSenders(cfg: Config, s: Inbound, a: Arrival)
    ensures Senders(Receive(cfg, s, a).status) == SendersAfter(Senders(s.status), a)
  {
    hide Search;
    SearchSenders(s.status, a.sender, 0, |s.status|);
    if IsPageOfData(a) {
      var st' := Receive(cfg, s, a).status;
      match Search(s.status, BySenderId(), a.sender, 0, |s.status|)
      case None => assert Senders(st') == Senders(s.status) + [a.sender];
      case Some(i) => assert Senders(st') == Senders(s.status);
    }
  }

  /** No lookup of a page of `y` misses while the batch is recorded. */
  predicate LookupsOf(senders: seq<ParaId>, batch: seq<Arrival>, y: ParaId)
    decreases |batch|
  {
    batch == [] ||
    ((batch[0].sender == y ==> Hits(senders, batch[0])) && LookupsOf(SendersAfter(senders, batch[0]), batch[1..], y))
  }

  ghost predicate Once(senders: seq<ParaId>, y: ParaId) {
    forall i, j :: 0 <= i < j < |senders| && senders[i] == y ==> senders[j] != y
  }

  lemma SingleIsOnce(st: seq<InDetails>, y: ParaId)
    ensures Single(st, y) <==> Once(Senders(st), y)
  {
    if Once(Senders(st), y) {
      forall i, j | 0 <= i < j < |st| && st[i].sender == y ensures st[j].sender != y {
        assert Senders(st)[i] == y && Senders(st)[j] == st[j].sender;
      }
    }
  }

  lemma OnceAfter(senders: seq<ParaId>, a: Arrival, y: ParaId)
    ensures Once(SendersAfter(senders, a), y) <==> Once(senders, y) && (a.sender == y ==> Hits(senders, a))
  {
    hide Finds;
    var after := SendersAfter(senders, a);
    forall i | 0 <= i < |senders| ensures after[i] == senders[i] {}
    if a.sender == y && !Hits(senders, a) {
      var i :| 0 <= i < |senders| && senders[i] == y;
      assert after[i] == after[|senders|];
    }
    if IsPageOfData(a) && Finds(senders, a.sender) { FoundIsThere(senders, a.sender); }
  }

  lemma FoundIsThere(senders: seq<ParaId>, x: ParaId)
    requires Finds(senders, x)
    ensures x in senders
  {
  }

  /** An arrival leaves `y` with at most one entry if and only if it had one at most and the arrival is no missed page of `y`. */
  lemma ReceiveKeepsSingleIff(cfg: Config, s: Inbound, a: Arrival, y: ParaId)
    ensures Single(Receive(cfg, s, a).status, y) <==> Single(s.status, y) && (a.sender == y ==> Hits(Senders(s.status), a))
  {
    hide Receive;
    hide Single;
    hide Once;
    hide Hits;
    ReceiveSenders(cfg, s, a);
    SingleIsOnce(s.status, y);
    SingleIsOnce(Receive(cfg, s, a).status, y);
    OnceAfter(Senders(s.status), a, y);
  }

  /**
   A batch leaves a sender with at most one entry if and only if it had one at most before and none of
   its own lookups misses; the others do not matter.
   */
  lemma {:induction false} OneEntryIff(cfg: Config, s: Inbound, batch: seq<Arrival>, y: ParaId)
    ensures Single(ReceiveAll(cfg, s, batch).status, y) <==> Single(s.status, y) && LookupsOf(Senders(s.status), batch, y)
    decreases |batch|
  {
    hide Receive;
    hide Hits;
    hide Single;
    if batch != [] {
      ReceiveKeepsSingleIff(cfg, s, batch[0], y);
      ReceiveSenders(cfg, s, batch[0]);
      OneEntryIff(cfg, Receive(cfg, s, batch[0]), batch[1..], y);
    }
  }

  ghost predicate Distinct(senders: seq<ParaId>) { forall i, j :: 0 <= i < j < |senders| ==> senders[i] != senders[j] }

  lemma UniqueIsDistinct(st: seq<InDetails>)
    ensures UniqueSenders(st) <==> Distinct(Senders(st))
  {
    if Distinct(Senders(st)) {
      forall i, j | 0 <= i < j < |st| ensures st[i].sender != st[j].sender {
        assert Senders(st)[i] != Senders(st)[j];
      }
    }
  }

  lemma DistinctAfter(senders: seq<ParaId>, a: Arrival)
    ensures Distinct(SendersAfter(senders, a)) <==> Distinct(senders) && Hits(senders, a)
  {
    var after := SendersAfter(senders, a);
    forall i | 0 <= i < |senders| ensures after[i] == senders[i] {}
    if !Hits(senders, a) {
      var i :| 0 <= i < |senders| && senders[i] == a.sender;
      assert after[i] == after[|senders|];
    }
  }

  /** An arrival keeps one entry per sender if and only if its lookup does not miss; lost uniqueness stays lost. */
  lemma ReceiveKeepsUniqueIff(cfg: Config, s: Inbound, a: Arrival)
    ensures UniqueSenders(Receive(cfg, s, a).status) <==> UniqueSenders(s.status) && Hits(Senders(s.status), a)
  {
    hide Receive;
    hide UniqueSenders;
    hide Distinct;
    hide Finds;
    ReceiveSenders(cfg, s, a);
    UniqueIsDistinct(s.status);
    UniqueIsDistinct(Receive(cfg, s, a).status);
    DistinctAfter(Senders(s.status), a);
  }

  /**
   A batch leaves one entry per sender if and only if there was one before and no lookup of the batch
   misses, which the senders alone decide.
   */
  lemma {:induction false} OneEntryPerSenderIff(cfg: Config, s: Inbound, batch: seq<Arrival>)
    ensures UniqueSenders(ReceiveAll(cfg, s, batch).status) <==> UniqueSenders(s.status) && LookupsHit(Senders(s.status), batch)
    decreases |batch|
  {
    hide Receive;
    hide Hits;
    hide UniqueSenders;
    if batch != [] {
      ReceiveKeepsUniqueIff(cfg, s, batch[0]);
      ReceiveSenders(cfg, s, batch[0]);
      OneEntryPerSenderIff(cfg, Receive(cfg, s, batch[0]), batch[1..]);
    }
  }

  /**
   The ordinary way to miss, possible in one relay block: while only `x` waits, a page of a new chain below
   `x` arrives and then one of `x` itself. The lookup of `x` misses.
   */
  lemma LowerNewcomerHidesSender(x: ParaId, y: ParaId, at: nat, at': nat, page: Bytes)
    requires y < x && IsPageOfData(Arrival(x, at, page))
    ensures !LookupsHit([x], [Arrival(y, at, page), Arrival(x, at', page)])
  {
    var first, second := Arrival(y, at, page), Arrival(x, at', page);
    assert Search([x], Self(), y, 0, 0) == None;
    assert SendersAfter([x], first) == [x, y];
    assert Search([x, y], Self(), x, 2, 2) == None;
    assert Search([x, y], Self(), x, 0, 2) == Search([x, y], Self(), x, 2, 2);
    assert [first, second][1..] == [second];
  }

  /** With senders 3, 1, 3 in one batch from the empty state chain 3 ends up with two entries. */
  lemma UnsortedLookupDuplicates(cfg: Config, page: Bytes)
    requires IsPageOfData(Arrival(3, 0, page))
    ensures var batch := [Arrival(3, 1, page), Arrival(1, 2, page), Arrival(3, 3, page)];
            !UniqueSenders(ReceiveAll(cfg, Empty, batch).status)
  {
    hide UniqueSenders;
    hide ReceiveAll;
    var batch := [Arrival(3, 1, page), Arrival(1, 2, page), Arrival(3, 3, page)];
    var one: seq<ParaId> := [3];
    assert SendersAfter([], batch[0]) == one;
    assert batch[1..] == [Arrival(1, 2, page), Arrival(3, 3, page)];
    LowerNewcomerHidesSender(3, 1, 2, 3, page);
    assert Senders(Empty.status) == [];
    OneEntryPerSenderIff(cfg, Empty, batch);
  }
}
