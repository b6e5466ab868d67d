/**
 Arriving pages of the XCMP queue: exactly which arrivals keep every channel in order, and that a batch
 of such arrivals, the sort of the list of senders and the service call do.
 */
module XcmpArrivals {
  import opened Common
  import opened XcmpFormat
  import opened XcmpInbound
  import opened XcmpInboundProofs
  import opened XcmpLookup

  // ------------------------------------------------------------------ recording one page

  /** A page of the sender with this time stamp already waits. */
  predicate Clashes(s: Inbound, a: Arrival) { exists m :: m in Entry(s.status, a.sender).meta && m.sentAt == a.sentAt }

  /**
   An arrival that does no harm: its lookup does not miss, and a data page is not stamped like one that
   waits, unless it is dropped and its payload is exactly what waits under that stamp.
   */
  ghost predicate Harmless(cfg: Config, s: Inbound, a: Arrival) {
    IsPageOfData(a) ==>
      && Hits(Senders(s.status), a)
      && (Clashes(s, a) ==> |Entry(s.status, a.sender).meta| >= cfg.dropThreshold && Page(Inner(s.pages, a.sender), a.sentAt) == a.data[1..])
  }

  /** The arrivals of `y` in the batch do no harm; those of the others do not matter. */
  ghost predicate HarmlessBatch(cfg: Config, s: Inbound, batch: seq<Arrival>, y: ParaId)
    decreases |batch|
  {
    batch == [] ||
    ((batch[0].sender == y ==> Harmless(cfg, s, batch[0])) && HarmlessBatch(cfg, Receive(cfg, s, batch[0]), batch[1..], y))
  }

  /** Recording a page of `a.sender` with a list that becomes `st'`: its entry grows and stays the only one. */
  ghost predicate Records(st: seq<InDetails>, st': seq<InDetails>, a: Arrival, f: Format, kept: bool, suspended: bool) {
    var d, d' := Entry(st, a.sender), Entry(st', a.sender);
    && Single(st', a.sender)
    && d'.meta == (if kept then d.meta + [Meta(a.sentAt, f)] else d.meta)
    && (kept || d in st)
    && (if suspended then d.state.Ok? && d'.state.Suspended? else d'.state == d.state)
  }

  /** A known channel keeps the page below the drop threshold and is suspended from the suspend threshold on. */
  ghost predicate Thresholds(cfg: Config, st: seq<InDetails>, x: ParaId, kept: bool, suspended: bool) {
    var d := Entry(st, x);
    if d in st then (kept <==> |d.meta| < cfg.dropThreshold) && (suspended <==> |d.meta| >= cfg.suspendThreshold && d.state.Ok?)
    else kept && !suspended
  }

  lemma RecordsFound(st: seq<InDetails>, i: nat, a: Arrival, f: Format, kept: bool, suspended: bool)
    requires Single(st, a.sender) && i < |st| && st[i].sender == a.sender && (suspended ==> st[i].state.Ok?)
    ensures Records(st, st[i := InDetails(a.sender, if suspended then Suspended else st[i].state,
                                          if kept then st[i].meta + [Meta(a.sentAt, f)] else st[i].meta)], a, f, kept, suspended)
  {
    var d' := InDetails(a.sender, if suspended then Suspended else st[i].state,
                        if kept then st[i].meta + [Meta(a.sentAt, f)] else st[i].meta);
    EntryIs(st, i);
    EntryUpdate(st, i, d');
    assert st[i] in st;
  }

  /** A new entry at the end touches no other sender. */
  lemma EntryPush(st: seq<InDetails>, d: InDetails)
    ensures forall y: ParaId :: y != d.sender ==> Entry(st + [d], y) == Entry(st, y) && (Single(st + [d], y) <==> Single(st, y))
    ensures (forall e :: e in st ==> e.sender != d.sender) ==>
              Single(st + [d], d.sender) && Entry(st, d.sender) == InDetails(d.sender, Ok, []) && Entry(st + [d], d.sender) == d
  {
    hide Filter;
    forall y: ParaId ensures Mine(st + [d], y) == if y == d.sender then Mine(st, y) + [d] else Mine(st, y) {
      FilterAppend(st, [d], IsOf(y));
      FilterOne(d, IsOf(y));
    }
    forall y: ParaId
      ensures y != d.sender ==> Entry(st + [d], y) == Entry(st, y) && (Single(st + [d], y) <==> Single(st, y))
    {
      MineIs(st, y);
      MineIs(st + [d], y);
    }
    MineIs(st, d.sender);
    MineIs(st + [d], d.sender);
  }

  lemma RecordsNew(st: seq<InDetails>, a: Arrival, f: Format)
    requires forall e :: e in st ==> e.sender != a.sender
    ensures Records(st, st + [InDetails(a.sender, Ok, [Meta(a.sentAt, f)])], a, f, true, false)
  {
    EntryPush(st, InDetails(a.sender, Ok, [Meta(a.sentAt, f)]));
    assert [] + [Meta(a.sentAt, f)] == [Meta(a.sentAt, f)];
  }

  lemma UnknownSender(st: seq<InDetails>, a: Arrival)
    requires IsPageOfData(a) && Hits(Senders(st), a) && Search(st, BySenderId(), a.sender, 0, |st|).None?
    ensures forall e :: e in st ==> e.sender != a.sender
  {
    hide Search;
    SearchSenders(st, a.sender, 0, |st|);
    forall e | e in st ensures e.sender != a.sender {
      var i :| 0 <= i < |st| && st[i] == e;
      assert Senders(st)[i] == e.sender;
    }
  }

  /** What recording a page does: one entry grows or a new one is pushed, and maybe Suspend is issued. */
  lemma RecordEntries(cfg: Config, s: Inbound, a: Arrival, f: Format, payload: Bytes)
    returns (kept: bool, suspended: bool)
    requires Single(s.status, a.sender) && IsPageOfData(a) && Hits(Senders(s.status), a)
    ensures var s' := RecordPage(cfg, s, a, f, payload);
            && Records(s.status, s'.status, a, f, kept, suspended)
            && Thresholds(cfg, s.status, a.sender, kept, suspended)
            && s'.accepted == (if kept then s.accepted + [a] else s.accepted)
            && s'.calls == (if suspended then s.calls + [Issue(Note(a.sender, Suspend))] else s.calls)
            && s'.log == s.log && s'.over == s.over
  {
    hide StorePages;
    hide Search;
    hide Records;
    hide Hits;
    var st := s.status;
    match Search(st, BySenderId(), a.sender, 0, |st|)
    case Some(i) =>
      suspended := |st[i].meta| >= cfg.suspendThreshold && st[i].state.Ok?;
      kept := |st[i].meta| < cfg.dropThreshold;
      EntryIs(st, i);
      assert st[i] in st;
      RecordsFound(st, i, a, f, kept, suspended);
    case None =>
      kept, suspended := true, false;
      UnknownSender(st, a);
      assert Entry(st, a.sender) !in st;
      RecordsNew(st, a, f);
  }

  lemma {:induction false} PagesOfSnoc(pages: DoubleMap, x: ParaId, meta: seq<Meta>, m: Meta)
    ensures PagesOf(pages, x, meta + [m]) == PagesOf(pages, x, meta) + Page(Inner(pages, x), m.sentAt)
  {
    if meta == [] {
      assert meta + [m] == [m] && [m][1..] == [];
    } else {
      assert (meta + [m])[0] == meta[0] && (meta + [m])[1..] == meta[1..] + [m];
      PagesOfSnoc(pages, x, meta[1..], m);
    }
  }

  lemma RecordPages(cfg: Config, s: Inbound, a: Arrival, f: Format, payload: Bytes)
    ensures var s' := RecordPage(cfg, s, a, f, payload);
            && Page(Inner(s'.pages, a.sender), a.sentAt) == payload
            && forall y: ParaId, t: nat :: y != a.sender || t != a.sentAt ==>
                                             Page(Inner(s'.pages, y), t) == Page(Inner(s.pages, y), t)
  {
  }

  /** No waiting page of `y` is changed by recording the page. */
  lemma WaitingStays(cfg: Config, s: Inbound, a: Arrival, f: Format, payload: Bytes, y: ParaId)
    requires Clashes(s, a) ==> Page(Inner(s.pages, a.sender), a.sentAt) == payload
    ensures var s' := RecordPage(cfg, s, a, f, payload); var meta := Entry(s.status, y).meta;
            PagesOf(s'.pages, y, meta) == PagesOf(s.pages, y, meta)
  {
    hide RecordPage;
    RecordPages(cfg, s, a, f, payload);
    PagesOfElsewhere(s.pages, RecordPage(cfg, s, a, f, payload).pages, y, Entry(s.status, y).meta);
  }

  /** Recording a page touches no channel but its sender's, whatever the list is like. */
  lemma RecordElsewhere(cfg: Config, s: Inbound, a: Arrival, f: Format, payload: Bytes, y: ParaId)
    requires y != a.sender
    ensures var s' := RecordPage(cfg, s, a, f, payload);
            && Entry(s'.status, y) == Entry(s.status, y) && (Single(s'.status, y) <==> Single(s.status, y))
            && (s'.calls == s.calls || s'.calls == s.calls + [Issue(Note(a.sender, Suspend))])
            && (s'.accepted == s.accepted || s'.accepted == s.accepted + [a])
            && s'.log == s.log && s'.over == s.over
  {
    hide StorePages;
    hide Search;
    var st := s.status;
    match Search(st, BySenderId(), a.sender, 0, |st|)
    case Some(i) => EntryUpdate(st, i, RecordPage(cfg, s, a, f, payload).status[i]);
    case None => EntryPush(st, InDetails(a.sender, Ok, [Meta(a.sentAt, f)]));
  }

  lemma RecordFlows(cfg: Config, s: Inbound, a: Arrival, f: Format, payload: Bytes)
    requires Single(s.status, a.sender) && IsPageOfData(a) && Harmless(cfg, s, a) && payload == a.data[1..] && Flows(s, a.sender)
    ensures Flows(RecordPage(cfg, s, a, f, payload), a.sender)
  {
    hide Decided;
    hide Accepted;
    hide RecordPage;
    hide Hits;
    var y := a.sender;
    var s' := RecordPage(cfg, s, a, f, payload);
    var kept, suspended := RecordEntries(cfg, s, a, f, payload);
    RecordPages(cfg, s, a, f, payload);
    WaitingStays(cfg, s, a, f, payload, y);
    AcceptedSnoc(s.accepted, a, y);
    if kept {
      PagesOfSnoc(s'.pages, y, Entry(s.status, y).meta, Meta(a.sentAt, f));
      Associative(Decided(s.log, y), Pending(s, y), payload);
    }
  }

  lemma OtherFlows(cfg: Config, s: Inbound, a: Arrival, f: Format, payload: Bytes, y: ParaId)
    requires y != a.sender && IsPageOfData(a) && Flows(s, y)
    ensures Flows(RecordPage(cfg, s, a, f, payload), y)
  {
    hide Decided;
    hide Accepted;
    hide RecordPage;
    RecordElsewhere(cfg, s, a, f, payload, y);
    RecordPages(cfg, s, a, f, payload);
    PagesOfElsewhere(s.pages, RecordPage(cfg, s, a, f, payload).pages, y, Entry(s.status, y).meta);
    AcceptedSnoc(s.accepted, a, y);
  }

  lemma NewTime(meta: seq<Meta>, m: Meta)
    requires DistinctTimes(meta) && forall t :: t in meta ==> t.sentAt != m.sentAt
    ensures DistinctTimes(meta + [m])
  {
    forall i | 0 <= i < |meta| ensures meta[i].sentAt != m.sentAt { assert meta[i] in meta; }
  }

  lemma KeptIsNew(cfg: Config, s: Inbound, a: Arrival, kept: bool, suspended: bool)
    requires IsPageOfData(a) && Harmless(cfg, s, a) && Thresholds(cfg, s.status, a.sender, kept, suspended) && kept
    ensures !Clashes(s, a)
  {
    hide Hits;
    assert Entry(s.status, a.sender) in s.status || Entry(s.status, a.sender).meta == [];
  }

  lemma RecordDelivers(cfg: Config, s: Inbound, a: Arrival, f: Format, payload: Bytes, y: ParaId)
    requires IsPageOfData(a) && payload == a.data[1..] && Delivers(s, y) && (a.sender == y ==> Harmless(cfg, s, a))
    ensures Delivers(RecordPage(cfg, s, a, f, payload), y)
  {
    hide Flows;
    hide RecordPage;
    hide Hits;
    if y != a.sender {
      RecordElsewhere(cfg, s, a, f, payload, y);
      OtherFlows(cfg, s, a, f, payload, y);
    } else {
      RecordFlows(cfg, s, a, f, payload);
      var kept, suspended := RecordEntries(cfg, s, a, f, payload);
      if kept {
        KeptIsNew(cfg, s, a, kept, suspended);
        NewTime(Entry(s.status, y).meta, Meta(a.sentAt, f));
      }
    }
  }

  lemma RecordHandshakes(cfg: Config, s: Inbound, a: Arrival, f: Format, payload: Bytes, y: ParaId)
    requires IsPageOfData(a) && AllHavePages(s.status) && Handshakes(s, y) && (a.sender == y ==> Hits(Senders(s.status), a))
    ensures Handshakes(RecordPage(cfg, s, a, f, payload), y)
  {
    hide Shakes;
    hide RecordPage;
    hide Hits;
    var s' := RecordPage(cfg, s, a, f, payload);
    if y != a.sender {
      RecordElsewhere(cfg, s, a, f, payload, y);
      if s'.calls != s.calls { OtherIssue(s, s', Note(a.sender, Suspend), y); } else { SameShakes(s, s', y); }
    } else {
      var kept, suspended := RecordEntries(cfg, s, a, f, payload);
      if suspended { FlipShakes(s, s', y, y); } else { SameShakes(s, s', y); }
    }
  }

  lemma SameShakes(s: Inbound, s': Inbound, y: ParaId)
    requires Shakes(s, y) && s'.calls == s.calls && Entry(s'.status, y).state == Entry(s.status, y).state
    ensures Shakes(s', y)
  {
  }

  lemma {:induction false} HearingIssuesNothing(calls: seq<Call>, x: ParaId, sigs: seq<Signal>)
    ensures Issues(calls + HearAll(x, sigs)) == Issues(calls)
  {
    if sigs == [] {
      assert calls + HearAll(x, sigs) == calls;
    } else {
      var init, last := sigs[..|sigs| - 1], Hear(Note(x, sigs[|sigs| - 1]));
      HearingIssuesNothing(calls, x, init);
      assert calls + HearAll(x, sigs) == calls + HearAll(x, init) + [last];
      IssuesSnoc(calls + HearAll(x, init), last);
    }
  }

  /** Hearing signals changes nothing that is stored on the inbound side and issues nothing. */
  lemma HearingIsQuiet(s: Inbound, a: Arrival, y: ParaId)
    requires a.data != []
    ensures var s' := s.(calls := s.calls + HearAll(a.sender, DecodeSignals(a.data[1..])));
            (Handshakes(s, y) ==> Handshakes(s', y)) && (Delivers(s, y) ==> Delivers(s', y))
  {
    hide Decided;
    hide Accepted;
    hide Issues;
    hide SignalsWith;
    HearingIssuesNothing(s.calls, a.sender, DecodeSignals(a.data[1..]));
  }

  lemma ReceiveHandshakes(cfg: Config, s: Inbound, a: Arrival, y: ParaId)
    requires AllHavePages(s.status) && Handshakes(s, y) && (a.sender == y ==> Hits(Senders(s.status), a))
    ensures Handshakes(Receive(cfg, s, a), y)
  {
    hide Handshakes;
    hide Delivers;
    hide RecordPage;
    hide Hits;
    match DecodeFormat(a.data)
    case None =>
    case Some(f) => if f.Signals? { HearingIsQuiet(s, a, y); } else { RecordHandshakes(cfg, s, a, f, a.data[1..], y); }
  }

  lemma ReceiveDelivers(cfg: Config, s: Inbound, a: Arrival, y: ParaId)
    requires Delivers(s, y) && (a.sender == y ==> Harmless(cfg, s, a))
    ensures Delivers(Receive(cfg, s, a), y)
  {
    hide Handshakes;
    hide Delivers;
    hide RecordPage;
    hide Harmless;
    match DecodeFormat(a.data)
    case None =>
    case Some(f) => if f.Signals? { HearingIsQuiet(s, a, y); } else { RecordDelivers(cfg, s, a, f, a.data[1..], y); }
  }

  /** Whatever arrives, every entry has a page, and the overweight store is left alone. */
  lemma ReceiveLeavesPages(cfg: Config, s: Inbound, a: Arrival)
    requires AllHavePages(s.status)
    ensures var s' := Receive(cfg, s, a); AllHavePages(s'.status) && s'.over == s.over && s'.log == s.log
  {
    hide Search;
    hide StorePages;
    var s' := Receive(cfg, s, a);
    if IsPageOfData(a) {
      match Search(s.status, BySenderId(), a.sender, 0, |s.status|)
      case Some(i) =>
        assert s.status[i] in s.status;
        forall d | d in s'.status ensures d.meta != [] { assert d in s.status || d == s'.status[i]; }
      case None =>
    }
  }

  // ------------------------------------------------------------------ exactly which arrivals do no harm

  /** A page overwritten with different bytes changes what waits. */
  lemma {:induction false} Overwritten(pages: DoubleMap, pages': DoubleMap, x: ParaId, meta: seq<Meta>, at: nat)
    requires DistinctTimes(meta) && exists m :: m in meta && m.sentAt == at
    requires forall t: nat :: t != at ==> Page(Inner(pages', x), t) == Page(Inner(pages, x), t)
    requires PagesOf(pages', x, meta) == PagesOf(pages, x, meta)
    ensures Page(Inner(pages', x), at) == Page(Inner(pages, x), at)
  {
    var head, head' := Page(Inner(pages, x), meta[0].sentAt), Page(Inner(pages', x), meta[0].sentAt);
    var rest := meta[1..];
    if meta[0].sentAt == at {
      forall m | m in rest ensures m.sentAt != at {}
      PagesOfElsewhere(pages, pages', x, rest);
      SameTail(head', head, PagesOf(pages, x, rest));
    } else {
      SameHead(head, PagesOf(pages', x, rest), PagesOf(pages, x, rest));
      Overwritten(pages, pages', x, rest, at);
    }
  }

  /** A page that is kept with the stamp of a waiting one leaves two pages with one stamp. */
  lemma ClashIsKept(st: seq<InDetails>, st': seq<InDetails>, a: Arrival, f: Format, suspended: bool, m: Meta)
    requires Records(st, st', a, f, true, suspended) && m in Entry(st, a.sender).meta && m.sentAt == a.sentAt
    ensures !DistinctTimes(Entry(st', a.sender).meta)
  {
    var d, d' := Entry(st, a.sender), Entry(st', a.sender);
    var i :| 0 <= i < |d.meta| && d.meta[i] == m;
    assert d'.meta[i].sentAt == d'.meta[|d.meta|].sentAt;
  }

  /** The harm of a clash, if the page was dropped: what waits under the stamp was overwritten. */
  lemma ClashIsDropped(cfg: Config, s: Inbound, a: Arrival, f: Format, suspended: bool)
    requires Delivers(s, a.sender) && IsPageOfData(a) && Clashes(s, a)
    requires var s' := RecordPage(cfg, s, a, f, a.data[1..]);
             && Records(s.status, s'.status, a, f, false, suspended) && s'.accepted == s.accepted && s'.log == s.log
             && Flows(s', a.sender)
    ensures Page(Inner(s.pages, a.sender), a.sentAt) == a.data[1..]
  {
    hide RecordPage;
    hide Decided;
    hide Accepted;
    var x := a.sender;
    var s', meta := RecordPage(cfg, s, a, f, a.data[1..]), Entry(s.status, x).meta;
    RecordPages(cfg, s, a, f, a.data[1..]);
    SameHead(Decided(s.log, x), Pending(s', x), Pending(s, x));
    Overwritten(s.pages, s'.pages, x, meta, a.sentAt);
  }

  /**
   An arrival leaves its sender's channel in order if and only if it is harmless. What it does to another
   channel is never any harm.
   */
  lemma HarmlessIff(cfg: Config, s: Inbound, a: Arrival)
    requires Delivers(s, a.sender)
    ensures Delivers(Receive(cfg, s, a), a.sender) <==> Harmless(cfg, s, a)
  {
    if Harmless(cfg, s, a) {
      ReceiveDelivers(cfg, s, a, a.sender);
    } else {
      hide Flows;
      hide RecordPage;
      var f := DecodeFormat(a.data).value;
      var s' := RecordPage(cfg, s, a, f, a.data[1..]);
      ReceiveKeepsSingleIff(cfg, s, a, a.sender);
      if Hits(Senders(s.status), a) && Delivers(s', a.sender) {
        var kept, suspended := RecordEntries(cfg, s, a, f, a.data[1..]);
        var m :| m in Entry(s.status, a.sender).meta && m.sentAt == a.sentAt;
        if kept {
          ClashIsKept(s.status, s'.status, a, f, suspended, m);
        } else {
          ClashIsDropped(cfg, s, a, f, suspended);
        }
        assert false;
      }
    }
  }

  // ------------------------------------------------------------------ a whole batch, then service

  lemma {:induction false} BatchHandshakes(cfg: Config, s: Inbound, batch: seq<Arrival>, y: ParaId)
    requires AllHavePages(s.status) && Handshakes(s, y) && LookupsOf(Senders(s.status), batch, y)
    ensures Handshakes(ReceiveAll(cfg, s, batch), y)
    decreases |batch|
  {
    if batch != [] {
      hide Handshakes;
      hide Receive;
      hide Hits;
      hide SendersAfter;
      ReceiveHandshakes(cfg, s, batch[0], y);
      ReceiveLeavesPages(cfg, s, batch[0]);
      ReceiveSenders(cfg, s, batch[0]);
      BatchHandshakes(cfg, Receive(cfg, s, batch[0]), batch[1..], y);
    }
  }

  lemma {:induction false} BatchDelivers(cfg: Config, s: Inbound, batch: seq<Arrival>, y: ParaId)
    requires Delivers(s, y) && HarmlessBatch(cfg, s, batch, y)
    ensures Delivers(ReceiveAll(cfg, s, batch), y)
    decreases |batch|
  {
    if batch != [] {
      hide Delivers;
      hide Receive;
      hide Harmless;
      ReceiveDelivers(cfg, s, batch[0], y);
      BatchDelivers(cfg, Receive(cfg, s, batch[0]), batch[1..], y);
    }
  }

  lemma {:induction false} BatchLeavesPages(cfg: Config, s: Inbound, batch: seq<Arrival>)
    requires AllHavePages(s.status)
    ensures var s' := ReceiveAll(cfg, s, batch); AllHavePages(s'.status) && s'.over == s.over && s'.log == s.log
    decreases |batch|
  {
    if batch != [] {
      hide Receive;
      ReceiveLeavesPages(cfg, s, batch[0]);
      BatchLeavesPages(cfg, Receive(cfg, s, batch[0]), batch[1..]);
    }
  }

  /** The sort keeps the entries of every sender in their order, also when a sender has several. */
  lemma SortKeepsEntries(st: seq<InDetails>, y: ParaId)
    ensures var t := StableSort(st, BySender());
            Mine(t, y) == Mine(st, y) && Entry(t, y) == Entry(st, y) && (Single(t, y) <==> Single(st, y))
  {
    hide StableSort;
    hide Filter;
    var mine := Mine(st, y);
    forall i, j | 0 <= i < j < |mine| ensures BySender()(mine[i], mine[j]) {
      FilterMember(st, IsOf(y), mine[i]);
      FilterMember(st, IsOf(y), mine[j]);
    }
    StableSortFilter(st, BySender(), IsOf(y));
    MineIs(st, y);
    MineIs(StableSort(st, BySender()), y);
  }

  lemma SortPreserves(s: Inbound, y: ParaId)
    ensures Preserves(s, s.(status := StableSort(s.status, BySender())), y)
    ensures AllHavePages(s.status) ==> AllHavePages(StableSort(s.status, BySender()))
  {
    hide StableSort;
    hide StashesInOrder;
    hide Decided;
    hide Accepted;
    hide SignalsWith;
    hide Issues;
    SortKeepsEntries(s.status, y);
    SameElements(StableSort(s.status, BySender()), s.status);
  }

  function Sorted(s: Inbound): Inbound { s.(status := StableSort(s.status, BySender())) }

  /** Handling a batch keeps the signals to `y` alternating if no lookup of a page of `y` misses, whatever the others send. */
  lemma HandleHandshakes(j: Job, s: Inbound, batch: seq<Arrival>, draw: nat -> nat, y: ParaId)
    requires EnvOk(j.env) && AllHavePages(s.status) && Handshakes(s, y) && LookupsOf(Senders(s.status), batch, y)
    ensures Handshakes(HandleMessages(j, s, batch, draw).s, y)
  {
    hide Handshakes;
    hide Delivers;
    hide StashesInOrder;
    hide ServiceQueue;
    BatchHandshakes(j.cfg, s, batch, y);
    var s' := ReceiveAll(j.cfg, s, batch);
    SortPreserves(s', y);
    ServiceQueuePreserves(j, Sorted(s'), draw, y);
  }

  /** Handling a batch keeps the bytes of `y` in order if its own arrivals do no harm, whatever the others send. */
  lemma HandleDelivers(j: Job, s: Inbound, batch: seq<Arrival>, draw: nat -> nat, y: ParaId)
    requires EnvOk(j.env) && Delivers(s, y) && HarmlessBatch(j.cfg, s, batch, y)
    ensures Delivers(HandleMessages(j, s, batch, draw).s, y)
  {
    hide Handshakes;
    hide Delivers;
    hide StashesInOrder;
    hide ServiceQueue;
    BatchDelivers(j.cfg, s, batch, y);
    var s' := ReceiveAll(j.cfg, s, batch);
    SortPreserves(s', y);
    ServiceQueuePreserves(j, Sorted(s'), draw, y);
  }

  /** Handling any batch leaves a page with every entry and keeps the overweight store in order. */
  lemma HandleKeepsStore(j: Job, s: Inbound, batch: seq<Arrival>, draw: nat -> nat)
    requires EnvOk(j.env) && AllHavePages(s.status) && StashesInOrder(s.over, s.log)
    ensures var s' := HandleMessages(j, s, batch, draw).s; AllHavePages(s'.status) && StashesInOrder(s'.over, s'.log)
  {
    hide Handshakes;
    hide Delivers;
    hide StashesInOrder;
    hide ServiceQueue;
    BatchLeavesPages(j.cfg, s, batch);
    var s' := ReceiveAll(j.cfg, s, batch);
    SortPreserves(s', 0);
    ServiceQueuePreserves(j, Sorted(s'), draw, 0);
  }

  /** The service call that ends the handling of any batch, harmless or not, never visits a channel without pages. */
  lemma HandleNeverVisitsEmpty(j: Job, s: Inbound, batch: seq<Arrival>, draw: nat -> nat)
    requires EnvOk(j.env) && AllHavePages(s.status)
    ensures var s' := Sorted(ReceiveAll(j.cfg, s, batch)); var shuffled := CreateShuffle(|s'.status|, draw);
            && HandleMessages(j, s, batch, draw) == ServiceQueue(j, s', draw)
            && ServiceOk(j, Service(s', shuffled, 0, 0, 0)) && NeverVisitsEmpty(j, Service(s', shuffled, 0, 0, 0))
  {
    hide ServiceQueue;
    hide NeverVisitsEmpty;
    BatchLeavesPages(j.cfg, s, batch);
    SortPreserves(ReceiveAll(j.cfg, s, batch), 0);
    ServiceQueueNeverVisitsEmpty(j, Sorted(ReceiveAll(j.cfg, s, batch)), draw);
  }

  lemma SortAscends(st: seq<InDetails>)
    requires UniqueSenders(st)
    ensures SortedSenders(StableSort(st, BySender()))
  {
    hide StableSort;
    var t := StableSort(st, BySender());
    StableSortSorted(st, BySender());
    SortDistinct(st, BySender(), BySenderId());
    forall i, j | 0 <= i < j < |t| ensures t[i].sender < t[j].sender {
      assert BySender()(t[i], t[j]) && BySenderId()(t[i]) != BySenderId()(t[j]);
    }
  }

  /** If no lookup misses, the list of senders strictly ascends again once the batch is handled. */
  lemma HandleAscends(j: Job, s: Inbound, batch: seq<Arrival>, draw: nat -> nat)
    requires EnvOk(j.env) && UniqueSenders(s.status) && LookupsHit(Senders(s.status), batch)
    ensures SortedSenders(HandleMessages(j, s, batch, draw).s.status)
  {
    hide ReceiveAll;
    OneEntryPerSenderIff(j.cfg, s, batch);
    var s' := Sorted(ReceiveAll(j.cfg, s, batch));
    SortAscends(ReceiveAll(j.cfg, s, batch).status);
    if s'.status != [] {
      hide ServiceRun;
      var v := Service(s', CreateShuffle(|s'.status|, draw), 0, 0, 0);
      ShuffleIsPermutation(Upto(|s'.status|), 0, draw);
      ServiceKeepsSenders(j, v);
      SameSendersSorted(s'.status, ServiceRun(j, v).s.status);
      FilterSortedSenders(ServiceRun(j, v).s.status);
    }
  }
}
