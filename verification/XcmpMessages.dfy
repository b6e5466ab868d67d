/**
 Messages from one chain to another: a receiver decides exactly the messages that its codec cuts the
 accepted pages into, once and in order, and if a sender packed the pages these are the sender's fragments.
 */
module XcmpMessages {
  import opened Common
  import opened XcmpFormat
  import opened XcmpInbound
  import opened XcmpInboundProofs
  import opened XcmpLookup
  import opened XcmpArrivals
  import Out = XcmpOutbound
  import OutP = XcmpOutboundProofs
  import Runs = XcmpRuns

  // ------------------------------------------------------------------ cutting pages into messages

  /** The messages in some bytes, one after the other; what cannot be decoded counts as one. */
  function Cut(dec: Codec, b: Bytes): seq<Bytes>
    decreases |b|
  {
    if b == [] then []
    else if dec(b).Some? && 0 < dec(b).value <= |b| then [b[..dec(b).value]] + Cut(dec, b[dec(b).value..])
    else [b]
  }

  /** The messages of a page: a blob is refused as a whole. */
  function CutPage(dec: Codec, f: Format, payload: Bytes): seq<Bytes> {
    if f.ConcatenatedVersionedXcm? then Cut(dec, payload) else if payload == [] then [] else [payload]
  }

  /** The messages of a page with its format byte in front. */
  function CutData(dec: Codec, page: Bytes): seq<Bytes> {
    match DecodeFormat(page)
    case None => []
    case Some(f) => CutPage(dec, f, page[1..])
  }

  function CutAll(dec: Codec, pages: seq<Bytes>): seq<Bytes> {
    if pages == [] then [] else CutAll(dec, pages[..|pages| - 1]) + CutData(dec, pages[|pages| - 1])
  }

  lemma CutAllSnoc(dec: Codec, pages: seq<Bytes>, page: Bytes)
    ensures CutAll(dec, pages + [page]) == CutAll(dec, pages) + CutData(dec, page)
  {
    assert (pages + [page])[..|pages|] == pages;
  }

  // ------------------------------------------------------------------ one channel of the receiver

  /** The messages of a sender that were decided, in order. */
  function DecidedMessages(log: seq<Record>, x: ParaId): seq<Bytes> {
    if log == [] then []
    else
      var r := log[|log| - 1];
      DecidedMessages(log[..|log| - 1], x) + if r.sender == x then [r.msg] else []
  }

  lemma DecidedMessagesSnoc(log: seq<Record>, r: Record, x: ParaId)
    ensures DecidedMessages(log + [r], x) == if r.sender == x then DecidedMessages(log, x) + [r.msg] else DecidedMessages(log, x)
  {
    assert (log + [r])[..|log|] == log;
    assert DecidedMessages(log, x) + [] == DecidedMessages(log, x);
  }

  function MessagesOf(dec: Codec, pages: DoubleMap, x: ParaId, meta: seq<Meta>): seq<Bytes> {
    if meta == [] then []
    else CutPage(dec, meta[0].format, Page(Inner(pages, x), meta[0].sentAt)) + MessagesOf(dec, pages, x, meta[1..])
  }

  /** The messages of a sender that wait to be decided, oldest page first. */
  function PendingMessages(dec: Codec, s: Inbound, x: ParaId): seq<Bytes> {
    MessagesOf(dec, s.pages, x, Entry(s.status, x).meta)
  }

  /** The pages accepted from a sender, in order. */
  function PagesFrom(arrivals: seq<Arrival>, x: ParaId): seq<Bytes> {
    if arrivals == [] then []
    else
      var a := arrivals[|arrivals| - 1];
      PagesFrom(arrivals[..|arrivals| - 1], x) + if a.sender == x then [a.data] else []
  }

  lemma PagesFromSnoc(arrivals: seq<Arrival>, a: Arrival, x: ParaId)
    ensures PagesFrom(arrivals + [a], x) == if a.sender == x then PagesFrom(arrivals, x) + [a.data] else PagesFrom(arrivals, x)
  {
    assert (arrivals + [a])[..|arrivals|] == arrivals;
    assert PagesFrom(arrivals, x) + [] == PagesFrom(arrivals, x);
  }

  /** The messages decided and then those waiting are the messages of the accepted pages. */
  ghost predicate MessagesFlow(dec: Codec, s: Inbound, x: ParaId) {
    DecidedMessages(s.log, x) + PendingMessages(dec, s, x) == CutAll(dec, PagesFrom(s.accepted, x))
  }

  ghost predicate InStep(dec: Codec, s: Inbound, y: ParaId) { Delivers(s, y) && MessagesFlow(dec, s, y) }

  // ------------------------------------------------------------------ the parser cuts

  lemma StepCuts(env: Env, x: ParaId, at: nat, p: Parse, maxWeight: nat, maxIndividual: nat)
    requires EnvOk(env) && p.rest != [] && p.used <= maxWeight
    ensures var (p', stop) := ParseStep(env, x, at, p, maxWeight, maxIndividual);
            if stop then p'.rest == p.rest && p'.log == p.log
            else
              && |p'.log| == |p.log| + 1 && p'.log == p.log + [p'.log[|p.log|]] && p'.log[|p.log|].sender == x
              && Cut(env.decode, p.rest) == [p'.log[|p.log|].msg] + Cut(env.decode, p'.rest)
  {
  }

  lemma {:induction false} ParseCuts(env: Env, x: ParaId, at: nat, p: Parse, maxWeight: nat, maxIndividual: nat, y: ParaId)
    requires EnvOk(env) && p.used <= maxWeight
    ensures var r := ParseXcm(env, x, at, p, maxWeight, maxIndividual);
            if y == x then DecidedMessages(r.log, y) + Cut(env.decode, r.rest) == DecidedMessages(p.log, y) + Cut(env.decode, p.rest)
            else DecidedMessages(r.log, y) == DecidedMessages(p.log, y)
    decreases |p.rest|
  {
    if p.rest != [] {
      hide DecidedMessages;
      hide Cut;
      hide ParseStep;
      StepCuts(env, x, at, p, maxWeight, maxIndividual);
      var (p', stop) := ParseStep(env, x, at, p, maxWeight, maxIndividual);
      if !stop {
        var rec := p'.log[|p.log|];
        DecidedMessagesSnoc(p.log, rec, y);
        ParseCuts(env, x, at, p', maxWeight, maxIndividual, y);
        Associative(DecidedMessages(p.log, y), [rec.msg], Cut(env.decode, p'.rest));
      }
    }
  }

  lemma PageCuts(env: Env, x: ParaId, m: Meta, p: Parse, maxWeight: nat, maxIndividual: nat, y: ParaId)
    requires EnvOk(env) && p.used <= maxWeight
    ensures var r := ParsePage(env, x, m, p, maxWeight, maxIndividual); var dec := env.decode;
            if y == x then DecidedMessages(r.log, y) + CutPage(dec, m.format, r.rest) == DecidedMessages(p.log, y) + CutPage(dec, m.format, p.rest)
            else DecidedMessages(r.log, y) == DecidedMessages(p.log, y)
  {
    hide DecidedMessages;
    hide ParseXcm;
    ParseCuts(env, x, m.sentAt, p, maxWeight, maxIndividual, y);
    if !m.format.ConcatenatedVersionedXcm? {
      DecidedMessagesSnoc(p.log, Record(x, p.rest, Refused(Invalid)), y);
      assert DecidedMessages(p.log, y) + [p.rest] + [] == DecidedMessages(p.log, y) + [p.rest];
    }
  }

  // ------------------------------------------------------------------ serving, forgetting, sorting

  lemma {:induction false} MessagesElsewhere(dec: Codec, pages: DoubleMap, pages': DoubleMap, x: ParaId, meta: seq<Meta>)
    requires forall m :: m in meta ==> Page(Inner(pages', x), m.sentAt) == Page(Inner(pages, x), m.sentAt)
    ensures MessagesOf(dec, pages', x, meta) == MessagesOf(dec, pages, x, meta)
  {
    if meta != [] {
      assert meta[0] in meta;
      MessagesElsewhere(dec, pages, pages', x, meta[1..]);
    }
  }

  lemma ProcessWaiting(env: Env, s: Inbound, k: nat, grant: nat, maxIndividual: nat, y: ParaId)
    requires EnvOk(env) && k < |s.status| && s.status[k].meta != []
    requires Single(s.status, y) && DistinctTimes(Entry(s.status, y).meta)
    ensures var d := s.status[k]; var x, m, dec := d.sender, d.meta[0], env.decode; var data := Page(Inner(s.pages, x), m.sentAt);
            var p := ParsePage(env, x, m, Parse(data, 0, s.tick, s.over, s.log), grant, maxIndividual);
            var s' := ProcessPage(env, s, k, grant, maxIndividual).s; var tail := MessagesOf(dec, s.pages, x, d.meta[1..]);
            if y == x then
              && PendingMessages(dec, s, y) == CutPage(dec, m.format, data) + tail
              && PendingMessages(dec, s', y) == CutPage(dec, m.format, p.rest) + tail
            else PendingMessages(dec, s', y) == PendingMessages(dec, s, y)
  {
    hide ParsePage;
    hide StoreRest;
    var d := s.status[k];
    var m, x, dec := d.meta[0], d.sender, env.decode;
    var p := ParsePage(env, x, m, Parse(Page(Inner(s.pages, x), m.sentAt), 0, s.tick, s.over, s.log), grant, maxIndividual);
    RestElsewhere(s.pages, x, m.sentAt, p.rest);
    var pages' := StoreRest(s.pages, x, m.sentAt, p.rest);
    EntryUpdate(s.status, k, d.(meta := d.meta[1..]));
    var tail := MessagesOf(dec, s.pages, x, d.meta[1..]);
    assert CutPage(dec, m.format, []) == [] && [] + tail == tail;
    hide CutPage;
    if y == x {
      EntryIs(s.status, k);
      forall t | t in d.meta[1..] ensures t.sentAt != m.sentAt {}
      MessagesElsewhere(dec, s.pages, pages', x, d.meta[1..]);
    } else {
      MessagesElsewhere(dec, s.pages, pages', y, Entry(s.status, y).meta);
    }
  }

  /** Deciding the first messages of the oldest page moves them from "waiting" to "decided". */
  lemma MovesMessages(done: seq<Bytes>, done': seq<Bytes>, page: seq<Bytes>, rest: seq<Bytes>, tail: seq<Bytes>)
    requires done' + rest == done + page
    ensures done' + (rest + tail) == done + (page + tail)
  {
    Associative(done', rest, tail);
    Associative(done, page, tail);
  }

  lemma ProcessMessages(env: Env, s: Inbound, k: nat, grant: nat, maxIndividual: nat, y: ParaId)
    requires EnvOk(env) && k < |s.status| && s.status[k].meta != []
    requires Single(s.status, y) && DistinctTimes(Entry(s.status, y).meta) && MessagesFlow(env.decode, s, y)
    ensures MessagesFlow(env.decode, ProcessPage(env, s, k, grant, maxIndividual).s, y)
  {
    hide ParsePage;
    hide DecidedMessages;
    hide CutAll;
    hide CutPage;
    hide PagesFrom;
    hide PendingMessages;
    hide MessagesOf;
    hide StoreRest;
    var d := s.status[k];
    var m, x, dec := d.meta[0], d.sender, env.decode;
    var p0 := Parse(Page(Inner(s.pages, x), m.sentAt), 0, s.tick, s.over, s.log);
    var p := ParsePage(env, x, m, p0, grant, maxIndividual);
    PageCuts(env, x, m, p0, grant, maxIndividual, y);
    ProcessWaiting(env, s, k, grant, maxIndividual, y);
    if y == x {
      MovesMessages(DecidedMessages(s.log, x), DecidedMessages(p.log, x), CutPage(dec, m.format, p0.rest),
                    CutPage(dec, m.format, p.rest), MessagesOf(dec, s.pages, x, d.meta[1..]));
    }
  }

  /** Only the pages, the log, the history and the metadata of `y` matter. */
  lemma SameMessages(dec: Codec, s: Inbound, s': Inbound, y: ParaId)
    requires MessagesFlow(dec, s, y) && s'.pages == s.pages && s'.log == s.log && s'.accepted == s.accepted
    requires Entry(s'.status, y).meta == Entry(s.status, y).meta
    ensures MessagesFlow(dec, s', y)
  {
  }

  lemma ResumeMessages(dec: Codec, s: Inbound, k: nat, threshold: nat, y: ParaId)
    requires k < |s.status| && Single(s.status, y) && MessagesFlow(dec, s, y)
    ensures MessagesFlow(dec, ResumeIfDrained(s, k, threshold), y)
  {
    hide MessagesFlow;
    EntryUpdate(s.status, k, s.status[k].(state := Ok));
    if y == s.status[k].sender { EntryIs(s.status, k); }
    SameMessages(dec, s, ResumeIfDrained(s, k, threshold), y);
  }

  lemma ServeInStep(env: Env, cfg: Config, s: Inbound, k: nat, grant: nat, y: ParaId)
    requires EnvOk(env) && k < |s.status| && InStep(env.decode, s, y)
    ensures InStep(env.decode, ServeChannel(env, cfg, s, k, grant).s, y)
  {
    hide ProcessPage;
    hide MessagesFlow;
    hide Flows;
    ServeDelivers(env, cfg, s, k, grant, y);
    if s.status[k].meta == [] {
      ResumeMessages(env.decode, s, k, cfg.resumeThreshold, y);
    } else {
      ProcessMessages(env, s, k, grant, cfg.maxIndividual, y);
      ProcessShape(env, s, k, grant, cfg.maxIndividual);
      EntryUpdate(s.status, k, s.status[k].(meta := s.status[k].meta[1..]));
      ResumeMessages(env.decode, ProcessPage(env, s, k, grant, cfg.maxIndividual).s, k, cfg.resumeThreshold, y);
    }
  }

  lemma StepInStep(j: Job, v: Service, y: ParaId)
    requires ServiceOk(j, v) && v.index < |v.shuffled| && InStep(j.env.decode, v.s, y)
    ensures InStep(j.env.decode, ServiceStep(j, v).s, y)
  {
    hide InStep;
    hide ServiceStep;
    hide ServeChannel;
    StepServes(j, v);
    ServeInStep(j.env, j.cfg, v.s, v.shuffled[v.index], Unlock(j, v) - v.used, y);
  }

  lemma {:induction false} ServiceInStep(j: Job, v: Service, y: ParaId)
    requires ServiceOk(j, v) && InStep(j.env.decode, v.s, y)
    ensures InStep(j.env.decode, ServiceRun(j, v).s, y)
    decreases Work(v.s.pages, v.s.status), |v.shuffled| - v.index
  {
    hide InStep;
    if Continues(j, v) {
      hide ServiceStep;
      StepDecreases(j, v);
      StepInStep(j, v, y);
      ServiceInStep(j, ServiceStep(j, v), y);
    }
  }

  lemma ForgetInStep(dec: Codec, s: Inbound, y: ParaId)
    requires InStep(dec, s, y)
    ensures InStep(dec, s.(status := Filter(s.status, HasPages())), y)
  {
    hide Filter;
    hide MessagesFlow;
    hide Flows;
    hide Handshakes;
    hide StashesInOrder;
    ForgetPreserves(s, y);
    ForgettingIsInvisible(s.status, y);
    SameMessages(dec, s, s.(status := Filter(s.status, HasPages())), y);
  }

  lemma ServiceQueueInStep(j: Job, s: Inbound, draw: nat -> nat, y: ParaId)
    requires EnvOk(j.env) && InStep(j.env.decode, s, y)
    ensures InStep(j.env.decode, ServiceQueue(j, s, draw).s, y)
  {
    hide InStep;
    if s.status != [] {
      hide ServiceRun;
      var v := Service(s, CreateShuffle(|s.status|, draw), 0, 0, 0);
      ShuffleIsPermutation(Upto(|s.status|), 0, draw);
      ServiceInStep(j, v, y);
      ForgetInStep(j.env.decode, ServiceRun(j, v).s, y);
    }
  }

  lemma SortInStep(dec: Codec, s: Inbound, y: ParaId)
    requires InStep(dec, s, y)
    ensures InStep(dec, Sorted(s), y)
  {
    hide StableSort;
    hide MessagesFlow;
    hide Flows;
    hide Handshakes;
    hide StashesInOrder;
    SortPreserves(s, y);
    SortKeepsEntries(s.status, y);
    SameMessages(dec, s, Sorted(s), y);
  }

  // ------------------------------------------------------------------ arrivals

  lemma {:induction false} MessagesOfSnoc(dec: Codec, pages: DoubleMap, x: ParaId, meta: seq<Meta>, m: Meta)
    ensures MessagesOf(dec, pages, x, meta + [m]) == MessagesOf(dec, pages, x, meta) + CutPage(dec, m.format, Page(Inner(pages, x), m.sentAt))
  {
    hide CutPage;
    if meta == [] {
      assert meta + [m] == [m] && [m][1..] == [];
    } else {
      assert (meta + [m])[0] == meta[0] && (meta + [m])[1..] == meta[1..] + [m];
      MessagesOfSnoc(dec, pages, x, meta[1..], m);
    }
  }

  lemma RecordMessages(dec: Codec, cfg: Config, s: Inbound, a: Arrival, f: Format)
    requires Single(s.status, a.sender) && IsPageOfData(a) && Harmless(cfg, s, a) && DecodeFormat(a.data) == Some(f)
    requires MessagesFlow(dec, s, a.sender)
    ensures MessagesFlow(dec, RecordPage(cfg, s, a, f, a.data[1..]), a.sender)
  {
    hide DecidedMessages;
    hide CutAll;
    hide CutPage;
    hide PagesFrom;
    hide MessagesOf;
    hide RecordPage;
    hide Hits;
    var y, payload := a.sender, a.data[1..];
    var s' := RecordPage(cfg, s, a, f, payload);
    var meta := Entry(s.status, y).meta;
    var kept, suspended := RecordEntries(cfg, s, a, f, payload);
    RecordPages(cfg, s, a, f, payload);
    MessagesElsewhere(dec, s.pages, s'.pages, y, meta);
    if kept {
      PagesFromSnoc(s.accepted, a, y);
      CutAllSnoc(dec, PagesFrom(s.accepted, y), a.data);
      MessagesOfSnoc(dec, s'.pages, y, meta, Meta(a.sentAt, f));
      Associative(DecidedMessages(s.log, y), MessagesOf(dec, s.pages, y, meta), CutPage(dec, f, payload));
    }
  }

  lemma OtherMessages(dec: Codec, cfg: Config, s: Inbound, a: Arrival, f: Format, y: ParaId)
    requires y != a.sender && a.data != [] && MessagesFlow(dec, s, y)
    ensures MessagesFlow(dec, RecordPage(cfg, s, a, f, a.data[1..]), y)
  {
    hide DecidedMessages;
    hide CutAll;
    hide MessagesOf;
    hide RecordPage;
    RecordElsewhere(cfg, s, a, f, a.data[1..], y);
    RecordPages(cfg, s, a, f, a.data[1..]);
    MessagesElsewhere(dec, s.pages, RecordPage(cfg, s, a, f, a.data[1..]).pages, y, Entry(s.status, y).meta);
    PagesFromSnoc(s.accepted, a, y);
  }

  lemma ReceiveInStep(dec: Codec, cfg: Config, s: Inbound, a: Arrival, y: ParaId)
    requires InStep(dec, s, y) && (a.sender == y ==> Harmless(cfg, s, a))
    ensures InStep(dec, Receive(cfg, s, a), y)
  {
    ReceiveDelivers(cfg, s, a, y);
    hide Flows;
    hide MessagesFlow;
    hide RecordPage;
    hide Harmless;
    match DecodeFormat(a.data)
    case None =>
    case Some(f) =>
      if f.Signals? {
        SameMessages(dec, s, Receive(cfg, s, a), y);
      } else if a.sender == y {
        RecordMessages(dec, cfg, s, a, f);
      } else {
        OtherMessages(dec, cfg, s, a, f, y);
      }
  }

  lemma {:induction false} BatchInStep(dec: Codec, cfg: Config, s: Inbound, batch: seq<Arrival>, y: ParaId)
    requires InStep(dec, s, y) && HarmlessBatch(cfg, s, batch, y)
    ensures InStep(dec, ReceiveAll(cfg, s, batch), y)
    decreases |batch|
  {
    if batch != [] {
      hide InStep;
      hide Receive;
      hide Harmless;
      ReceiveInStep(dec, cfg, s, batch[0], y);
      BatchInStep(dec, cfg, Receive(cfg, s, batch[0]), batch[1..], y);
    }
  }

  lemma HandleInStep(j: Job, s: Inbound, batch: seq<Arrival>, draw: nat -> nat, y: ParaId)
    requires EnvOk(j.env) && InStep(j.env.decode, s, y) && HarmlessBatch(j.cfg, s, batch, y)
    ensures InStep(j.env.decode, HandleMessages(j, s, batch, draw).s, y)
  {
    hide InStep;
    hide ServiceQueue;
    BatchInStep(j.env.decode, j.cfg, s, batch, y);
    SortInStep(j.env.decode, ReceiveAll(j.cfg, s, batch), y);
    ServiceQueueInStep(j, Sorted(ReceiveAll(j.cfg, s, batch)), draw, y);
  }

  // ------------------------------------------------------------------ every run of the receiver

  /** The codec is the same throughout; the executor may answer differently every time. */
  ghost predicate SameCodec(events: seq<Runs.Event>, dec: Codec) {
    forall i :: 0 <= i < |events| ==>
      match events[i]
      case HandleMessages(job, _, _, _) => job.env.decode == dec
      case OnIdle(job, _, _) => job.env.decode == dec
      case _ => true
  }

  lemma NextInStep(dec: Codec, p: Runs.Pallet, e: Runs.Event, y: ParaId)
    requires Runs.Allowed(p, e) && Runs.HarmlessEvent(p, e, y) && SameCodec([e], dec) && InStep(dec, p.inbound, y)
    ensures InStep(dec, Runs.Next(p, e).inbound, y)
  {
    hide InStep;
    hide HandleMessages;
    hide ServiceQueue;
    hide Runs.Replays;
    assert [e][0] == e;
    match e
    case HandleMessages(job, batch, draw, ops) => HandleInStep(job, p.inbound, batch, draw, y);
    case OnIdle(job, draw, ops) => ServiceQueueInStep(job, p.inbound, draw, y);
    case ServiceOverweight(env, index, limit, ops) => OverweightInStep(dec, env, p.inbound, index, limit, y);
    case _ =>
  }

  lemma OverweightInStep(dec: Codec, env: Env, s: Inbound, index: nat, limit: nat, y: ParaId)
    requires InStep(dec, s, y)
    ensures InStep(dec, ServiceOverweight(env, s, index, limit).0, y)
  {
    hide MessagesFlow;
    Runs.OverweightIsQuiet(env, s, index, limit, y);
    SameMessages(dec, s, ServiceOverweight(env, s, index, limit).0, y);
  }

  lemma {:induction false} RunInStep(dec: Codec, p: Runs.Pallet, events: seq<Runs.Event>, y: ParaId)
    requires Runs.AllowedRun(p, events) && Runs.HarmlessRun(p, events, y) && SameCodec(events, dec) && InStep(dec, p.inbound, y)
    ensures InStep(dec, Runs.Final(p, events).inbound, y)
    decreases |events|
  {
    if events != [] {
      hide InStep;
      hide Runs.Next;
      hide Runs.Allowed;
      hide Runs.HarmlessEvent;
      var e, rest := events[0], events[1..];
      assert SameCodec([e], dec);
      assert SameCodec(rest, dec) by { forall i | 0 <= i < |rest| ensures rest[i] == events[i + 1] {} }
      NextInStep(dec, p, e, y);
      RunInStep(dec, Runs.Next(p, e), rest, y);
    }
  }

  lemma StartInStep(dec: Codec, y: ParaId)
    ensures InStep(dec, Empty, y)
  {
    EmptyInOrder(y);
    assert PendingMessages(dec, Empty, y) == [] && DecidedMessages([], y) == [] && PagesFrom([], y) == [];
  }

  /**
   From genesis, over every run in which the pages of `y` do no harm: each message in the pages accepted
   from `y` is decided once, in order, or still waits, however the service calls cut the work. Nothing is
   assumed of the pages, which may not decode at all.
   */
  lemma MessagesDecidedOnceInOrder(events: seq<Runs.Event>, dec: Codec, y: ParaId)
    requires Runs.AllowedRun(Runs.Start, events) && Runs.HarmlessRun(Runs.Start, events, y) && SameCodec(events, dec)
    ensures var s := Runs.Final(Runs.Start, events).inbound;
            DecidedMessages(s.log, y) + PendingMessages(dec, s, y) == CutAll(dec, PagesFrom(s.accepted, y))
  {
    hide Delivers;
    hide Runs.Final;
    hide Runs.AllowedRun;
    hide Runs.HarmlessRun;
    hide DecidedMessages;
    hide PendingMessages;
    hide CutAll;
    StartInStep(dec, y);
    RunInStep(dec, Runs.Start, events, y);
  }

  // ------------------------------------------------------------------ which pages are accepted

  /** The channel is full, so that the page would be stored without being recorded. */
  predicate Drops(cfg: Config, s: Inbound, a: Arrival) {
    match Search(s.status, BySenderId(), a.sender, 0, |s.status|)
    case Some(i) => |s.status[i].meta| >= cfg.dropThreshold
    case None => false
  }

  /** No page of `y` in the batch is dropped. */
  predicate RoomFor(cfg: Config, s: Inbound, batch: seq<Arrival>, y: ParaId)
    decreases |batch|
  {
    batch == [] ||
    ((IsPageOfData(batch[0]) && batch[0].sender == y ==> !Drops(cfg, s, batch[0])) && RoomFor(cfg, Receive(cfg, s, batch[0]), batch[1..], y))
  }

  /** The data pages of `y` in a batch, in order. */
  function DataIn(batch: seq<Arrival>, y: ParaId): seq<Bytes> {
    if batch == [] then []
    else (if batch[0].sender == y && IsPageOfData(batch[0]) then [batch[0].data] else []) + DataIn(batch[1..], y)
  }

  function DataOfEvent(e: Runs.Event, y: ParaId): seq<Bytes> { if e.HandleMessages? then DataIn(e.batch, y) else [] }

  /** The data pages that were delivered from `y` over a run. */
  function DataDelivered(events: seq<Runs.Event>, y: ParaId): seq<Bytes> {
    if events == [] then [] else DataOfEvent(events[0], y) + DataDelivered(events[1..], y)
  }

  lemma ReceiveAccepts(cfg: Config, s: Inbound, a: Arrival, y: ParaId)
    requires IsPageOfData(a) && a.sender == y ==> !Drops(cfg, s, a)
    ensures PagesFrom(Receive(cfg, s, a).accepted, y) == PagesFrom(s.accepted, y) + if a.sender == y && IsPageOfData(a) then [a.data] else []
  {
    hide PagesFrom;
    hide Search;
    hide StorePages;
    PagesFromSnoc(s.accepted, a, y);
    assert PagesFrom(s.accepted, y) + [] == PagesFrom(s.accepted, y);
  }

  lemma {:induction false} BatchAccepts(cfg: Config, s: Inbound, batch: seq<Arrival>, y: ParaId)
    requires RoomFor(cfg, s, batch, y)
    ensures PagesFrom(ReceiveAll(cfg, s, batch).accepted, y) == PagesFrom(s.accepted, y) + DataIn(batch, y)
    decreases |batch|
  {
    hide PagesFrom;
    if batch == [] {
      assert PagesFrom(s.accepted, y) + [] == PagesFrom(s.accepted, y);
    } else {
      hide Receive;
      hide Drops;
      ReceiveAccepts(cfg, s, batch[0], y);
      BatchAccepts(cfg, Receive(cfg, s, batch[0]), batch[1..], y);
      var first: seq<Bytes> := if batch[0].sender == y && IsPageOfData(batch[0]) then [batch[0].data] else [];
      Associative(PagesFrom(s.accepted, y), first, DataIn(batch[1..], y));
    }
  }

  lemma {:induction false} ServiceAccepts(j: Job, v: Service)
    requires ServiceOk(j, v)
    ensures ServiceRun(j, v).s.accepted == v.s.accepted
    decreases Work(v.s.pages, v.s.status), |v.shuffled| - v.index
  {
    if Continues(j, v) {
      hide ServiceStep;
      hide ServeChannel;
      StepDecreases(j, v);
      StepServes(j, v);
      ServeShape(j.env, j.cfg, v.s, v.shuffled[v.index], Unlock(j, v) - v.used);
      ServiceAccepts(j, ServiceStep(j, v));
    }
  }

  lemma ServiceQueueAccepts(j: Job, s: Inbound, draw: nat -> nat)
    requires EnvOk(j.env)
    ensures ServiceQueue(j, s, draw).s.accepted == s.accepted
  {
    if s.status != [] {
      hide ServiceRun;
      ShuffleIsPermutation(Upto(|s.status|), 0, draw);
      ServiceAccepts(j, Service(s, CreateShuffle(|s.status|, draw), 0, 0, 0));
    }
  }

  predicate RoomInEvent(p: Runs.Pallet, e: Runs.Event, y: ParaId) {
    e.HandleMessages? ==> RoomFor(e.job.cfg, p.inbound, e.batch, y)
  }

  /** No page of `y` is dropped over the run. */
  ghost predicate RoomInRun(p: Runs.Pallet, events: seq<Runs.Event>, y: ParaId)
    requires Runs.AllowedRun(p, events)
    decreases |events|
  {
    events == [] || (RoomInEvent(p, events[0], y) && RoomInRun(Runs.Next(p, events[0]), events[1..], y))
  }

  lemma NextAccepts(p: Runs.Pallet, e: Runs.Event, y: ParaId)
    requires Runs.Allowed(p, e) && RoomInEvent(p, e, y)
    ensures PagesFrom(Runs.Next(p, e).inbound.accepted, y) == PagesFrom(p.inbound.accepted, y) + DataOfEvent(e, y)
  {
    hide PagesFrom;
    hide ServiceQueue;
    hide Runs.Replays;
    var before := PagesFrom(p.inbound.accepted, y);
    assert before + [] == before;
    match e
    case HandleMessages(job, batch, draw, ops) =>
      BatchAccepts(job.cfg, p.inbound, batch, y);
      ServiceQueueAccepts(job, Sorted(ReceiveAll(job.cfg, p.inbound, batch)), draw);
    case OnIdle(job, draw, ops) => ServiceQueueAccepts(job, p.inbound, draw);
    case _ =>
  }

  lemma {:induction false} RunAccepts(p: Runs.Pallet, events: seq<Runs.Event>, y: ParaId)
    requires Runs.AllowedRun(p, events) && RoomInRun(p, events, y)
    ensures PagesFrom(Runs.Final(p, events).inbound.accepted, y) == PagesFrom(p.inbound.accepted, y) + DataDelivered(events, y)
    decreases |events|
  {
    hide PagesFrom;
    var before := PagesFrom(p.inbound.accepted, y);
    if events == [] {
      assert before + [] == before;
    } else {
      hide Runs.Next;
      hide Runs.Allowed;
      hide RoomInEvent;
      NextAccepts(p, events[0], y);
      RunAccepts(Runs.Next(p, events[0]), events[1..], y);
      Associative(before, DataOfEvent(events[0], y), DataDelivered(events[1..], y));
    }
  }

  // ------------------------------------------------------------------ from chain to chain

  lemma {:induction false} CutUndoesConcat(dec: Codec, frags: seq<Bytes>)
    requires forall f :: f in frags ==> Recognises(dec, f)
    ensures Cut(dec, Concat(frags)) == frags
  {
    if frags != [] {
      var f, rest := frags[0], Concat(frags[1..]);
      assert f in frags;
      assert Concat(frags) == f + rest && (f + rest)[..|f|] == f && (f + rest)[|f|..] == rest;
      CutUndoesConcat(dec, frags[1..]);
    }
  }

  function Texts(frags: seq<OutP.Fragment>): (t: seq<Bytes>)
    ensures |t| == |frags| && forall i :: 0 <= i < |t| ==> t[i] == frags[i].data
  {
    seq(|frags|, i requires 0 <= i < |frags| => frags[i].data)
  }

  /** Fragments as `send_xcm` makes them: of the XCM format, and encodings of messages. */
  ghost predicate AreMessages(dec: Codec, frags: seq<OutP.Fragment>) {
    forall f :: f in frags ==> f.format.ConcatenatedVersionedXcm? && Recognises(dec, f.data)
  }

  lemma GroupCuts(dec: Codec, r: ParaId, g: OutP.Group)
    requires AreMessages(dec, OutP.FragmentsOf(r, g)) && g.frags != []
    ensures CutData(dec, OutP.PageOf(g)) == g.frags == Texts(OutP.FragmentsOf(r, g))
  {
    var fs := OutP.FragmentsOf(r, g);
    assert fs[0] in fs;
    forall f | f in g.frags ensures Recognises(dec, f) {
      var i :| 0 <= i < |g.frags| && g.frags[i] == f;
      assert fs[i] in fs && fs[i].data == f;
    }
    CutUndoesConcat(dec, g.frags);
    assert OutP.PageOf(g)[1..] == Concat(g.frags);
  }

  lemma PartsAreMessages(dec: Codec, some: seq<OutP.Fragment>, more: seq<OutP.Fragment>)
    requires AreMessages(dec, some + more)
    ensures AreMessages(dec, some) && AreMessages(dec, more)
    ensures Texts(some + more) == Texts(some) + Texts(more)
  {
    hide Recognises;
    forall f | f in some || f in more ensures f in some + more {}
  }

  lemma UnpackSnoc(r: ParaId, gs: seq<OutP.Group>, g: OutP.Group)
    ensures OutP.Unpack(r, gs + [g]) == OutP.Unpack(r, gs) + OutP.FragmentsOf(r, g)
    ensures OutP.PagesOf(gs + [g]) == OutP.PagesOf(gs) + [OutP.PageOf(g)]
  {
    assert (gs + [g])[..|gs|] == gs;
  }

  /** Cutting undoes packing. */
  lemma {:induction false} CuttingUndoesPacking(dec: Codec, r: ParaId, gs: seq<OutP.Group>)
    requires AreMessages(dec, OutP.Unpack(r, gs)) && forall g :: g in gs ==> g.frags != []
    ensures CutAll(dec, OutP.PagesOf(gs)) == Texts(OutP.Unpack(r, gs))
  {
    if gs != [] {
      hide AreMessages;
      hide CutAll;
      hide OutP.Unpack;
      hide OutP.FragmentsOf;
      hide OutP.PagesOf;
      hide OutP.PageOf;
      var init, g := gs[..|gs| - 1], gs[|gs| - 1];
      assert gs == init + [g] && g in gs;
      UnpackSnoc(r, init, g);
      PartsAreMessages(dec, OutP.Unpack(r, init), OutP.FragmentsOf(r, g));
      CuttingUndoesPacking(dec, r, init);
      GroupCuts(dec, r, g);
      CutAllSnoc(dec, OutP.PagesOf(init), OutP.PageOf(g));
    }
  }

  lemma {:induction false} UnpackPrefix(r: ParaId, gs: seq<OutP.Group>, n: nat)
    requires n <= |gs|
    ensures OutP.Unpack(r, gs[..n]) <= OutP.Unpack(r, gs)
    decreases |gs|
  {
    if n < |gs| {
      var init := gs[..|gs| - 1];
      UnpackPrefix(r, init, n);
      assert init[..n] == gs[..n];
    } else {
      assert gs[..n] == gs;
    }
  }

  /** The first pages of a packing hold the first fragments, and all of them hold all. */
  lemma FirstPagesHoldFirstFragments(dec: Codec, r: ParaId, pages: seq<Bytes>, all: seq<Bytes>, frags: seq<OutP.Fragment>)
    requires OutP.Packs(r, all, frags) && pages <= all && AreMessages(dec, frags)
    ensures CutAll(dec, pages) <= Texts(frags)
    ensures pages == all ==> CutAll(dec, pages) == Texts(frags)
  {
    var gs: seq<OutP.Group> :|
      OutP.PagesOf(gs) == all && OutP.Unpack(r, gs) == frags && forall g :: g in gs ==> g.frags != [] && !g.format.Signals?;
    var n := |pages|;
    assert |all| == |gs|;
    UnpackPrefix(r, gs, n);
    var some := OutP.Unpack(r, gs[..n]);
    forall f | f in some ensures f in frags { var i :| 0 <= i < |some| && some[i] == f; assert frags[i] == f; }
    CuttingUndoesPacking(dec, r, gs[..n]);
    assert OutP.PagesOf(gs[..n]) == pages;
    if n == |gs| { assert gs[..n] == gs; }
  }

  ghost predicate NoDataLost(t: OutP.Trace, y: ParaId) {
    forall g :: g in t.gone && g.recipient == y && !g.signal ==> g.fate.Emitted?
  }

  /** The data pages emitted to `y`, in order. */
  function EmittedData(gone: seq<Out.Gone>, y: ParaId): seq<Bytes> {
    OutP.PageList(Filter(Filter(Filter(gone, Out.IsEmitted()), Out.IsFor(y)), OutP.IsData()))
  }

  lemma {:induction false} AllDataEmitted(gone: seq<Out.Gone>, y: ParaId)
    requires forall g :: g in gone && g.recipient == y && !g.signal ==> g.fate.Emitted?
    ensures Filter(Filter(Filter(gone, Out.IsEmitted()), Out.IsFor(y)), OutP.IsData()) == Filter(Filter(gone, Out.IsFor(y)), OutP.IsData())
  {
    if gone != [] {
      AllDataEmitted(gone[1..], y);
      assert gone[0] in gone;
    }
  }

  /** The messages `a` accepted for `y`, in order. */
  function MessagesSent(t: OutP.Trace, y: ParaId): seq<Bytes> { Texts(Filter(t.accepted, OutP.IsTo(y))) }

  /** The data pages emitted to `y` and then those stored for it pack what was accepted for it. */
  lemma SentIsPacked(events: seq<Runs.Event>, y: ParaId)
    requires Runs.AllowedRun(Runs.Start, events) && NoDataLost(Runs.Final(Runs.Start, events).outbound, y)
    ensures var t := Runs.Final(Runs.Start, events).outbound;
            OutP.Packs(y, EmittedData(t.gone, y) + Out.Queue(Out.At(t.s, y)), Filter(t.accepted, OutP.IsTo(y)))
  {
    hide Runs.Final;
    hide Runs.AllowedRun;
    hide OutP.Packs;
    hide Filter;
    hide Out.Valid;
    hide OutP.SignalsConserved;
    hide OutP.Mirrors;
    hide StashesInOrder;
    Runs.StartInOrder(y);
    Runs.EveryRunInOrder(Runs.Start, events, y);
    AllDataEmitted(Runs.Final(Runs.Start, events).outbound.gone, y);
  }

  /**
   Data from chain to chain. Chains `a` and `b` each make any run of their own; `a` lost no data page to
   `b`; the relay chain has delivered to `b` some first of the data pages that `a` emitted to it, and `b`
   had room for them. Then the messages of `a` that `b` has decided and those that wait there are, in
   order, the first of the messages accepted at `a` for `b`: none is lost, repeated, reordered, split or
   joined to another. Once every page is delivered they are all of them.
   */
  lemma MessagesArriveOnceInOrder(a: ParaId, b: ParaId, eventsA: seq<Runs.Event>, eventsB: seq<Runs.Event>, dec: Codec)
    requires Runs.AllowedRun(Runs.Start, eventsA) && NoDataLost(Runs.Final(Runs.Start, eventsA).outbound, b)
    requires AreMessages(dec, Filter(Runs.Final(Runs.Start, eventsA).outbound.accepted, OutP.IsTo(b)))
    requires Runs.AllowedRun(Runs.Start, eventsB) && SameCodec(eventsB, dec)
    requires Runs.HarmlessRun(Runs.Start, eventsB, a) && RoomInRun(Runs.Start, eventsB, a)
    requires DataDelivered(eventsB, a) <= EmittedData(Runs.Final(Runs.Start, eventsA).outbound.gone, b)
    ensures var t, s := Runs.Final(Runs.Start, eventsA).outbound, Runs.Final(Runs.Start, eventsB).inbound;
            var arrived := DecidedMessages(s.log, a) + PendingMessages(dec, s, a);
            && arrived <= MessagesSent(t, b)
            && (DataDelivered(eventsB, a) == EmittedData(t.gone, b) && Out.Queue(Out.At(t.s, b)) == [] ==> arrived == MessagesSent(t, b))
  {
    hide Runs.Final;
    hide Runs.AllowedRun;
    hide Runs.HarmlessRun;
    hide RoomInRun;
    hide DecidedMessages;
    hide PendingMessages;
    hide CutAll;
    hide EmittedData;
    hide DataDelivered;
    hide NoDataLost;
    hide AreMessages;
    hide OutP.Packs;
    hide Filter;
    var t, s := Runs.Final(Runs.Start, eventsA).outbound, Runs.Final(Runs.Start, eventsB).inbound;
    MessagesDecidedOnceInOrder(eventsB, dec, a);
    RunAccepts(Runs.Start, eventsB, a);
    SentIsPacked(eventsA, b);
    var pages, all := DataDelivered(eventsB, a), EmittedData(t.gone, b) + Out.Queue(Out.At(t.s, b));
    assert PagesFrom(s.accepted, a) == [] + pages == pages;
    FirstPagesHoldFirstFragments(dec, b, pages, all, Filter(t.accepted, OutP.IsTo(b)));
  }
}
