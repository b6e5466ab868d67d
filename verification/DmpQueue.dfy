/**
 The downward message queue pallet: messages from the relay chain are executed on arrival while
 weight lasts, then queued in pages; messages heavier than the individual limit go to a side store.
 */
module DmpQueue {
  import opened Common

  /** A decoded message is executed; one that does not decode or has an unknown version is not. */
  datatype Decoded = InvalidFormat | UnsupportedVersion | Xcm
  datatype Outcome = WeightLimitReached(required: nat) | Finished(weight: nat)

  /** The codec and the executor; the executor sees how often it has run and may vary its answers. */
  datatype Env = Env(decode: Bytes -> Decoded, execute: (nat, Bytes, nat) -> Outcome)

  ghost predicate EnvOk(env: Env) {
    forall tick: nat, data: Bytes, limit: nat ::
      match env.execute(tick, data, limit)
      case WeightLimitReached(required) => required > limit
      case Finished(weight) => weight <= limit
  }

  datatype Attempt = Done(weight: nat) | TooHeavy(required: nat)

  function TryService(env: Env, tick: nat, limit: nat, data: Bytes): (a: Attempt)
    requires EnvOk(env)
    ensures a.Done? ==> a.weight <= limit
    ensures a.TooHeavy? ==> a.required > limit
  {
    if !env.decode(data).Xcm? then Done(0)
    else
      match env.execute(tick, data, limit)
      case WeightLimitReached(required) => TooHeavy(required)
      case Finished(weight) => Done(weight)
  }

  /** What became of a message once it left the queue. */
  datatype Fate = Serviced(weight: nat) | Parked(index: nat, required: nat)
  datatype Record = Record(msg: Message, fate: Fate)

  /**
   Stored state (the page window, the pages, the overweight store) with its history: executions so
   far, every message received, every message decided, every overweight index serviced.
   */
  datatype Dmp = Dmp(beginUsed: nat, endUsed: nat, pages: map<nat, seq<Message>>,
                     overweight: map<nat, Message>, overweightCount: nat,
                     tick: nat, received: seq<Message>, log: seq<Record>, freed: seq<nat>)

  const Genesis := Dmp(0, 0, map[], map[], 0, 0, [], [], [])

  function PageAt(pages: map<nat, seq<Message>>, i: nat): seq<Message> { if i in pages then pages[i] else [] }

  // ------------------------------------------------------------------ servicing

  datatype Progress = Progress(used: nat, rest: seq<Message>, tick: nat, log: seq<Record>)

  /** Services the messages of one page until one is too heavy. */
  function ServicePage(env: Env, limit: nat, p: Progress): (r: Progress)
    requires EnvOk(env) && p.used <= limit
    ensures r.used <= limit
    decreases |p.rest|
  {
    if p.rest == [] then p
    else
      var m := p.rest[0];
      match TryService(env, p.tick, limit - p.used, m.data)
      case TooHeavy(_) => p.(tick := p.tick + 1)
      case Done(w) => ServicePage(env, limit, Progress(p.used + w, p.rest[1..], p.tick + 1, p.log + [Record(m, Serviced(w))]))
  }

  function ServiceFrom(env: Env, limit: nat, s: Dmp, used: nat): (r: (Dmp, nat))
    requires EnvOk(env) && used <= limit
    ensures r.1 <= limit
    decreases s.endUsed - s.beginUsed
  {
    if s.beginUsed >= s.endUsed then
      (if s.beginUsed == s.endUsed then s.(beginUsed := 0, endUsed := 0) else s, used)
    else
      var p := ServicePage(env, limit, Progress(used, PageAt(s.pages, s.beginUsed), s.tick, s.log));
      var s' := s.(tick := p.tick, log := p.log);
      if p.rest != [] then (s'.(pages := s.pages[s.beginUsed := p.rest]), p.used)
      else ServiceFrom(env, limit, s'.(pages := s.pages - {s.beginUsed}, beginUsed := s.beginUsed + 1), p.used)
  }

  datatype Handling = Handling(s: Dmp, used: nat, page: Option<seq<Message>>)

  /** Handles one arriving message: inline, parked, or queued together with everything after it. */
  function HandleOne(env: Env, limit: nat, maxIndividual: nat, h: Handling, m: Message): (h': Handling)
    requires EnvOk(env) && h.used <= limit
    ensures h'.used <= limit
  {
    if h.page.Some? then h.(page := Some(h.page.value + [m]))
    else
      var s := h.s.(tick := h.s.tick + 1);
      match TryService(env, h.s.tick, limit - h.used, m.data)
      case Done(w) => Handling(s.(log := s.log + [Record(m, Serviced(w))]), h.used + w, None)
      case TooHeavy(required) =>
        if required > maxIndividual then
          Handling(s.(overweight := s.overweight[s.overweightCount := m], overweightCount := s.overweightCount + 1,
                      log := s.log + [Record(m, Parked(s.overweightCount, required))]), h.used, None)
        else Handling(s, h.used, Some([m]))
  }

  function HandleAll(env: Env, limit: nat, maxIndividual: nat, h: Handling, batch: seq<Message>): (h': Handling)
    requires EnvOk(env) && h.used <= limit
    ensures h'.used <= limit
    decreases |batch|
  {
    if batch == [] then h
    else HandleAll(env, limit, maxIndividual, HandleOne(env, limit, maxIndividual, h, batch[0]), batch[1..])
  }

  /** Stores the page opened while handling, if any, behind the last one. */
  function Deposit(h: Handling): Dmp {
    if h.page.None? then h.s
    else h.s.(pages := h.s.pages[h.s.endUsed := h.page.value], endUsed := h.s.endUsed + 1)
  }

  /** Total weight never exceeds the limit, including what servicing the old queue used. */
  function HandleMessages(env: Env, limit: nat, maxIndividual: nat, s: Dmp, batch: seq<Message>): (r: (Dmp, nat))
    requires EnvOk(env)
    ensures r.1 <= limit
  {
    var (s1, used) := ServiceFrom(env, limit, s, 0);
    var h := HandleAll(env, limit, maxIndividual, Handling(s1, used, if s1.endUsed > s1.beginUsed then Some([]) else None), batch);
    (Deposit(h).(received := s.received + batch), h.used)
  }

  datatype OverweightResult = Unknown | OverLimit | Executed(weight: nat)

  function ServiceOverweight(env: Env, s: Dmp, index: nat, limit: nat): (Dmp, OverweightResult)
    requires EnvOk(env)
  {
    if index !in s.overweight then (s, Unknown)
    else
      match TryService(env, s.tick, limit, s.overweight[index].data)
      case TooHeavy(_) => (s.(tick := s.tick + 1), OverLimit)
      case Done(w) =>
        (s.(tick := s.tick + 1, overweight := s.overweight - {index}, freed := s.freed + [index]), Executed(w))
  }

  // ------------------------------------------------------------------ the flat queue

  ghost predicate WindowOk(s: Dmp) {
    s.beginUsed <= s.endUsed && forall i: nat :: i in s.pages <==> s.beginUsed <= i < s.endUsed
  }

  function FlatFrom(pages: map<nat, seq<Message>>, i: nat, j: nat): seq<Message>
    decreases j - i
  {
    if i >= j then [] else PageAt(pages, i) + FlatFrom(pages, i + 1, j)
  }

  /** The queued messages in arrival order. */
  function Flat(s: Dmp): seq<Message> { FlatFrom(s.pages, s.beginUsed, s.endUsed) }

  function Decided(log: seq<Record>): (m: seq<Message>)
    ensures |m| == |log| && forall i :: 0 <= i < |m| ==> m[i] == log[i].msg
  {
    seq(|log|, i requires 0 <= i < |log| => log[i].msg)
  }

  /** Messages decided followed by messages queued are the messages received. */
  ghost predicate Fifo(s: Dmp) { Decided(s.log) + Flat(s) == s.received }

  function ParkedMessages(log: seq<Record>): seq<Message> {
    if log == [] then []
    else
      var r := log[|log| - 1];
      ParkedMessages(log[..|log| - 1]) + if r.fate.Parked? then [r.msg] else []
  }

  lemma ParkedSnoc(log: seq<Record>, r: Record)
    ensures ParkedMessages(log + [r]) == if r.fate.Parked? then ParkedMessages(log) + [r.msg] else ParkedMessages(log)
  {
    assert (log + [r])[..|log|] == log;
    assert ParkedMessages(log) + [] == ParkedMessages(log);
  }

  /**
   The n-th message ever parked has index n and stays in the store until it is serviced, which
   happens at most once; no index is ever reused.
   */
  ghost predicate OverweightOk(s: Dmp) {
    var parked := ParkedMessages(s.log);
    && |parked| == s.overweightCount
    && (forall i: nat :: i in s.overweight <==> i < s.overweightCount && i !in s.freed)
    && (forall i: nat :: i in s.overweight ==> s.overweight[i] == parked[i])
    && (forall i :: 0 <= i < |s.freed| ==> s.freed[i] < s.overweightCount)
    && (forall i, j :: 0 <= i < j < |s.freed| ==> s.freed[i] != s.freed[j])
  }

  ghost predicate QueueOk(s: Dmp) { WindowOk(s) && Fifo(s) && OverweightOk(s) }

  lemma {:induction false} FlatFrame(pages: map<nat, seq<Message>>, pages': map<nat, seq<Message>>, i: nat, j: nat)
    requires forall k: nat :: i <= k < j ==> PageAt(pages', k) == PageAt(pages, k)
    ensures FlatFrom(pages', i, j) == FlatFrom(pages, i, j)
    decreases j - i
  {
    if i < j { FlatFrame(pages, pages', i + 1, j); }
  }

  lemma {:induction false} FlatSnoc(pages: map<nat, seq<Message>>, i: nat, j: nat)
    requires i <= j
    ensures FlatFrom(pages, i, j + 1) == FlatFrom(pages, i, j) + PageAt(pages, j)
    decreases j - i
  {
    if i == j {
      assert FlatFrom(pages, i, j + 1) == PageAt(pages, j) + FlatFrom(pages, j + 1, j + 1);
    } else {
      FlatSnoc(pages, i + 1, j);
      Associative(PageAt(pages, i), FlatFrom(pages, i + 1, j), PageAt(pages, j));
    }
  }

  lemma DecidedSnoc(log: seq<Record>, rec: Record)
    ensures Decided(log + [rec]) == Decided(log) + [rec.msg]
  {
  }

  /** Servicing moves messages from the front of the page to the log and never parks. */
  lemma {:induction false} PageFifo(env: Env, limit: nat, p: Progress)
    requires EnvOk(env) && p.used <= limit
    ensures var r := ServicePage(env, limit, p);
            && Decided(r.log) + r.rest == Decided(p.log) + p.rest
            && ParkedMessages(r.log) == ParkedMessages(p.log)
    decreases |p.rest|
  {
    if p.rest != [] {
      hide ParkedMessages;
      hide ServicePage;
      hide TryService;
      PageTurn(env, limit, p);
      var m := p.rest[0];
      var a := TryService(env, p.tick, limit - p.used, m.data);
      if a.Done? {
        hide Decided;
        var rec := Record(m, Serviced(a.weight));
        PageFifo(env, limit, Advance(p, a.weight));
        ParkedSnoc(p.log, rec);
        DecidedSnoc(p.log, rec);
        Associative(Decided(p.log), [m], p.rest[1..]);
        assert [m] + p.rest[1..] == p.rest;
      }
    }
  }

  /** The state after a page was serviced: its remainder is put back, or the window moves on. */
  function AfterPage(s: Dmp, p: Progress): Dmp {
    var s' := s.(tick := p.tick, log := p.log);
    if p.rest != [] then s'.(pages := s.pages[s.beginUsed := p.rest])
    else s'.(pages := s.pages - {s.beginUsed}, beginUsed := s.beginUsed + 1)
  }

  lemma AfterPageOk(s: Dmp, p: Progress)
    requires QueueOk(s) && s.beginUsed < s.endUsed
    requires Decided(p.log) + p.rest == Decided(s.log) + PageAt(s.pages, s.beginUsed)
    requires ParkedMessages(p.log) == ParkedMessages(s.log)
    ensures QueueOk(AfterPage(s, p))
  {
    hide ParkedMessages;
    hide Decided;
    var b, s' := s.beginUsed, AfterPage(s, p);
    var page, tail := PageAt(s.pages, b), FlatFrom(s.pages, b + 1, s.endUsed);
    FlatFrame(s.pages, s'.pages, b + 1, s.endUsed);
    assert Flat(s') == p.rest + tail by { assert [] + tail == tail; }
    Associative(Decided(s.log), page, tail);
    Associative(Decided(p.log), p.rest, tail);
  }

  lemma {:induction false} ServiceKeepsQueue(env: Env, limit: nat, s: Dmp, used: nat)
    requires EnvOk(env) && used <= limit && QueueOk(s)
    ensures QueueOk(ServiceFrom(env, limit, s, used).0)
    ensures ServiceFrom(env, limit, s, used).0.received == s.received
    decreases s.endUsed - s.beginUsed
  {
    if s.beginUsed == s.endUsed {
      hide ParkedMessages;
      assert FlatFrom(s.pages, 0, 0) == [];
    } else {
      hide ServicePage;
      hide QueueOk;
      var start := Progress(used, PageAt(s.pages, s.beginUsed), s.tick, s.log);
      var p := ServicePage(env, limit, start);
      PageFifo(env, limit, start);
      WindowOrder(s);
      AfterPageOk(s, p);
      if p.rest == [] { ServiceKeepsQueue(env, limit, AfterPage(s, p), p.used); }
    }
  }

  lemma WindowOrder(s: Dmp)
    requires QueueOk(s)
    ensures s.beginUsed <= s.endUsed
  {
  }

  // ---- handling arrivals ----

  function Opened(h: Handling): seq<Message> { if h.page.Some? then h.page.value else [] }

  /** While handling: everything decided, queued and on the open page is what came so far. */
  ghost predicate HandlingOk(h: Handling, sofar: seq<Message>) {
    && WindowOk(h.s) && OverweightOk(h.s)
    && (h.page.None? ==> h.s.beginUsed == h.s.endUsed)
    && Decided(h.s.log) + Flat(h.s) + Opened(h) == sofar
  }

  lemma HandleOneOk(env: Env, limit: nat, maxIndividual: nat, h: Handling, m: Message, sofar: seq<Message>)
    requires EnvOk(env) && h.used <= limit && HandlingOk(h, sofar)
    ensures HandlingOk(HandleOne(env, limit, maxIndividual, h, m), sofar + [m])
  {
    hide ParkedMessages;
    if h.page.Some? {
      Associative(Decided(h.s.log) + Flat(h.s), h.page.value, [m]);
    } else {
      assert Flat(h.s) == [];
      var h' := HandleOne(env, limit, maxIndividual, h, m);
      var a := TryService(env, h.s.tick, limit - h.used, m.data);
      assert Flat(h'.s) == [];
      if a.Done? {
        ParkedSnoc(h.s.log, Record(m, Serviced(a.weight)));
        assert Decided(h'.s.log) == Decided(h.s.log) + [m];
      } else if a.required > maxIndividual {
        ParkedSnoc(h.s.log, Record(m, Parked(h.s.overweightCount, a.required)));
        assert Decided(h'.s.log) == Decided(h.s.log) + [m];
      }
    }
  }

  lemma {:induction false} HandleAllOk(env: Env, limit: nat, maxIndividual: nat, h: Handling, batch: seq<Message>, sofar: seq<Message>)
    requires EnvOk(env) && h.used <= limit && HandlingOk(h, sofar)
    ensures HandlingOk(HandleAll(env, limit, maxIndividual, h, batch), sofar + batch)
    decreases |batch|
  {
    if batch == [] {
      assert sofar + batch == sofar;
    } else {
      hide HandlingOk;
      hide HandleOne;
      HandleOneOk(env, limit, maxIndividual, h, batch[0], sofar);
      HandleAllOk(env, limit, maxIndividual, HandleOne(env, limit, maxIndividual, h, batch[0]), batch[1..], sofar + [batch[0]]);
      assert sofar + [batch[0]] + batch[1..] == sofar + batch;
    }
  }

  /** The new page goes to a free index: no live page is overwritten. */
  lemma DepositOk(h: Handling, sofar: seq<Message>)
    requires HandlingOk(h, sofar)
    ensures h.s.endUsed !in h.s.pages
    ensures var s := Deposit(h); WindowOk(s) && OverweightOk(s) && Decided(s.log) + Flat(s) == sofar
  {
    hide ParkedMessages;
    if h.page.Some? {
      var s := Deposit(h);
      FlatSnoc(s.pages, s.beginUsed, h.s.endUsed);
      FlatFrame(h.s.pages, s.pages, h.s.beginUsed, h.s.endUsed);
      Associative(Decided(h.s.log), Flat(h.s), h.page.value);
    } else {
      assert Decided(h.s.log) + Flat(h.s) + [] == Decided(h.s.log) + Flat(h.s);
    }
  }

  /** After servicing, a queue that is not empty still has its first page; otherwise it is reset. */
  lemma {:induction false} ServiceResets(env: Env, limit: nat, s: Dmp, used: nat)
    requires EnvOk(env) && used <= limit && s.beginUsed <= s.endUsed
    ensures var s' := ServiceFrom(env, limit, s, used).0;
            s'.beginUsed < s'.endUsed || s'.beginUsed == s'.endUsed == 0
    decreases s.endUsed - s.beginUsed
  {
    if s.beginUsed < s.endUsed {
      var p := ServicePage(env, limit, Progress(used, PageAt(s.pages, s.beginUsed), s.tick, s.log));
      if p.rest == [] {
        ServiceResets(env, limit, s.(tick := p.tick, log := p.log, pages := s.pages - {s.beginUsed}, beginUsed := s.beginUsed + 1), p.used);
      }
    }
  }

  lemma HandleKeepsQueue(env: Env, limit: nat, maxIndividual: nat, s: Dmp, batch: seq<Message>)
    requires EnvOk(env) && QueueOk(s)
    ensures QueueOk(HandleMessages(env, limit, maxIndividual, s, batch).0)
  {
    hide ServiceFrom;
    hide HandleAll;
    hide ParkedMessages;
    var (s1, used) := ServiceFrom(env, limit, s, 0);
    ServiceKeepsQueue(env, limit, s, 0);
    ServiceResets(env, limit, s, 0);
    var h := Handling(s1, used, if s1.endUsed > s1.beginUsed then Some([]) else None);
    assert Decided(s1.log) + Flat(s1) + [] == s.received;
    HandleAllOk(env, limit, maxIndividual, h, batch, s.received);
    DepositOk(HandleAll(env, limit, maxIndividual, h, batch), s.received + batch);
  }

  lemma OverweightKeepsQueue(env: Env, s: Dmp, index: nat, limit: nat)
    requires EnvOk(env) && QueueOk(s)
    ensures QueueOk(ServiceOverweight(env, s, index, limit).0)
  {
    hide ParkedMessages;
  }

  // ------------------------------------------------------------------ weight and parking

  function ServicedWeight(log: seq<Record>): nat {
    if log == [] then 0
    else
      var r := log[|log| - 1];
      ServicedWeight(log[..|log| - 1]) + if r.fate.Serviced? then r.fate.weight else 0
  }

  lemma ServicedSnoc(log: seq<Record>, r: Record)
    ensures ServicedWeight(log + [r]) == ServicedWeight(log) + if r.fate.Serviced? then r.fate.weight else 0
  {
    assert (log + [r])[..|log|] == log;
  }

  /** Only messages heavier than the individual maximum were parked since the log was `before` long. */
  ghost predicate ParksHeavy(log: seq<Record>, before: nat, maxIndividual: nat) {
    forall i :: before <= i < |log| && log[i].fate.Parked? ==> log[i].fate.required > maxIndividual
  }

  /** One serviced message of a page. */
  function Advance(p: Progress, w: nat): Progress
    requires p.rest != []
  {
    Progress(p.used + w, p.rest[1..], p.tick + 1, p.log + [Record(p.rest[0], Serviced(w))])
  }

  lemma PageTurn(env: Env, limit: nat, p: Progress)
    requires EnvOk(env) && p.used <= limit && p.rest != []
    ensures var a := TryService(env, p.tick, limit - p.used, p.rest[0].data); var r := ServicePage(env, limit, p);
            if a.Done? then r == ServicePage(env, limit, Advance(p, a.weight)) else r == p.(tick := p.tick + 1)
  {
    hide TryService;
  }

  lemma {:induction false} PageWeighs(env: Env, limit: nat, p: Progress)
    requires EnvOk(env) && p.used <= limit
    ensures var r := ServicePage(env, limit, p); ServicedWeight(r.log) - r.used == ServicedWeight(p.log) - p.used
    decreases |p.rest|
  {
    hide ServicedWeight;
    hide TryService;
    if p.rest != [] {
      PageTurn(env, limit, p);
      hide ServicePage;
      var a := TryService(env, p.tick, limit - p.used, p.rest[0].data);
      if a.Done? {
        ServicedSnoc(p.log, Record(p.rest[0], Serviced(a.weight)));
        PageWeighs(env, limit, Advance(p, a.weight));
      }
    }
  }

  /** Servicing a queued page never parks a message. */
  lemma {:induction false} PageServices(env: Env, limit: nat, p: Progress)
    requires EnvOk(env) && p.used <= limit
    ensures var r := ServicePage(env, limit, p);
            p.log <= r.log && forall i :: |p.log| <= i < |r.log| ==> r.log[i].fate.Serviced?
    decreases |p.rest|
  {
    if p.rest != [] {
      hide TryService;
      var m := p.rest[0];
      var a := TryService(env, p.tick, limit - p.used, m.data);
      if a.Done? { PageServices(env, limit, Progress(p.used + a.weight, p.rest[1..], p.tick + 1, p.log + [Record(m, Serviced(a.weight))])); }
    }
  }

  lemma {:induction false} ServiceWeighs(env: Env, limit: nat, s: Dmp, used: nat)
    requires EnvOk(env) && used <= limit
    ensures var (s', used') := ServiceFrom(env, limit, s, used);
            && ServicedWeight(s'.log) - used' == ServicedWeight(s.log) - used
            && s.log <= s'.log && forall i :: |s.log| <= i < |s'.log| ==> s'.log[i].fate.Serviced?
    decreases s.endUsed - s.beginUsed
  {
    if s.beginUsed < s.endUsed {
      hide ServicePage;
      hide ServicedWeight;
      var start := Progress(used, PageAt(s.pages, s.beginUsed), s.tick, s.log);
      PageWeighs(env, limit, start);
      PageServices(env, limit, start);
      var p := ServicePage(env, limit, start);
      if p.rest == [] { ServiceWeighs(env, limit, AfterPage(s, p), p.used); }
    }
  }

  lemma {:induction false} HandleWeighs(env: Env, limit: nat, maxIndividual: nat, h: Handling, batch: seq<Message>)
    requires EnvOk(env) && h.used <= limit
    ensures var h' := HandleAll(env, limit, maxIndividual, h, batch);
            && ServicedWeight(h'.s.log) - h'.used == ServicedWeight(h.s.log) - h.used
            && h.s.log <= h'.s.log && ParksHeavy(h'.s.log, |h.s.log|, maxIndividual)
    decreases |batch|
  {
    if batch != [] {
      hide ServicedWeight;
      var m := batch[0];
      var h1 := HandleOne(env, limit, maxIndividual, h, m);
      if |h1.s.log| > |h.s.log| {
        assert h1.s.log == h.s.log + [h1.s.log[|h.s.log|]];
        ServicedSnoc(h.s.log, h1.s.log[|h.s.log|]);
      }
      HandleWeighs(env, limit, maxIndividual, h1, batch[1..]);
    }
  }

  /**
   Handling a batch, including the prior service of the queue: the reported weight is within the limit
   and is exactly what servicing messages cost, and only too heavy messages were parked.
   */
  lemma HandlingIsAccounted(env: Env, limit: nat, maxIndividual: nat, s: Dmp, batch: seq<Message>)
    requires EnvOk(env)
    ensures var (s', used) := HandleMessages(env, limit, maxIndividual, s, batch);
            used <= limit && ServicedWeight(s'.log) == ServicedWeight(s.log) + used && ParksHeavy(s'.log, |s.log|, maxIndividual)
  {
    hide ServiceFrom;
    hide HandleAll;
    hide ServicedWeight;
    var (s1, used) := ServiceFrom(env, limit, s, 0);
    ServiceWeighs(env, limit, s, 0);
    var h := Handling(s1, used, if s1.endUsed > s1.beginUsed then Some([]) else None);
    HandleWeighs(env, limit, maxIndividual, h, batch);
    var log := HandleAll(env, limit, maxIndividual, h, batch).s.log;
    assert forall i :: |s.log| <= i < |s1.log| ==> log[i] == s1.log[i];
  }

  // ------------------------------------------------------------------ whole runs

  datatype Op =
    | Arrive(env: Env, limit: nat, maxIndividual: nat, batch: seq<Message>)
    | OnIdle(env: Env, limit: nat)
    | Overweight(env: Env, index: nat, limit: nat)

  ghost predicate OpsOk(ops: seq<Op>) { forall i :: 0 <= i < |ops| ==> EnvOk(ops[i].env) }

  function Step(s: Dmp, op: Op): Dmp
    requires EnvOk(op.env)
  {
    match op
    case Arrive(env, limit, maxIndividual, batch) => HandleMessages(env, limit, maxIndividual, s, batch).0
    case OnIdle(env, limit) => ServiceFrom(env, limit, s, 0).0
    case Overweight(env, index, limit) => ServiceOverweight(env, s, index, limit).0
  }

  function Run(s: Dmp, ops: seq<Op>): Dmp
    requires OpsOk(ops)
    decreases |ops|
  {
    if ops == [] then s else Run(Step(s, ops[0]), ops[1..])
  }

  /**
   The paged queue refines a flat FIFO: in every reachable state the messages ever received are the
   ones decided, in arrival order, followed by the ones queued; every parked message sits at its own
   index until serviced once.
   */
  lemma {:induction false} RunIsFifo(s: Dmp, ops: seq<Op>)
    requires OpsOk(ops) && QueueOk(s)
    ensures QueueOk(Run(s, ops))
    decreases |ops|
  {
    if ops != [] {
      hide QueueOk;
      match ops[0] {
        case Arrive(env, limit, maxIndividual, batch) => HandleKeepsQueue(env, limit, maxIndividual, s, batch);
        case OnIdle(env, limit) => ServiceKeepsQueue(env, limit, s, 0);
        case Overweight(env, index, limit) => OverweightKeepsQueue(env, s, index, limit);
      }
      RunIsFifo(Step(s, ops[0]), ops[1..]);
    }
  }

  lemma GenesisOk()
    ensures QueueOk(Genesis)
  {
    assert Flat(Genesis) == [] && Decided([]) == [] && ParkedMessages([]) == [];
  }

  /** From genesis, the queued messages are a contiguous suffix of everything received. */
  lemma QueueIsSuffix(ops: seq<Op>)
    requires OpsOk(ops)
    ensures var s := Run(Genesis, ops);
            |s.log| <= |s.received| && Flat(s) == s.received[|s.log|..] && Decided(s.log) == s.received[..|s.log|]
  {
    GenesisOk();
    RunIsFifo(Genesis, ops);
    var s := Run(Genesis, ops);
    assert |Decided(s.log)| == |s.log|;
  }

  // ------------------------------------------------------------------ exactly when servicing makes progress

  lemma {:induction false} PageLogGrows(env: Env, limit: nat, p: Progress)
    requires EnvOk(env) && p.used <= limit
    ensures p.log <= ServicePage(env, limit, p).log
    ensures p.rest != [] && TryService(env, p.tick, limit - p.used, p.rest[0].data).Done? ==> p.log < ServicePage(env, limit, p).log
    decreases |p.rest|
  {
    if p.rest != [] {
      hide TryService;
      hide ServicePage;
      PageTurn(env, limit, p);
      var a := TryService(env, p.tick, limit - p.used, p.rest[0].data);
      if a.Done? { PageLogGrows(env, limit, Advance(p, a.weight)); }
    }
  }

  lemma {:induction false} ServiceLogGrows(env: Env, limit: nat, s: Dmp, used: nat)
    requires EnvOk(env) && used <= limit
    ensures s.log <= ServiceFrom(env, limit, s, used).0.log
    decreases s.endUsed - s.beginUsed
  {
    if s.beginUsed < s.endUsed {
      hide ServicePage;
      var p0 := Progress(used, PageAt(s.pages, s.beginUsed), s.tick, s.log);
      var p := ServicePage(env, limit, p0);
      PageLogGrows(env, limit, p0);
      if p.rest == [] { ServiceLogGrows(env, limit, AfterPage(s, p), p.used); }
    }
  }

  /** The first queued message could be serviced with this limit now. */
  predicate HeadServiceable(env: Env, limit: nat, s: Dmp)
    requires EnvOk(env)
  {
    Flat(s) != [] && TryService(env, s.tick, limit, Flat(s)[0].data).Done?
  }

  lemma FlatHead(s: Dmp)
    requires s.beginUsed < s.endUsed
    ensures var page := PageAt(s.pages, s.beginUsed);
            if page == [] then Flat(s) == FlatFrom(s.pages, s.beginUsed + 1, s.endUsed) else Flat(s) != [] && Flat(s)[0] == page[0]
  {
  }

  /** What `ServicingProgressIff` says about one call. */
  ghost predicate ProgressExact(env: Env, limit: nat, s: Dmp, s': Dmp, used: nat)
    requires EnvOk(env)
  {
    && (s'.log != s.log <==> HeadServiceable(env, limit, s))
    && (s'.log == s.log ==> used == 0 && s'.overweight == s.overweight && Flat(s') == Flat(s))
  }

  /** An empty page at the front is passed over. */
  lemma EmptyPagePassed(env: Env, limit: nat, s: Dmp)
    requires EnvOk(env) && s.beginUsed < s.endUsed && PageAt(s.pages, s.beginUsed) == []
    ensures var s1 := s.(pages := s.pages - {s.beginUsed}, beginUsed := s.beginUsed + 1);
            ServiceFrom(env, limit, s, 0) == ServiceFrom(env, limit, s1, 0) && Flat(s1) == Flat(s)
  {
    hide ServicePage;
    hide FlatFrom;
    FlatHead(s);
    var p0 := Progress(0, PageAt(s.pages, s.beginUsed), s.tick, s.log);
    PageEmpty(env, limit, p0);
    var s1 := s.(pages := s.pages - {s.beginUsed}, beginUsed := s.beginUsed + 1);
    assert s1 == AfterPage(s, p0);
    FlatFrame(s.pages, s1.pages, s.beginUsed + 1, s.endUsed);
  }

  /** A page with messages at the front decides whether there is progress. */
  lemma FirstPageDecides(env: Env, limit: nat, s: Dmp)
    requires EnvOk(env) && s.beginUsed < s.endUsed && PageAt(s.pages, s.beginUsed) != []
    ensures var (s', used) := ServiceFrom(env, limit, s, 0); ProgressExact(env, limit, s, s', used)
  {
    hide ServicePage;
    hide TryService;
    hide FlatFrom;
    FlatHead(s);
    var page := PageAt(s.pages, s.beginUsed);
    var p0 := Progress(0, page, s.tick, s.log);
    var p := ServicePage(env, limit, p0);
    PageLogGrows(env, limit, p0);
    PageTurn(env, limit, p0);
    if HeadServiceable(env, limit, s) {
      if p.rest == [] { ServiceLogGrows(env, limit, AfterPage(s, p), p.used); }
    } else {
      FlatFrame(s.pages, s.pages[s.beginUsed := page], s.beginUsed, s.endUsed);
    }
  }

  /**
   Servicing decides a message if and only if the first message of the queue can be serviced with the
   limit. Otherwise it uses no weight and changes nothing in the queue: a head that is too heavy, even
   one above the individual maximum, blocks everything behind it.
   */
  lemma {:induction false} ServicingProgressIff(env: Env, limit: nat, s: Dmp)
    requires EnvOk(env)
    ensures var (s', used) := ServiceFrom(env, limit, s, 0);
            && (s'.log != s.log <==> HeadServiceable(env, limit, s))
            && (s'.log == s.log ==> used == 0 && s'.overweight == s.overweight && Flat(s') == Flat(s))
    decreases s.endUsed - s.beginUsed
  {
    if s.beginUsed >= s.endUsed {
      FlatEmpty(s);
      FlatEmpty(ServiceFrom(env, limit, s, 0).0);
    } else {
      hide ServiceFrom;
      hide TryService;
      hide FlatFrom;
      if PageAt(s.pages, s.beginUsed) == [] {
        EmptyPagePassed(env, limit, s);
        ServicingProgressIff(env, limit, s.(pages := s.pages - {s.beginUsed}, beginUsed := s.beginUsed + 1));
      } else {
        FirstPageDecides(env, limit, s);
      }
    }
  }

  lemma PageEmpty(env: Env, limit: nat, p: Progress)
    requires EnvOk(env) && p.used <= limit && p.rest == []
    ensures ServicePage(env, limit, p) == p
  {
  }

  lemma FlatEmpty(s: Dmp)
    requires s.beginUsed >= s.endUsed
    ensures Flat(s) == []
  {
  }
}
