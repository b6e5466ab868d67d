/**
 The inbound half of the XCMP queue pallet, as functions on values: arriving pages are recorded per
 sender, a weight-limited scheduler visits the senders in shuffled order, and a resumable parser
 decides the fragments of a page one by one.
 */
module XcmpInbound {
  import opened Common
  import opened XcmpFormat

  // ------------------------------------------------------------------ the outside world

  /** Outcome of handling one XCM: weight used, "more weight needed", or any other failure. */
  datatype Handled = Used(weight: nat) | OverLimit(required: nat) | Invalid

  type Codec = Bytes -> Option<nat>

  /**
   The codec and the executor. `decode` returns the length of the leading message, `execute` is
   given the number of executions so far and may therefore answer differently every time.
   */
  datatype Env = Env(decode: Codec, execute: (nat, ParaId, nat, Bytes, nat) -> Handled)

  /** Decoding consumes input; executing stays within its limit and complains only beyond it. */
  ghost predicate EnvOk(env: Env) {
    && (forall b: Bytes :: b != [] && env.decode(b).Some? ==> 0 < env.decode(b).value <= |b|)
    && (forall tick: nat, x: ParaId, at: nat, msg: Bytes, limit: nat ::
          match env.execute(tick, x, at, msg, limit)
          case Used(w) => w <= limit
          case OverLimit(q) => q > limit
          case Invalid => true)
  }

  /** The codec recognises `msg` whatever follows. */
  ghost predicate Recognises(dec: Codec, msg: Bytes) { msg != [] && forall rest: Bytes :: dec(msg + rest) == Some(|msg|) }

  /** `msg` is the encoding of one XCM. */
  ghost predicate IsFragment(env: Env, msg: Bytes) { Recognises(env.decode, msg) }

  // ------------------------------------------------------------------ state

  datatype InboundState = Ok | Suspended
  datatype Meta = Meta(sentAt: nat, format: Format)
  datatype InDetails = InDetails(sender: ParaId, state: InboundState, meta: seq<Meta>)

  datatype Stash = Stash(sender: ParaId, sentAt: nat, msg: Bytes)

  /** The store of overweight messages, its counter, and the history of indices serviced. */
  datatype Overweight = Overweight(store: map<nat, Stash>, count: nat, freed: seq<nat>)

  /** What became of one fragment; `Garbage` is an undecodable remainder of a page. */
  datatype Verdict = Executed(weight: nat) | Stashed(index: nat, required: nat) | Refused(cause: Handled) | Garbage
  datatype Record = Record(sender: ParaId, msg: Bytes, verdict: Verdict)

  datatype Arrival = Arrival(sender: ParaId, sentAt: nat, data: Bytes)

  /** Calls into the outbound half: a signal to send, or a signal heard from a peer. */
  datatype Call = Issue(note: Note) | Hear(note: Note)

  /**
   Stored state (`status`, `pages`, `over`) together with history: the number of executions, every
   verdict, every call into the outbound half and every page whose metadata was recorded.
   */
  datatype Inbound = Inbound(status: seq<InDetails>, pages: DoubleMap, over: Overweight, tick: nat,
                             log: seq<Record>, calls: seq<Call>, accepted: seq<Arrival>)

  const Empty := Inbound([], map[], Overweight(map[], 0, []), 0, [], [], [])

  datatype Config = Config(suspendThreshold: nat, dropThreshold: nat, resumeThreshold: nat,
                           thresholdWeight: nat, restrictDecay: nat, maxIndividual: nat)

  // ------------------------------------------------------------------ the resumable parser

  datatype Parse = Parse(rest: Bytes, used: nat, tick: nat, over: Overweight, log: seq<Record>)

  function StashOverweight(over: Overweight, stash: Stash): Overweight {
    over.(store := over.store[over.count := stash], count := over.count + 1)
  }

  /** Decides the first fragment of `p.rest`; the flag tells to stop and keep it for another time. */
  function ParseStep(env: Env, x: ParaId, at: nat, p: Parse, maxWeight: nat, maxIndividual: nat): (r: (Parse, bool))
    requires EnvOk(env) && p.rest != [] && p.used <= maxWeight
    ensures r.0.used <= maxWeight
    ensures !r.1 ==> |r.0.rest| < |p.rest|
  {
    match env.decode(p.rest)
    case None => (p.(rest := [], log := p.log + [Record(x, p.rest, Garbage)]), false)
    case Some(n) =>
      var msg := p.rest[..n];
      var next := p.(rest := p.rest[n..], tick := p.tick + 1);
      match env.execute(p.tick, x, at, msg, maxWeight - p.used)
      case Used(w) => (next.(used := p.used + w, log := p.log + [Record(x, msg, Executed(w))]), false)
      case OverLimit(q) =>
        if q > maxIndividual then
          (next.(over := StashOverweight(p.over, Stash(x, at, msg)),
                 log := p.log + [Record(x, msg, Stashed(p.over.count, q))]), false)
        else if q <= maxWeight then (p.(tick := p.tick + 1), true)
        else (next.(log := p.log + [Record(x, msg, Refused(OverLimit(q)))]), false)
      case Invalid => (next.(log := p.log + [Record(x, msg, Refused(Invalid))]), false)
  }

  function ParseXcm(env: Env, x: ParaId, at: nat, p: Parse, maxWeight: nat, maxIndividual: nat): (r: Parse)
    requires EnvOk(env) && p.used <= maxWeight
    ensures r.used <= maxWeight
    decreases |p.rest|
  {
    if p.rest == [] then p
    else
      var (p', stop) := ParseStep(env, x, at, p, maxWeight, maxIndividual);
      if stop then p' else ParseXcm(env, x, at, p', maxWeight, maxIndividual)
  }

  lemma ParseTurn(env: Env, x: ParaId, at: nat, p: Parse, maxWeight: nat, maxIndividual: nat)
    requires EnvOk(env) && p.rest != [] && p.used <= maxWeight
    ensures var (p', stop) := ParseStep(env, x, at, p, maxWeight, maxIndividual);
            && ParseXcm(env, x, at, p, maxWeight, maxIndividual) ==
               (if stop then p' else ParseXcm(env, x, at, p', maxWeight, maxIndividual))
            && (stop ==> p'.rest == p.rest)
  {
  }

  /** A page by format. Blobs are always refused and signals never stored, so both drain the page. */
  function ParsePage(env: Env, x: ParaId, m: Meta, p: Parse, maxWeight: nat, maxIndividual: nat): (r: Parse)
    requires EnvOk(env) && p.used <= maxWeight
    ensures r.used <= maxWeight
  {
    if m.format.ConcatenatedVersionedXcm? then ParseXcm(env, x, m.sentAt, p, maxWeight, maxIndividual)
    else p.(rest := [], log := if p.rest == [] then p.log else p.log + [Record(x, p.rest, Refused(Invalid))])
  }

  // ------------------------------------------------------------------ serving one channel

  function StoreRest(pages: DoubleMap, x: ParaId, at: nat, rest: Bytes): DoubleMap {
    var inner := Inner(pages, x);
    StorePages(pages, x, if rest == [] then inner - {at} else inner[at := rest])
  }

  datatype Served = Served(s: Inbound, used: nat)

  /** Processes the oldest page of channel `k` with at most `grant` weight. */
  function ProcessPage(env: Env, s: Inbound, k: nat, grant: nat, maxIndividual: nat): (r: Served)
    requires EnvOk(env) && k < |s.status| && s.status[k].meta != []
    ensures |r.s.status| == |s.status| && r.used <= grant
  {
    var d := s.status[k];
    var m := d.meta[0];
    var p := ParsePage(env, d.sender, m, Parse(Page(Inner(s.pages, d.sender), m.sentAt), 0, s.tick, s.over, s.log),
                       grant, maxIndividual);
    Served(s.(status := if p.rest == [] then s.status[k := d.(meta := d.meta[1..])] else s.status,
              pages := StoreRest(s.pages, d.sender, m.sentAt, p.rest),
              over := p.over, tick := p.tick, log := p.log),
           p.used)
  }

  /** A suspended channel that has drained to the threshold is resumed. */
  function ResumeIfDrained(s: Inbound, k: nat, threshold: nat): Inbound
    requires k < |s.status|
  {
    var d := s.status[k];
    if |d.meta| <= threshold && d.state.Suspended? then
      s.(status := s.status[k := d.(state := Ok)], calls := s.calls + [Issue(Note(d.sender, Resume))])
    else s
  }

  function ServeChannel(env: Env, cfg: Config, s: Inbound, k: nat, grant: nat): (r: Served)
    requires EnvOk(env) && k < |s.status|
    ensures |r.s.status| == |s.status| && r.used <= grant
  {
    var r := if s.status[k].meta == [] then Served(s, 0) else ProcessPage(env, s, k, grant, cfg.maxIndividual);
    Served(ResumeIfDrained(r.s, k, cfg.resumeThreshold), r.used)
  }

  // ------------------------------------------------------------------ the scheduler

  /** The parameters of one service run. */
  datatype Job = Job(env: Env, cfg: Config, maxWeight: nat, suspended: bool, isController: ParaId -> bool)

  datatype Service = Service(s: Inbound, shuffled: seq<nat>, index: nat, used: nat, available: nat)

  ghost predicate ServiceOk(j: Job, v: Service) {
    && EnvOk(j.env)
    && (forall i :: 0 <= i < |v.shuffled| ==> v.shuffled[i] < |v.s.status|)
    && v.index <= |v.shuffled|
    && v.used <= v.available <= j.maxWeight
  }

  predicate Continues(j: Job, v: Service) {
    v.index < |v.shuffled| && SatSub(j.maxWeight, v.used) >= j.cfg.thresholdWeight
  }

  /** The weight unlocked for the next channel: it approaches the maximum over the first round. */
  function Unlocked(cfg: Config, maxWeight: nat, firstRound: bool, available: nat): (a: nat)
    requires available <= maxWeight
    ensures available <= a <= maxWeight
  {
    if available == maxWeight then available
    else if firstRound then
      var share := (maxWeight - available) / (cfg.restrictDecay + 1);
      ShareBound(maxWeight - available, cfg.restrictDecay + 1);
      var a := available + share;
      if a + cfg.thresholdWeight > maxWeight then maxWeight else a
    else maxWeight
  }

  function Unlock(j: Job, v: Service): (a: nat)
    requires v.available <= j.maxWeight
    ensures v.available <= a <= j.maxWeight
  {
    Unlocked(j.cfg, j.maxWeight, v.index < |v.s.status|, v.available)
  }

  lemma {:induction false} TimesAtLeast(q: nat, n: nat)
    requires n > 0
    ensures q * n >= q
  {
    if q > 0 { TimesAtLeast(q - 1, n); }
  }

  lemma ShareBound(x: nat, n: nat)
    requires n > 0
    ensures 0 <= x / n <= x
  {
    TimesAtLeast(x / n, n);
  }

  /** Serves the next channel and decides whether it gets another turn, now or after the others. */
  function ServeTurn(j: Job, v: Service): (v': Service)
    requires ServiceOk(j, v) && v.index < |v.shuffled|
    ensures ServiceOk(j, v') && v.available <= v'.available && |v'.s.status| == |v.s.status|
  {
    var k := v.shuffled[v.index];
    var available := Unlock(j, v);
    var r := ServeChannel(j.env, j.cfg, v.s, k, available - v.used);
    var v' := v.(s := r.s, used := v.used + r.used, available := available);
    if r.s.status[k].meta != [] && (r.used > 0 || available != j.maxWeight) then
      if v.index + 1 == |v.shuffled| then v'
      else v'.(shuffled := v.shuffled + [k], index := v.index + 1)
    else v'.(index := v.index + 1)
  }

  /** One turn of the scheduler loop: a suspended queue passes over everyone but the controller. */
  function ServiceStep(j: Job, v: Service): (v': Service)
    requires ServiceOk(j, v) && v.index < |v.shuffled|
    ensures ServiceOk(j, v') && v.available <= v'.available && |v'.s.status| == |v.s.status|
  {
    if j.suspended && !j.isController(v.s.status[v.shuffled[v.index]].sender) then v.(index := v.index + 1)
    else ServeTurn(j, v)
  }

  // ---- why the loop ends: bytes and metadata left to do ----

  function PageWork(pages: DoubleMap, x: ParaId, meta: seq<Meta>): nat {
    if meta == [] then 0
    else 1 + |Page(Inner(pages, x), meta[0].sentAt)| + PageWork(pages, x, meta[1..])
  }

  function Work(pages: DoubleMap, status: seq<InDetails>): nat {
    if status == [] then 0 else PageWork(pages, status[0].sender, status[0].meta) + Work(pages, status[1..])
  }

  ghost predicate Shrinks(pages: DoubleMap, pages': DoubleMap) {
    forall x: ParaId, at: nat :: |Page(Inner(pages', x), at)| <= |Page(Inner(pages, x), at)|
  }

  lemma {:induction false} PageWorkShrinks(pages: DoubleMap, pages': DoubleMap, x: ParaId, meta: seq<Meta>)
    requires Shrinks(pages, pages')
    ensures PageWork(pages', x, meta) <= PageWork(pages, x, meta)
  {
    if meta != [] { PageWorkShrinks(pages, pages', x, meta[1..]); }
  }

  lemma {:induction false} WorkShrinks(pages: DoubleMap, pages': DoubleMap, status: seq<InDetails>)
    requires Shrinks(pages, pages')
    ensures Work(pages', status) <= Work(pages, status)
  {
    if status != [] {
      PageWorkShrinks(pages, pages', status[0].sender, status[0].meta);
      WorkShrinks(pages, pages', status[1..]);
    }
  }

  /** If channel `k` has less to do and the others no more, there is less to do. */
  lemma {:induction false} WorkDrops(pages: DoubleMap, pages': DoubleMap, status: seq<InDetails>, k: nat, d: InDetails)
    requires Shrinks(pages, pages') && k < |status|
    requires PageWork(pages', d.sender, d.meta) < PageWork(pages, status[k].sender, status[k].meta)
    ensures Work(pages', status[k := d]) < Work(pages, status)
  {
    var status' := status[k := d];
    if k == 0 {
      assert status'[1..] == status[1..];
      WorkShrinks(pages, pages', status[1..]);
    } else {
      assert status'[1..] == status[1..][k - 1 := d];
      PageWorkShrinks(pages, pages', status[0].sender, status[0].meta);
      WorkDrops(pages, pages', status[1..], k - 1, d);
    }
  }

  /** A page never grows, and the first fragment offered is never put back. */
  lemma ParseConsumes(env: Env, x: ParaId, at: nat, p: Parse, maxWeight: nat, maxIndividual: nat)
    requires EnvOk(env) && p.used <= maxWeight
    ensures |ParseXcm(env, x, at, p, maxWeight, maxIndividual).rest| <= |p.rest|
    ensures p.used == 0 && p.rest != [] ==> |ParseXcm(env, x, at, p, maxWeight, maxIndividual).rest| < |p.rest|
    decreases |p.rest|
  {
    if p.rest != [] {
      var (p', stop) := ParseStep(env, x, at, p, maxWeight, maxIndividual);
      if !stop { ParseConsumes(env, x, at, p', maxWeight, maxIndividual); }
    }
  }

  lemma RestShrinks(pages: DoubleMap, x: ParaId, at: nat, rest: Bytes)
    requires |rest| <= |Page(Inner(pages, x), at)|
    ensures Shrinks(pages, StoreRest(pages, x, at, rest))
    ensures Page(Inner(StoreRest(pages, x, at, rest), x), at) == rest
    ensures forall y: ParaId, t: nat :: y != x || t != at ==>
                                          Page(Inner(StoreRest(pages, x, at, rest), y), t) == Page(Inner(pages, y), t)
  {
  }

  /** Every page call makes progress, whatever weight it is given. */
  lemma ProcessProgress(env: Env, s: Inbound, k: nat, grant: nat, maxIndividual: nat)
    requires EnvOk(env) && k < |s.status| && s.status[k].meta != []
    ensures var s' := ProcessPage(env, s, k, grant, maxIndividual).s; Work(s'.pages, s'.status) < Work(s.pages, s.status)
  {
    hide StoreRest;
    hide ParseXcm;
    var d := s.status[k];
    var m := d.meta[0];
    var p0 := Parse(Page(Inner(s.pages, d.sender), m.sentAt), 0, s.tick, s.over, s.log);
    var p := ParsePage(env, d.sender, m, p0, grant, maxIndividual);
    ParseConsumes(env, d.sender, m.sentAt, p0, grant, maxIndividual);
    var pages' := StoreRest(s.pages, d.sender, m.sentAt, p.rest);
    RestShrinks(s.pages, d.sender, m.sentAt, p.rest);
    PageWorkShrinks(s.pages, pages', d.sender, d.meta[1..]);
    if p.rest == [] {
      WorkDrops(s.pages, pages', s.status, k, d.(meta := d.meta[1..]));
    } else {
      WorkDrops(s.pages, pages', s.status, k, d);
      assert s.status[k := d] == s.status;
    }
  }

  lemma {:induction false} WorkIgnoresState(pages: DoubleMap, status: seq<InDetails>, k: nat, d: InDetails)
    requires k < |status| && d.sender == status[k].sender && d.meta == status[k].meta
    ensures Work(pages, status[k := d]) == Work(pages, status)
  {
    if k == 0 {
      assert status[k := d][1..] == status[1..];
    } else {
      assert status[k := d][1..] == status[1..][k - 1 := d];
      WorkIgnoresState(pages, status[1..], k - 1, d);
    }
  }

  /** Serving a channel that has pages leaves less to do; serving an empty one leaves as much. */
  lemma ServeProgress(env: Env, cfg: Config, s: Inbound, k: nat, grant: nat)
    requires EnvOk(env) && k < |s.status|
    ensures var r := ServeChannel(env, cfg, s, k, grant);
            && Work(r.s.pages, r.s.status) <= Work(s.pages, s.status)
            && (s.status[k].meta != [] ==> Work(r.s.pages, r.s.status) < Work(s.pages, s.status))
            && (s.status[k].meta == [] ==> r.s.status[k].meta == [])
  {
    hide ProcessPage;
    if s.status[k].meta != [] { ProcessProgress(env, s, k, grant, cfg.maxIndividual); }
    var s1 := if s.status[k].meta == [] then s else ProcessPage(env, s, k, grant, cfg.maxIndividual).s;
    WorkIgnoresState(s1.pages, s1.status, k, s1.status[k].(state := Ok));
  }

  lemma StepDecreases(j: Job, v: Service)
    requires ServiceOk(j, v) && v.index < |v.shuffled|
    ensures var v' := ServiceStep(j, v);
            || Work(v'.s.pages, v'.s.status) < Work(v.s.pages, v.s.status)
            || (Work(v'.s.pages, v'.s.status) == Work(v.s.pages, v.s.status) && |v'.shuffled| - v'.index < |v.shuffled| - v.index)
  {
    hide ServeChannel;
    var k := v.shuffled[v.index];
    var grant := Unlock(j, v) - v.used;
    ServeProgress(j.env, j.cfg, v.s, k, grant);
  }

  /** The scheduler loop. It ends for every shuffle, decay, threshold and executor. */
  function ServiceRun(j: Job, v: Service): (v': Service)
    requires ServiceOk(j, v)
    ensures ServiceOk(j, v') && v.available <= v'.available
    decreases Work(v.s.pages, v.s.status), |v.shuffled| - v.index
  {
    if !Continues(j, v) then v
    else
      StepDecreases(j, v);
      ServiceRun(j, ServiceStep(j, v))
  }

  lemma RunTurn(j: Job, v: Service)
    requires ServiceOk(j, v) && Continues(j, v)
    ensures ServiceRun(j, v) == ServiceRun(j, ServiceStep(j, v))
  {
    hide ServiceStep;
  }

  lemma RunEnd(j: Job, v: Service)
    requires ServiceOk(j, v) && !Continues(j, v)
    ensures ServiceRun(j, v) == v
  {
  }

  // ------------------------------------------------------------------ shuffling

  function Swap(s: seq<nat>, i: nat, k: nat): seq<nat>
    requires i < |s| && k < |s|
  {
    s[i := s[k]][k := s[i]]
  }

  function ShuffleFrom(s: seq<nat>, i: nat, draw: nat -> nat): (r: seq<nat>)
    requires i <= |s|
    ensures |r| == |s|
    decreases |s| - i
  {
    if i == |s| then s else ShuffleFrom(Swap(s, i, draw(i) % |s|), i + 1, draw)
  }

  function Upto(n: nat): (s: seq<nat>)
    ensures |s| == n && forall i :: 0 <= i < n ==> s[i] == i
  {
    seq(n, (i: nat) => i)
  }

  function CreateShuffle(n: nat, draw: nat -> nat): seq<nat> { ShuffleFrom(Upto(n), 0, draw) }

  ghost predicate Permutation(s: seq<nat>, n: nat) {
    && |s| == n
    && (forall i :: 0 <= i < n ==> s[i] < n)
    && (forall i, k :: 0 <= i < k < n ==> s[i] != s[k])
  }

  lemma {:induction false} ShuffleIsPermutation(s: seq<nat>, i: nat, draw: nat -> nat)
    requires i <= |s| && Permutation(s, |s|)
    ensures Permutation(ShuffleFrom(s, i, draw), |s|)
    decreases |s| - i
  {
    if i < |s| {
      var s' := Swap(s, i, draw(i) % |s|);
      assert Permutation(s', |s|);
      ShuffleIsPermutation(s', i + 1, draw);
    }
  }

  // ------------------------------------------------------------------ service and arrival

  function HasPages(): InDetails -> bool { (d: InDetails) => d.meta != [] }

  function ServiceQueue(j: Job, s: Inbound, draw: nat -> nat): (r: Served)
    requires EnvOk(j.env)
    ensures r.used <= j.maxWeight
  {
    if s.status == [] then Served(s, 0)
    else
      var shuffled := CreateShuffle(|s.status|, draw);
      ShuffleIsPermutation(Upto(|s.status|), 0, draw);
      var v := ServiceRun(j, Service(s, shuffled, 0, 0, 0));
      Served(v.s.(status := Filter(v.s.status, HasPages())), v.used)
  }

  // ------------------------------------------------------------------ servicing an overweight message

  datatype OverweightResult = BadOverweightIndex | BadXcm | WeightOverLimit | Serviced(weight: nat)

  /** Tries a stashed message again with a limit of the caller's choice; only a success removes it. */
  function ServiceOverweight(env: Env, s: Inbound, index: nat, limit: nat): (Inbound, OverweightResult) {
    if index !in s.over.store then (s, BadOverweightIndex)
    else
      var stash := s.over.store[index];
      if env.decode(stash.msg) != Some(|stash.msg|) then (s, BadXcm)
      else
        match env.execute(s.tick, stash.sender, stash.sentAt, stash.msg, limit)
        case Used(w) =>
          (s.(tick := s.tick + 1, over := s.over.(store := s.over.store - {index}, freed := s.over.freed + [index])), Serviced(w))
        case _ => (s.(tick := s.tick + 1), WeightOverLimit)
  }

  // ------------------------------------------------------------------ arrivals

  function BySenderId(): InDetails -> nat { (d: InDetails) => d.sender }

  function HearAll(x: ParaId, sigs: seq<Signal>): (c: seq<Call>)
    ensures |c| == |sigs| && forall i :: 0 <= i < |c| ==> c[i] == Hear(Note(x, sigs[i]))
  {
    seq(|sigs|, i requires 0 <= i < |sigs| => Hear(Note(x, sigs[i])))
  }

  /** A data page arrives: maybe suspend its sender, record it unless the channel is full, store it. */
  function RecordPage(cfg: Config, s: Inbound, a: Arrival, format: Format, payload: Bytes): Inbound {
    var stored := s.(pages := StorePages(s.pages, a.sender, Inner(s.pages, a.sender)[a.sentAt := payload]));
    match Search(s.status, BySenderId(), a.sender, 0, |s.status|)
    case None =>
      stored.(status := s.status + [InDetails(a.sender, Ok, [Meta(a.sentAt, format)])],
              accepted := s.accepted + [a])
    case Some(i) =>
      var d := s.status[i];
      var count := |d.meta|;
      var suspend := count >= cfg.suspendThreshold && d.state.Ok?;
      var keep := count < cfg.dropThreshold;
      stored.(status := s.status[i := InDetails(d.sender, if suspend then Suspended else d.state,
                                                if keep then d.meta + [Meta(a.sentAt, format)] else d.meta)],
              calls := if suspend then s.calls + [Issue(Note(a.sender, Suspend))] else s.calls,
              accepted := if keep then s.accepted + [a] else s.accepted)
  }

  function Receive(cfg: Config, s: Inbound, a: Arrival): Inbound {
    match DecodeFormat(a.data)
    case None => s
    case Some(Signals) => s.(calls := s.calls + HearAll(a.sender, DecodeSignals(a.data[1..])))
    case Some(f) => RecordPage(cfg, s, a, f, a.data[1..])
  }

  function ReceiveAll(cfg: Config, s: Inbound, batch: seq<Arrival>): Inbound
    decreases |batch|
  {
    if batch == [] then s else ReceiveAll(cfg, Receive(cfg, s, batch[0]), batch[1..])
  }

  function BySender(): (InDetails, InDetails) -> bool { (a: InDetails, b: InDetails) => a.sender <= b.sender }

  function HandleMessages(j: Job, s: Inbound, batch: seq<Arrival>, draw: nat -> nat): (r: Served)
    requires EnvOk(j.env)
    ensures r.used <= j.maxWeight
  {
    var s' := ReceiveAll(j.cfg, s, batch);
    ServiceQueue(j, s'.(status := StableSort(s'.status, BySender())), draw)
  }
}
