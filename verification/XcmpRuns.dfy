/** Whole runs of the XCMP queue pallet, both halves together. */
module XcmpRuns {
  import opened Common
  import opened XcmpFormat
  import opened XcmpOutbound
  import opened XcmpOutboundProofs
  import In = XcmpInbound
  import InP = XcmpInboundProofs
  import Look = XcmpLookup
  import Arr = XcmpArrivals

  /** The pallet: the inbound half and the trace of the outbound half. */
  datatype Pallet = Pallet(inbound: In.Inbound, outbound: Trace)

  const Start := Pallet(In.Empty, Genesis)

  /**
   `ops` is what happens on the outbound half while messages are handled: the calls of the inbound
   half in their order and, in between, any fragments sent by the messages being executed.
   */
  datatype Event =
    | SendMessage(fragment: Fragment, channelMax: Option<nat>)
    | HandleMessages(job: In.Job, batch: seq<In.Arrival>, draw: nat -> nat, ops: seq<Op>)
    | OnIdle(job: In.Job, draw: nat -> nat, ops: seq<Op>)
    | ServiceOverweight(env: In.Env, index: nat, limit: nat, ops: seq<Op>)
    | Collect(info: ChannelInfo, maximum: nat)

  function CallOf(op: Op): seq<In.Call> {
    match op
    case Signalled(n) => [In.Issue(n)]
    case Heard(n) => [In.Hear(n)]
    case _ => []
  }

  function CallsOf(ops: seq<Op>): seq<In.Call> {
    if ops == [] then [] else CallOf(ops[0]) + CallsOf(ops[1..])
  }

  /** `inbound` came out of handling messages and `ops` replays its calls on the outbound half. */
  ghost predicate Replays(p: Pallet, inbound: In.Inbound, ops: seq<Op>) {
    inbound.calls == p.inbound.calls + CallsOf(ops) && SoundRun(p.outbound, ops)
  }

  ghost predicate Allowed(p: Pallet, e: Event) {
    match e
    case SendMessage(f, max) => Sound(p.outbound, Send(f, max))
    case HandleMessages(job, batch, draw, ops) =>
      In.EnvOk(job.env) && Replays(p, In.HandleMessages(job, p.inbound, batch, draw).s, ops)
    case OnIdle(job, draw, ops) =>
      In.EnvOk(job.env) && Replays(p, In.ServiceQueue(job, p.inbound, draw).s, ops)
    case ServiceOverweight(env, index, limit, ops) => Replays(p, In.ServiceOverweight(env, p.inbound, index, limit).0, ops)
    case Collect(_, _) => true
  }

  ghost function Next(p: Pallet, e: Event): Pallet
    requires Allowed(p, e)
  {
    match e
    case SendMessage(f, max) => p.(outbound := Step(p.outbound, Send(f, max)))
    case HandleMessages(job, batch, draw, ops) =>
      Pallet(In.HandleMessages(job, p.inbound, batch, draw).s, Run(p.outbound, ops))
    case OnIdle(job, draw, ops) => Pallet(In.ServiceQueue(job, p.inbound, draw).s, Run(p.outbound, ops))
    case ServiceOverweight(env, index, limit, ops) =>
      Pallet(In.ServiceOverweight(env, p.inbound, index, limit).0, Run(p.outbound, ops))
    case Collect(info, maximum) => p.(outbound := Step(p.outbound, TakeBatch(info, maximum)))
  }

  ghost predicate AllowedRun(p: Pallet, events: seq<Event>)
    decreases |events|
  {
    events == [] || (Allowed(p, events[0]) && AllowedRun(Next(p, events[0]), events[1..]))
  }

  ghost function Final(p: Pallet, events: seq<Event>): Pallet
    requires AllowedRun(p, events)
    decreases |events|
  {
    if events == [] then p else Final(Next(p, events[0]), events[1..])
  }

  // ------------------------------------------------------------------ every handling can be replayed

  lemma StepCalls(j: In.Job, v: In.Service)
    requires In.ServiceOk(j, v) && v.index < |v.shuffled|
    ensures v.s.calls <= In.ServiceStep(j, v).s.calls
  {
    hide In.ServiceStep;
    hide In.ServeChannel;
    InP.StepServes(j, v);
    InP.ServeShape(j.env, j.cfg, v.s, v.shuffled[v.index], In.Unlock(j, v) - v.used);
  }

  lemma {:induction false} ServiceRunCalls(j: In.Job, v: In.Service)
    requires In.ServiceOk(j, v)
    ensures v.s.calls <= In.ServiceRun(j, v).s.calls
    decreases In.Work(v.s.pages, v.s.status), |v.shuffled| - v.index
  {
    if In.Continues(j, v) {
      hide In.ServiceStep;
      In.StepDecreases(j, v);
      StepCalls(j, v);
      ServiceRunCalls(j, In.ServiceStep(j, v));
    }
  }

  lemma ServiceCalls(j: In.Job, s: In.Inbound, draw: nat -> nat)
    requires In.EnvOk(j.env)
    ensures s.calls <= In.ServiceQueue(j, s, draw).s.calls
  {
    if s.status != [] {
      hide In.ServiceRun;
      In.ShuffleIsPermutation(In.Upto(|s.status|), 0, draw);
      ServiceRunCalls(j, In.Service(s, In.CreateShuffle(|s.status|, draw), 0, 0, 0));
    }
  }

  lemma {:induction false} ReceiveCalls(cfg: In.Config, s: In.Inbound, batch: seq<In.Arrival>)
    ensures s.calls <= In.ReceiveAll(cfg, s, batch).calls
    decreases |batch|
  {
    if batch != [] { ReceiveCalls(cfg, In.Receive(cfg, s, batch[0]), batch[1..]); }
  }

  lemma HandleCalls(j: In.Job, s: In.Inbound, batch: seq<In.Arrival>, draw: nat -> nat)
    requires In.EnvOk(j.env)
    ensures s.calls <= In.HandleMessages(j, s, batch, draw).s.calls
  {
    hide In.ServiceQueue;
    ReceiveCalls(j.cfg, s, batch);
    var s' := In.ReceiveAll(j.cfg, s, batch);
    ServiceCalls(j, s'.(status := StableSort(s'.status, In.BySender())), draw);
  }

  function ToOps(calls: seq<In.Call>): seq<Op> {
    if calls == [] then []
    else [if calls[0].Issue? then Signalled(calls[0].note) else Heard(calls[0].note)] + ToOps(calls[1..])
  }

  lemma {:induction false} CallsReplay(t: Trace, calls: seq<In.Call>)
    ensures CallsOf(ToOps(calls)) == calls && SoundRun(t, ToOps(calls))
    decreases |calls|
  {
    if calls != [] {
      hide Step;
      var ops := ToOps(calls);
      assert ops[1..] == ToOps(calls[1..]);
      CallsReplay(Step(t, ops[0]), calls[1..]);
    }
  }

  lemma GrownCallsReplay(p: Pallet, inbound: In.Inbound) returns (ops: seq<Op>)
    requires p.inbound.calls <= inbound.calls
    ensures Replays(p, inbound, ops)
  {
    hide SoundRun;
    hide CallsOf;
    hide ToOps;
    var calls := inbound.calls[|p.inbound.calls|..];
    ops := ToOps(calls);
    CallsReplay(p.outbound, calls);
    assert inbound.calls == p.inbound.calls + calls;
  }

  /** Whatever the arrivals, the executor, the weights and the shuffle: some run of the outbound half replays the handling. */
  lemma EveryHandlingReplays(p: Pallet, j: In.Job, batch: seq<In.Arrival>, draw: nat -> nat) returns (ops: seq<Op>)
    requires In.EnvOk(j.env)
    ensures Replays(p, In.HandleMessages(j, p.inbound, batch, draw).s, ops)
  {
    hide In.HandleMessages;
    HandleCalls(j, p.inbound, batch, draw);
    ops := GrownCallsReplay(p, In.HandleMessages(j, p.inbound, batch, draw).s);
  }

  lemma EveryServiceReplays(p: Pallet, j: In.Job, draw: nat -> nat) returns (ops: seq<Op>)
    requires In.EnvOk(j.env)
    ensures Replays(p, In.ServiceQueue(j, p.inbound, draw).s, ops)
  {
    hide In.ServiceQueue;
    ServiceCalls(j, p.inbound, draw);
    ops := GrownCallsReplay(p, In.ServiceQueue(j, p.inbound, draw).s);
  }

  // ------------------------------------------------------------------ the two halves agree on the signals

  function Hears(calls: seq<In.Call>): seq<Note> {
    if calls == [] then []
    else
      var c := calls[|calls| - 1];
      Hears(calls[..|calls| - 1]) + if c.Hear? then [c.note] else []
  }

  lemma HearsSnoc(calls: seq<In.Call>, c: In.Call)
    ensures Hears(calls + [c]) == if c.Hear? then Hears(calls) + [c.note] else Hears(calls)
  {
    assert (calls + [c])[..|calls|] == calls;
    assert Hears(calls) + [] == Hears(calls);
  }

  /** The outbound half has issued and heard exactly the calls of the inbound half. */
  ghost predicate Linked(p: Pallet) {
    p.outbound.issued == InP.Issues(p.inbound.calls) && p.outbound.heard == Hears(p.inbound.calls)
  }

  lemma {:induction false} ReplayLinks(t: Trace, calls: seq<In.Call>, ops: seq<Op>)
    requires t.issued == InP.Issues(calls) && t.heard == Hears(calls)
    ensures var t' := Run(t, ops); t'.issued == InP.Issues(calls + CallsOf(ops)) && t'.heard == Hears(calls + CallsOf(ops))
    decreases |ops|
  {
    hide InP.Issues;
    hide Hears;
    hide Step;
    if ops == [] {
      assert calls + CallsOf(ops) == calls;
    } else {
      var op := ops[0];
      StepNotes(t, calls, op);
      ReplayLinks(Step(t, op), calls + CallOf(op), ops[1..]);
      assert calls + CallOf(op) + CallsOf(ops[1..]) == calls + CallsOf(ops);
    }
  }

  lemma StepNotes(t: Trace, calls: seq<In.Call>, op: Op)
    requires t.issued == InP.Issues(calls) && t.heard == Hears(calls)
    ensures var t' := Step(t, op); t'.issued == InP.Issues(calls + CallOf(op)) && t'.heard == Hears(calls + CallOf(op))
  {
    hide InP.Issues;
    hide Hears;
    if op.Signalled? || op.Heard? {
      InP.IssuesSnoc(calls, CallOf(op)[0]);
      HearsSnoc(calls, CallOf(op)[0]);
    } else {
      assert calls + CallOf(op) == calls;
    }
  }

  // ------------------------------------------------------------------ the invariant of every run

  /**
   What holds in every reachable state, whatever arrives: every inbound entry has a page, the overweight
   store is in order, the two halves agree on the signals, and the outbound channel to `y` is in order.
   */
  ghost predicate InOrder(p: Pallet, y: ParaId) {
    && InP.AllHavePages(p.inbound.status)
    && InP.StashesInOrder(p.inbound.over, p.inbound.log)
    && Linked(p)
    && Valid(p.outbound.s)
    && Refines(p.outbound, y)
    && SignalsConserved(p.outbound, y)
    && Mirrors(p.outbound, y)
  }

  lemma StartInOrder(y: ParaId)
    ensures InOrder(Start, y)
  {
    InP.EmptyInOrder(y);
    GenesisRefines(y);
    assert SignalsWith([], y) == [];
    assert EncodeSignals([]) == [];
    assert SignalsGone([], y) == [];
  }

  lemma ReplayInOrder(p: Pallet, inbound: In.Inbound, ops: seq<Op>, y: ParaId)
    requires InOrder(p, y) && Replays(p, inbound, ops)
    requires InP.AllHavePages(inbound.status) && InP.StashesInOrder(inbound.over, inbound.log)
    ensures InOrder(Pallet(inbound, Run(p.outbound, ops)), y)
  {
    hide InP.StashesInOrder;
    hide Valid;
    hide Refines;
    hide SignalsConserved;
    hide Mirrors;
    hide Run;
    ReplayLinks(p.outbound, p.inbound.calls, ops);
    ReachableValid(p.outbound, ops);
    OutboundRefinesFlatQueue(p.outbound, ops, y);
    SignalsAreConserved(p.outbound, ops, y);
    NoAlarmIffAlternating(p.outbound, ops, y);
  }

  lemma OpInOrder(p: Pallet, op: Op, y: ParaId)
    requires InOrder(p, y) && Sound(p.outbound, op) && (op.Send? || op.TakeBatch?)
    ensures InOrder(p.(outbound := Step(p.outbound, op)), y)
  {
    hide InP.StashesInOrder;
    hide Valid;
    hide Refines;
    hide SignalsConserved;
    hide Mirrors;
    StepKeepsValid(p.outbound, op);
    match op {
      case Send(f, max) => SendRefines(p.outbound, f, max, y);
      case TakeBatch(info, maximum) => TakeRefines(p.outbound, info, maximum, y);
    }
    StepConservesSignals(p.outbound, op, y);
    StepMirrors(p.outbound, op, y);
  }

  lemma NextInOrder(p: Pallet, e: Event, y: ParaId)
    requires InOrder(p, y) && Allowed(p, e)
    ensures InOrder(Next(p, e), y)
  {
    hide InOrder;
    hide Replays;
    hide In.HandleMessages;
    hide In.ServiceQueue;
    hide Step;
    match e {
      case SendMessage(f, max) => OpInOrder(p, Send(f, max), y);
      case HandleMessages(job, batch, draw, ops) =>
        InOrderStored(p, y);
        Arr.HandleKeepsStore(job, p.inbound, batch, draw);
        ReplayInOrder(p, In.HandleMessages(job, p.inbound, batch, draw).s, ops, y);
      case OnIdle(job, draw, ops) =>
        InOrderStored(p, y);
        ServiceKeepsStore(job, p.inbound, draw);
        ReplayInOrder(p, In.ServiceQueue(job, p.inbound, draw).s, ops, y);
      case ServiceOverweight(env, index, limit, ops) =>
        InOrderStored(p, y);
        InP.OverweightStashes(env, p.inbound, index, limit);
        ReplayInOrder(p, In.ServiceOverweight(env, p.inbound, index, limit).0, ops, y);
      case Collect(info, maximum) => OpInOrder(p, TakeBatch(info, maximum), y);
    }
  }

  lemma InOrderStored(p: Pallet, y: ParaId)
    requires InOrder(p, y)
    ensures InP.AllHavePages(p.inbound.status) && InP.StashesInOrder(p.inbound.over, p.inbound.log)
  {
  }

  lemma ServiceKeepsStore(j: In.Job, s: In.Inbound, draw: nat -> nat)
    requires In.EnvOk(j.env) && InP.StashesInOrder(s.over, s.log)
    ensures var s' := In.ServiceQueue(j, s, draw).s; InP.AllHavePages(s'.status) && InP.StashesInOrder(s'.over, s'.log)
  {
    hide InP.Handshakes;
    hide InP.Delivers;
    InP.ServiceQueuePreserves(j, s, draw, 0);
  }

  /** The invariant holds over every run, for every peer. */
  lemma {:induction false} EveryRunInOrder(p: Pallet, events: seq<Event>, y: ParaId)
    requires InOrder(p, y) && AllowedRun(p, events)
    ensures InOrder(Final(p, events), y)
    decreases |events|
  {
    if events != [] {
      hide InOrder;
      hide Next;
      NextInOrder(p, events[0], y);
      EveryRunInOrder(Next(p, events[0]), events[1..], y);
    }
  }

  // ------------------------------------------------------------------ consequences

  /** No lookup of a page of `y` misses in this event. */
  predicate HitsEvent(p: Pallet, e: Event, y: ParaId) {
    e.HandleMessages? ==> Look.LookupsOf(InP.Senders(p.inbound.status), e.batch, y)
  }

  /** No page of `y` that arrives in this event does harm; those of other senders do not matter. */
  ghost predicate HarmlessEvent(p: Pallet, e: Event, y: ParaId) {
    e.HandleMessages? ==> Arr.HarmlessBatch(e.job.cfg, p.inbound, e.batch, y)
  }

  ghost predicate HitsRun(p: Pallet, events: seq<Event>, y: ParaId)
    requires AllowedRun(p, events)
    decreases |events|
  {
    events == [] || (HitsEvent(p, events[0], y) && HitsRun(Next(p, events[0]), events[1..], y))
  }

  ghost predicate HarmlessRun(p: Pallet, events: seq<Event>, y: ParaId)
    requires AllowedRun(p, events)
    decreases |events|
  {
    events == [] || (HarmlessEvent(p, events[0], y) && HarmlessRun(Next(p, events[0]), events[1..], y))
  }

  lemma OverweightIsQuiet(env: In.Env, s: In.Inbound, index: nat, limit: nat, y: ParaId)
    ensures var s' := In.ServiceOverweight(env, s, index, limit).0;
            (InP.Handshakes(s, y) ==> InP.Handshakes(s', y)) && (InP.Delivers(s, y) ==> InP.Delivers(s', y))
  {
  }

  lemma NextHandshakes(p: Pallet, e: Event, y: ParaId)
    requires Allowed(p, e) && HitsEvent(p, e, y) && InP.AllHavePages(p.inbound.status) && InP.Handshakes(p.inbound, y)
    ensures InP.Handshakes(Next(p, e).inbound, y)
  {
    hide InP.Handshakes;
    hide InP.Delivers;
    hide InP.StashesInOrder;
    hide In.HandleMessages;
    hide In.ServiceQueue;
    hide Replays;
    match e
    case HandleMessages(job, batch, draw, ops) => Arr.HandleHandshakes(job, p.inbound, batch, draw, y);
    case OnIdle(job, draw, ops) => InP.ServiceQueuePreserves(job, p.inbound, draw, y);
    case ServiceOverweight(env, index, limit, ops) => OverweightIsQuiet(env, p.inbound, index, limit, y);
    case _ =>
  }

  lemma NextDelivers(p: Pallet, e: Event, y: ParaId)
    requires Allowed(p, e) && HarmlessEvent(p, e, y) && InP.Delivers(p.inbound, y)
    ensures InP.Delivers(Next(p, e).inbound, y)
  {
    hide InP.Handshakes;
    hide InP.Delivers;
    hide InP.StashesInOrder;
    hide In.HandleMessages;
    hide In.ServiceQueue;
    hide Replays;
    match e
    case HandleMessages(job, batch, draw, ops) => Arr.HandleDelivers(job, p.inbound, batch, draw, y);
    case OnIdle(job, draw, ops) => InP.ServiceQueuePreserves(job, p.inbound, draw, y);
    case ServiceOverweight(env, index, limit, ops) => OverweightIsQuiet(env, p.inbound, index, limit, y);
    case _ =>
  }

  lemma {:induction false} RunHandshakes(p: Pallet, events: seq<Event>, y: ParaId)
    requires AllowedRun(p, events) && HitsRun(p, events, y) && InOrder(p, y) && InP.Handshakes(p.inbound, y)
    ensures InP.Handshakes(Final(p, events).inbound, y)
    decreases |events|
  {
    if events != [] {
      hide InOrder;
      hide InP.Handshakes;
      hide Next;
      hide Allowed;
      hide HitsEvent;
      InOrderStored(p, y);
      NextHandshakes(p, events[0], y);
      NextInOrder(p, events[0], y);
      RunHandshakes(Next(p, events[0]), events[1..], y);
    }
  }

  lemma {:induction false} RunDelivers(p: Pallet, events: seq<Event>, y: ParaId)
    requires AllowedRun(p, events) && HarmlessRun(p, events, y) && InP.Delivers(p.inbound, y)
    ensures InP.Delivers(Final(p, events).inbound, y)
    decreases |events|
  {
    if events != [] {
      hide InP.Delivers;
      hide Next;
      hide Allowed;
      hide HarmlessEvent;
      NextDelivers(p, events[0], y);
      RunDelivers(Next(p, events[0]), events[1..], y);
    }
  }

  /**
   From genesis, over every run in which no lookup of a page of `y` misses: the signals issued to `y`
   alternate, starting with Suspend. Time stamps and other senders do not matter.
   */
  lemma IssuedSignalsAlternate(events: seq<Event>, y: ParaId)
    requires AllowedRun(Start, events) && HitsRun(Start, events, y)
    ensures Alternates(SignalsWith(Final(Start, events).outbound.issued, y))
  {
    hide Final;
    hide AllowedRun;
    hide HitsRun;
    hide Valid;
    hide Refines;
    hide Mirrors;
    hide SignalsConserved;
    hide SignalsWith;
    hide InP.StashesInOrder;
    StartInOrder(y);
    InP.EmptyInOrder(y);
    EveryRunInOrder(Start, events, y);
    RunHandshakes(Start, events, y);
  }

  /**
   From genesis, over every run in which the pages of `y` do no harm: its accepted bytes are decided once,
   in order, or still wait. Other senders do not matter.
   */
  lemma InboundPagesDecidedOnceInOrder(events: seq<Event>, y: ParaId)
    requires AllowedRun(Start, events) && HarmlessRun(Start, events, y)
    ensures var s := Final(Start, events).inbound;
            InP.Decided(s.log, y) + InP.Pending(s, y) == InP.Accepted(s.accepted, y)
  {
    hide InP.Decided;
    hide InP.Pending;
    hide InP.Accepted;
    hide Final;
    InP.EmptyInOrder(y);
    RunDelivers(Start, events, y);
  }

  /** Over every run, whatever arrives: the next service call visits only channels that have pages. */
  lemma NoVisitFindsNothing(events: seq<Event>, j: In.Job, draw: nat -> nat)
    requires AllowedRun(Start, events) && In.EnvOk(j.env)
    ensures var s := Final(Start, events).inbound; var v := In.Service(s, In.CreateShuffle(|s.status|, draw), 0, 0, 0);
            In.ServiceOk(j, v) && InP.NeverVisitsEmpty(j, v)
  {
    hide Final;
    hide AllowedRun;
    hide InOrder;
    StartInOrder(0);
    EveryRunInOrder(Start, events, 0);
    InOrderStored(Final(Start, events), 0);
    InP.ServiceQueueNeverVisitsEmpty(j, Final(Start, events).inbound, draw);
  }

  /** The same for the service call that ends the handling of any batch. */
  lemma NoHandlingFindsNothing(events: seq<Event>, j: In.Job, batch: seq<In.Arrival>, draw: nat -> nat)
    requires AllowedRun(Start, events) && In.EnvOk(j.env)
    ensures var s := Arr.Sorted(In.ReceiveAll(j.cfg, Final(Start, events).inbound, batch));
            var v := In.Service(s, In.CreateShuffle(|s.status|, draw), 0, 0, 0);
            In.ServiceOk(j, v) && InP.NeverVisitsEmpty(j, v)
  {
    hide Final;
    hide AllowedRun;
    hide InOrder;
    StartInOrder(0);
    EveryRunInOrder(Start, events, 0);
    InOrderStored(Final(Start, events), 0);
    Arr.HandleNeverVisitsEmpty(j, Final(Start, events).inbound, batch, draw);
  }

  // ------------------------------------------------------------------ signals may have to wait

  /** A batch takes nothing from a suspended channel, so a signal queued for it is not sent this block. */
  lemma SuspendedSignalsWait(s: Outbound, info: ChannelInfo, maximum: nat, r: ParaId)
    requires Valid(s) && Of(s.statuses, r).state.Suspended? && Take(s, info, maximum).Taken?
    ensures forall g :: g in Take(s, info, maximum).batch ==> g.recipient != r
    ensures At(Take(s, info, maximum).s, r) == At(s, r)
  {
    TakeAt(s, info, maximum, r);
    BatchMeetsChannelRules(s, info, maximum);
  }

  /** Resuming an empty channel forgets that signals wait: they stay stored but no status points at them. */
  lemma ResumeOrphansSignals(s: Outbound, r: ParaId)
    requires Valid(s)
    requires Of(s.statuses, r).signalsExist && Of(s.statuses, r).firstIndex == Of(s.statuses, r).lastIndex
    ensures var s' := ResumeChannel(s, r); Of(s'.statuses, r) == NewDetails(r) && SignalPage(s'.signals, r) != []
  {
    ResumeAt(s, r);
    assert LocalValid(At(s, r));
    assert At(ResumeChannel(s, r), r) == ResumeLocal(At(s, r));
  }

  /** Announced signals stay announced over a Resume if and only if data pages wait too; they stay stored in any case. */
  lemma ResumeKeepsAnnouncementIff(s: Outbound, r: ParaId)
    requires Valid(s) && Of(s.statuses, r).signalsExist
    ensures var s' := ResumeChannel(s, r);
            && (Of(s'.statuses, r).signalsExist <==> Queue(At(s, r)) != [])
            && SignalPage(s'.signals, r) == SignalPage(s.signals, r)
  {
    ResumeAt(s, r);
    assert LocalValid(At(s, r));
    assert At(ResumeChannel(s, r), r) == ResumeLocal(At(s, r));
  }
}
