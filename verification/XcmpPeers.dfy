/**
 Two chains talking to each other: what one emits is what the other hears, the Suspend/Resume handshake
 does not go wrong as long as no page of signals is lost, packed pages are parsed back, and two chains
 that have suspended each other never speak again.
 */
module XcmpPeers {
  import opened Common
  import opened XcmpFormat
  import opened XcmpOutbound
  import opened XcmpOutboundProofs
  import opened XcmpRuns
  import In = XcmpInbound
  import InP = XcmpInboundProofs

  // ------------------------------------------------------------------ what is heard is what was delivered

  predicate IsPageOfSignals(a: In.Arrival, x: ParaId) { a.sender == x && DecodeFormat(a.data) == Some(Signals) }

  /** The pages of signals from `x` in a batch of arrivals, in order. */
  function PagesIn(batch: seq<In.Arrival>, x: ParaId): seq<Bytes> {
    if batch == [] then []
    else (if IsPageOfSignals(batch[0], x) then [batch[0].data] else []) + PagesIn(batch[1..], x)
  }

  function PagesOfEvent(e: Event, x: ParaId): seq<Bytes> { if e.HandleMessages? then PagesIn(e.batch, x) else [] }

  /** The pages of signals that were delivered from `x` over a run. */
  function Delivered(events: seq<Event>, x: ParaId): seq<Bytes> {
    if events == [] then [] else PagesOfEvent(events[0], x) + Delivered(events[1..], x)
  }

  /** The signals spelled by some pages, page by page as a receiver decodes them. */
  function Spelled(pages: seq<Bytes>): seq<Signal> {
    if pages == [] then [] else DecodeSignals(Payload(pages[0])) + Spelled(pages[1..])
  }

  lemma SpelledTurn(pages: seq<Bytes>)
    requires pages != []
    ensures Spelled(pages) == DecodeSignals(Payload(pages[0])) + Spelled(pages[1..])
  {
  }

  lemma {:induction false} SpelledAppend(a: seq<Bytes>, b: seq<Bytes>)
    ensures Spelled(a + b) == Spelled(a) + Spelled(b)
  {
    hide DecodeSignals;
    hide Payload;
    if a == [] {
      assert a + b == b;
      assert [] + Spelled(b) == Spelled(b);
    } else {
      SpelledAppend(a[1..], b);
      assert (a + b)[0] == a[0] && (a + b)[1..] == a[1..] + b;
      SpelledTurn(a);
      SpelledTurn(a + b);
      hide Spelled;
      Associative(DecodeSignals(Payload(a[0])), Spelled(a[1..]), Spelled(b));
    }
  }

  lemma {:induction false} HearsAppend(a: seq<In.Call>, b: seq<In.Call>)
    ensures Hears(a + b) == Hears(a) + Hears(b)
    decreases |b|
  {
    hide Hears;
    if b == [] {
      assert a + b == a;
      assert Hears([]) == [] by { HearsNothing(); }
    } else {
      var init, c := b[..|b| - 1], b[|b| - 1];
      HearsAppend(a, init);
      assert a + b == a + init + [c] && b == init + [c];
      HearsSnoc(a + init, c);
      HearsSnoc(init, c);
    }
  }

  lemma HearsNothing()
    ensures Hears([]) == []
  {
  }

  lemma SignalsWithAppend(a: seq<Note>, b: seq<Note>, r: ParaId)
    ensures SignalsWith(a + b, r) == SignalsWith(a, r) + SignalsWith(b, r)
  {
    hide Filter;
    FilterAppend(a, b, IsWith(r));
  }

  lemma {:induction false} HearAllHears(x: ParaId, sigs: seq<Signal>, y: ParaId)
    ensures SignalsWith(Hears(In.HearAll(x, sigs)), y) == if x == y then sigs else []
    decreases |sigs|
  {
    hide Hears;
    hide SignalsWith;
    if sigs == [] {
      HearsNothing();
      assert In.HearAll(x, sigs) == [];
      NoSignals(y);
    } else {
      var init, last := sigs[..|sigs| - 1], Note(x, sigs[|sigs| - 1]);
      HearAllHears(x, init, y);
      assert In.HearAll(x, sigs) == In.HearAll(x, init) + [In.Hear(last)];
      HearsSnoc(In.HearAll(x, init), In.Hear(last));
      SignalsWithSnoc(Hears(In.HearAll(x, init)), last, y);
      assert sigs == init + [last.signal];
    }
  }

  lemma NoSignals(y: ParaId)
    ensures SignalsWith([], y) == []
  {
  }

  /** The signals heard from `x` according to the calls into the outbound half. */
  function HeardIn(calls: seq<In.Call>, x: ParaId): seq<Signal> { SignalsWith(Hears(calls), x) }

  lemma HeardInAppend(a: seq<In.Call>, b: seq<In.Call>, x: ParaId)
    ensures HeardIn(a + b, x) == HeardIn(a, x) + HeardIn(b, x)
  {
    hide Hears;
    hide SignalsWith;
    HearsAppend(a, b);
    SignalsWithAppend(Hears(a), Hears(b), x);
  }

  lemma IssueIsNotHeard(calls: seq<In.Call>, n: Note, x: ParaId)
    ensures HeardIn(calls + [In.Issue(n)], x) == HeardIn(calls, x)
  {
    hide Hears;
    HearsSnoc(calls, In.Issue(n));
  }

  lemma RecordHears(cfg: In.Config, s: In.Inbound, a: In.Arrival, f: Format, payload: Bytes, x: ParaId)
    ensures HeardIn(In.RecordPage(cfg, s, a, f, payload).calls, x) == HeardIn(s.calls, x)
  {
    hide HeardIn;
    hide Search;
    IssueIsNotHeard(s.calls, Note(a.sender, Suspend), x);
  }

  lemma ReceiveHears(cfg: In.Config, s: In.Inbound, a: In.Arrival, x: ParaId)
    ensures HeardIn(In.Receive(cfg, s, a).calls, x) == HeardIn(s.calls, x) + Spelled(PagesIn([a], x))
  {
    hide Hears;
    hide SignalsWith;
    hide In.RecordPage;
    hide DecodeSignals;
    assert [a][1..] == [];
    match DecodeFormat(a.data)
    case None =>
    case Some(f) =>
      if f.Signals? {
        var sigs := DecodeSignals(a.data[1..]);
        HeardInAppend(s.calls, In.HearAll(a.sender, sigs), x);
        HearAllHears(a.sender, sigs, x);
        assert sigs + [] == sigs;
      } else {
        RecordHears(cfg, s, a, f, a.data[1..], x);
      }
  }

  lemma {:induction false} ReceiveAllHears(cfg: In.Config, s: In.Inbound, batch: seq<In.Arrival>, x: ParaId)
    ensures HeardIn(In.ReceiveAll(cfg, s, batch).calls, x) == HeardIn(s.calls, x) + Spelled(PagesIn(batch, x))
    decreases |batch|
  {
    hide HeardIn;
    hide In.Receive;
    if batch != [] {
      hide Spelled;
      var a, rest := batch[0], batch[1..];
      ReceiveHears(cfg, s, a, x);
      ReceiveAllHears(cfg, In.Receive(cfg, s, a), rest, x);
      assert [a][1..] == [] && PagesIn([a], x) + [] == PagesIn([a], x);
      assert PagesIn(batch, x) == PagesIn([a], x) + PagesIn(rest, x);
      SpelledAppend(PagesIn([a], x), PagesIn(rest, x));
      Associative(HeardIn(s.calls, x), Spelled(PagesIn([a], x)), Spelled(PagesIn(rest, x)));
    }
  }

  lemma StepHears(j: In.Job, v: In.Service, x: ParaId)
    requires In.ServiceOk(j, v) && v.index < |v.shuffled|
    ensures HeardIn(In.ServiceStep(j, v).s.calls, x) == HeardIn(v.s.calls, x)
  {
    hide HeardIn;
    hide In.ServiceStep;
    hide In.ServeChannel;
    InP.StepServes(j, v);
    var k := v.shuffled[v.index];
    InP.ServeShape(j.env, j.cfg, v.s, k, In.Unlock(j, v) - v.used);
    IssueIsNotHeard(v.s.calls, Note(v.s.status[k].sender, Resume), x);
  }

  lemma {:induction false} ServiceRunHears(j: In.Job, v: In.Service, x: ParaId)
    requires In.ServiceOk(j, v)
    ensures HeardIn(In.ServiceRun(j, v).s.calls, x) == HeardIn(v.s.calls, x)
    decreases In.Work(v.s.pages, v.s.status), |v.shuffled| - v.index
  {
    if In.Continues(j, v) {
      hide HeardIn;
      hide In.ServiceStep;
      In.StepDecreases(j, v);
      StepHears(j, v, x);
      ServiceRunHears(j, In.ServiceStep(j, v), x);
    }
  }

  /** Servicing hears nothing. */
  lemma ServiceHears(j: In.Job, s: In.Inbound, draw: nat -> nat, x: ParaId)
    requires In.EnvOk(j.env)
    ensures HeardIn(In.ServiceQueue(j, s, draw).s.calls, x) == HeardIn(s.calls, x)
  {
    hide HeardIn;
    if s.status != [] {
      hide In.ServiceRun;
      In.ShuffleIsPermutation(In.Upto(|s.status|), 0, draw);
      ServiceRunHears(j, In.Service(s, In.CreateShuffle(|s.status|, draw), 0, 0, 0), x);
    }
  }

  lemma HandleHears(j: In.Job, s: In.Inbound, batch: seq<In.Arrival>, draw: nat -> nat, x: ParaId)
    requires In.EnvOk(j.env)
    ensures HeardIn(In.HandleMessages(j, s, batch, draw).s.calls, x) == HeardIn(s.calls, x) + Spelled(PagesIn(batch, x))
  {
    hide HeardIn;
    hide In.ServiceQueue;
    ReceiveAllHears(j.cfg, s, batch, x);
    var s' := In.ReceiveAll(j.cfg, s, batch);
    ServiceHears(j, s'.(status := StableSort(s'.status, In.BySender())), draw, x);
  }

  lemma EventHears(p: Pallet, e: Event, x: ParaId)
    requires Allowed(p, e)
    ensures HeardIn(Next(p, e).inbound.calls, x) == HeardIn(p.inbound.calls, x) + Spelled(PagesOfEvent(e, x))
  {
    hide HeardIn;
    hide In.HandleMessages;
    hide In.ServiceQueue;
    hide Replays;
    var before := HeardIn(p.inbound.calls, x);
    assert before + [] == before;
    match e
    case HandleMessages(job, batch, draw, ops) => HandleHears(job, p.inbound, batch, draw, x);
    case OnIdle(job, draw, ops) => ServiceHears(job, p.inbound, draw, x);
    case _ =>
  }

  lemma {:induction false} RunHears(p: Pallet, events: seq<Event>, x: ParaId)
    requires AllowedRun(p, events)
    ensures HeardIn(Final(p, events).inbound.calls, x) == HeardIn(p.inbound.calls, x) + Spelled(Delivered(events, x))
    decreases |events|
  {
    hide HeardIn;
    hide Next;
    hide Allowed;
    if events == [] {
      assert HeardIn(p.inbound.calls, x) + [] == HeardIn(p.inbound.calls, x);
    } else {
      var e, rest := events[0], events[1..];
      EventHears(p, e, x);
      RunHears(Next(p, e), rest, x);
      SpelledAppend(PagesOfEvent(e, x), Delivered(rest, x));
      Associative(HeardIn(p.inbound.calls, x), Spelled(PagesOfEvent(e, x)), Spelled(Delivered(rest, x)));
    }
  }

  /** From genesis, the signals heard from a peer are exactly those spelled by the pages it delivered. */
  lemma HeardIsDelivered(events: seq<Event>, x: ParaId)
    requires AllowedRun(Start, events)
    ensures SignalsWith(Final(Start, events).outbound.heard, x) == Spelled(Delivered(events, x))
  {
    hide InOrder;
    hide Final;
    hide AllowedRun;
    StartInOrder(x);
    EveryRunInOrder(Start, events, x);
    InOrderLinked(Final(Start, events), x);
    RunHears(Start, events, x);
    HearsNothing();
    NoSignals(x);
    assert [] + Spelled(Delivered(events, x)) == Spelled(Delivered(events, x));
  }

  lemma InOrderLinked(p: Pallet, x: ParaId)
    requires InOrder(p, x)
    ensures Linked(p) && Valid(p.outbound.s) && SignalsConserved(p.outbound, x) && Mirrors(p.outbound, x)
  {
  }

  /**
   Exactly when a peer makes an assertion fire: over every run from genesis, the assertions of suspend
   and resume hold for `x` if and only if the signals on the pages delivered from `x` alternate.
   */
  lemma NoAlarmIffDeliveredAlternate(events: seq<Event>, x: ParaId)
    requires AllowedRun(Start, events)
    ensures var t := Final(Start, events).outbound; var heard := Spelled(Delivered(events, x));
            && (x !in t.alarms <==> Alternates(heard))
            && (Of(t.s.statuses, x).state.Suspended? <==> heard != [] && heard[|heard| - 1].Suspend?)
  {
    hide InOrder;
    hide Final;
    hide AllowedRun;
    hide SignalsWith;
    HeardIsDelivered(events, x);
    StartInOrder(x);
    EveryRunInOrder(Start, events, x);
    InOrderLinked(Final(Start, events), x);
  }

  // ------------------------------------------------------------------ what was emitted is what was issued

  /** The pages of signals that left for `y`, in order. */
  function EmittedSignals(gone: seq<Gone>, y: ParaId): seq<Bytes> {
    PageList(Filter(Filter(Filter(gone, IsEmitted()), IsFor(y)), IsSignal()))
  }

  ghost predicate NoSignalLost(t: Trace, y: ParaId) {
    forall g :: g in t.gone && g.recipient == y && g.signal ==> g.fate.Emitted?
  }

  lemma {:induction false} AllSignalsEmitted(gone: seq<Gone>, y: ParaId)
    requires forall g :: g in gone && g.recipient == y && g.signal ==> g.fate.Emitted?
    ensures Filter(Filter(Filter(gone, IsEmitted()), IsFor(y)), IsSignal()) == Filter(Filter(gone, IsFor(y)), IsSignal())
  {
    if gone != [] {
      AllSignalsEmitted(gone[1..], y);
      assert gone[0] in gone;
    }
  }

  function Payloads(pages: seq<Bytes>): Bytes {
    if pages == [] then [] else Payload(pages[0]) + Payloads(pages[1..])
  }

  lemma {:induction false} PayloadsOfGone(gone: seq<Gone>)
    ensures Payloads(PageList(gone)) == SignalBytes(gone)
  {
    if gone != [] {
      PayloadsOfGone(gone[1..]);
      assert PageList(gone)[1..] == PageList(gone[1..]);
    }
  }

  lemma CutEncoding(p: Bytes, later: Bytes, rest: Bytes, sigs: seq<Signal>)
    requires p + later + rest == EncodeSignals(sigs)
    ensures |p| <= |sigs| && EncodeSignals(sigs[..|p|]) == p && EncodeSignals(sigs[|p|..]) == later + rest
  {
    hide EncodeSignals;
    Associative(p, later, rest);
    var n := |p|;
    assert |p + (later + rest)| == |sigs|;
    EncodeSignalsAppend(sigs[..n], sigs[n..]);
    assert sigs == sigs[..n] + sigs[n..];
    CutEqually(p, later + rest, EncodeSignals(sigs[..n]), EncodeSignals(sigs[n..]));
  }

  lemma CutEqually(a: Bytes, b: Bytes, c: Bytes, d: Bytes)
    requires a + b == c + d && |a| == |c|
    ensures a == c && b == d
  {
    assert (a + b)[..|a|] == a && (c + d)[..|c|] == c;
    assert (a + b)[|a|..] == b && (c + d)[|c|..] == d;
  }

  lemma JoinPrefix(tail: seq<Signal>, sigs: seq<Signal>, n: nat)
    requires n <= |sigs| && tail <= sigs[n..]
    ensures sigs[..n] + tail <= sigs
  {
    assert sigs == sigs[..n] + sigs[n..];
  }

  /** Pages cut out of an encoding at any places spell a prefix of it. */
  lemma {:induction false} CutPagesSpell(pages: seq<Bytes>, rest: Bytes, sigs: seq<Signal>)
    requires Payloads(pages) + rest == EncodeSignals(sigs)
    ensures Spelled(pages) <= sigs
  {
    if pages != [] {
      var p, later := Payload(pages[0]), pages[1..];
      var n := |p|;
      assert Payloads(pages) == p + Payloads(later);
      SpelledTurn(pages);
      hide Payloads;
      hide Spelled;
      hide Payload;
      CutEncoding(p, Payloads(later), rest, sigs);
      hide EncodeSignals;
      SignalsRoundTrip(sigs[..n]);
      CutPagesSpell(later, rest, sigs[n..]);
      JoinPrefix(Spelled(later), sigs, n);
    }
  }

  /** If no page of signals to `y` was lost, the pages emitted to it spell a prefix of the signals issued. */
  lemma EmittedSpellIssued(events: seq<Event>, y: ParaId)
    requires AllowedRun(Start, events) && NoSignalLost(Final(Start, events).outbound, y)
    ensures var t := Final(Start, events).outbound; Spelled(EmittedSignals(t.gone, y)) <= SignalsWith(t.issued, y)
  {
    hide InOrder;
    hide Final;
    hide AllowedRun;
    hide SignalsWith;
    hide Spelled;
    hide Filter;
    StartInOrder(y);
    EveryRunInOrder(Start, events, y);
    InOrderLinked(Final(Start, events), y);
    var t := Final(Start, events).outbound;
    AllSignalsEmitted(t.gone, y);
    PayloadsOfGone(Filter(Filter(t.gone, IsFor(y)), IsSignal()));
    CutPagesSpell(EmittedSignals(t.gone, y), Payload(SignalPage(t.s.signals, y)), SignalsWith(t.issued, y));
  }

  // ------------------------------------------------------------------ the handshake

  lemma PrefixAlternates(a: seq<Signal>, b: seq<Signal>)
    requires a <= b && Alternates(b)
    ensures Alternates(a)
  {
    forall i | 0 <= i < |a| ensures a[i] == if i % 2 == 0 then Suspend else Resume { assert a[i] == b[i]; }
  }

  lemma SpelledPrefix(a: seq<Bytes>, b: seq<Bytes>)
    requires a <= b
    ensures Spelled(a) <= Spelled(b)
  {
    assert b == a + b[|a|..];
    SpelledAppend(a, b[|a|..]);
  }

  /**
   The handshake of two chains. Chains `a` and `b` each make any run of their own, whatever arrives at `b`;
   `a` never misses a lookup of `b`; the relay chain has delivered to `b` some first of the pages of signals
   that `a` emitted to it, and none that `a` wanted to send was lost on the way out. Then no suspend or
   resume assertion has ever fired at `b` because of `a`, and `b` holds its channel to `a` suspended exactly
   if the last signal delivered says so.
   */
  lemma HandshakeNeverFails(a: ParaId, b: ParaId, eventsA: seq<Event>, eventsB: seq<Event>)
    requires AllowedRun(Start, eventsA) && AllowedRun(Start, eventsB)
    requires HitsRun(Start, eventsA, b) && NoSignalLost(Final(Start, eventsA).outbound, b)
    requires Delivered(eventsB, a) <= EmittedSignals(Final(Start, eventsA).outbound.gone, b)
    ensures var t := Final(Start, eventsB).outbound; var heard := Spelled(Delivered(eventsB, a));
            && a !in t.alarms
            && (Of(t.s.statuses, a).state.Suspended? <==> heard != [] && heard[|heard| - 1].Suspend?)
  {
    hide SignalsWith;
    hide Final;
    hide AllowedRun;
    hide Alternates;
    hide Spelled;
    hide Delivered;
    hide EmittedSignals;
    hide NoSignalLost;
    hide HitsRun;
    var ta := Final(Start, eventsA).outbound;
    IssuedSignalsAlternate(eventsA, b);
    EmittedSpellIssued(eventsA, b);
    SpelledPrefix(Delivered(eventsB, a), EmittedSignals(ta.gone, b));
    PrefixAlternates(Spelled(Delivered(eventsB, a)), SignalsWith(ta.issued, b));
    NoAlarmIffDeliveredAlternate(eventsB, a);
  }

  /** A lost page can make the assertion fire: if what arrives first is a Resume, it does. */
  lemma LostSuspendRaisesAlarm(events: seq<Event>, x: ParaId)
    requires AllowedRun(Start, events)
    requires var heard := Spelled(Delivered(events, x)); heard != [] && heard[0].Resume?
    ensures x in Final(Start, events).outbound.alarms
  {
    hide Final;
    hide AllowedRun;
    NoAlarmIffDeliveredAlternate(events, x);
    assert !Alternates(Spelled(Delivered(events, x)));
  }

  /**
   Across two chains, data: a page packed by the sender is recognised by its format at the receiver,
   and however often the receiver is interrupted it decides exactly the fragments packed, in order.
   */
  lemma PackedPageIsParsedBack(env: In.Env, g: Group, x: ParaId, at: nat, p: In.Parse, grants: seq<InP.Grant>)
    requires In.EnvOk(env) && InP.AllFragments(env, g.frags)
    requires p.rest == PageOf(g)[1..] && |grants| >= |g.frags|
    ensures DecodeFormat(PageOf(g)) == Some(g.format)
    ensures InP.DecidesPrefix(p, InP.Resumed(env, x, at, p, grants), g.frags, |g.frags|)
  {
    assert PageOf(g)[1..] == Concat(g.frags);
    var k := InP.ResumedParsingUndoesAggregation(env, x, at, p, grants, g.frags);
  }

  // ------------------------------------------------------------------ chains that have suspended each other

  /** Nothing is heard from `r`. */
  ghost predicate SilentFrom(ops: seq<Op>, r: ParaId) { forall i :: 0 <= i < |ops| && ops[i].Heard? ==> ops[i].note.peer != r }

  ghost predicate Quiet(t: Trace, t': Trace, r: ParaId) {
    && Of(t'.s.statuses, r).state.Suspended?
    && Filter(t'.gone, IsFor(r)) == Filter(t.gone, IsFor(r))
  }

  lemma StepIsQuiet(t: Trace, op: Op, r: ParaId)
    requires Valid(t.s) && Of(t.s.statuses, r).state.Suspended? && (op.Heard? ==> op.note.peer != r)
    ensures Quiet(t, Step(t, op), r)
  {
    hide Filter;
    hide Take;
    hide Valid;
    var t' := Step(t, op);
    assert Of(t.s.statuses, r) == At(t.s, r).d && Of(t'.s.statuses, r) == At(t'.s, r).d;
    match op {
      case Send(f, max) =>
        hide Step;
        ValidUnique(t.s);
        SendEffect(t, f, max, r);
        if max.Some? { SendLocalRecipient(At(t.s, r), f.format, f.data, max.value); }
      case Signalled(n) =>
        hide Step;
        ValidUnique(t.s);
        SignalEffect(t, n, r);
      case Heard(n) =>
        hide Step;
        HeardEffect(t, n, r);
      case TakeBatch(info, maximum) =>
        if Take(t.s, info, maximum).Taken? {
          TakeAt(t.s, info, maximum, r);
          FilterAppend(t.gone, Take(t.s, info, maximum).gone, IsFor(r));
          assert Filter(t.gone, IsFor(r)) + [] == Filter(t.gone, IsFor(r));
        }
    }
  }

  /**
   While nothing is heard from `r`, a suspended channel to `r` stays suspended and nothing leaves on it,
   neither data nor signals, whatever else happens.
   */
  lemma {:induction false} SuspendedStaysQuiet(t: Trace, ops: seq<Op>, r: ParaId)
    requires Valid(t.s) && SoundRun(t, ops) && SilentFrom(ops, r) && Of(t.s.statuses, r).state.Suspended?
    ensures Quiet(t, Run(t, ops), r)
    decreases |ops|
  {
    if ops != [] {
      hide Filter;
      hide Step;
      var t' := Step(t, ops[0]);
      StepIsQuiet(t, ops[0], r);
      StepKeepsValid(t, ops[0]);
      forall i | 0 <= i < |ops[1..]| && ops[1..][i].Heard? ensures ops[1..][i].note.peer != r { assert ops[1..][i] == ops[i + 1]; }
      SuspendedStaysQuiet(t', ops[1..], r);
    }
  }

  lemma {:induction false} NothingHeardIsSilent(ops: seq<Op>, r: ParaId)
    requires HeardIn(CallsOf(ops), r) == []
    ensures SilentFrom(ops, r)
    decreases |ops|
  {
    if ops != [] {
      var op, rest := ops[0], ops[1..];
      HeardInAppend(CallOf(op), CallsOf(rest), r);
      if op.Heard? { OneHeard(op.note, r); }
      hide HeardIn;
      NothingHeardIsSilent(rest, r);
      forall i | 0 <= i < |ops| && ops[i].Heard? ensures ops[i].note.peer != r {
        if i > 0 { assert ops[i] == rest[i - 1]; }
      }
    }
  }

  lemma OneHeard(n: Note, r: ParaId)
    ensures HeardIn([In.Hear(n)], r) == if n.peer == r then [n.signal] else []
  {
    HearsSnoc([], In.Hear(n));
    SignalsWithSnoc([], n, r);
    HearsNothing();
    NoSignals(r);
    assert [] + [In.Hear(n)] == [In.Hear(n)] && [] + [n] == [n] && [] + [n.signal] == [n.signal];
  }

  lemma ReplayIsQuiet(p: Pallet, inbound: In.Inbound, ops: seq<Op>, r: ParaId)
    requires Valid(p.outbound.s) && Replays(p, inbound, ops) && Of(p.outbound.s.statuses, r).state.Suspended?
    requires HeardIn(inbound.calls, r) == HeardIn(p.inbound.calls, r)
    ensures Quiet(p.outbound, Run(p.outbound, ops), r)
  {
    hide HeardIn;
    hide SoundRun;
    hide Valid;
    hide Quiet;
    HeardInAppend(p.inbound.calls, CallsOf(ops), r);
    assert |HeardIn(CallsOf(ops), r)| == 0;
    NothingHeardIsSilent(ops, r);
    SuspendedStaysQuiet(p.outbound, ops, r);
  }

  lemma EventIsQuiet(p: Pallet, e: Event, r: ParaId)
    requires InOrder(p, r) && Allowed(p, e) && PagesOfEvent(e, r) == [] && Of(p.outbound.s.statuses, r).state.Suspended?
    ensures Quiet(p.outbound, Next(p, e).outbound, r)
  {
    hide HeardIn;
    hide InOrder;
    hide In.HandleMessages;
    hide In.ServiceQueue;
    hide In.ServiceOverweight;
    hide Replays;
    hide Quiet;
    hide Step;
    InOrderLinked(p, r);
    EventHears(p, e, r);
    assert HeardIn(p.inbound.calls, r) + [] == HeardIn(p.inbound.calls, r);
    match e
    case SendMessage(f, max) => StepIsQuiet(p.outbound, Send(f, max), r);
    case HandleMessages(job, batch, draw, ops) => ReplayIsQuiet(p, In.HandleMessages(job, p.inbound, batch, draw).s, ops, r);
    case OnIdle(job, draw, ops) => ReplayIsQuiet(p, In.ServiceQueue(job, p.inbound, draw).s, ops, r);
    case ServiceOverweight(env, index, limit, ops) => ReplayIsQuiet(p, In.ServiceOverweight(env, p.inbound, index, limit).0, ops, r);
    case Collect(info, maximum) => StepIsQuiet(p.outbound, TakeBatch(info, maximum), r);
  }

  /** Two chains, and the pages of signals the relay chain has delivered so far, each way. */
  datatype Pair = Pair(a: Pallet, b: Pallet, toA: seq<Bytes>, toB: seq<Bytes>)

  datatype Move = AtA(event: Event) | AtB(event: Event)

  /** Names of the two chains. */
  datatype Names = Names(a: ParaId, b: ParaId)

  /** An event that happens at one chain and hears from the other only pages the other has emitted. */
  ghost predicate Possible(n: Names, w: Pair, m: Move) {
    match m
    case AtA(e) => Allowed(w.a, e) && w.toA + PagesOfEvent(e, n.b) <= EmittedSignals(w.b.outbound.gone, n.a)
    case AtB(e) => Allowed(w.b, e) && w.toB + PagesOfEvent(e, n.a) <= EmittedSignals(w.a.outbound.gone, n.b)
  }

  ghost function Moved(n: Names, w: Pair, m: Move): Pair
    requires Possible(n, w, m)
  {
    match m
    case AtA(e) => w.(a := Next(w.a, e), toA := w.toA + PagesOfEvent(e, n.b))
    case AtB(e) => w.(b := Next(w.b, e), toB := w.toB + PagesOfEvent(e, n.a))
  }

  ghost predicate PossibleRun(n: Names, w: Pair, moves: seq<Move>)
    decreases |moves|
  {
    moves == [] || (Possible(n, w, moves[0]) && PossibleRun(n, Moved(n, w, moves[0]), moves[1..]))
  }

  ghost function MovedAll(n: Names, w: Pair, moves: seq<Move>): Pair
    requires PossibleRun(n, w, moves)
    decreases |moves|
  {
    if moves == [] then w else MovedAll(n, Moved(n, w, moves[0]), moves[1..])
  }

  /** Each chain holds its channel to the other suspended, and no page of signals is under way. */
  ghost predicate Stuck(n: Names, w: Pair) {
    && InOrder(w.a, n.b) && InOrder(w.b, n.a)
    && Of(w.a.outbound.s.statuses, n.b).state.Suspended? && Of(w.b.outbound.s.statuses, n.a).state.Suspended?
    && w.toA == EmittedSignals(w.b.outbound.gone, n.a) && w.toB == EmittedSignals(w.a.outbound.gone, n.b)
  }

  /** The emitted signals depend only on what left for that peer. */
  lemma SameGoneSameSignals(a: seq<Gone>, b: seq<Gone>, r: ParaId)
    requires Filter(a, IsFor(r)) == Filter(b, IsFor(r))
    ensures EmittedSignals(a, r) == EmittedSignals(b, r)
  {
    hide Filter;
    FiltersCommute(a, IsEmitted(), IsFor(r));
    FiltersCommute(b, IsEmitted(), IsFor(r));
  }

  lemma NothingUnderWay(done: seq<Bytes>, more: seq<Bytes>)
    requires done + more <= done
    ensures more == []
  {
    assert |done + more| <= |done|;
  }

  lemma StuckStays(n: Names, w: Pair, m: Move)
    requires Stuck(n, w) && Possible(n, w, m)
    ensures var w' := Moved(n, w, m);
            && Stuck(n, w')
            && Filter(w'.a.outbound.gone, IsFor(n.b)) == Filter(w.a.outbound.gone, IsFor(n.b))
            && Filter(w'.b.outbound.gone, IsFor(n.a)) == Filter(w.b.outbound.gone, IsFor(n.a))
  {
    hide InOrder;
    hide EmittedSignals;
    hide Filter;
    hide Next;
    hide Allowed;
    hide PagesOfEvent;
    match m {
      case AtA(e) =>
        NothingUnderWay(w.toA, PagesOfEvent(e, n.b));
        NextInOrder(w.a, e, n.b);
        EventIsQuiet(w.a, e, n.b);
        SameGoneSameSignals(w.a.outbound.gone, Next(w.a, e).outbound.gone, n.b);
        assert w.toA + [] == w.toA;
      case AtB(e) =>
        NothingUnderWay(w.toB, PagesOfEvent(e, n.a));
        NextInOrder(w.b, e, n.a);
        EventIsQuiet(w.b, e, n.a);
        SameGoneSameSignals(w.b.outbound.gone, Next(w.b, e).outbound.gone, n.a);
        assert w.toB + [] == w.toB;
    }
  }

  /**
   Two chains that have suspended each other, with no page of signals under way, stay so for ever: over
   every interleaving of their runs nothing leaves either chain for the other any more, and a Resume that
   one of them issues waits on its suspended channel.
   */
  lemma {:induction false} MutualSuspensionIsForEver(n: Names, w: Pair, moves: seq<Move>)
    requires Stuck(n, w) && PossibleRun(n, w, moves)
    ensures var w' := MovedAll(n, w, moves);
            && Stuck(n, w')
            && Filter(w'.a.outbound.gone, IsFor(n.b)) == Filter(w.a.outbound.gone, IsFor(n.b))
            && Filter(w'.b.outbound.gone, IsFor(n.a)) == Filter(w.b.outbound.gone, IsFor(n.a))
    decreases |moves|
  {
    hide Stuck;
    hide Filter;
    hide Possible;
    hide Moved;
    if moves != [] {
      StuckStays(n, w, moves[0]);
      MutualSuspensionIsForEver(n, Moved(n, w, moves[0]), moves[1..]);
    }
  }
}
