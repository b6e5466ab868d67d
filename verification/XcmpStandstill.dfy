/**
 How two chains come to suspend each other for ever: each floods the other before it hears of the other's
 Suspend. A concrete run of both from genesis, so that the standstill is not an empty possibility.
 */
module XcmpStandstill {
  import opened Common
  import opened XcmpFormat
  import opened XcmpOutbound
  import opened XcmpOutboundProofs
  import opened XcmpRuns
  import opened XcmpPeers
  import In = XcmpInbound

  /** A runtime that decodes nothing and has no weight to service anything in this block. */
  function IdleJob(): In.Job {
    In.Job(In.Env((b: Bytes) => None, (tick: nat, x: ParaId, at: nat, msg: Bytes, limit: nat) => In.Invalid),
           In.Config(1, 9, 0, 1, 1, 1), 0, false, (x: ParaId) => false)
  }

  /** Two data pages arrive from `r`, and the second makes the chain suspend `r`. */
  function Flooded(r: ParaId): Event {
    HandleMessages(IdleJob(), [In.Arrival(r, 1, [0]), In.Arrival(r, 2, [0])], (n: nat) => 0, [Signalled(Note(r, Suspend))])
  }

  /** The pages for the other chain are collected; the channel has plenty of room. */
  function Collected(): Event { Collect((r: ParaId) => Ready(100, 100), 1) }

  /** The Suspend of `r` is delivered. */
  function Told(r: ParaId): Event {
    HandleMessages(IdleJob(), [In.Arrival(r, 3, [2, 0])], (n: nat) => 0, [Heard(Note(r, Suspend))])
  }

  // ------------------------------------------------------------------ the inbound half

  lemma IdleService(s: In.Inbound, draw: nat -> nat)
    requires |s.status| <= 1 && forall d :: d in s.status ==> d.meta != []
    ensures In.EnvOk(IdleJob().env)
    ensures In.ServiceQueue(IdleJob(), s, draw).s == s
  {
    if s.status != [] {
      In.ShuffleIsPermutation(In.Upto(|s.status|), 0, draw);
      var v := In.Service(s, In.CreateShuffle(|s.status|, draw), 0, 0, 0);
      In.RunEnd(IdleJob(), v);
      FilterAll(s.status, In.HasPages());
      assert s.(status := s.status) == s;
    }
  }

  lemma SortOne(st: seq<In.InDetails>)
    requires |st| <= 1
    ensures StableSort(st, In.BySender()) == st
  {
    if |st| == 1 {
      assert st[..0] == [] && StableSort(st[..0], In.BySender()) == [];
      assert st == [] + [st[0]];
    }
  }

  lemma IdleHandling(s: In.Inbound, batch: seq<In.Arrival>, draw: nat -> nat)
    requires var s' := In.ReceiveAll(IdleJob().cfg, s, batch); |s'.status| <= 1 && forall d :: d in s'.status ==> d.meta != []
    ensures In.EnvOk(IdleJob().env)
    ensures In.HandleMessages(IdleJob(), s, batch, draw).s == In.ReceiveAll(IdleJob().cfg, s, batch)
  {
    hide In.ServiceQueue;
    var s' := In.ReceiveAll(IdleJob().cfg, s, batch);
    IdleService(s', draw);
    SortOne(s'.status);
    assert s'.(status := s'.status) == s';
  }

  function FloodedInbound(r: ParaId): In.Inbound {
    In.Empty.(status := [In.InDetails(r, In.Suspended, [In.Meta(1, ConcatenatedVersionedXcm), In.Meta(2, ConcatenatedVersionedXcm)])],
              pages := map[r := map[1 := [], 2 := []]], calls := [In.Issue(Note(r, Suspend))],
              accepted := [In.Arrival(r, 1, [0]), In.Arrival(r, 2, [0])])
  }

  function AfterOne(r: ParaId): In.Inbound {
    In.Empty.(status := [In.InDetails(r, In.Ok, [In.Meta(1, ConcatenatedVersionedXcm)])],
              pages := map[r := map[1 := []]], accepted := [In.Arrival(r, 1, [0])])
  }

  lemma FirstArrives(r: ParaId)
    ensures In.Receive(IdleJob().cfg, In.Empty, In.Arrival(r, 1, [0])) == AfterOne(r)
  {
    var a := In.Arrival(r, 1, [0]);
    var s' := In.Receive(IdleJob().cfg, In.Empty, a);
    assert a.data[1..] == [];
    assert Search(In.Empty.status, In.BySenderId(), r, 0, 0) == None;
    assert s'.status == AfterOne(r).status;
    var inner := Inner(In.Empty.pages, r)[1 := []];
    assert 1 in inner && 1 !in Inner(In.Empty.pages, r);
    assert s'.pages == In.Empty.pages[r := inner] == AfterOne(r).pages;
    assert s'.accepted == AfterOne(r).accepted;
  }

  lemma SecondArrives(r: ParaId)
    ensures In.Receive(IdleJob().cfg, AfterOne(r), In.Arrival(r, 2, [0])) == FloodedInbound(r)
  {
    var s, a, f := AfterOne(r), In.Arrival(r, 2, [0]), ConcatenatedVersionedXcm;
    var payload: Bytes := [0][1..];
    assert payload == [];
    assert Search(s.status, In.BySenderId(), r, 0, 1) == Some(0);
    assert s.status[0].meta + [In.Meta(2, f)] == [In.Meta(1, f), In.Meta(2, f)];
    assert Inner(s.pages, r)[2 := payload] == map[1 := [], 2 := []];
  }

  lemma FloodArrives(r: ParaId)
    ensures In.ReceiveAll(IdleJob().cfg, In.Empty, Flooded(r).batch) == FloodedInbound(r)
  {
    hide In.Receive;
    FirstArrives(r);
    SecondArrives(r);
    var cfg, batch := IdleJob().cfg, Flooded(r).batch;
    assert batch[1..] == [In.Arrival(r, 2, [0])] && batch[1..][1..] == [];
    assert In.ReceiveAll(cfg, AfterOne(r), batch[1..]) == In.ReceiveAll(cfg, FloodedInbound(r), []);
  }

  lemma TellArrives(r: ParaId)
    ensures var s := FloodedInbound(r);
            In.ReceiveAll(IdleJob().cfg, s, Told(r).batch) == s.(calls := s.calls + [In.Hear(Note(r, Suspend))])
  {
    var s, a, cfg := FloodedInbound(r), In.Arrival(r, 3, [2, 0]), IdleJob().cfg;
    var batch := Told(r).batch;
    assert batch[1..] == [];
    var payload: Bytes := a.data[1..];
    assert payload == [0] && payload[1..] == [];
    assert DecodeSignals(payload) == [Suspend];
    assert In.HearAll(r, [Suspend]) == [In.Hear(Note(r, Suspend))];
  }

  // ------------------------------------------------------------------ the outbound half

  const PageOfSuspend: Bytes := [2, 0]

  lemma SignalIsQueued(r: ParaId)
    ensures var t := Step(Genesis, Signalled(Note(r, Suspend)));
            && Valid(t.s) && t.gone == [] && |t.s.statuses| == 1 && t.s.statuses[0].recipient == r
            && At(t.s, r) == Local(Details(r, Ok, true, 0, 0), map[], PageOfSuspend)
  {
    GenesisRefines(r);
    StepKeepsValid(Genesis, Signalled(Note(r, Suspend)));
    SignalEffect(Genesis, Note(r, Suspend), r);
    assert [2] + [0] == PageOfSuspend;
  }

  lemma SignalLeaves(t: Trace, r: ParaId)
    requires Valid(t.s) && t.gone == [] && |t.s.statuses| == 1 && t.s.statuses[0].recipient == r
    requires At(t.s, r) == Local(Details(r, Ok, true, 0, 0), map[], PageOfSuspend)
    ensures var t' := Step(t, TakeBatch(Collected().info, 1));
            Filter(t'.gone, IsFor(r)) == [Gone(r, true, PageOfSuspend, Emitted)]
  {
    hide Take;
    var info := Collected().info;
    forall d | d in t.s.statuses ensures !WillVanish(At(t.s, d.recipient), info(d.recipient)) {}
    TakeSucceeds(t.s, info, 1);
    var result := Take(t.s, info, 1);
    assert Position(t.s.statuses, r) == 0 && t.s.statuses[..0] == [];
    assert Emitters(t.s, t.s.statuses[..0], info) == 0;
    assert WillEmit(At(t.s, r), info(r));
    SignalDispatchedIff(t.s, info, 1, r);
    var g :| g in result.batch && g.recipient == r && g.signal;
    BatchIsGone(t.s, info, 1, g);
    FilterMember(result.gone, IsFor(r), g);
    TakeAt(t.s, info, 1, r);
    assert [] + result.gone == result.gone;
  }

  lemma OnePage(gone: seq<Gone>, r: ParaId)
    requires Filter(gone, IsFor(r)) == [Gone(r, true, PageOfSuspend, Emitted)]
    ensures EmittedSignals(gone, r) == [PageOfSuspend]
  {
    hide Filter;
    var g := Gone(r, true, PageOfSuspend, Emitted);
    FiltersCommute(gone, IsEmitted(), IsFor(r));
    FilterAll([g], IsEmitted());
    FilterAll([g], IsSignal());
    assert PageList([g]) == [PageOfSuspend];
  }

  // ------------------------------------------------------------------ one chain

  lemma OneOp(t: Trace, op: Op)
    requires !op.Send?
    ensures SoundRun(t, [op]) && Run(t, [op]) == Step(t, op) && CallsOf([op]) == CallOf(op)
  {
    hide Step;
    assert [op][1..] == [];
    assert CallOf(op) + [] == CallOf(op);
  }

  lemma FloodedIsAllowed(r: ParaId)
    ensures Allowed(Start, Flooded(r))
    ensures Next(Start, Flooded(r)) == Pallet(FloodedInbound(r), Step(Genesis, Signalled(Note(r, Suspend))))
  {
    hide In.HandleMessages;
    hide Step;
    hide In.ReceiveAll;
    hide In.EnvOk;
    hide SoundRun;
    hide Run;
    hide CallsOf;
    FloodArrives(r);
    var e := Flooded(r);
    IdleHandling(In.Empty, e.batch, e.draw);
    OneOp(Genesis, e.ops[0]);
    assert e.ops == [e.ops[0]];
    assert [] + [In.Issue(Note(r, Suspend))] == FloodedInbound(r).calls;
  }

  lemma ToldIsAllowed(r: ParaId, t: Trace)
    ensures var p := Pallet(FloodedInbound(r), t);
            Allowed(p, Told(r)) && Next(p, Told(r)).outbound == Step(t, Heard(Note(r, Suspend)))
  {
    hide In.HandleMessages;
    hide Step;
    hide In.ReceiveAll;
    hide In.EnvOk;
    hide SoundRun;
    hide Run;
    hide CallsOf;
    TellArrives(r);
    var e := Told(r);
    IdleHandling(FloodedInbound(r), e.batch, e.draw);
    OneOp(t, e.ops[0]);
    assert e.ops == [e.ops[0]];
  }

  /** Flooded and collected: one page with a Suspend has left. */
  lemma HalfWay(r: ParaId)
    ensures Allowed(Start, Flooded(r)) && Allowed(Next(Start, Flooded(r)), Collected())
    ensures var p := Next(Next(Start, Flooded(r)), Collected());
            && EmittedSignals(p.outbound.gone, r) == [PageOfSuspend]
            && p.inbound == FloodedInbound(r) && InOrder(p, r)
  {
    hide Step;
    hide EmittedSignals;
    hide Filter;
    hide InOrder;
    hide In.HandleMessages;
    hide Replays;
    FloodedIsAllowed(r);
    var p1 := Next(Start, Flooded(r));
    SignalIsQueued(r);
    SignalLeaves(p1.outbound, r);
    OnePage(Next(p1, Collected()).outbound.gone, r);
    StartInOrder(r);
    NextInOrder(Start, Flooded(r), r);
    NextInOrder(p1, Collected(), r);
  }

  lemma TellingSuspends(p: Pallet, r: ParaId)
    requires InOrder(p, r) && p.inbound == FloodedInbound(r)
    ensures Allowed(p, Told(r))
    ensures var p' := Next(p, Told(r));
            && EmittedSignals(p'.outbound.gone, r) == EmittedSignals(p.outbound.gone, r)
            && Of(p'.outbound.s.statuses, r).state.Suspended? && InOrder(p', r)
  {
    hide Step;
    hide EmittedSignals;
    hide InOrder;
    hide Next;
    hide Allowed;
    InOrderLinked(p, r);
    ToldIsAllowed(r, p.outbound);
    assert p == Pallet(FloodedInbound(r), p.outbound);
    HeardEffect(p.outbound, Note(r, Suspend), r);
    var p' := Next(p, Told(r));
    assert Of(p'.outbound.s.statuses, r) == At(p'.outbound.s, r).d;
    NextInOrder(p, Told(r), r);
  }

  /** One chain floods, collects and is told: it has emitted one Suspend and holds its channel suspended. */
  lemma OneChain(r: ParaId)
    ensures Allowed(Start, Flooded(r))
    ensures var p1 := Next(Start, Flooded(r));
            && Allowed(p1, Collected())
            && var p2 := Next(p1, Collected());
               && EmittedSignals(p2.outbound.gone, r) == [PageOfSuspend]
               && Allowed(p2, Told(r))
               && var p3 := Next(p2, Told(r));
                  && EmittedSignals(p3.outbound.gone, r) == [PageOfSuspend]
                  && Of(p3.outbound.s.statuses, r).state.Suspended?
                  && InOrder(p3, r)
  {
    hide EmittedSignals;
    hide InOrder;
    hide Next;
    hide Allowed;
    HalfWay(r);
    TellingSuspends(Next(Next(Start, Flooded(r)), Collected()), r);
  }

  // ------------------------------------------------------------------ two chains

  const Beginning := Pair(Start, Start, [], [])

  function Moves(n: Names): seq<Move> {
    [AtA(Flooded(n.b)), AtA(Collected()), AtB(Flooded(n.a)), AtB(Collected()), AtA(Told(n.b)), AtB(Told(n.a))]
  }

  lemma TellIsDelivered(r: ParaId)
    ensures PagesOfEvent(Told(r), r) == [PageOfSuspend] && PagesOfEvent(Flooded(r), r) == []
  {
    var told, flood := Told(r).batch, Flooded(r).batch;
    assert told[1..] == [] && flood[1..][1..] == [];
    assert PagesIn(told, r) == [PageOfSuspend] + [];
    assert PagesIn(flood[1..], r) == [];
  }

  /**
   Two chains to which two pages of data arrive from each other reach the standstill from genesis: each
   suspends the other, both Suspends cross, and from then on neither can say anything to the other. The
   pages of signals are the ones the chains emit; the pages of data are taken as they come.
   */
  lemma StandstillIsReached(n: Names)
    ensures PossibleRun(n, Beginning, Moves(n))
    ensures Stuck(n, MovedAll(n, Beginning, Moves(n)))
  {
    hide Allowed;
    hide Next;
    hide InOrder;
    hide EmittedSignals;
    hide PagesOfEvent;
    OneChain(n.b);
    OneChain(n.a);
    TellIsDelivered(n.b);
    TellIsDelivered(n.a);
    NothingCollected(n.a);
    NothingCollected(n.b);
    var ms := Moves(n);
    var a1 := Next(Start, Flooded(n.b));
    var a2 := Next(a1, Collected());
    var a3 := Next(a2, Told(n.b));
    var b1 := Next(Start, Flooded(n.a));
    var b2 := Next(b1, Collected());
    var b3 := Next(b2, Told(n.a));
    var none: seq<Bytes> := [];
    assert none + none == none && none + [PageOfSuspend] == [PageOfSuspend];
    var w1, w2, w3 := Pair(a1, Start, [], []), Pair(a2, Start, [], []), Pair(a2, b1, [], []);
    var w4, w5, w6 := Pair(a2, b2, [], []), Pair(a3, b2, [PageOfSuspend], []), Pair(a3, b3, [PageOfSuspend], [PageOfSuspend]);
    LastMove(n, w5, ms[5], w6);
    OneMove(n, w4, ms[4], w5, ms[5..]);
    OneMove(n, w3, ms[3], w4, ms[4..]);
    OneMove(n, w2, ms[2], w3, ms[3..]);
    OneMove(n, w1, ms[1], w2, ms[2..]);
    OneMove(n, Beginning, ms[0], w1, ms[1..]);
    assert ms[0..] == ms;
  }

  lemma NothingCollected(r: ParaId)
    ensures PagesOfEvent(Collected(), r) == []
  {
  }

  lemma OneMove(n: Names, w: Pair, m: Move, w': Pair, rest: seq<Move>)
    requires Possible(n, w, m) && Moved(n, w, m) == w' && PossibleRun(n, w', rest)
    ensures PossibleRun(n, w, [m] + rest) && MovedAll(n, w, [m] + rest) == MovedAll(n, w', rest)
  {
    hide Possible;
    hide Moved;
    assert ([m] + rest)[1..] == rest;
  }

  lemma LastMove(n: Names, w: Pair, m: Move, w': Pair)
    requires Possible(n, w, m) && Moved(n, w, m) == w'
    ensures PossibleRun(n, w, [m]) && MovedAll(n, w, [m]) == w'
  {
    hide Possible;
    hide Moved;
    assert [m][1..] == [];
  }
}
