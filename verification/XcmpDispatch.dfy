/**
 What a batch does to the order of the channels, and what becomes of a signal that has just been issued.
 */
module XcmpDispatch {
  import opened Common
  import opened XcmpFormat
  import opened XcmpOutbound
  import opened XcmpOutboundProofs

  // ------------------------------------------------------------------ which channels stay, and where

  /** Whether the channel of `l` keeps its status once the batch loop has reached it. */
  predicate StaysWhenReached(l: Local, cs: ChannelStatus) { if WillEmit(l, cs) then MoreThanNext(l) else !WillVanish(l, cs) }

  /** The recipients in `todo` that keep their status, in order, if the batch has `room` places left. */
  function Stayers(s: Outbound, todo: seq<Details>, info: ChannelInfo, room: nat): seq<ParaId> {
    if todo == [] then []
    else
      var r := todo[0].recipient;
      var l, cs := At(s, r), info(r);
      if room == 0 then [r] + Stayers(s, todo[1..], info, 0)
      else (if StaysWhenReached(l, cs) then [r] else []) + Stayers(s, todo[1..], info, if WillEmit(l, cs) then room - 1 else room)
  }

  function Recipients(st: seq<Details>): (q: seq<ParaId>)
    ensures |q| == |st| && forall i :: 0 <= i < |q| ==> q[i] == st[i].recipient
  {
    seq(|st|, i requires 0 <= i < |st| => st[i].recipient)
  }

  lemma {:induction false} UnreachedStay(s: Outbound, todo: seq<Details>, info: ChannelInfo)
    ensures Stayers(s, todo, info, 0) == Recipients(todo)
  {
    if todo != [] {
      UnreachedStay(s, todo[1..], info);
      assert Recipients(todo) == [todo[0].recipient] + Recipients(todo[1..]);
    }
  }

  lemma TurnStays(s: Outbound, todo: seq<Details>, pages: DoubleMap, signals: map<ParaId, Bytes>, info: ChannelInfo)
    requires todo != [] && Untouched(s, todo, pages, signals)
    ensures var r := todo[0].recipient; var h := TakeHead(todo[0], pages, signals, info(r));
            Recipients(Filter(h.statuses, NotIdle())) == if StaysWhenReached(At(s, r), info(r)) then [r] else []
  {
    hide LocalValid;
    hide Visit;
    hide Filter;
    var d, r := todo[0], todo[0].recipient;
    assert d in todo && LocalValid(At(s, r)) && At(s, r) == Local(d, Inner(pages, r), SignalPage(signals, r));
    VisitBalance(At(s, r), info(r));
    var h := TakeHead(d, pages, signals, info(r));
    assert h.statuses == [h.statuses[0]];
    FilterOne(h.statuses[0], NotIdle());
  }

  lemma NobodyReached(s: Outbound, todo: seq<Details>, pages: DoubleMap, signals: map<ParaId, Bytes>, info: ChannelInfo, room: nat)
    requires Untouched(s, todo, pages, signals) && (todo == [] || room == 0)
    ensures Recipients(Filter(TakeLoop(todo, pages, signals, info, room).statuses, NotIdle())) == Stayers(s, todo, info, room)
  {
    hide Filter;
    hide LocalValid;
    FilterAll(todo, NotIdle());
    UnreachedStay(s, todo, info);
  }

  lemma StayersStep(s: Outbound, todo: seq<Details>, info: ChannelInfo, room: nat)
    requires todo != [] && room > 0
    ensures var r := todo[0].recipient;
            Stayers(s, todo, info, room) ==
            (if StaysWhenReached(At(s, r), info(r)) then [r] else []) +
            Stayers(s, todo[1..], info, if WillEmit(At(s, r), info(r)) then room - 1 else room)
  {
    hide WillEmit;
    hide StaysWhenReached;
  }

  /** Pruning keeps exactly the stayers, in order. */
  lemma {:induction false} LoopStays(s: Outbound, todo: seq<Details>, pages: DoubleMap, signals: map<ParaId, Bytes>, info: ChannelInfo, room: nat)
    requires Untouched(s, todo, pages, signals)
    ensures Recipients(Filter(TakeLoop(todo, pages, signals, info, room).statuses, NotIdle())) == Stayers(s, todo, info, room)
  {
    hide Untouched;
    hide Filter;
    hide TakeHead;
    hide TakeLoop;
    hide Stayers;
    hide StaysWhenReached;
    hide WillEmit;
    if todo == [] || room == 0 {
      NobodyReached(s, todo, pages, signals, info, room);
    } else {
      var r := todo[0].recipient;
      var h := TakeHead(todo[0], pages, signals, info(r));
      var room' := if Emits(h.gone) then room - 1 else room;
      var rest := TakeLoop(todo[1..], h.pages, h.signals, info, room');
      TurnEmits(s, todo, pages, signals, info);
      TurnStays(s, todo, pages, signals, info);
      TakeLoopTurn(todo, pages, signals, info, room);
      StayersStep(s, todo, info, room);
      LoopStays(s, todo[1..], h.pages, h.signals, info, room');
      FilterAppend(h.statuses, rest.statuses, NotIdle());
      var a, b := Filter(h.statuses, NotIdle()), Filter(rest.statuses, NotIdle());
      assert Recipients(a + b) == Recipients(a) + Recipients(b);
    }
  }

  /** The order after a batch: the stayers, rotated by as many as emitted and stay beyond those that vanish. */
  lemma BatchRotates(s: Outbound, info: ChannelInfo, maximum: nat)
    requires Valid(s) && Take(s, info, maximum).Taken?
    ensures var room := Min(|s.statuses|, maximum); var all, n := Stayers(s, s.statuses, info, room), Ledger(s, s.statuses, info, room);
            0 <= n <= |all| && Recipients(Take(s, info, maximum).s.statuses) == all[n..] + all[..n]
  {
    hide Filter;
    hide LocalValid;
    hide TakeLoop;
    hide Stayers;
    hide Ledger;
    var room := Min(|s.statuses|, maximum);
    AllUntouched(s);
    LoopStays(s, s.statuses, s.pages, s.signals, info, room);
    LoopBalance(s, s.statuses, s.pages, s.signals, info, room);
    var t := TakeLoop(s.statuses, s.pages, s.signals, info, room);
    var kept := Filter(t.statuses, NotIdle());
    StableSortSorted(Filter(t.gone, IsEmitted()), ByRecipient());
    var n := Ledger(s, s.statuses, info, room);
    assert Take(s, info, maximum).s.statuses == kept[n..] + kept[..n];
    assert Recipients(kept[n..] + kept[..n]) == Recipients(kept)[n..] + Recipients(kept)[..n];
  }

  /** The channel at place `k` of the list keeps its status: the batch is full before it, or it stays when reached. */
  predicate StaysAt(s: Outbound, info: ChannelInfo, room: nat, k: nat)
    requires k < |s.statuses|
  {
    var r := s.statuses[k].recipient;
    Emitters(s, s.statuses[..k], info) >= room || StaysWhenReached(At(s, r), info(r))
  }

  lemma StayersTurn(s: Outbound, d: Details, rest: seq<Details>, info: ChannelInfo, room: nat)
    ensures Stayers(s, [d] + rest, info, room) == Stayers(s, [d], info, room) + Stayers(s, rest, info, SatSub(room, Emitters(s, [d], info)))
  {
    assert ([d] + rest)[1..] == rest && [d][1..] == [];
    assert Stayers(s, [d], info, room) + [] == Stayers(s, [d], info, room);
  }

  lemma {:induction false} StayersAppend(s: Outbound, a: seq<Details>, b: seq<Details>, info: ChannelInfo, room: nat)
    ensures Stayers(s, a + b, info, room) == Stayers(s, a, info, room) + Stayers(s, b, info, SatSub(room, Emitters(s, a, info)))
  {
    hide Stayers;
    hide WillEmit;
    if a == [] {
      assert a + b == b;
      NoStayers(s, info, room);
    } else {
      var d, rest := a[0], a[1..];
      assert a == [d] + rest && a + b == [d] + (rest + b) && [d][1..] == [];
      StayersTurn(s, d, rest + b, info, room);
      StayersTurn(s, d, rest, info, room);
      var room' := SatSub(room, Emitters(s, [d], info));
      StayersAppend(s, rest, b, info, room');
      Associative(Stayers(s, [d], info, room), Stayers(s, rest, info, room'), Stayers(s, b, info, SatSub(room', Emitters(s, rest, info))));
    }
  }

  lemma NoStayers(s: Outbound, info: ChannelInfo, room: nat)
    ensures Stayers(s, [], info, room) == []
  {
  }

  lemma {:induction false} StayersMember(s: Outbound, todo: seq<Details>, info: ChannelInfo, room: nat, r: ParaId)
    requires forall d :: d in todo ==> d.recipient != r
    ensures r !in Stayers(s, todo, info, room)
  {
    if todo != [] {
      assert todo[0] in todo;
      StayersMember(s, todo[1..], info, 0, r);
      StayersMember(s, todo[1..], info, if room > 0 && WillEmit(At(s, todo[0].recipient), info(todo[0].recipient)) then room - 1 else room, r);
    }
  }

  /** The stayers are those before place `k`, then `k` itself if it stays, then later ones. */
  lemma StayersAround(s: Outbound, info: ChannelInfo, room: nat, k: nat)
    requires Unique(s.statuses) && k < |s.statuses|
    ensures var st, r := s.statuses, s.statuses[k].recipient; var all, p := Stayers(s, st, info, room), |Stayers(s, st[..k], info, room)|;
            if StaysAt(s, info, room, k) then p < |all| && all[p] == r else r !in all
  {
    hide WillEmit;
    hide StaysWhenReached;
    var st, d := s.statuses, s.statuses[k];
    var room' := SatSub(room, Emitters(s, st[..k], info));
    assert st == st[..k] + ([d] + st[k + 1..]);
    StayersAppend(s, st[..k], [d] + st[k + 1..], info, room);
    StayersTurn(s, d, st[k + 1..], info, room');
    StayersMember(s, st[..k], info, room, d.recipient);
    StayersMember(s, st[k + 1..], info, SatSub(room', Emitters(s, [d], info)), d.recipient);
    assert Stayers(s, [d], info, room') == if StaysAt(s, info, room, k) then [d.recipient] else [] by { OneStays(s, d, info, room'); }
    hide Stayers;
  }

  lemma OneStays(s: Outbound, d: Details, info: ChannelInfo, room: nat)
    ensures Stayers(s, [d], info, room) == if room == 0 || StaysWhenReached(At(s, d.recipient), info(d.recipient)) then [d.recipient] else []
  {
    assert [d][1..] == [];
  }

  lemma Rotated(all: seq<ParaId>, n: nat, p: nat)
    requires n <= |all| && p < |all|
    ensures var q := (p - n) % |all|; 0 <= q < |all| && (all[n..] + all[..n])[q] == all[p]
  {
    if p >= n { Below(p - n, |all|); } else { Below(p - n + |all|, |all|); Cycle(p - n, |all|); }
  }

  lemma Below(a: nat, n: nat)
    requires a < n
    ensures a % n == a
  {
  }

  lemma Cycle(a: int, n: nat)
    requires n > 0 && a < 0 <= a + n
    ensures a % n == (a + n) % n
  {
  }

  /**
   Where every channel is after a batch, told from the state before it: a channel keeps its status if and
   only if the batch was full before it, or it emitted and has more, or it did not vanish. With `p` such
   channels before it, it is `p` minus the ledger, round the list of those that stay.
   */
  lemma PlaceAfterBatch(s: Outbound, info: ChannelInfo, maximum: nat, k: nat)
    requires Valid(s) && Take(s, info, maximum).Taken? && k < |s.statuses|
    ensures var st, r, room := s.statuses, s.statuses[k].recipient, Min(|s.statuses|, maximum);
            var st', total, p := Take(s, info, maximum).s.statuses, |Stayers(s, st, info, room)|, |Stayers(s, st[..k], info, room)|;
            && |st'| == total
            && (Position(st', r) < |st'| <==> StaysAt(s, info, room, k))
            && (StaysAt(s, info, room, k) ==> total > 0 && Position(st', r) == (p - Ledger(s, st, info, room)) % total)
  {
    hide Take;
    hide LocalValid;
    hide Stayers;
    hide Ledger;
    hide StaysAt;
    var st, r, room := s.statuses, s.statuses[k].recipient, Min(|s.statuses|, maximum);
    var all, n, st' := Stayers(s, st, info, room), Ledger(s, st, info, room), Take(s, info, maximum).s.statuses;
    BatchRotates(s, info, maximum);
    StayersAround(s, info, room, k);
    TakeKeepsValid(s, info, maximum);
    var q := Recipients(st');
    assert |st'| == |q| == |all|;
    if StaysAt(s, info, room, k) {
      var p := |Stayers(s, st[..k], info, room)|;
      Rotated(all, n, p);
      assert q[(p - n) % |all|] == r;
      PositionIs(st', (p - n) % |all|);
    } else {
      forall i | 0 <= i < |st'| ensures st'[i].recipient != r { assert q[i] in all[n..] + all[..n]; }
    }
  }

  // ------------------------------------------------------------------ a signal that has just been issued

  /**
   What issuing a signal does: the peer has a status that announces signals, with state and window as
   before; the page of signals, opened if need be, ends with the new one; nobody else is touched.
   */
  lemma SignalIsAnnounced(s: Outbound, r: ParaId, sig: Signal)
    requires Unique(s.statuses)
    ensures var s' := SendSignal(s, r, sig); var d, d' := Of(s.statuses, r), Of(s'.statuses, r);
            && Position(s'.statuses, r) == Position(s.statuses, r) < |s'.statuses|
            && d'.signalsExist && d'.recipient == r
            && d'.state == d.state && d'.firstIndex == d.firstIndex && d'.lastIndex == d.lastIndex
            && Inner(s'.pages, r) == Inner(s.pages, r)
            && (var page, page' := SignalPage(s.signals, r), SignalPage(s'.signals, r);
                page' == (if page == [] then [2] else page) + [if sig.Suspend? then 0 else 1])
            && forall q: ParaId :: q != r ==> At(s', q) == At(s, q)
  {
    var l := SignalLocal(At(s, r), sig);
    AtUpdate(s, l);
    var s' := SendSignal(s, r, sig);
    assert Of(s'.statuses, r) == At(s', r).d && SignalPage(s'.signals, r) == At(s', r).signal && Inner(s'.pages, r) == At(s', r).pages;
    PutPlace(s.statuses, l.d);
  }

  lemma PutPlace(st: seq<Details>, d: Details)
    ensures Position(Put(st, d), d.recipient) == Position(st, d.recipient) < |Put(st, d)|
    ensures Recipients(Put(st, d))[..Position(st, d.recipient)] == Recipients(st)[..Position(st, d.recipient)]
  {
    var k, t := Position(st, d.recipient), Put(st, d);
    forall i | 0 <= i < k ensures t[i] == st[i] {}
    var p := Position(t, d.recipient);
    assert t[k].recipient == d.recipient;
    assert p <= k;
  }

  /** Only the recipients and what is stored about them count. */
  lemma {:induction false} SameEmitters(s: Outbound, s': Outbound, a: seq<Details>, b: seq<Details>, info: ChannelInfo)
    requires |a| == |b| && forall i :: 0 <= i < |a| ==> a[i].recipient == b[i].recipient && At(s', a[i].recipient) == At(s, a[i].recipient)
    ensures Emitters(s', b, info) == Emitters(s, a, info)
  {
    hide WillEmit;
    if a != [] { SameEmitters(s, s', a[1..], b[1..], info); }
  }

  lemma IssueElsewhere(s: Outbound, r: ParaId, sig: Signal, info: ChannelInfo)
    requires Unique(s.statuses)
    ensures var s' := SendSignal(s, r, sig); var k := Position(s.statuses, r);
            Position(s'.statuses, r) == k && Emitters(s', s'.statuses[..k], info) == Emitters(s, s.statuses[..k], info)
  {
    hide WillEmit;
    hide Emitters;
    var s', k, l := SendSignal(s, r, sig), Position(s.statuses, r), SignalLocal(At(s, r), sig);
    SignalIsAnnounced(s, r, sig);
    PutPlace(s.statuses, l.d);
    assert s'.statuses == Put(s.statuses, l.d);
    forall i | 0 <= i < k ensures s'.statuses[i].recipient == s.statuses[i].recipient {
      assert Recipients(s'.statuses)[..k][i] == Recipients(s.statuses)[..k][i];
    }
    SameEmitters(s, s', s.statuses[..k], s'.statuses[..k], info);
  }

  /**
   Exactly when a signal is dispatched by the batch after its issue: the channel is not suspended, the
   relay chain takes a page as long as the signals that wait for it, this one included, and fewer
   channels before it could send than the batch has places. Pages of data do not hold it up.
   */
  lemma IssuedSignalDispatchedIff(s: Outbound, r: ParaId, sig: Signal, info: ChannelInfo, maximum: nat)
    requires Valid(s) && Take(SendSignal(s, r, sig), info, maximum).Taken?
    ensures var batch, page := Take(SendSignal(s, r, sig), info, maximum).batch, SignalPage(SendSignal(s, r, sig).signals, r);
            Gone(r, true, page, Emitted) in batch <==>
            && Of(s.statuses, r).state.Ok? && info(r).Ready? && |page| < info(r).now && |page| <= info(r).ever
            && Emitters(s, s.statuses[..Position(s.statuses, r)], info) < maximum
  {
    hide Take;
    hide LocalValid;
    hide SendSignal;
    var s' := SendSignal(s, r, sig);
    SignalKeepsValid(s, r, sig);
    SignalIsAnnounced(s, r, sig);
    IssueElsewhere(s, r, sig, info);
    hide Valid;
    SignalDispatchedIff(s', info, maximum, r);
    var l := At(s', r);
    assert WillEmit(l, info(r)) <==> l.d.state.Ok? && info(r).Ready? && |l.signal| < info(r).now && |l.signal| <= info(r).ever;
    forall g | g in Take(s', info, maximum).batch && g.recipient == r && g.signal ensures g == Gone(r, true, SignalPage(s'.signals, r), Emitted) {
      BatchIsEmitted(s', info, maximum, g);
    }
  }

  lemma BatchIsEmitted(s: Outbound, info: ChannelInfo, maximum: nat, g: Gone)
    requires Take(s, info, maximum).Taken? && g in Take(s, info, maximum).batch
    ensures g.fate.Emitted?
  {
    hide TakeLoop;
    var t := TakeLoop(s.statuses, s.pages, s.signals, info, Min(|s.statuses|, maximum));
    SameElements(StableSort(Filter(t.gone, IsEmitted()), ByRecipient()), Filter(t.gone, IsEmitted()));
    FilterMember(t.gone, IsEmitted(), g);
  }
}
