/**
 What the outbound half of the XCMP queue promises: the rules a batch meets, exactly when building
 it panics, freedom from starvation, and conservation over whole runs.
 */
module XcmpOutboundProofs {
  import opened Common
  import opened XcmpFormat
  import opened XcmpOutbound

  // ------------------------------------------------------------------ the batch meets the channel rules

  function RecipientOf(): Gone -> nat { (g: Gone) => g.recipient }

  lemma VisitEmission(l: Local, cs: ChannelStatus)
    ensures var v := Visit(l, cs);
            if Emits(v.gone) then |v.gone| == 1 && Filter(v.gone, IsEmitted()) == v.gone
            else Filter(v.gone, IsEmitted()) == []
    ensures forall g :: g in Visit(l, cs).gone && g.fate.Emitted? ==>
                          l.d.state.Ok? && cs.Ready? && |g.page| < cs.now && |g.page| <= cs.ever
  {
    var v := Visit(l, cs);
    if !Emits(v.gone) { FilterNone(v.gone, IsEmitted()); } else { FilterAll(v.gone, IsEmitted()); }
  }

  lemma {:induction false} LoopEmissions(todo: seq<Details>, pages: DoubleMap,
                                         signals: map<ParaId, Bytes>, info: ChannelInfo, room: nat)
    requires Unique(todo)
    ensures var e := Filter(TakeLoop(todo, pages, signals, info, room).gone, IsEmitted());
            && |e| <= room
            && DistinctKeys(e, RecipientOf())
            && forall g :: g in e ==> exists d :: d in todo && d.recipient == g.recipient
  {
    hide Visit;
    if todo != [] && room > 0 {
      var h := TakeHead(todo[0], pages, signals, info(todo[0].recipient));
      var room' := if Emits(h.gone) then room - 1 else room;
      assert Unique(todo[1..]);
      LoopEmissions(todo[1..], h.pages, h.signals, info, room');
      var r := todo[0].recipient;
      VisitEmission(Local(todo[0], Inner(pages, r), SignalPage(signals, r)), info(r));
      var rest := TakeLoop(todo[1..], h.pages, h.signals, info, room').gone;
      FilterAppend(h.gone, rest, IsEmitted());
      var e, tail := Filter(h.gone + rest, IsEmitted()), Filter(rest, IsEmitted());
      forall g | g in tail ensures g.recipient != r && exists d :: d in todo && d.recipient == g.recipient {
        var d :| d in todo[1..] && d.recipient == g.recipient;
        assert d in todo;
      }
      assert todo[0] in todo;
    }
  }

  /**
   Recipients strictly ascend, so each gets at most one page; the batch respects the limit; every
   page is within the channel's current and maximum sizes; no page goes to a suspended channel.
   */
  lemma BatchMeetsChannelRules(s: Outbound, info: ChannelInfo, maximum: nat)
    requires Valid(s) && Take(s, info, maximum).Taken?
    ensures var b := Take(s, info, maximum).batch;
            && |b| <= maximum
            && (forall i, j :: 0 <= i < j < |b| ==> b[i].recipient < b[j].recipient)
            && (forall g :: g in b ==>
                              && Of(s.statuses, g.recipient).state.Ok?
                              && info(g.recipient).Ready?
                              && |g.page| < info(g.recipient).now && |g.page| <= info(g.recipient).ever)
  {
    hide Visit;
    var room := Min(|s.statuses|, maximum);
    var t := TakeLoop(s.statuses, s.pages, s.signals, info, room);
    var e := Filter(t.gone, IsEmitted());
    var b := StableSort(e, ByRecipient());
    LoopEmissions(s.statuses, s.pages, s.signals, info, room);
    StableSortSorted(e, ByRecipient());
    SortDistinct(e, ByRecipient(), RecipientOf());
    SameElements(b, e);
    forall i, j | 0 <= i < j < |b| ensures b[i].recipient < b[j].recipient {
      assert ByRecipient()(b[i], b[j]);
    }
    forall g | g in b
      ensures Of(s.statuses, g.recipient).state.Ok? && info(g.recipient).Ready?
      ensures |g.page| < info(g.recipient).now && |g.page| <= info(g.recipient).ever
    {
      FilterMember(t.gone, IsEmitted(), g);
      FilterMember(t.gone, IsFor(g.recipient), g);
      TakeAt(s, info, maximum, g.recipient);
      VisitEmission(At(s, g.recipient), info(g.recipient));
    }
  }

  // ------------------------------------------------------------------ exactly when building the batch panics

  /** The page a ready channel would send next: pending signals go before data. */
  function NextPage(l: Local): Option<Bytes> {
    if l.d.signalsExist then Some(l.signal)
    else if l.d.firstIndex < l.d.lastIndex then Some(Page(l.pages, l.d.firstIndex))
    else None
  }

  predicate WillEmit(l: Local, cs: ChannelStatus) {
    l.d.state.Ok? && cs.Ready? && NextPage(l).Some? && |NextPage(l).value| < cs.now && |NextPage(l).value| <= cs.ever
  }

  /** Something is left on the channel once its next page has gone. */
  predicate MoreThanNext(l: Local) {
    if l.d.signalsExist then l.d.firstIndex < l.d.lastIndex else l.d.firstIndex + 1 < l.d.lastIndex
  }

  /** The channel disappears without a page in the batch: it is closed, or its only page is oversize. */
  predicate WillVanish(l: Local, cs: ChannelStatus) {
    && l.d.state.Ok?
    && (|| cs.Closed?
        || (&& cs.Ready? && NextPage(l).Some? && !MoreThanNext(l)
            && cs.ever < |NextPage(l).value| < cs.now))
  }

  /** Channels that emit and stay, minus channels that vanish, among those the loop reaches. */
  function Ledger(s: Outbound, todo: seq<Details>, info: ChannelInfo, room: nat): int {
    if todo == [] || room == 0 then 0
    else
      var l, cs := At(s, todo[0].recipient), info(todo[0].recipient);
      if WillEmit(l, cs) then
        (if MoreThanNext(l) then 1 else 0) + Ledger(s, todo[1..], info, room - 1)
      else (if WillVanish(l, cs) then -1 else 0) + Ledger(s, todo[1..], info, room)
  }

  lemma VisitBalance(l: Local, cs: ChannelStatus)
    requires LocalValid(l) && !Idle(l.d)
    ensures var v := Visit(l, cs);
            && (Emits(v.gone) <==> WillEmit(l, cs))
            && (Idle(v.l.d) <==> if WillEmit(l, cs) then !MoreThanNext(l) else WillVanish(l, cs))
  {
    if l.d.state.Ok? && cs.Closed? && l.d.firstIndex < l.d.lastIndex {
      assert |Queue(l)| > 0;
    }
  }

  lemma {:induction false} LoopBalance(s: Outbound, todo: seq<Details>, pages: DoubleMap,
                                       signals: map<ParaId, Bytes>, info: ChannelInfo, room: nat)
    requires Unique(todo) && (forall d :: d in todo ==> !Idle(d)) && forall r: ParaId :: LocalValid(At(s, r))
    requires forall d :: d in todo ==> At(s, d.recipient) == Local(d, Inner(pages, d.recipient), SignalPage(signals, d.recipient))
    ensures var t := TakeLoop(todo, pages, signals, info, room);
            var kept := |Filter(t.statuses, NotIdle())|;
            && |Filter(t.gone, IsEmitted())| - (|todo| - kept) == Ledger(s, todo, info, room)
            && Ledger(s, todo, info, room) <= kept
  {
    hide Visit;
    hide LocalValid;
    if todo == [] || room == 0 {
      FilterAll(todo, NotIdle());
    } else {
      var d, r := todo[0], todo[0].recipient;
      var l := Local(d, Inner(pages, r), SignalPage(signals, r));
      var h := TakeHead(d, pages, signals, info(d.recipient));
      assert d in todo && LocalValid(At(s, r)) && At(s, r) == l;
      VisitBalance(l, info(r));
      VisitEmission(l, info(r));
      var room' := if Emits(h.gone) then room - 1 else room;
      var rest := TakeLoop(todo[1..], h.pages, h.signals, info, room');
      assert Unique(todo[1..]);
      forall e | e in todo[1..]
        ensures At(s, e.recipient) == Local(e, Inner(h.pages, e.recipient), SignalPage(h.signals, e.recipient))
      {
        assert e in todo && e.recipient != r;
        HeadElsewhere(d, pages, signals, info, e.recipient);
      }
      LoopBalance(s, todo[1..], h.pages, h.signals, info, room');
      FilterAppend(h.gone, rest.gone, IsEmitted());
      FilterAppend(h.statuses, rest.statuses, NotIdle());
      assert h.statuses[1..] == [];
    }
  }

  /** Building the batch panics if and only if more channels vanish than emit and stay. */
  lemma TakePanicsIff(s: Outbound, info: ChannelInfo, maximum: nat)
    requires Valid(s)
    ensures Take(s, info, maximum).Panics? <==> Ledger(s, s.statuses, info, Min(|s.statuses|, maximum)) < 0
  {
    forall d | d in s.statuses
      ensures At(s, d.recipient) == Local(d, Inner(s.pages, d.recipient), SignalPage(s.signals, d.recipient))
    {
      var k :| 0 <= k < |s.statuses| && s.statuses[k] == d;
      OfIs(s.statuses, k);
    }
    LoopBalance(s, s.statuses, s.pages, s.signals, info, Min(|s.statuses|, maximum));
  }

  lemma {:induction false} LedgerNonNegative(s: Outbound, todo: seq<Details>, info: ChannelInfo, room: nat)
    requires forall d :: d in todo ==> !WillVanish(At(s, d.recipient), info(d.recipient))
    ensures Ledger(s, todo, info, room) >= 0
  {
    if todo != [] && room > 0 {
      assert todo[0] in todo;
      LedgerNonNegative(s, todo[1..], info, if WillEmit(At(s, todo[0].recipient), info(todo[0].recipient)) then room - 1 else room);
    }
  }

  // ------------------------------------------------------------------ exactly what a batch contains

  function Emission(l: Local): Gone
    requires NextPage(l).Some?
  {
    Gone(l.d.recipient, l.d.signalsExist, NextPage(l).value, Emitted)
  }

  /** How many of the channels could send now. */
  function Emitters(s: Outbound, todo: seq<Details>, info: ChannelInfo): nat {
    if todo == [] then 0
    else (if WillEmit(At(s, todo[0].recipient), info(todo[0].recipient)) then 1 else 0) + Emitters(s, todo[1..], info)
  }

  /** The next pages of the first `room` channels of `todo` that could send. */
  function Emissions(s: Outbound, todo: seq<Details>, info: ChannelInfo, room: nat): seq<Gone> {
    if todo == [] || room == 0 then []
    else
      var l := At(s, todo[0].recipient);
      if WillEmit(l, info(todo[0].recipient)) then [Emission(l)] + Emissions(s, todo[1..], info, room - 1)
      else Emissions(s, todo[1..], info, room)
  }

  lemma VisitEmits(l: Local, cs: ChannelStatus)
    requires LocalValid(l) && !Idle(l.d)
    ensures Emits(Visit(l, cs).gone) <==> WillEmit(l, cs)
    ensures Filter(Visit(l, cs).gone, IsEmitted()) == if WillEmit(l, cs) then [Emission(l)] else []
  {
    VisitBalance(l, cs);
    VisitEmission(l, cs);
  }

  /** The channels still to visit are as they were in `s`, and in order. */
  ghost predicate Untouched(s: Outbound, todo: seq<Details>, pages: DoubleMap, signals: map<ParaId, Bytes>) {
    && Unique(todo) && (forall d :: d in todo ==> !Idle(d)) && (forall r: ParaId :: LocalValid(At(s, r)))
    && forall d :: d in todo ==> At(s, d.recipient) == Local(d, Inner(pages, d.recipient), SignalPage(signals, d.recipient))
  }

  lemma AllUntouched(s: Outbound)
    requires Valid(s)
    ensures Untouched(s, s.statuses, s.pages, s.signals)
  {
    forall d | d in s.statuses
      ensures At(s, d.recipient) == Local(d, Inner(s.pages, d.recipient), SignalPage(s.signals, d.recipient))
    {
      var k :| 0 <= k < |s.statuses| && s.statuses[k] == d;
      OfIs(s.statuses, k);
    }
  }

  /** One turn of the loop emits what the first channel would send, and touches no other channel. */
  lemma TurnEmits(s: Outbound, todo: seq<Details>, pages: DoubleMap, signals: map<ParaId, Bytes>, info: ChannelInfo)
    requires todo != [] && Untouched(s, todo, pages, signals)
    ensures var r := todo[0].recipient; var h := TakeHead(todo[0], pages, signals, info(r)); var l := At(s, r);
            && (Emits(h.gone) <==> WillEmit(l, info(r)))
            && Filter(h.gone, IsEmitted()) == (if WillEmit(l, info(r)) then [Emission(l)] else [])
            && Untouched(s, todo[1..], h.pages, h.signals)
  {
    hide Visit;
    hide LocalValid;
    hide Filter;
    var d, r := todo[0], todo[0].recipient;
    var l := Local(d, Inner(pages, r), SignalPage(signals, r));
    var h := TakeHead(d, pages, signals, info(r));
    assert d in todo && LocalValid(At(s, r)) && At(s, r) == l;
    VisitEmits(l, info(r));
    assert Unique(todo[1..]);
    forall e | e in todo[1..]
      ensures At(s, e.recipient) == Local(e, Inner(h.pages, e.recipient), SignalPage(h.signals, e.recipient))
    {
      assert e in todo && e.recipient != r;
      HeadElsewhere(d, pages, signals, info, e.recipient);
    }
  }

  lemma {:induction false} LoopEmits(s: Outbound, todo: seq<Details>, pages: DoubleMap,
                                     signals: map<ParaId, Bytes>, info: ChannelInfo, room: nat)
    requires Untouched(s, todo, pages, signals)
    ensures Filter(TakeLoop(todo, pages, signals, info, room).gone, IsEmitted()) == Emissions(s, todo, info, room)
  {
    hide TakeHead;
    hide Untouched;
    hide WillEmit;
    hide Filter;
    if todo == [] || room == 0 {
      FilterNone<Gone>([], IsEmitted());
    } else {
      var h := TakeHead(todo[0], pages, signals, info(todo[0].recipient));
      var room' := if Emits(h.gone) then room - 1 else room;
      TurnEmits(s, todo, pages, signals, info);
      LoopEmits(s, todo[1..], h.pages, h.signals, info, room');
      FilterAppend(h.gone, TakeLoop(todo[1..], h.pages, h.signals, info, room').gone, IsEmitted());
    }
  }

  /** `k` is the place of a channel that could send and before which fewer than `room` others could. */
  ghost predicate Chosen(s: Outbound, todo: seq<Details>, info: ChannelInfo, room: nat, k: nat) {
    k < |todo| && WillEmit(At(s, todo[k].recipient), info(todo[k].recipient)) && Emitters(s, todo[..k], info) < room
  }

  lemma ChosenNext(s: Outbound, todo: seq<Details>, info: ChannelInfo, room: nat, k: nat)
    requires 0 < k < |todo|
    ensures var one: nat := if WillEmit(At(s, todo[0].recipient), info(todo[0].recipient)) then 1 else 0;
            Chosen(s, todo, info, room, k) <==> room >= one && Chosen(s, todo[1..], info, room - one, k - 1)
  {
    hide WillEmit;
    assert todo[..k][1..] == todo[1..][..k - 1];
  }

  lemma ChosenFirst(s: Outbound, todo: seq<Details>, info: ChannelInfo, room: nat)
    requires todo != [] && room > 0
    ensures Chosen(s, todo, info, room, 0) <==> WillEmit(At(s, todo[0].recipient), info(todo[0].recipient))
  {
    assert todo[..0] == [];
  }

  lemma {:induction false} EmissionsMember(s: Outbound, todo: seq<Details>, info: ChannelInfo, room: nat, g: Gone)
    ensures g in Emissions(s, todo, info, room) <==>
            exists k: nat :: Chosen(s, todo, info, room, k) && g == Emission(At(s, todo[k].recipient))
  {
    if todo != [] && room > 0 {
      var l, cs := At(s, todo[0].recipient), info(todo[0].recipient);
      var one: nat := if WillEmit(l, cs) then 1 else 0;
      var later := Emissions(s, todo[1..], info, room - one);
      EmissionsMember(s, todo[1..], info, room - one, g);
      assert Emissions(s, todo, info, room) == (if WillEmit(l, cs) then [Emission(l)] + later else later);
      hide Emissions;
      ChosenFirst(s, todo, info, room);
      if g in later {
        var k: nat :| Chosen(s, todo[1..], info, room - one, k) && g == Emission(At(s, todo[1..][k].recipient));
        ChosenNext(s, todo, info, room, k + 1);
        assert Chosen(s, todo, info, room, k + 1) && todo[k + 1] == todo[1..][k];
      }
      forall k: nat | Chosen(s, todo, info, room, k) && k > 0 && g == Emission(At(s, todo[k].recipient)) ensures g in later {
        ChosenNext(s, todo, info, room, k);
        assert todo[k] == todo[1..][k - 1];
      }
    }
  }

  /**
   Exactly what a batch contains: the next page of every channel that could send and before which,
   in the order of the list, fewer channels than the batch has places could send.
   */
  lemma BatchContents(s: Outbound, info: ChannelInfo, maximum: nat, g: Gone)
    requires Valid(s) && Take(s, info, maximum).Taken?
    ensures g in Take(s, info, maximum).batch <==>
            exists k: nat :: Chosen(s, s.statuses, info, Min(|s.statuses|, maximum), k) && g == Emission(At(s, s.statuses[k].recipient))
  {
    hide WillEmit;
    hide LocalValid;
    var room := Min(|s.statuses|, maximum);
    AllUntouched(s);
    LoopEmits(s, s.statuses, s.pages, s.signals, info, room);
    var e := Emissions(s, s.statuses, info, room);
    StableSortSorted(e, ByRecipient());
    SameElements(StableSort(e, ByRecipient()), e);
    EmissionsMember(s, s.statuses, info, room, g);
  }

  lemma {:induction false} EmittersBound(s: Outbound, todo: seq<Details>, info: ChannelInfo)
    ensures Emitters(s, todo, info) <= |todo|
  {
    hide WillEmit;
    if todo != [] { EmittersBound(s, todo[1..], info); }
  }

  /**
   Exactly when a page of signals is dispatched in this block: signals for the channel are announced, it
   is not suspended, it is ready and has room for the page, and fewer channels before it could send than
   the batch has places. Signals that wait without being announced are not dispatched.
   */
  lemma SignalDispatchedIff(s: Outbound, info: ChannelInfo, maximum: nat, r: ParaId)
    requires Valid(s) && Take(s, info, maximum).Taken?
    ensures (exists g :: g in Take(s, info, maximum).batch && g.recipient == r && g.signal) <==>
            && Of(s.statuses, r).signalsExist && WillEmit(At(s, r), info(r))
            && Emitters(s, s.statuses[..Position(s.statuses, r)], info) < maximum
    ensures forall g :: g in Take(s, info, maximum).batch && g.recipient == r && g.signal ==> g.page == SignalPage(s.signals, r)
  {
    hide Take;
    hide LocalValid;
    var p, batch, room := Position(s.statuses, r), Take(s, info, maximum).batch, Min(|s.statuses|, maximum);
    EmittersBound(s, s.statuses[..p], info);
    forall g | g in batch && g.recipient == r
      ensures Chosen(s, s.statuses, info, room, p) && g.signal == Of(s.statuses, r).signalsExist
      ensures g.signal ==> g.page == SignalPage(s.signals, r)
    {
      BatchContents(s, info, maximum, g);
      var k: nat :| Chosen(s, s.statuses, info, room, k) && g == Emission(At(s, s.statuses[k].recipient));
      OfIs(s.statuses, k);
      PositionIs(s.statuses, k);
    }
    if Of(s.statuses, r).signalsExist && WillEmit(At(s, r), info(r)) && Emitters(s, s.statuses[..p], info) < maximum {
      assert p < |s.statuses|;
      OfIs(s.statuses, p);
      AnnouncedIsNext(At(s, r));
      var g := Emission(At(s, r));
      assert Chosen(s, s.statuses, info, room, p);
      BatchContents(s, info, maximum, g);
      assert g in batch && g.recipient == r && g.signal;
    }
  }

  lemma AnnouncedIsNext(l: Local)
    requires l.d.signalsExist
    ensures NextPage(l) == Some(l.signal)
  {
  }

  /** Without closed channels and without oversize pages the batch is always built. */
  lemma TakeSucceeds(s: Outbound, info: ChannelInfo, maximum: nat)
    requires Valid(s)
    requires forall d :: d in s.statuses ==> !WillVanish(At(s, d.recipient), info(d.recipient))
    ensures Take(s, info, maximum).Taken?
  {
    LedgerNonNegative(s, s.statuses, info, Min(|s.statuses|, maximum));
    TakePanicsIff(s, info, maximum);
  }

  /** One closed channel on its own makes the rotation amount negative. */
  lemma ClosedChannelPanics(s: Outbound, info: ChannelInfo, maximum: nat)
    requires Valid(s) && |s.statuses| == 1 && maximum >= 1
    requires s.statuses[0].state.Ok? && info(s.statuses[0].recipient).Closed?
    ensures Take(s, info, maximum).Panics?
  {
    TakePanicsIff(s, info, maximum);
    OfIs(s.statuses, 0);
    assert s.statuses[1..] == [];
    assert Ledger(s, s.statuses[1..], info, 1) == 0;
  }

  // ------------------------------------------------------------------ who is served, who moves up

  lemma EmittersTurn(s: Outbound, todo: seq<Details>, info: ChannelInfo, k: nat)
    requires k <= |todo| && Emitters(s, todo[..k], info) > 0
    ensures k > 0
    ensures Emitters(s, todo[..k], info) ==
            (if WillEmit(At(s, todo[0].recipient), info(todo[0].recipient)) then 1 else 0) + Emitters(s, todo[1..][..k - 1], info)
  {
    hide WillEmit;
    assert k > 0 && todo[..k][0] == todo[0] && todo[..k][1..] == todo[1..][..k - 1];
  }

  lemma DropMore(one: seq<Details>, rest: seq<Details>, k: nat)
    requires |one| == 1 && 0 < k <= |rest| + 1
    ensures (one + rest)[k..] == rest[k - 1..]
  {
  }

  /**
   When enough channels before place `k` can send, the loop fills the batch with them and leaves the
   channels from `k` on alone.
   */
  lemma {:induction false} LoopStops(s: Outbound, todo: seq<Details>, pages: DoubleMap,
                                     signals: map<ParaId, Bytes>, info: ChannelInfo, room: nat, k: nat)
    requires Untouched(s, todo, pages, signals) && k <= |todo| && Emitters(s, todo[..k], info) >= room
    ensures var t := TakeLoop(todo, pages, signals, info, room);
            t.statuses[k..] == todo[k..] && |Filter(t.gone, IsEmitted())| == room
  {
    hide TakeHead;
    hide Untouched;
    hide WillEmit;
    hide Filter;
    if room == 0 {
      FilterNone<Gone>([], IsEmitted());
    } else {
      hide Emitters;
      hide TakeLoop;
      EmittersTurn(s, todo, info, k);
      var h := TakeHead(todo[0], pages, signals, info(todo[0].recipient));
      var room' := if Emits(h.gone) then room - 1 else room;
      TurnEmits(s, todo, pages, signals, info);
      var rest := TakeLoop(todo[1..], h.pages, h.signals, info, room');
      TakeLoopTurn(todo, pages, signals, info, room);
      LoopStops(s, todo[1..], h.pages, h.signals, info, room', k - 1);
      FilterAppend(h.gone, rest.gone, IsEmitted());
      DropMore(h.statuses, rest.statuses, k);
      DropMore([todo[0]], todo[1..], k);
      assert todo == [todo[0]] + todo[1..];
    }
  }

  /** Pruning and rotating by what is left of the batch moves everything from `k` on to `k - room`. */
  lemma TailMovesUp(after: seq<Details>, st: seq<Details>, k: nat, room: nat)
    requires room <= k <= |st| == |after| && after[k..] == st[k..] && forall d :: d in st ==> !Idle(d)
    requires var kept := Filter(after, NotIdle()); 0 <= room - (|st| - |kept|) <= |kept|
    ensures var kept := Filter(after, NotIdle()); var n := room - (|st| - |kept|);
            |kept| - n == |st| - room && kept[n..][k - room..] == st[k..]
  {
    var front := after[..k];
    assert after == front + st[k..];
    FilterAppend(front, st[k..], NotIdle());
    FilterAll(st[k..], NotIdle());
  }

  /**
   Channels that a batch does not reach move up by exactly the size of the batch, whatever the channels
   before them did: emitted, vanished, or were passed over.
   */
  lemma UnreachedMoveUp(s: Outbound, info: ChannelInfo, maximum: nat, k: nat)
    requires Valid(s) && Take(s, info, maximum).Taken? && k <= |s.statuses|
    requires Emitters(s, s.statuses[..k], info) >= maximum
    ensures var st := Take(s, info, maximum).s.statuses;
            maximum <= k && |s.statuses| - maximum <= |st| && st[k - maximum..|s.statuses| - maximum] == s.statuses[k..]
  {
    hide WillEmit;
    hide LocalValid;
    hide TakeLoop;
    hide Filter;
    AllUntouched(s);
    hide Untouched;
    EmittersBound(s, s.statuses[..k], info);
    LoopStops(s, s.statuses, s.pages, s.signals, info, maximum, k);
    var t := TakeLoop(s.statuses, s.pages, s.signals, info, maximum);
    assert Min(|s.statuses|, maximum) == maximum;
    TailMovesUp(t.statuses, s.statuses, k, maximum);
    var kept := Filter(t.statuses, NotIdle());
    var n := maximum - (|s.statuses| - |kept|);
    assert (kept[n..] + kept[..n])[k - maximum..|s.statuses| - maximum] == kept[n..][k - maximum..];
  }

  ghost predicate Served(gone: seq<Gone>, r: ParaId) {
    exists g :: g in gone && g.recipient == r && g.fate.Emitted?
  }

  lemma BatchIsGone(s: Outbound, info: ChannelInfo, maximum: nat, g: Gone)
    requires Take(s, info, maximum).Taken? && g in Take(s, info, maximum).batch
    ensures g in Take(s, info, maximum).gone
  {
    hide TakeLoop;
    var t := TakeLoop(s.statuses, s.pages, s.signals, info, Min(|s.statuses|, maximum));
    SameElements(StableSort(Filter(t.gone, IsEmitted()), ByRecipient()), Filter(t.gone, IsEmitted()));
    FilterMember(t.gone, IsEmitted(), g);
  }

  /**
   A channel that can send is served by the batch, or fills up behind channels that can: then it moves
   up by exactly as many places as the batch has. Nothing is asked of the other channels.
   */
  lemma TakeServesOrAdvances(s: Outbound, info: ChannelInfo, maximum: nat, r: ParaId)
    requires Valid(s) && Take(s, info, maximum).Taken? && Position(s.statuses, r) < |s.statuses|
    requires WillEmit(At(s, r), info(r))
    ensures var t := Take(s, info, maximum); var i, i' := Position(s.statuses, r), Position(t.s.statuses, r);
            Served(t.gone, r) || (i' < |t.s.statuses| && i' + maximum == i)
  {
    hide Take;
    hide WillEmit;
    hide LocalValid;
    var t := Take(s, info, maximum);
    var i := Position(s.statuses, r);
    OfIs(s.statuses, i);
    if Emitters(s, s.statuses[..i], info) < maximum {
      EmittersBound(s, s.statuses[..i], info);
      EmitsNow(s, info, maximum, r);
    } else {
      UnreachedMoveUp(s, info, maximum, i);
      TakeAt(s, info, maximum, r);
      var st := t.s.statuses;
      assert st[i - maximum] == st[i - maximum..|s.statuses| - maximum][0] == s.statuses[i..][0];
      PositionIs(st, i - maximum);
    }
  }

  lemma PositionIs(st: seq<Details>, k: nat)
    requires Unique(st) && k < |st|
    ensures Position(st, st[k].recipient) == k
  {
  }

  lemma EmitsNow(s: Outbound, info: ChannelInfo, maximum: nat, r: ParaId)
    requires Valid(s) && Take(s, info, maximum).Taken? && Position(s.statuses, r) < |s.statuses|
    requires WillEmit(At(s, r), info(r)) && Emitters(s, s.statuses[..Position(s.statuses, r)], info) < Min(|s.statuses|, maximum)
    ensures Served(Take(s, info, maximum).gone, r)
  {
    hide Take;
    hide LocalValid;
    var i := Position(s.statuses, r);
    OfIs(s.statuses, i);
    assert At(s, s.statuses[i].recipient).d.recipient == r;
    var g := Emission(At(s, r));
    assert Chosen(s, s.statuses, info, Min(|s.statuses|, maximum), i);
    BatchContents(s, info, maximum, g);
    BatchIsGone(s, info, maximum, g);
  }

  // ------------------------------------------------------------------ whole runs

  datatype Fragment = Fragment(recipient: ParaId, format: Format, data: Bytes)

  /** The operations that touch the outbound half. `Heard` is a signal read from a peer's page. */
  datatype Op =
    | Send(fragment: Fragment, channelMax: Option<nat>)
    | Signalled(note: Note)
    | Heard(note: Note)
    | TakeBatch(info: ChannelInfo, maximum: nat)

  /**
   The stored state together with everything that has happened: accepted fragments, pages that left
   the storage, signals issued and heard, and the peers for which a channel-state assertion fired.
   */
  datatype Trace = Trace(s: Outbound, accepted: seq<Fragment>, gone: seq<Gone>,
                         issued: seq<Note>, heard: seq<Note>, alarms: seq<ParaId>)

  const Genesis := Trace(Outbound([], map[], map[]), [], [], [], [], [])

  /** The assertion in `suspend_channel` and `resume_channel` about the state the channel is in. */
  predicate StateExpected(s: Outbound, n: Note) {
    if n.signal.Suspend? then Of(s.statuses, n.peer).state.Ok? else Of(s.statuses, n.peer).state.Suspended?
  }

  function Step(t: Trace, op: Op): Trace {
    match op
    case Send(f, max) =>
      var (s', result) := SendFragment(t.s, f.recipient, f.format, f.data, max);
      t.(s := s', accepted := if result.Sent? then t.accepted + [f] else t.accepted)
    case Signalled(n) => t.(s := SendSignal(t.s, n.peer, n.signal), issued := t.issued + [n])
    case Heard(n) =>
      t.(s := if n.signal.Suspend? then SuspendChannel(t.s, n.peer) else ResumeChannel(t.s, n.peer),
         heard := t.heard + [n],
         alarms := if StateExpected(t.s, n) then t.alarms else t.alarms + [n.peer])
    case TakeBatch(info, maximum) =>
      // A panic rejects the block and leaves the state as it was.
      match Take(t.s, info, maximum)
      case Panics => t
      case Taken(s', _, gone) => t.(s := s', gone := t.gone + gone)
  }

  lemma StepGone(t: Trace, op: Op)
    ensures t.gone <= Step(t, op).gone
  {
  }

  function Run(t: Trace, ops: seq<Op>): (t': Trace)
    ensures t.gone <= t'.gone
    decreases |ops|
  {
    if ops == [] then t
    else
      StepGone(t, ops[0]);
      Run(Step(t, ops[0]), ops[1..])
  }

  /** Fragments carry a data format, and no page counter wraps. */
  ghost predicate Sound(t: Trace, op: Op) {
    op.Send? ==>
      var f := op.fragment;
      !f.format.Signals? && !Wraps(t.s, f.recipient, f.format, f.data, op.channelMax)
  }

  ghost predicate SoundRun(t: Trace, ops: seq<Op>)
    decreases |ops|
  {
    ops == [] || (Sound(t, ops[0]) && SoundRun(Step(t, ops[0]), ops[1..]))
  }

  // ---- what one step does to one recipient ----

  lemma SendEffect(t: Trace, f: Fragment, max: Option<nat>, r: ParaId)
    requires Unique(t.s.statuses)
    ensures var t' := Step(t, Send(f, max)); var took := max.Some? && |f.data| <= max.value;
            && t' == t.(s := t'.s, accepted := t'.accepted)
            && t'.accepted == (if took then t.accepted + [f] else t.accepted)
            && At(t'.s, r) == if took && f.recipient == r then SendLocal(At(t.s, r), f.format, f.data, max.value) else At(t.s, r)
  {
    if max.Some? && |f.data| <= max.value {
      hide SendLocal;
      var l := SendLocal(At(t.s, f.recipient), f.format, f.data, max.value);
      assert l.d.recipient == f.recipient by { SendLocalRecipient(At(t.s, f.recipient), f.format, f.data, max.value); }
      AtUpdate(t.s, l);
    }
  }

  lemma SendLocalRecipient(l: Local, f: Format, data: Bytes, max: nat)
    ensures SendLocal(l, f, data, max).d.recipient == l.d.recipient
    ensures SendLocal(l, f, data, max).d.state == l.d.state && SendLocal(l, f, data, max).signal == l.signal
    ensures SendLocal(l, f, data, max).d.signalsExist == l.d.signalsExist
  {
  }

  lemma SignalEffect(t: Trace, n: Note, r: ParaId)
    requires Unique(t.s.statuses)
    ensures var t' := Step(t, Signalled(n));
            && t' == t.(s := t'.s, issued := t.issued + [n])
            && At(t'.s, r) == if n.peer == r then SignalLocal(At(t.s, r), n.signal) else At(t.s, r)
  {
    AtUpdate(t.s, SignalLocal(At(t.s, n.peer), n.signal));
  }

  lemma HeardEffect(t: Trace, n: Note, r: ParaId)
    requires Valid(t.s)
    ensures var t' := Step(t, Heard(n)); var l := At(t.s, r);
            && t' == t.(s := t'.s, heard := t.heard + [n],
                        alarms := if StateExpected(t.s, n) then t.alarms else t.alarms + [n.peer])
            && At(t'.s, r) == if n.peer != r then l
                              else if n.signal.Suspend? then l.(d := l.d.(state := Suspended)) else ResumeLocal(l)
  {
    hide Valid;
    if n.signal.Suspend? {
      assert Unique(t.s.statuses) by { ValidUnique(t.s); }
      AtUpdate(t.s, At(t.s, n.peer).(d := Of(t.s.statuses, n.peer).(state := Suspended)));
    } else {
      ResumeAt(t.s, n.peer);
    }
  }

  lemma ValidUnique(s: Outbound)
    requires Valid(s)
    ensures Unique(s.statuses)
  {
  }

  lemma ValidAt(s: Outbound, r: ParaId)
    requires Valid(s)
    ensures LocalValid(At(s, r))
  {
  }

  lemma StepKeepsValid(t: Trace, op: Op)
    requires Valid(t.s) && Sound(t, op)
    ensures Valid(Step(t, op).s)
  {
    match op
    case Send(f, max) => SendKeepsValidIff(t.s, f.recipient, f.format, f.data, max);
    case Signalled(n) => SignalKeepsValid(t.s, n.peer, n.signal);
    case Heard(n) => SuspendKeepsValid(t.s, n.peer); ResumeKeepsValid(t.s, n.peer);
    case TakeBatch(info, maximum) =>
      if Take(t.s, info, maximum).Taken? { TakeKeepsValid(t.s, info, maximum); }
  }

  /** In every reachable state the stored keys are exactly the windows of unique, non-idle statuses. */
  lemma {:induction false} ReachableValid(t: Trace, ops: seq<Op>)
    requires Valid(t.s) && SoundRun(t, ops)
    ensures Valid(Run(t, ops).s)
    decreases |ops|
  {
    if ops != [] {
      StepKeepsValid(t, ops[0]);
      ReachableValid(Step(t, ops[0]), ops[1..]);
    }
  }

  // ---- starvation over runs ----

  /**
   A run in which `r` is not held up by its own channel: every batch has at least `m` places, is built
   without a panic and finds `r` able to send, and no Resume removes the status of `r`, which it does
   only while `r` has no data pages. Anything may be sent and heard, and other channels may be suspended,
   full, closed or oversize.
   */
  ghost predicate OpenRun(t: Trace, ops: seq<Op>, r: ParaId, m: nat)
    decreases |ops|
  {
    ops == [] ||
    (&& Sound(t, ops[0])
     && (ops[0].TakeBatch? ==>
           ops[0].maximum >= m && Take(t.s, ops[0].info, ops[0].maximum).Taken? && WillEmit(At(t.s, r), ops[0].info(r)))
     && (ops[0].Heard? && ops[0].note == Note(r, Resume) ==> Queue(At(t.s, r)) != [])
     && OpenRun(Step(t, ops[0]), ops[1..], r, m))
  }

  function Batches(ops: seq<Op>): nat {
    if ops == [] then 0 else (if ops[0].TakeBatch? then 1 else 0) + Batches(ops[1..])
  }

  /** Removing another entry moves a channel up by one place or not at all. */
  lemma RemovedPosition(st: seq<Details>, k: nat, r: ParaId)
    requires Unique(st) && k < |st| && st[k].recipient != r && Position(st, r) < |st|
    ensures var st' := st[..k] + st[k + 1..]; Position(st', r) < |st'| && Position(st', r) <= Position(st, r)
  {
    var st', i := st[..k] + st[k + 1..], Position(st, r);
    if i < k { assert st'[i] == st[i]; } else { assert st'[i - 1] == st[i]; }
  }

  lemma PutPosition(st: seq<Details>, d: Details, r: ParaId)
    requires Unique(st) && Position(st, r) < |st|
    ensures var st' := Put(st, d); Position(st', r) < |st'| && Position(st', r) == Position(st, r)
  {
    PutOf(st, d);
  }

  /** Nothing but a batch moves a channel back, and only its own Resume can remove it. */
  lemma StepKeepsPlace(t: Trace, op: Op, r: ParaId)
    requires Valid(t.s) && !op.TakeBatch? && Position(t.s.statuses, r) < |t.s.statuses|
    requires op.Heard? && op.note == Note(r, Resume) ==> Queue(At(t.s, r)) != []
    ensures var st := Step(t, op).s.statuses; Position(st, r) < |st| && Position(st, r) <= Position(t.s.statuses, r)
  {
    hide Position;
    hide SendLocal;
    var st := t.s.statuses;
    match op
    case Send(f, max) =>
      if max.Some? && |f.data| <= max.value {
        PutPosition(st, SendLocal(At(t.s, f.recipient), f.format, f.data, max.value).d, r);
      }
    case Signalled(n) => PutPosition(st, SignalLocal(At(t.s, n.peer), n.signal).d, r);
    case Heard(n) =>
      if n.signal.Suspend? {
        PutPosition(st, Of(st, n.peer).(state := Suspended), r);
      } else {
        hide Valid;
        ValidUnique(t.s);
        ResumeKeepsPlace(t.s, n.peer, r);
      }
  }

  lemma ResumeKeepsPlace(s: Outbound, q: ParaId, r: ParaId)
    requires Unique(s.statuses) && Position(s.statuses, r) < |s.statuses| && (q == r ==> Queue(At(s, r)) != [])
    ensures var st := ResumeChannel(s, q).statuses; Position(st, r) < |st| && Position(st, r) <= Position(s.statuses, r)
  {
    var st, k := s.statuses, Position(s.statuses, q);
    if k < |st| {
      hide Position;
      if st[k].firstIndex == st[k].lastIndex {
        if q == r { NoData(s, r); } else { RemovedPosition(st, k, r); }
      } else {
        SamePlaces(st, st[k := st[k].(state := Ok)], r);
      }
    }
  }

  lemma NoData(s: Outbound, r: ParaId)
    requires Position(s.statuses, r) < |s.statuses| && Queue(At(s, r)) != []
    ensures s.statuses[Position(s.statuses, r)].firstIndex != s.statuses[Position(s.statuses, r)].lastIndex
  {
  }

  lemma {:induction false} SamePlaces(a: seq<Details>, b: seq<Details>, r: ParaId)
    requires |a| == |b| && forall i :: 0 <= i < |a| ==> a[i].recipient == b[i].recipient
    ensures Position(a, r) == Position(b, r)
  {
    if a != [] && a[0].recipient != r {
      assert forall i :: 0 <= i < |a[1..]| ==> a[1..][i].recipient == b[1..][i].recipient;
      SamePlaces(a[1..], b[1..], r);
    }
  }

  lemma OneTurn(b: nat, m: nat)
    ensures (1 + b) * m == b * m + m
  {
  }

  lemma ServedLater(all: seq<Gone>, a: nat, b: nat, r: ParaId)
    requires a <= b <= |all| && Served(all[b..], r)
    ensures Served(all[a..], r)
  {
    var g :| g in all[b..] && g.recipient == r && g.fate.Emitted?;
    assert all[b..] == all[a..][b - a..];
  }

  lemma ServedNow(before: seq<Gone>, now: seq<Gone>, all: seq<Gone>, r: ParaId)
    requires before + now <= all && Served(now, r)
    ensures Served(all[|before|..], r)
  {
    var g :| g in now && g.recipient == r && g.fate.Emitted?;
    var i :| 0 <= i < |now| && now[i] == g;
    assert all[|before|..][i] == (before + now)[|before| + i] == g;
  }

  lemma {:induction false} ServedInTurn(t: Trace, ops: seq<Op>, r: ParaId, m: nat)
    requires Valid(t.s) && m >= 1 && OpenRun(t, ops, r, m)
    requires Position(t.s.statuses, r) < |t.s.statuses|
    requires Batches(ops) * m > Position(t.s.statuses, r)
    ensures Served(Run(t, ops).gone[|t.gone|..], r)
    decreases |ops|
  {
    hide Take;
    hide Valid;
    hide WillEmit;
    hide Served;
    hide Sound;
    hide Position;
    assert ops != [];
    var op, i, all := ops[0], Position(t.s.statuses, r), Run(t, ops).gone;
    var t' := Step(t, op);
    StepKeepsValid(t, op);
    StepGone(t, op);
    if op.TakeBatch? {
      TakeServesOrAdvances(t.s, op.info, op.maximum, r);
      var now := Take(t.s, op.info, op.maximum).gone;
      if Served(now, r) {
        ServedNow(t.gone, now, all, r);
        return;
      }
      OneTurn(Batches(ops[1..]), m);
    } else {
      StepKeepsPlace(t, op, r);
    }
    hide Step;
    ServedInTurn(t', ops[1..], r, m);
    ServedLater(all, |t.gone|, |t'.gone|, r);
  }

  lemma EnoughTurns(i: nat, m: nat, b: nat)
    requires m >= 1 && b >= i / m + 1
    ensures b * m > i
  {
    var q := i / m;
    assert i == q * m + i % m && i % m < m;
    assert (q + 1) * m == q * m + m;
    assert b * m >= (q + 1) * m by { assert (b - (q + 1)) * m >= 0; }
  }

  /**
   No starvation: a channel at position `i` that can send gets a page into one of the next `i / m + 1`
   batches of at least `m` places, whatever is sent, signalled and heard in between and whatever
   state the other channels are in.
   */
  lemma NoStarvation(t: Trace, ops: seq<Op>, r: ParaId, m: nat)
    requires Valid(t.s) && m >= 1 && OpenRun(t, ops, r, m)
    requires Position(t.s.statuses, r) < |t.s.statuses|
    requires Batches(ops) >= Position(t.s.statuses, r) / m + 1
    ensures Served(Run(t, ops).gone[|t.gone|..], r)
  {
    EnoughTurns(Position(t.s.statuses, r), m, Batches(ops));
    ServedInTurn(t, ops, r, m);
  }

  // ------------------------------------------------------------------ pages refine a flat queue

  /** A page is a format byte followed by the fragments packed into it. */
  datatype Group = Group(format: Format, frags: seq<Bytes>)

  function PageOf(g: Group): Bytes { [FormatByte(g.format)] + Concat(g.frags) }

  function PagesOf(gs: seq<Group>): seq<Bytes> {
    seq(|gs|, i requires 0 <= i < |gs| => PageOf(gs[i]))
  }

  function FragmentsOf(r: ParaId, g: Group): seq<Fragment> {
    seq(|g.frags|, i requires 0 <= i < |g.frags| => Fragment(r, g.format, g.frags[i]))
  }

  function Unpack(r: ParaId, gs: seq<Group>): seq<Fragment> {
    if gs == [] then [] else Unpack(r, gs[..|gs| - 1]) + FragmentsOf(r, gs[|gs| - 1])
  }

  /** `pages` are consecutive non-empty runs of same-format fragments of `frags`, in order and complete. */
  ghost predicate Packs(r: ParaId, pages: seq<Bytes>, frags: seq<Fragment>) {
    exists gs: seq<Group> ::
      PagesOf(gs) == pages && Unpack(r, gs) == frags && forall g :: g in gs ==> g.frags != [] && !g.format.Signals?
  }

  lemma PackNew(r: ParaId, pages: seq<Bytes>, frags: seq<Fragment>, f: Format, data: Bytes)
    requires Packs(r, pages, frags) && !f.Signals?
    ensures Packs(r, pages + [[FormatByte(f)] + data], frags + [Fragment(r, f, data)])
  {
    var gs: seq<Group> :| PagesOf(gs) == pages && Unpack(r, gs) == frags && forall g :: g in gs ==> g.frags != [] && !g.format.Signals?;
    var g := Group(f, [data]);
    assert Concat([data]) == data by { ConcatSnoc([], data); assert [] + [data] == [data]; assert Concat<byte>([]) + data == data; }
    var gs' := gs + [g];
    assert gs'[..|gs|] == gs;
    assert PagesOf(gs') == pages + [PageOf(g)];
    assert FragmentsOf(r, g) == [Fragment(r, f, data)];
    assert Unpack(r, gs') == frags + [Fragment(r, f, data)];
  }

  lemma PackExtend(r: ParaId, pages: seq<Bytes>, frags: seq<Fragment>, f: Format, data: Bytes)
    requires Packs(r, pages, frags) && pages != [] && DecodeFormat(pages[|pages| - 1]) == Some(f)
    ensures Packs(r, pages[|pages| - 1 := pages[|pages| - 1] + data], frags + [Fragment(r, f, data)])
  {
    var gs: seq<Group> :| PagesOf(gs) == pages && Unpack(r, gs) == frags && forall g :: g in gs ==> g.frags != [] && !g.format.Signals?;
    var n := |gs| - 1;
    var g := gs[n];
    assert pages[n] == PageOf(g);
    assert g.format == f;
    var g' := Group(f, g.frags + [data]);
    ConcatSnoc(g.frags, data);
    assert PageOf(g') == pages[n] + data;
    var gs' := gs[n := g'];
    assert gs'[..n] == gs[..n];
    assert PagesOf(gs') == pages[n := pages[n] + data];
    assert FragmentsOf(r, g') == FragmentsOf(r, g) + [Fragment(r, f, data)];
    assert Unpack(r, gs') == frags + [Fragment(r, f, data)];
    assert g in gs;
    forall h | h in gs' ensures h.frags != [] && !h.format.Signals? { assert h in gs || h == g'; }
  }

  function IsData(): Gone -> bool { (g: Gone) => !g.signal }
  function IsSignal(): Gone -> bool { (g: Gone) => g.signal }
  function IsTo(r: ParaId): Fragment -> bool { (f: Fragment) => f.recipient == r }

  function PageList(gone: seq<Gone>): (p: seq<Bytes>)
    ensures |p| == |gone| && forall i :: 0 <= i < |p| ==> p[i] == gone[i].page
  {
    seq(|gone|, i requires 0 <= i < |gone| => gone[i].page)
  }

  /** The data pages that left the storage of one recipient, in order. */
  function DataGone(gone: seq<Gone>, r: ParaId): seq<Bytes> {
    PageList(Filter(Filter(gone, IsFor(r)), IsData()))
  }

  lemma SendQueue(l: Local, f: Format, data: Bytes, max: nat)
    requires LocalValid(l) && l.d.lastIndex + 1 < U16
    ensures var q := Queue(l);
            Queue(SendLocal(l, f, data, max)) ==
            if Fits(l, f, data, max) then q[|q| - 1 := q[|q| - 1] + data] else q + [[FormatByte(f)] + data]
  {
    var q, l' := Queue(l), SendLocal(l, f, data, max);
    var q' := Queue(l');
    forall i | 0 <= i < |q| ensures q[i] == Page(l.pages, l.d.firstIndex + i) {}
    forall i | 0 <= i < |q'| ensures q'[i] == Page(l'.pages, l.d.firstIndex + i) {}
  }

  lemma SendQueueFits(l: Local, f: Format, data: Bytes, max: nat)
    requires LocalValid(l) && Fits(l, f, data, max)
    ensures var q := Queue(l);
            |q| > 0 && q[|q| - 1] == Page(l.pages, l.d.lastIndex - 1) &&
            Queue(SendLocal(l, f, data, max)) == q[|q| - 1 := q[|q| - 1] + data]
  {
    var q, l' := Queue(l), SendLocal(l, f, data, max);
    var q' := Queue(l');
    forall i | 0 <= i < |q| ensures q[i] == Page(l.pages, l.d.firstIndex + i) {}
    forall i | 0 <= i < |q'| ensures q'[i] == Page(l'.pages, l.d.firstIndex + i) {}
  }

  lemma SendLastPage(l: Local, f: Format, data: Bytes, max: nat)
    requires LocalValid(l) && |data| <= max && (Fits(l, f, data, max) || l.d.lastIndex + 1 < U16)
    ensures var l' := SendLocal(l, f, data, max); var q := Queue(l');
            && q != [] && l'.d.lastIndex - l'.d.firstIndex == |q| < U16
            && q[|q| - 1] == (if Fits(l, f, data, max) then Page(l.pages, l.d.lastIndex - 1) else [FormatByte(f)]) + data
  {
    if Fits(l, f, data, max) { SendQueueFits(l, f, data, max); } else { SendQueue(l, f, data, max); }
  }

  lemma BelowU16(n: nat)
    requires n < U16
    ensures n % U16 == n
  {
  }

  lemma Tail(a: Bytes, b: Bytes)
    ensures (a + b)[|a|..] == b
  {
  }

  /** An accepted fragment ends the last page of its recipient, and the reported position is that page's place in the queue. */
  lemma SendReportsPosition(s: Outbound, r: ParaId, f: Format, data: Bytes, max: nat)
    requires Valid(s) && |data| <= max && !Wraps(s, r, f, data, Some(max))
    ensures var (s', result) := SendFragment(s, r, f, data, Some(max)); var q := Queue(At(s', r));
            q != [] && result == Sent(|q| - 1) &&
            var page := q[|q| - 1];
            && |page| >= |data| && page[|page| - |data|..] == data
            && |page| <= max + 1
            && (|page| == max + 1 <==> |data| == max && !Fits(At(s, r), f, data, max))
  {
    hide SendLocal;
    hide Queue;
    hide Valid;
    var l := At(s, r);
    ValidAt(s, r);
    ValidUnique(s);
    CounterBelow(l);
    hide LocalValid;
    var l' := SendLocal(l, f, data, max);
    SendLocalRecipient(l, f, data, max);
    AtUpdate(s, l');
    SendLastPage(l, f, data, max);
    BelowU16(|Queue(l')| - 1);
    assert At(SendFragment(s, r, f, data, Some(max)).0, r) == l';
    Tail(if Fits(l, f, data, max) then Page(l.pages, l.d.lastIndex - 1) else [FormatByte(f)], data);
  }

  lemma FitsIs(l: Local, f: Format, data: Bytes, max: nat)
    requires LocalValid(l)
    ensures var q := Queue(l);
            Fits(l, f, data, max) <==> q != [] && q[|q| - 1] != [] && q[|q| - 1][0] == FormatByte(f) && |q[|q| - 1]| + |data| <= max
  {
    if l.d.lastIndex > l.d.firstIndex {
      assert l.d.lastIndex - 1 in l.pages;
      assert Queue(l)[|Queue(l)| - 1] == Page(l.pages, l.d.lastIndex - 1);
    }
  }

  /**
   How fragments are packed, told by the stored pages: the fragment goes to the end of the last page if
   there is one, it opens with the byte of the same format, and it has room; otherwise it opens a page.
   No other page, and nothing of any other recipient, changes.
   */
  lemma FragmentIsPacked(s: Outbound, r: ParaId, f: Format, data: Bytes, max: nat)
    requires Valid(s) && |data| <= max && !Wraps(s, r, f, data, Some(max))
    ensures var s' := SendFragment(s, r, f, data, Some(max)).0; var q, q' := Queue(At(s, r)), Queue(At(s', r)); var n := |q| - 1;
            && (if q != [] && q[n] != [] && q[n][0] == FormatByte(f) && |q[n]| + |data| <= max then q' == q[..n] + [q[n] + data]
                else q' == q + [[FormatByte(f)] + data])
            && Of(s'.statuses, r).state == Of(s.statuses, r).state && Of(s'.statuses, r).signalsExist == Of(s.statuses, r).signalsExist
            && SignalPage(s'.signals, r) == SignalPage(s.signals, r)
            && forall p: ParaId :: p != r ==> At(s', p) == At(s, p)
  {
    hide SendLocal;
    hide Queue;
    hide Valid;
    var l := At(s, r);
    ValidAt(s, r);
    ValidUnique(s);
    CounterBelow(l);
    FitsIs(l, f, data, max);
    var l' := SendLocal(l, f, data, max);
    SendLocalRecipient(l, f, data, max);
    AtUpdate(s, l');
    var s' := SendFragment(s, r, f, data, Some(max)).0;
    assert At(s', r) == l' && Of(s'.statuses, r) == l'.d;
    if Fits(l, f, data, max) { SendQueueFits(l, f, data, max); } else { SendQueue(l, f, data, max); }
  }

  /** Exactly when a fragment is refused, and why; then nothing changes. */
  lemma FragmentRefusedIff(s: Outbound, r: ParaId, f: Format, data: Bytes, channelMax: Option<nat>)
    ensures var (s', result) := SendFragment(s, r, f, data, channelMax);
            && (result == NoChannel <==> channelMax.None?)
            && (result == TooBig <==> channelMax.Some? && |data| > channelMax.value)
            && (!result.Sent? ==> s' == s)
  {
    hide SendLocal;
  }

  lemma ClosedVisitQueue(l: Local)
    requires LocalValid(l) && l.d.state.Ok?
    ensures PageList(Filter(Visit(l, Closed).gone, IsData())) == Queue(l) && Queue(Visit(l, Closed).l) == []
  {
    hide Filter;
    var sw := SwallowAll(l.d.recipient, Queue(l));
    var sig := if l.d.signalsExist then [Gone(l.d.recipient, true, l.signal, Swallowed)] else [];
    FilterAppend(sw, sig, IsData());
    FilterAll(sw, IsData());
    FilterNone(sig, IsData());
    assert sw + [] == sw;
    assert PageList(sw) == Queue(l);
  }

  lemma DataVisitQueue(l: Local, cs: ChannelStatus)
    requires LocalValid(l) && l.d.state.Ok? && cs.Ready? && !l.d.signalsExist && l.d.firstIndex < l.d.lastIndex
    requires |Page(l.pages, l.d.firstIndex)| < cs.now
    ensures Queue(l) == [Page(l.pages, l.d.firstIndex)] + Queue(Visit(l, cs).l)
  {
    var v, first := Visit(l, cs), l.d.firstIndex;
    var q, q' := Queue(l), Queue(v.l);
    if first + 1 < l.d.lastIndex {
      forall i | 0 <= i < |q'| ensures q'[i] == q[i + 1] {
        assert q'[i] == Page(v.l.pages, first + 1 + i) == Page(l.pages, first + (i + 1));
      }
    }
  }

  lemma VisitQueue(l: Local, cs: ChannelStatus)
    requires LocalValid(l)
    ensures PageList(Filter(Visit(l, cs).gone, IsData())) + Queue(Visit(l, cs).l) == Queue(l)
  {
    var v := Visit(l, cs);
    if l.d.state.Ok? && cs.Closed? {
      ClosedVisitQueue(l);
    } else if v.gone == [] {
      assert Queue(v.l) == Queue(l);
    } else {
      hide Filter;
      FilterOne(v.gone[0], IsData());
      assert v.gone == [v.gone[0]];
      if l.d.signalsExist {
        assert Queue(v.l) == Queue(l);
      } else {
        DataVisitQueue(l, cs);
      }
    }
  }

  /** The flat view of one recipient: pages gone and pages stored pack exactly the accepted fragments. */
  ghost predicate Refines(t: Trace, r: ParaId) {
    Packs(r, DataGone(t.gone, r) + Queue(At(t.s, r)), Filter(t.accepted, IsTo(r)))
  }

  lemma AcceptRefines(r: ParaId, gone: seq<Bytes>, l: Local, frags: seq<Fragment>, f: Format, data: Bytes, max: nat)
    requires LocalValid(l) && !f.Signals? && (Fits(l, f, data, max) || l.d.lastIndex + 1 < U16)
    requires Packs(r, gone + Queue(l), frags)
    ensures Packs(r, gone + Queue(SendLocal(l, f, data, max)), frags + [Fragment(r, f, data)])
  {
    hide Packs;
    var p, q' := gone + Queue(l), Queue(SendLocal(l, f, data, max));
    if Fits(l, f, data, max) {
      SendQueueFits(l, f, data, max);
      PackExtend(r, p, frags, f, data);
      assert p[|p| - 1 := p[|p| - 1] + data] == gone + q';
    } else {
      SendQueue(l, f, data, max);
      PackNew(r, p, frags, f, data);
      assert p + [[FormatByte(f)] + data] == gone + q';
    }
  }

  lemma SendRefines(t: Trace, f: Fragment, max: Option<nat>, r: ParaId)
    requires Valid(t.s) && Sound(t, Send(f, max)) && Refines(t, r)
    ensures Refines(Step(t, Send(f, max)), r)
  {
    hide Step;
    hide Packs;
    hide Queue;
    hide SendLocal;
    hide DataGone;
    hide Filter;
    hide LocalValid;
    SendEffect(t, f, max, r);
    FilterSnocIs(t.accepted, f, IsTo(r));
    if max.Some? && |f.data| <= max.value && f.recipient == r {
      ValidAt(t.s, r);
      AcceptRefines(r, DataGone(t.gone, r), At(t.s, r), Filter(t.accepted, IsTo(r)), f.format, f.data, max.value) by {
        ValidAt(t.s, r);
        CounterBelow(At(t.s, r));
      }
    }
  }

  lemma CounterBelow(l: Local)
    requires LocalValid(l)
    ensures l.d.lastIndex < U16
  {
  }

  lemma DataGoneAppend(a: seq<Gone>, b: seq<Gone>, r: ParaId)
    ensures DataGone(a + b, r) == DataGone(a, r) + PageList(Filter(Filter(b, IsFor(r)), IsData()))
  {
    FilterAppend(a, b, IsFor(r));
    FilterAppend(Filter(a, IsFor(r)), Filter(b, IsFor(r)), IsData());
  }

  lemma TakenQueue(s: Outbound, info: ChannelInfo, s': Outbound, gone: seq<Gone>, r: ParaId)
    requires LocalValid(At(s, r)) && TakesAt(s, info, s', gone, r)
    ensures PageList(Filter(Filter(gone, IsFor(r)), IsData())) + Queue(At(s', r)) == Queue(At(s, r))
  {
    hide Visit;
    VisitQueue(At(s, r), info(r));
  }

  lemma TakeRefines(t: Trace, info: ChannelInfo, maximum: nat, r: ParaId)
    requires Valid(t.s) && Refines(t, r)
    ensures Refines(Step(t, TakeBatch(info, maximum)), r)
  {
    hide Take;
    hide Packs;
    hide DataGone;
    hide TakesAt;
    var result := Take(t.s, info, maximum);
    if result.Taken? {
      TakeAt(t.s, info, maximum, r);
      assert LocalValid(At(t.s, r));
      TakenQueue(t.s, info, result.s, result.gone, r);
      DataGoneAppend(t.gone, result.gone, r);
      var left := PageList(Filter(Filter(result.gone, IsFor(r)), IsData()));
      assert DataGone(t.gone, r) + left + Queue(At(result.s, r)) == DataGone(t.gone, r) + (left + Queue(At(result.s, r)));
    }
  }

  lemma QuietRefines(t: Trace, op: Op, r: ParaId)
    requires Valid(t.s) && Refines(t, r) && (op.Signalled? || op.Heard?)
    ensures Refines(Step(t, op), r)
  {
    hide Step;
    hide Packs;
    hide DataGone;
    hide Filter;
    if op.Signalled? { SignalEffect(t, op.note, r); } else { HeardEffect(t, op.note, r); }
    assert Queue(At(Step(t, op).s, r)) == Queue(At(t.s, r));
  }

  /**
   The paged queue refines a flat one: over every run, for every recipient, the pages that left
   (emitted, dropped as oversize or swallowed on close) followed by the pages still stored are the
   accepted fragments, each exactly once, in the order they were sent.
   */
  lemma {:induction false} OutboundRefinesFlatQueue(t: Trace, ops: seq<Op>, r: ParaId)
    requires Valid(t.s) && SoundRun(t, ops) && Refines(t, r)
    ensures Refines(Run(t, ops), r)
    decreases |ops|
  {
    if ops != [] {
      var op := ops[0];
      match op {
        case Send(f, max) => SendRefines(t, f, max, r);
        case TakeBatch(info, maximum) => TakeRefines(t, info, maximum, r);
        case _ => QuietRefines(t, op, r);
      }
      StepKeepsValid(t, op);
      OutboundRefinesFlatQueue(Step(t, op), ops[1..], r);
    }
  }

  lemma GenesisRefines(r: ParaId)
    ensures Valid(Genesis.s) && Refines(Genesis, r)
  {
    var gs: seq<Group> := [];
    assert PagesOf(gs) == [] && Unpack(r, gs) == [];
    assert Queue(At(Genesis.s, r)) == [];
    assert DataGone([], r) == [];
    assert DataGone(Genesis.gone, r) + Queue(At(Genesis.s, r)) == [];
  }

  /** Every fragment accepted since genesis was emitted or is still stored, unless a page of that channel was lost. */
  lemma NothingLostWithoutDrops(ops: seq<Op>, r: ParaId)
    requires SoundRun(Genesis, ops)
    requires forall g :: g in Run(Genesis, ops).gone && g.recipient == r ==> g.fate.Emitted?
    ensures var t := Run(Genesis, ops);
            Packs(r, PageList(Filter(Filter(Filter(t.gone, IsEmitted()), IsFor(r)), IsData())) + Queue(At(t.s, r)), Filter(t.accepted, IsTo(r)))
  {
    GenesisRefines(r);
    OutboundRefinesFlatQueue(Genesis, ops, r);
    EmittedOnly(Run(Genesis, ops).gone, r);
  }

  lemma {:induction false} EmittedOnly(gone: seq<Gone>, r: ParaId)
    requires forall g :: g in gone && g.recipient == r ==> g.fate.Emitted?
    ensures Filter(Filter(gone, IsEmitted()), IsFor(r)) == Filter(gone, IsFor(r))
  {
    if gone != [] {
      EmittedOnly(gone[1..], r);
      assert gone[0] in gone;
    }
  }

  // ------------------------------------------------------------------ the forgotten format byte

  /** The maximum message size of the channel to `r` stays at most `max`. */
  ghost predicate MaximumStays(ops: seq<Op>, r: ParaId, max: nat) {
    forall i :: 0 <= i < |ops| && ops[i].TakeBatch? && ops[i].info(r).Ready? ==> ops[i].info(r).ever <= max
  }

  lemma EmittedFits(s: Outbound, info: ChannelInfo, maximum: nat, g: Gone)
    requires Valid(s) && Take(s, info, maximum).Taken? && g in Take(s, info, maximum).gone && g.fate.Emitted?
    ensures info(g.recipient).Ready? && |g.page| <= info(g.recipient).ever
  {
    hide Take;
    var gone := Take(s, info, maximum).gone;
    TakeAt(s, info, maximum, g.recipient);
    FilterMember(gone, IsFor(g.recipient), g);
    VisitEmission(At(s, g.recipient), info(g.recipient));
  }

  /** Every page emitted to `r` since `from` is at most `max` long. */
  ghost predicate Fitting(gone: seq<Gone>, from: nat, r: ParaId, max: nat) {
    forall i :: from <= i < |gone| && gone[i].recipient == r && gone[i].fate.Emitted? ==> |gone[i].page| <= max
  }

  lemma StepFits(t: Trace, op: Op, r: ParaId, max: nat)
    requires Valid(t.s) && (op.TakeBatch? && op.info(r).Ready? ==> op.info(r).ever <= max)
    ensures Fitting(Step(t, op).gone, |t.gone|, r, max)
  {
    hide Valid;
    if op.TakeBatch? && Take(t.s, op.info, op.maximum).Taken? {
      hide Take;
      var now := Take(t.s, op.info, op.maximum).gone;
      var all := t.gone + now;
      forall i | |t.gone| <= i < |all| && all[i].recipient == r && all[i].fate.Emitted? ensures |all[i].page| <= max {
        assert all[i] == now[i - |t.gone|];
        EmittedFits(t.s, op.info, op.maximum, all[i]);
      }
    }
  }

  lemma FittingJoins(some: seq<Gone>, all: seq<Gone>, from: nat, r: ParaId, max: nat)
    requires from <= |some| && some <= all && Fitting(some, from, r, max) && Fitting(all, |some|, r, max)
    ensures Fitting(all, from, r, max)
  {
    forall i | from <= i < |all| && all[i].recipient == r && all[i].fate.Emitted? ensures |all[i].page| <= max {
      if i < |some| { assert all[i] == some[i]; }
    }
  }

  lemma {:induction false} OnlyFittingPagesLeave(t: Trace, ops: seq<Op>, r: ParaId, max: nat)
    requires Valid(t.s) && SoundRun(t, ops) && MaximumStays(ops, r, max)
    ensures Fitting(Run(t, ops).gone, |t.gone|, r, max)
    decreases |ops|
  {
    if ops != [] {
      hide Step;
      hide Valid;
      hide Fitting;
      hide Sound;
      var op, t' := ops[0], Step(t, ops[0]);
      StepKeepsValid(t, op);
      StepGone(t, op);
      StepFits(t, op, r, max);
      forall j | 0 <= j < |ops[1..]| && ops[1..][j].TakeBatch? && ops[1..][j].info(r).Ready? ensures ops[1..][j].info(r).ever <= max {
        assert ops[1..][j] == ops[j + 1];
      }
      OnlyFittingPagesLeave(t', ops[1..], r, max);
      FittingJoins(t'.gone, Run(t, ops).gone, |t.gone|, r, max);
    }
  }

  lemma {:induction false} PartIsShorter(parts: seq<Bytes>, i: nat)
    requires i < |parts|
    ensures |parts[i]| <= |Concat(parts)|
  {
    if i > 0 { PartIsShorter(parts[1..], i - 1); }
  }

  /**
   The size check forgets the format byte. A fragment of exactly the channel's maximum is accepted, but
   over every run during which the maximum does not grow no page that holds such a fragment is emitted,
   whatever else was packed with it.
   */
  lemma FullSizeFragmentIsNeverEmitted(t: Trace, ops: seq<Op>, f: Fragment, g: Gone, page: Group)
    requires Valid(t.s) && SoundRun(t, ops) && MaximumStays(ops, f.recipient, |f.data|)
    ensures SendFragment(t.s, f.recipient, f.format, f.data, Some(|f.data|)).1.Sent?
    ensures g in Run(t, ops).gone[|t.gone|..] && g.recipient == f.recipient && g.fate.Emitted? && g.page == PageOf(page) ==>
              f.data !in page.frags
  {
    hide Valid;
    hide SoundRun;
    hide Run;
    var all := Run(t, ops).gone;
    if g in all[|t.gone|..] && g.recipient == f.recipient && g.fate.Emitted? && g.page == PageOf(page) {
      OnlyFittingPagesLeave(t, ops, f.recipient, |f.data|);
      var i :| 0 <= i < |all| - |t.gone| && all[|t.gone|..][i] == g;
      assert all[|t.gone| + i] == g;
      forall i | 0 <= i < |page.frags| ensures page.frags[i] != f.data { PartIsShorter(page.frags, i); }
    }
  }

  // ------------------------------------------------------------------ signals are conserved

  function Payload(p: Bytes): Bytes { if p == [] then [] else p[1..] }

  function SignalBytes(gone: seq<Gone>): Bytes {
    if gone == [] then [] else Payload(gone[0].page) + SignalBytes(gone[1..])
  }

  lemma {:induction false} SignalBytesAppend(a: seq<Gone>, b: seq<Gone>)
    ensures SignalBytes(a + b) == SignalBytes(a) + SignalBytes(b)
  {
    hide Payload;
    if a == [] {
      assert a + b == b;
      assert [] + SignalBytes(b) == SignalBytes(b);
    } else {
      SignalBytesAppend(a[1..], b);
      assert (a + b)[0] == a[0] && (a + b)[1..] == a[1..] + b;
      Associative(Payload(a[0].page), SignalBytes(a[1..]), SignalBytes(b));
    }
  }

  function SignalsGone(gone: seq<Gone>, r: ParaId): Bytes {
    SignalBytes(Filter(Filter(gone, IsFor(r)), IsSignal()))
  }

  /** Signals that left followed by those in the signal page are those issued. */
  ghost predicate SignalsConserved(t: Trace, r: ParaId) {
    SignalsGone(t.gone, r) + Payload(SignalPage(t.s.signals, r)) == EncodeSignals(SignalsWith(t.issued, r))
  }

  lemma VisitSignals(l: Local, cs: ChannelStatus)
    requires LocalValid(l)
    ensures SignalBytes(Filter(Visit(l, cs).gone, IsSignal())) + Payload(Visit(l, cs).l.signal) == Payload(l.signal)
  {
    var v := Visit(l, cs);
    if l.d.state.Ok? && cs.Closed? {
      var sw := SwallowAll(l.d.recipient, Queue(l));
      var sig := if l.d.signalsExist then [Gone(l.d.recipient, true, l.signal, Swallowed)] else [];
      FilterAppend(sw, sig, IsSignal());
      FilterNone(sw, IsSignal());
      FilterAll(sig, IsSignal());
      assert [] + sig == sig;
      if l.d.signalsExist { assert sig[1..] == []; assert SignalBytes(sig) == Payload(l.signal) + []; }
    } else if v.gone == [] {
    } else if l.d.signalsExist {
      assert v.gone[1..] == [];
      assert Filter(v.gone, IsSignal()) == v.gone;
      assert SignalBytes(v.gone) == Payload(l.signal) + [];
    } else {
      assert v.gone[1..] == [];
      assert Filter(v.gone, IsSignal()) == [];
    }
  }

  lemma TakenSignals(s: Outbound, info: ChannelInfo, s': Outbound, gone: seq<Gone>, r: ParaId)
    requires LocalValid(At(s, r)) && TakesAt(s, info, s', gone, r)
    ensures SignalsGone(gone, r) + Payload(At(s', r).signal) == Payload(At(s, r).signal)
  {
    hide Visit;
    VisitSignals(At(s, r), info(r));
  }

  lemma SignalsGoneAppend(a: seq<Gone>, b: seq<Gone>, r: ParaId)
    ensures SignalsGone(a + b, r) == SignalsGone(a, r) + SignalsGone(b, r)
  {
    FilterAppend(a, b, IsFor(r));
    FilterAppend(Filter(a, IsFor(r)), Filter(b, IsFor(r)), IsSignal());
    SignalBytesAppend(Filter(Filter(a, IsFor(r)), IsSignal()), Filter(Filter(b, IsFor(r)), IsSignal()));
  }

  lemma TakeConservesSignals(t: Trace, info: ChannelInfo, maximum: nat, r: ParaId)
    requires Valid(t.s) && SignalsConserved(t, r)
    ensures SignalsConserved(Step(t, TakeBatch(info, maximum)), r)
  {
    hide Take;
    hide SignalsGone;
    hide TakesAt;
    hide SignalsWith;
    hide EncodeSignals;
    hide LocalValid;
    hide Payload;
    var result := Take(t.s, info, maximum);
    if result.Taken? {
      TakeAt(t.s, info, maximum, r);
      assert LocalValid(At(t.s, r));
      TakenSignals(t.s, info, result.s, result.gone, r);
      SignalsGoneAppend(t.gone, result.gone, r);
      var left := SignalsGone(result.gone, r);
      assert SignalsGone(t.gone, r) + left + Payload(At(result.s, r).signal)
          == SignalsGone(t.gone, r) + (left + Payload(At(result.s, r).signal));
    }
  }

  lemma IssueConservesSignals(t: Trace, n: Note, r: ParaId)
    requires Valid(t.s) && SignalsConserved(t, r)
    ensures SignalsConserved(Step(t, Signalled(n)), r)
  {
    hide Step;
    hide SignalsGone;
    hide SignalsWith;
    hide EncodeSignals;
    SignalEffect(t, n, r);
    SignalsWithSnoc(t.issued, n, r);
    if n.peer == r {
      var before := Payload(At(t.s, r).signal);
      assert Payload(SignalLocal(At(t.s, r), n.signal).signal) == before + [SignalByte(n.signal)];
      EncodeSignalsAppend(SignalsWith(t.issued, r), [n.signal]);
      OneSignal(n.signal);
      assert SignalsGone(t.gone, r) + (before + [SignalByte(n.signal)]) == SignalsGone(t.gone, r) + before + [SignalByte(n.signal)];
    }
    assert At(Step(t, Signalled(n)).s, r).signal == SignalPage(Step(t, Signalled(n)).s.signals, r);
  }

  lemma OneSignal(sig: Signal)
    ensures EncodeSignals([sig]) == [SignalByte(sig)]
  {
  }

  lemma StepConservesSignals(t: Trace, op: Op, r: ParaId)
    requires Valid(t.s) && SignalsConserved(t, r)
    ensures SignalsConserved(Step(t, op), r)
  {
    hide Step;
    hide SignalsGone;
    hide SignalsWith;
    hide EncodeSignals;
    match op {
      case Send(f, max) =>
        SendEffect(t, f, max, r);
        if max.Some? { SendLocalRecipient(At(t.s, r), f.format, f.data, max.value); }
        assert At(Step(t, op).s, r).signal == SignalPage(t.s.signals, r);
      case Signalled(n) => IssueConservesSignals(t, n, r);
      case Heard(n) =>
        HeardEffect(t, n, r);
        assert At(Step(t, op).s, r).signal == SignalPage(t.s.signals, r);
      case TakeBatch(info, maximum) => TakeConservesSignals(t, info, maximum, r);
    }
  }

  /** Over every run: the signals that left for a peer, then those still pending, are those issued to it. */
  lemma {:induction false} SignalsAreConserved(t: Trace, ops: seq<Op>, r: ParaId)
    requires Valid(t.s) && SoundRun(t, ops) && SignalsConserved(t, r)
    ensures SignalsConserved(Run(t, ops), r)
    decreases |ops|
  {
    if ops != [] {
      StepConservesSignals(t, ops[0], r);
      StepKeepsValid(t, ops[0]);
      SignalsAreConserved(Step(t, ops[0]), ops[1..], r);
    }
  }

  // ------------------------------------------------------------------ hearing signals

  /**
   No assertion about the channel of `r` has fired if and only if the signals heard from `r` alternate,
   starting with Suspend; in any case the channel is suspended exactly if the last signal says so.
   */
  ghost predicate Mirrors(t: Trace, r: ParaId) {
    var heard := SignalsWith(t.heard, r);
    && (r !in t.alarms <==> Alternates(heard))
    && (Of(t.s.statuses, r).state.Suspended? <==> heard != [] && heard[|heard| - 1].Suspend?)
  }

  lemma VisitKeepsState(l: Local, cs: ChannelStatus)
    ensures Visit(l, cs).l.d.state == l.d.state
  {
  }

  lemma LastOfAlternating(sigs: seq<Signal>)
    requires Alternates(sigs)
    ensures sigs != [] && sigs[|sigs| - 1].Suspend? <==> |sigs| % 2 == 1
  {
    if sigs != [] { assert sigs[|sigs| - 1] == if (|sigs| - 1) % 2 == 0 then Suspend else Resume; }
  }

  lemma HeardMirrors(t: Trace, n: Note, r: ParaId)
    requires Valid(t.s) && Mirrors(t, r)
    ensures Mirrors(Step(t, Heard(n)), r)
  {
    hide Step;
    hide SignalsWith;
    hide Alternates;
    HeardEffect(t, n, r);
    var heard := SignalsWith(t.heard, r);
    assert Of(Step(t, Heard(n)).s.statuses, r) == At(Step(t, Heard(n)).s, r).d;
    SignalsWithSnoc(t.heard, n, r);
    AlternatesSnoc(heard, n.signal);
    if Alternates(heard) { LastOfAlternating(heard); }
  }

  lemma StepMirrors(t: Trace, op: Op, r: ParaId)
    requires Valid(t.s) && Mirrors(t, r)
    ensures Mirrors(Step(t, op), r)
  {
    hide Visit;
    hide Take;
    hide SignalsWith;
    var t' := Step(t, op);
    match op {
      case Send(f, max) =>
        hide Step;
        SendEffect(t, f, max, r);
        if max.Some? { SendLocalRecipient(At(t.s, r), f.format, f.data, max.value); }
        assert At(t'.s, r).d.state == At(t.s, r).d.state;
      case Signalled(n) =>
        hide Step;
        SignalEffect(t, n, r);
        assert At(t'.s, r).d.state == At(t.s, r).d.state;
      case Heard(n) => HeardMirrors(t, n, r);
      case TakeBatch(info, maximum) =>
        if Take(t.s, info, maximum).Taken? {
          TakeAt(t.s, info, maximum, r);
          VisitKeepsState(At(t.s, r), info(r));
        }
    }
  }

  /**
   Over every run: no channel-state assertion has fired for a peer if and only if its signals alternate
   starting with Suspend, and its channel is suspended exactly if its last signal was Suspend.
   */
  lemma {:induction false} NoAlarmIffAlternating(t: Trace, ops: seq<Op>, r: ParaId)
    requires Valid(t.s) && SoundRun(t, ops) && Mirrors(t, r)
    ensures Mirrors(Run(t, ops), r)
    decreases |ops|
  {
    if ops != [] {
      StepMirrors(t, ops[0], r);
      StepKeepsValid(t, ops[0]);
      NoAlarmIffAlternating(Step(t, ops[0]), ops[1..], r);
    }
  }
}
