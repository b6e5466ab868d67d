/**
 The outbound half of the XCMP queue pallet, as functions on values: fragments are packed into
 pages, pages wait in an index window per recipient, signals wait in one page per recipient, and
 `Take` moves at most one page per channel into the block's batch.
 */
module XcmpOutbound {
  import opened Common
  import opened XcmpFormat

  /** Page indices are unsigned 16-bit numbers. */
  const U16: nat := 65536

  datatype OutboundState = Ok | Suspended

  datatype Details = Details(recipient: ParaId, state: OutboundState, signalsExist: bool,
                             firstIndex: nat, lastIndex: nat)

  datatype Outbound = Outbound(statuses: seq<Details>,
                               pages: DoubleMap,
                               signals: map<ParaId, Bytes>)

  /** What the relay chain currently allows on a channel. */
  datatype ChannelStatus = Closed | Full | Ready(now: nat, ever: nat)

  type ChannelInfo = ParaId -> ChannelStatus

  datatype SendResult = Sent(position: nat) | NoChannel | TooBig

  function NewDetails(r: ParaId): Details { Details(r, Ok, false, 0, 0) }

  // ------------------------------------------------------------------ storage access

  function Position(st: seq<Details>, r: ParaId): (k: nat)
    ensures k <= |st|
    ensures forall i :: 0 <= i < k ==> st[i].recipient != r
    ensures k < |st| ==> st[k].recipient == r
  {
    if st == [] || st[0].recipient == r then 0 else 1 + Position(st[1..], r)
  }

  /** The status of a recipient; a recipient without one is as good as a fresh one. */
  function Of(st: seq<Details>, r: ParaId): Details {
    var k := Position(st, r);
    if k < |st| then st[k] else NewDetails(r)
  }

  /** Overwrites the status of `d.recipient`, or pushes it at the end. */
  function Put(st: seq<Details>, d: Details): seq<Details> {
    var k := Position(st, d.recipient);
    if k < |st| then st[k := d] else st + [d]
  }

  function SignalPage(signals: map<ParaId, Bytes>, r: ParaId): Bytes {
    if r in signals then signals[r] else []
  }

  function StoreSignal(signals: map<ParaId, Bytes>, r: ParaId, page: Bytes): map<ParaId, Bytes> {
    if SignalPage(signals, r) == page then signals
    else if page == [] then signals - {r}
    else signals[r := page]
  }

  // ------------------------------------------------------------------ one channel

  /** Everything stored about one recipient. */
  datatype Local = Local(d: Details, pages: map<nat, Bytes>, signal: Bytes)

  function At(s: Outbound, r: ParaId): Local {
    Local(Of(s.statuses, r), Inner(s.pages, r), SignalPage(s.signals, r))
  }

  function Update(s: Outbound, l: Local): Outbound {
    var r := l.d.recipient;
    Outbound(Put(s.statuses, l.d), StorePages(s.pages, r, l.pages), StoreSignal(s.signals, r, l.signal))
  }

  /** The stored pages of a channel, oldest first. */
  function Queue(l: Local): (q: seq<Bytes>)
    ensures l.d.firstIndex <= l.d.lastIndex ==> |q| == l.d.lastIndex - l.d.firstIndex
  {
    if l.d.firstIndex >= l.d.lastIndex then []
    else seq(l.d.lastIndex - l.d.firstIndex, (i: nat) => Page(l.pages, l.d.firstIndex + i))
  }

  predicate Idle(d: Details) { d.state.Ok? && !d.signalsExist && d.firstIndex >= d.lastIndex }

  /** The last page exists, has the right format and has room for `data`. */
  predicate Fits(l: Local, f: Format, data: Bytes, max: nat) {
    && l.d.lastIndex > l.d.firstIndex
    && DecodeFormat(Page(l.pages, l.d.lastIndex - 1)) == Some(f)
    && |Page(l.pages, l.d.lastIndex - 1)| + |data| <= max
  }

  function SendLocal(l: Local, f: Format, data: Bytes, max: nat): Local {
    var d := l.d;
    if Fits(l, f, data, max) then
      l.(pages := l.pages[d.lastIndex - 1 := Page(l.pages, d.lastIndex - 1) + data])
    else
      // The failed attempt to extend the last page writes that page back.
      var kept := if d.lastIndex > d.firstIndex
                  then l.pages[d.lastIndex - 1 := Page(l.pages, d.lastIndex - 1)] else l.pages;
      l.(d := d.(lastIndex := (d.lastIndex + 1) % U16),
      pages := kept[d.lastIndex := [FormatByte(f)] + data])
  }

  function SignalLocal(l: Local, sig: Signal): Local {
    l.(d := l.d.(signalsExist := true),
    signal := (if l.signal == [] then [FormatByte(Signals)] else l.signal) + [SignalByte(sig)])
  }

  function ResumeLocal(l: Local): Local {
    if l.d.firstIndex == l.d.lastIndex then l.(d := NewDetails(l.d.recipient))
    else l.(d := l.d.(state := Ok))
  }

  /** Why a page left the storage. */
  datatype Fate = Emitted | Oversize | Swallowed
  datatype Gone = Gone(recipient: ParaId, signal: bool, page: Bytes, fate: Fate)

  function IsFor(r: ParaId): Gone -> bool { (g: Gone) => g.recipient == r }
  function IsEmitted(): Gone -> bool { (g: Gone) => g.fate.Emitted? }

  function SwallowAll(r: ParaId, q: seq<Bytes>): (g: seq<Gone>)
    ensures |g| == |q|
    ensures forall i :: 0 <= i < |q| ==> g[i] == Gone(r, false, q[i], Swallowed)
  {
    seq(|q|, i requires 0 <= i < |q| => Gone(r, false, q[i], Swallowed))
  }

  function Reset(d: Details): Details {
    if d.firstIndex == d.lastIndex then d.(firstIndex := 0, lastIndex := 0) else d
  }

  datatype Visited = Visited(l: Local, gone: seq<Gone>)

  function FateOf(page: Bytes, ever: nat): Fate { if |page| > ever then Oversize else Emitted }

  /** What the batch loop does with one channel. */
  function Visit(l: Local, cs: ChannelStatus): (v: Visited)
    ensures v.l.d.recipient == l.d.recipient
    ensures forall g :: g in v.gone ==> g.recipient == l.d.recipient
  {
    var d := l.d;
    if d.state.Suspended? || cs.Full? then Visited(l, [])
    else if cs.Closed? then
      Visited(Local(NewDetails(d.recipient),
                    map i | i in l.pages && !(d.firstIndex <= i < d.lastIndex) :: l.pages[i],
                    if d.signalsExist then [] else l.signal),
              SwallowAll(d.recipient, Queue(l)) +
              if d.signalsExist then [Gone(d.recipient, true, l.signal, Swallowed)] else [])
    else if d.signalsExist then
      if |l.signal| < cs.now then
        Visited(Local(Reset(d.(signalsExist := false)), l.pages, []),
                [Gone(d.recipient, true, l.signal, FateOf(l.signal, cs.ever))])
      else Visited(l, [])
    else if d.lastIndex > d.firstIndex then
      var page := Page(l.pages, d.firstIndex);
      if |page| < cs.now then
        Visited(Local(Reset(d.(firstIndex := d.firstIndex + 1)), l.pages - {d.firstIndex}, l.signal),
                [Gone(d.recipient, false, page, FateOf(page, cs.ever))])
      else Visited(l, [])
    else Visited(l, [])
  }

  // ------------------------------------------------------------------ the operations

  function SendFragment(s: Outbound, r: ParaId, f: Format, data: Bytes, channelMax: Option<nat>):
    (Outbound, SendResult)
  {
    match channelMax
    case None => (s, NoChannel)
    case Some(max) =>
      if |data| > max then (s, TooBig)
      else
        var l := SendLocal(At(s, r), f, data, max);
        (Update(s, l), Sent((l.d.lastIndex - l.d.firstIndex - 1) % U16))
  }

  function SendSignal(s: Outbound, r: ParaId, sig: Signal): Outbound {
    Update(s, SignalLocal(At(s, r), sig))
  }

  function SuspendChannel(s: Outbound, r: ParaId): Outbound {
    Update(s, At(s, r).(d := Of(s.statuses, r).(state := Suspended)))
  }

  function ResumeChannel(s: Outbound, r: ParaId): Outbound {
    var k := Position(s.statuses, r);
    if k == |s.statuses| then s
    else if s.statuses[k].firstIndex == s.statuses[k].lastIndex then
      s.(statuses := s.statuses[..k] + s.statuses[k + 1..])
    else s.(statuses := s.statuses[k := s.statuses[k].(state := Ok)])
  }

  datatype Taking = Taking(statuses: seq<Details>, pages: DoubleMap,
                           signals: map<ParaId, Bytes>, gone: seq<Gone>)

  /** One turn of the batch loop. */
  function TakeHead(d: Details, pages: DoubleMap, signals: map<ParaId, Bytes>, cs: ChannelStatus): (t: Taking)
    ensures |t.statuses| == 1 && t.statuses[0].recipient == d.recipient
  {
    var r := d.recipient;
    var v := Visit(Local(d, Inner(pages, r), SignalPage(signals, r)), cs);
    Taking([v.l.d], StorePages(pages, r, v.l.pages), StoreSignal(signals, r, v.l.signal), v.gone)
  }

  predicate Emits(gone: seq<Gone>) { gone != [] && gone[0].fate.Emitted? }

  /** The batch loop over the statuses `todo`, with `room` places left in the batch. */
  function TakeLoop(todo: seq<Details>, pages: DoubleMap,
                    signals: map<ParaId, Bytes>, info: ChannelInfo, room: nat): (t: Taking)
    ensures |t.statuses| == |todo|
    ensures forall i :: 0 <= i < |todo| ==> t.statuses[i].recipient == todo[i].recipient
  {
    if todo == [] || room == 0 then Taking(todo, pages, signals, [])
    else
      var head := TakeHead(todo[0], pages, signals, info(todo[0].recipient));
      var rest := TakeLoop(todo[1..], head.pages, head.signals, info, if Emits(head.gone) then room - 1 else room);
      Taking(head.statuses + rest.statuses, rest.pages, rest.signals, head.gone + rest.gone)
  }

  lemma TakeLoopTurn(todo: seq<Details>, pages: DoubleMap, signals: map<ParaId, Bytes>, info: ChannelInfo, room: nat)
    requires todo != [] && room > 0
    ensures var h := TakeHead(todo[0], pages, signals, info(todo[0].recipient));
            var rest := TakeLoop(todo[1..], h.pages, h.signals, info, if Emits(h.gone) then room - 1 else room);
            TakeLoop(todo, pages, signals, info, room) == Taking(h.statuses + rest.statuses, rest.pages, rest.signals, h.gone + rest.gone)
  {
    hide TakeHead;
  }

  function NotIdle(): Details -> bool { (d: Details) => !Idle(d) }
  function ByRecipient(): (Gone, Gone) -> bool { (a: Gone, b: Gone) => a.recipient <= b.recipient }

  datatype TakeResult = Panics | Taken(s: Outbound, batch: seq<Gone>, gone: seq<Gone>)

  /**
   One batch. The rotation amount is an unsigned subtraction followed by a bounded rotation: when
   more channels were pruned than pages emitted the runtime panics and the block is rejected.
   */
  function Take(s: Outbound, info: ChannelInfo, maximum: nat): TakeResult {
    var t := TakeLoop(s.statuses, s.pages, s.signals, info, Min(|s.statuses|, maximum));
    var batch := StableSort(Filter(t.gone, IsEmitted()), ByRecipient());
    var kept := Filter(t.statuses, NotIdle());
    var pruned := |s.statuses| - |kept|;
    if pruned > |batch| || |batch| - pruned > |kept| then Panics
    else
      var n := |batch| - pruned;
      Taken(Outbound(kept[n..] + kept[..n], t.pages, t.signals), batch, t.gone)
  }

  // ------------------------------------------------------------------ invariants

  predicate IsDataPage(p: Bytes) {
    DecodeFormat(p) == Some(ConcatenatedVersionedXcm) || DecodeFormat(p) == Some(ConcatenatedEncodedBlob)
  }

  ghost predicate LocalValid(l: Local) {
    && l.d.firstIndex <= l.d.lastIndex < U16
    && (l.d.firstIndex == l.d.lastIndex ==> l.d.firstIndex == 0)
    && (forall i: nat :: i in l.pages <==> l.d.firstIndex <= i < l.d.lastIndex)
    && (forall i: nat :: i in l.pages ==> IsDataPage(l.pages[i]))
    && (l.d.signalsExist ==> l.signal != [])
    && (l.signal != [] ==> DecodeFormat(l.signal) == Some(Signals) && |l.signal| >= 2)
  }

  ghost predicate Unique(st: seq<Details>) {
    forall i, j :: 0 <= i < j < |st| ==> st[i].recipient != st[j].recipient
  }

  /**
   The stored keys are exactly the indices in the window of a unique, non-idle status; every page
   opens with a data format; announced signals exist.
   */
  ghost predicate Valid(s: Outbound) {
    && Unique(s.statuses)
    && (forall d :: d in s.statuses ==> !Idle(d))
    && (forall r: ParaId :: LocalValid(At(s, r)))
  }

  // ---- list facts ----

  lemma OfIs(st: seq<Details>, k: nat)
    requires Unique(st) && k < |st|
    ensures Of(st, st[k].recipient) == st[k]
  {
    var p := Position(st, st[k].recipient);
    assert p <= k;
  }

  lemma PutOf(st: seq<Details>, d: Details)
    requires Unique(st)
    ensures Unique(Put(st, d))
    ensures forall q: ParaId :: Of(Put(st, d), q) == if q == d.recipient then d else Of(st, q)
    ensures forall e :: e in Put(st, d) ==> e in st || e == d
    ensures forall q: ParaId :: Position(st, q) < |st| ==> Position(Put(st, d), q) == Position(st, q)
  {
    var t := Put(st, d);
    assert |st| <= |t| <= |st| + 1;
    forall i | 0 <= i < |st| ensures t[i].recipient == st[i].recipient && (t[i] == st[i] || t[i] == d) {}
    forall q: ParaId
      ensures Of(t, q) == if q == d.recipient then d else Of(st, q)
      ensures Position(st, q) < |st| ==> Position(t, q) == Position(st, q)
    {
      var a, b := Position(st, q), Position(t, q);
      if a < |st| {
        assert t[a].recipient == q;
        assert b == a;
      } else if q == d.recipient {
        assert t[|st|] == d;
        assert b == |st|;
      } else if b < |t| {
        assert false;
      }
    }
  }

  lemma AtUpdate(s: Outbound, l: Local)
    requires Unique(s.statuses)
    ensures Unique(Update(s, l).statuses)
    ensures forall q: ParaId :: At(Update(s, l), q) == if q == l.d.recipient then l else At(s, q)
  {
    PutOf(s.statuses, l.d);
  }

  lemma UpdateValid(s: Outbound, l: Local)
    requires Valid(s) && !Idle(l.d)
    ensures Valid(Update(s, l)) <==> LocalValid(l)
  {
    AtUpdate(s, l);
    PutOf(s.statuses, l.d);
    var t := Update(s, l);
    assert At(t, l.d.recipient) == l;
  }

  lemma RemoveAt(st: seq<Details>, k: nat)
    requires Unique(st) && k < |st|
    ensures var t := st[..k] + st[k + 1..];
            Unique(t) && forall q: ParaId :: Of(t, q) == if q == st[k].recipient then NewDetails(q) else Of(st, q)
  {
    var t := st[..k] + st[k + 1..];
    forall i | 0 <= i < |t| ensures t[i] == st[if i < k then i else i + 1] {}
    assert Unique(t);
    forall q: ParaId ensures Of(t, q) == if q == st[k].recipient then NewDetails(q) else Of(st, q) {
      var a := Position(st, q);
      if a < |st| && a != k {
        var i := if a < k then a else a - 1;
        assert t[i] == st[a];
        OfIs(t, i);
      } else if Position(t, q) < |t| {
        assert false;
      }
    }
  }

  lemma {:induction false} FilterUnique(st: seq<Details>, p: Details -> bool)
    requires Unique(st)
    ensures Unique(Filter(st, p))
  {
    if st != [] {
      assert Unique(st[1..]);
      FilterUnique(st[1..], p);
      var f := Filter(st[1..], p);
      forall i | 0 <= i < |f| ensures f[i].recipient != st[0].recipient {
        assert f[i] in f;
        FilterMember(st[1..], p, f[i]);
      }
    }
  }

  /** Pruning and rotating forgets exactly the idle channels. */
  lemma OfKept(st: seq<Details>, n: nat, r: ParaId)
    requires Unique(st) && n <= |Filter(st, NotIdle())|
    ensures var kept := Filter(st, NotIdle()); var t := kept[n..] + kept[..n];
            && Unique(t)
            && (forall d :: d in t ==> !Idle(d))
            && Of(t, r) == if Idle(Of(st, r)) then NewDetails(r) else Of(st, r)
  {
    hide Filter;
    var kept := Filter(st, NotIdle());
    var t := kept[n..] + kept[..n];
    FilterUnique(st, NotIdle());
    RotateUnique(kept, n);
    forall d ensures d in t <==> d in st && !Idle(d) { FilterMember(st, NotIdle(), d); }
    var a, b := Position(st, r), Position(t, r);
    if b < |t| {
      assert t[b] in t;
      var i :| 0 <= i < |st| && st[i] == t[b];
      OfIs(st, i);
    } else if a < |st| && !Idle(st[a]) {
      assert false;
    }
  }

  lemma RotateUnique(st: seq<Details>, n: nat)
    requires Unique(st) && n <= |st|
    ensures Unique(st[n..] + st[..n])
    ensures forall d :: d in st[n..] + st[..n] <==> d in st
  {
    assert st == st[..n] + st[n..];
  }

  // ------------------------------------------------------------------ every operation keeps the invariant

  /** The fragment needs a new page and the page counter is at its maximum. */
  predicate Wraps(s: Outbound, r: ParaId, f: Format, data: Bytes, channelMax: Option<nat>) {
    && channelMax.Some? && |data| <= channelMax.value
    && !Fits(At(s, r), f, data, channelMax.value)
    && Of(s.statuses, r).lastIndex + 1 == U16
  }

  lemma SendLocalKeepsValid(l: Local, f: Format, data: Bytes, max: nat)
    requires LocalValid(l) && !f.Signals?
    requires Fits(l, f, data, max) || l.d.lastIndex + 1 < U16
    ensures LocalValid(SendLocal(l, f, data, max))
  {
    var l' := SendLocal(l, f, data, max);
    if Fits(l, f, data, max) {
      assert l'.pages.Keys == l.pages.Keys;
    } else {
      assert l'.pages.Keys == l.pages.Keys + {l.d.lastIndex};
    }
  }

  /** Sending keeps the page window exact if and only if the 16-bit page counter does not wrap. */
  lemma SendKeepsValidIff(s: Outbound, r: ParaId, f: Format, data: Bytes, channelMax: Option<nat>)
    requires Valid(s) && !f.Signals?
    ensures Valid(SendFragment(s, r, f, data, channelMax).0) <==> !Wraps(s, r, f, data, channelMax)
  {
    if channelMax.Some? && |data| <= channelMax.value {
      var l := At(s, r);
      assert LocalValid(l);
      var l' := SendLocal(l, f, data, channelMax.value);
      if Wraps(s, r, f, data, channelMax) {
        assert (U16 - 1) in l'.pages && l'.d.lastIndex == 0;
        assert !LocalValid(l');
        assert At(Update(s, l'), r) == l' by { AtUpdate(s, l'); }
      } else {
        SendLocalKeepsValid(l, f, data, channelMax.value);
        UpdateValid(s, l');
      }
    }
  }

  lemma SignalKeepsValid(s: Outbound, r: ParaId, sig: Signal)
    requires Valid(s)
    ensures Valid(SendSignal(s, r, sig))
  {
    assert LocalValid(At(s, r));
    UpdateValid(s, SignalLocal(At(s, r), sig));
  }

  lemma SuspendKeepsValid(s: Outbound, r: ParaId)
    requires Valid(s)
    ensures Valid(SuspendChannel(s, r))
  {
    assert LocalValid(At(s, r));
    UpdateValid(s, At(s, r).(d := Of(s.statuses, r).(state := Suspended)));
  }

  lemma ResumeAt(s: Outbound, r: ParaId)
    requires Valid(s)
    ensures Unique(ResumeChannel(s, r).statuses)
    ensures forall q: ParaId :: At(ResumeChannel(s, r), q) == if q == r then ResumeLocal(At(s, r)) else At(s, q)
  {
    var k := Position(s.statuses, r);
    assert LocalValid(At(s, r));
    if k < |s.statuses| {
      if s.statuses[k].firstIndex == s.statuses[k].lastIndex {
        RemoveAt(s.statuses, k);
      } else {
        PutOf(s.statuses, s.statuses[k].(state := Ok));
      }
    }
  }

  lemma ResumeKeepsValid(s: Outbound, r: ParaId)
    requires Valid(s)
    ensures Valid(ResumeChannel(s, r))
  {
    ResumeAt(s, r);
    var t := ResumeChannel(s, r);
    assert LocalValid(At(s, r));
    forall d | d in t.statuses ensures !Idle(d) {
      var k := Position(s.statuses, r);
      assert d in s.statuses || (k < |s.statuses| && d == s.statuses[k].(state := Ok) && d.firstIndex != d.lastIndex);
    }
    forall q: ParaId ensures LocalValid(At(t, q)) { assert LocalValid(At(s, q)); }
  }

  lemma VisitKeepsValid(l: Local, cs: ChannelStatus)
    requires LocalValid(l)
    ensures LocalValid(Visit(l, cs).l)
    ensures Idle(Visit(l, cs).l.d) ==> Visit(l, cs).l.d == NewDetails(l.d.recipient)
  {
  }

  // ---- the batch loop, seen from one channel ----

  lemma HeadElsewhere(d: Details, pages: DoubleMap, signals: map<ParaId, Bytes>,
                      info: ChannelInfo, q: ParaId)
    requires q != d.recipient
    ensures var t := TakeHead(d, pages, signals, info(d.recipient));
            && Inner(t.pages, q) == Inner(pages, q) && SignalPage(t.signals, q) == SignalPage(signals, q)
            && Filter(t.gone, IsFor(q)) == []
  {
    hide Visit;
    FilterNone(TakeHead(d, pages, signals, info(d.recipient)).gone, IsFor(q));
  }

  lemma {:induction false} TakeLoopFrame(todo: seq<Details>, pages: DoubleMap,
                                         signals: map<ParaId, Bytes>, info: ChannelInfo, room: nat, q: ParaId)
    requires forall d :: d in todo ==> d.recipient != q
    ensures var t := TakeLoop(todo, pages, signals, info, room);
            && Inner(t.pages, q) == Inner(pages, q) && SignalPage(t.signals, q) == SignalPage(signals, q)
            && Filter(t.gone, IsFor(q)) == []
  {
    hide TakeHead;
    if todo != [] && room > 0 {
      var h := TakeHead(todo[0], pages, signals, info(todo[0].recipient));
      var room' := if Emits(h.gone) then room - 1 else room;
      TakeLoopFrame(todo[1..], h.pages, h.signals, info, room', q);
      assert todo[0] in todo;
      HeadElsewhere(todo[0], pages, signals, info, q);
      FilterAppend(h.gone, TakeLoop(todo[1..], h.pages, h.signals, info, room').gone, IsFor(q));
    }
  }

  /** The channel of `d` is either passed over or visited with its own stored data. */
  ghost predicate LoopAt(d: Details, pages: DoubleMap, signals: map<ParaId, Bytes>,
                         cs: ChannelStatus, d': Details, t: Taking)
  {
    var r := d.recipient;
    var l := Local(d, Inner(pages, r), SignalPage(signals, r));
    var after := Local(d', Inner(t.pages, r), SignalPage(t.signals, r));
    || (after == l && Filter(t.gone, IsFor(r)) == [])
    || (after == Visit(l, cs).l && Filter(t.gone, IsFor(r)) == Visit(l, cs).gone)
  }

  lemma TakeLoopAtHead(todo: seq<Details>, pages: DoubleMap,
                       signals: map<ParaId, Bytes>, info: ChannelInfo, room: nat)
    requires Unique(todo) && todo != [] && room > 0
    ensures var t := TakeLoop(todo, pages, signals, info, room);
            LoopAt(todo[0], pages, signals, info(todo[0].recipient), t.statuses[0], t)
  {
    hide Visit;
    hide Filter;
    var r := todo[0].recipient;
    var h := TakeHead(todo[0], pages, signals, info(todo[0].recipient));
    var room' := if Emits(h.gone) then room - 1 else room;
    var rest := TakeLoop(todo[1..], h.pages, h.signals, info, room');
    TakeLoopFrame(todo[1..], h.pages, h.signals, info, room', r);
    FilterAppend(h.gone, rest.gone, IsFor(r));
    FilterAll(h.gone, IsFor(r));
    assert h.gone + [] == h.gone;
  }

  lemma LoopAtBehind(first: Details, d: Details, pages: DoubleMap,
                     signals: map<ParaId, Bytes>, info: ChannelInfo, d': Details, rest: Taking)
    requires first.recipient != d.recipient
    requires var h := TakeHead(first, pages, signals, info(first.recipient));
             LoopAt(d, h.pages, h.signals, info(d.recipient), d', rest)
    ensures var h := TakeHead(first, pages, signals, info(first.recipient));
            LoopAt(d, pages, signals, info(d.recipient), d', rest.(statuses := h.statuses + rest.statuses, gone := h.gone + rest.gone))
  {
    hide Visit;
    hide TakeHead;
    hide Filter;
    HeadElsewhere(first, pages, signals, info, d.recipient);
    FilterAppend(TakeHead(first, pages, signals, info(first.recipient)).gone, rest.gone, IsFor(d.recipient));
    assert [] + Filter(rest.gone, IsFor(d.recipient)) == Filter(rest.gone, IsFor(d.recipient));
  }

  lemma {:induction false} TakeLoopAt(todo: seq<Details>, pages: DoubleMap,
                                      signals: map<ParaId, Bytes>, info: ChannelInfo, room: nat, k: nat)
    requires Unique(todo) && k < |todo|
    ensures var t := TakeLoop(todo, pages, signals, info, room);
            LoopAt(todo[k], pages, signals, info(todo[k].recipient), t.statuses[k], t)
  {
    if room == 0 {
    } else if k == 0 {
      TakeLoopAtHead(todo, pages, signals, info, room);
    } else {
      hide LoopAt;
      hide TakeHead;
      var h := TakeHead(todo[0], pages, signals, info(todo[0].recipient));
      var room' := if Emits(h.gone) then room - 1 else room;
      var rest := TakeLoop(todo[1..], h.pages, h.signals, info, room');
      assert todo[1..][k - 1] == todo[k];
      TakeLoopAt(todo[1..], h.pages, h.signals, info, room', k - 1);
      LoopAtBehind(todo[0], todo[k], pages, signals, info, rest.statuses[k - 1], rest);
    }
  }

  /** What a batch does to one channel: nothing, or one `Visit`. */
  ghost predicate TakesAt(s: Outbound, info: ChannelInfo, s': Outbound, gone: seq<Gone>, r: ParaId) {
    || (At(s', r) == At(s, r) && Filter(gone, IsFor(r)) == [])
    || (At(s', r) == Visit(At(s, r), info(r)).l && Filter(gone, IsFor(r)) == Visit(At(s, r), info(r)).gone)
  }

  lemma LoopTakesAt(s: Outbound, info: ChannelInfo, room: nat, r: ParaId)
    requires Valid(s)
    ensures var t := TakeLoop(s.statuses, s.pages, s.signals, info, room);
            TakesAt(s, info, Outbound(t.statuses, t.pages, t.signals), t.gone, r)
  {
    hide Visit;
    hide Filter;
    var t := TakeLoop(s.statuses, s.pages, s.signals, info, room);
    assert Unique(t.statuses);
    var k := Position(s.statuses, r);
    if k < |s.statuses| {
      TakeLoopAt(s.statuses, s.pages, s.signals, info, room, k);
      OfIs(s.statuses, k);
      OfIs(t.statuses, k);
    } else {
      TakeLoopFrame(s.statuses, s.pages, s.signals, info, room, r);
      assert Position(t.statuses, r) == |t.statuses|;
    }
  }

  lemma TakeAt(s: Outbound, info: ChannelInfo, maximum: nat, r: ParaId)
    requires Valid(s) && Take(s, info, maximum).Taken?
    ensures var t := Take(s, info, maximum);
            TakesAt(s, info, t.s, t.gone, r) && Unique(t.s.statuses) && forall d :: d in t.s.statuses ==> !Idle(d)
  {
    hide Visit;
    hide TakeLoop;
    hide Filter;
    var room := Min(|s.statuses|, maximum);
    var t := TakeLoop(s.statuses, s.pages, s.signals, info, room);
    LoopTakesAt(s, info, room, r);
    assert Unique(t.statuses);
    var result := Take(s, info, maximum);
    OfKept(t.statuses, |result.batch| - (|s.statuses| - |Filter(t.statuses, NotIdle())|), r);
    IdleAfterTake(s, info, Outbound(t.statuses, t.pages, t.signals), t.gone, r);
    assert At(result.s, r) == At(Outbound(t.statuses, t.pages, t.signals), r);
  }

  lemma IdleAfterTake(s: Outbound, info: ChannelInfo, s': Outbound, gone: seq<Gone>, r: ParaId)
    requires Valid(s) && TakesAt(s, info, s', gone, r)
    ensures Idle(Of(s'.statuses, r)) ==> Of(s'.statuses, r) == NewDetails(r)
  {
    hide Visit;
    hide Filter;
    assert LocalValid(At(s, r));
    VisitKeepsValid(At(s, r), info(r));
    assert Of(s'.statuses, r) == At(s', r).d;
    assert Position(s.statuses, r) < |s.statuses| ==> s.statuses[Position(s.statuses, r)] in s.statuses;
  }

  lemma TakeKeepsValid(s: Outbound, info: ChannelInfo, maximum: nat)
    requires Valid(s) && Take(s, info, maximum).Taken?
    ensures Valid(Take(s, info, maximum).s)
  {
    var t := Take(s, info, maximum);
    forall r: ParaId ensures LocalValid(At(t.s, r)) {
      TakeAt(s, info, maximum, r);
      assert LocalValid(At(s, r));
      VisitKeepsValid(At(s, r), info(r));
    }
    TakeAt(s, info, maximum, 0);
  }
}
