/** The XCMP queue pallet as it runs: storage items as fields, dispatchables and hooks as methods. */
module XcmpPallet {
  import opened Common
  import opened XcmpFormat
  import Out = XcmpOutbound
  import In = XcmpInbound

  /** The outbound state after the calls of the inbound half, in order. */
  ghost function Replay(s: Out.Outbound, calls: seq<In.Call>): Out.Outbound {
    if calls == [] then s else Apply(Replay(s, calls[..|calls| - 1]), calls[|calls| - 1])
  }

  ghost function Apply(s: Out.Outbound, c: In.Call): Out.Outbound {
    if c.Issue? then Out.SendSignal(s, c.note.peer, c.note.signal)
    else if c.note.signal.Suspend? then Out.SuspendChannel(s, c.note.peer)
    else Out.ResumeChannel(s, c.note.peer)
  }

  lemma ApplyIssue(s: Out.Outbound, n: Note)
    ensures Apply(s, In.Issue(n)) == Out.SendSignal(s, n.peer, n.signal)
  {
  }

  lemma ReplayOne(s: Out.Outbound, c: In.Call)
    ensures Replay(s, [c]) == Apply(s, c)
  {
    hide Apply;
    assert [c][..0] == [];
  }

  lemma {:induction false} ReplayMore(s: Out.Outbound, a: seq<In.Call>, b: seq<In.Call>)
    ensures Replay(s, a + b) == Replay(Replay(s, a), b)
  {
    hide Apply;
    if b == [] {
      assert a + b == a;
    } else {
      var n := |b| - 1;
      ReplayMore(s, a, b[..n]);
      assert (a + b)[..|a| + n] == a + b[..n] && (a + b)[|a| + n] == b[n];
    }
  }

  /** `s'` is `s` after the calls made between the histories `before` and `after`. */
  ghost predicate Replayed(s: Out.Outbound, before: seq<In.Call>, s': Out.Outbound, after: seq<In.Call>) {
    before <= after && s' == Replay(s, after[|before|..])
  }

  lemma ReplayedNone(s: Out.Outbound, before: seq<In.Call>)
    ensures Replayed(s, before, s, before)
  {
    assert before[|before|..] == [];
  }

  lemma ReplayedCall(s: Out.Outbound, before: seq<In.Call>, c: In.Call)
    ensures Replayed(s, before, Apply(s, c), before + [c])
  {
    assert (before + [c])[|before|..] == [c];
    ReplayOne(s, c);
  }

  lemma ReplayedThen(s: Out.Outbound, c: seq<In.Call>, s': Out.Outbound, c': seq<In.Call>, s'': Out.Outbound, c'': seq<In.Call>)
    requires Replayed(s, c, s', c') && Replayed(s', c', s'', c'')
    ensures Replayed(s, c, s'', c'')
  {
    hide Replay;
    assert c''[|c|..] == c'[|c|..] + c''[|c'|..];
    ReplayMore(s, c'[|c|..], c''[|c'|..]);
  }

  class XcmpQueue {
    var outboundXcmpStatus: seq<Out.Details>
    var outboundXcmpMessages: DoubleMap
    var signalMessages: map<ParaId, Bytes>
    var inboundXcmpStatus: seq<In.InDetails>
    var inboundXcmpMessages: DoubleMap
    var overweight: map<nat, In.Stash>
    var overweightCount: nat
    var queueConfig: In.Config
    var queueSuspended: bool
    // History: how many messages have been executed so far, and what happened.
    var tick: nat
    ghost var log: seq<In.Record>
    ghost var calls: seq<In.Call>
    ghost var accepted: seq<In.Arrival>
    ghost var freed: seq<nat>

    ghost function Outbound(): Out.Outbound
      reads this
    {
      Out.Outbound(outboundXcmpStatus, outboundXcmpMessages, signalMessages)
    }

    ghost function Inbound(): In.Inbound
      reads this
    {
      In.Inbound(inboundXcmpStatus, inboundXcmpMessages, In.Overweight(overweight, overweightCount, freed), tick, log, calls, accepted)
    }

    ghost function JobOf(env: In.Env, maxWeight: nat, isController: ParaId -> bool): In.Job
      reads this
    {
      In.Job(env, queueConfig, maxWeight, queueSuspended, isController)
    }

    constructor (config: In.Config)
      ensures Outbound() == Out.Outbound([], map[], map[]) && Inbound() == In.Empty
      ensures queueConfig == config && !queueSuspended
    {
      outboundXcmpStatus, outboundXcmpMessages, signalMessages := [], map[], map[];
      inboundXcmpStatus, inboundXcmpMessages := [], map[];
      overweight, overweightCount := map[], 0;
      queueConfig, queueSuspended := config, false;
      tick, log, calls, accepted, freed := 0, [], [], [], [];
    }

    // ---------------------------------------------------------------- outbound

    method SendFragment(recipient: ParaId, format: Format, data: Bytes, channelMax: Option<nat>)
      returns (result: Out.SendResult)
      modifies this`outboundXcmpStatus, this`outboundXcmpMessages
      ensures (Outbound(), result) == Out.SendFragment(old(Outbound()), recipient, format, data, channelMax)
    {
      hide Out.SendLocal;
      if channelMax.None? { return Out.NoChannel; }
      var maxMessageSize := channelMax.value;
      if |data| > maxMessageSize { return Out.TooBig; }
      var s := outboundXcmpStatus;
      var k := Out.Position(s, recipient);
      if k == |s| { s := s + [Out.NewDetails(recipient)]; }
      ghost var signal := Out.SignalPage(signalMessages, recipient);
      var details, inner := AddToPages(s[k], Inner(outboundXcmpMessages, recipient), format, data, maxMessageSize, signal);
      s := s[k := details];
      assert s == Out.Put(outboundXcmpStatus, details);
      outboundXcmpStatus := s;
      outboundXcmpMessages := StorePages(outboundXcmpMessages, recipient, inner);
      result := Out.Sent((details.lastIndex - details.firstIndex - 1) % Out.U16);
    }

    /** Extends the last page if the fragment fits, otherwise opens a new page. */
    method AddToPages(details: Out.Details, pages: map<nat, Bytes>, format: Format, data: Bytes, maxMessageSize: nat, ghost signal: Bytes)
      returns (details': Out.Details, pages': map<nat, Bytes>)
      ensures Out.Local(details', pages', signal) == Out.SendLocal(Out.Local(details, pages, signal), format, data, maxMessageSize)
      ensures details'.recipient == details.recipient
    {
      details', pages' := details, pages;
      if details.lastIndex > details.firstIndex {
        var page := Page(pages, details.lastIndex - 1);
        if DecodeFormat(page) == Some(format) && |page| + |data| <= maxMessageSize {
          pages' := pages[details.lastIndex - 1 := page + data];
          return;
        }
        pages' := pages[details.lastIndex - 1 := page];
      }
      details' := details.(lastIndex := (details.lastIndex + 1) % Out.U16);
      pages' := pages'[details.lastIndex := [FormatByte(format)] + data];
    }

    method SendSignal(dest: ParaId, signal: Signal)
      modifies this`outboundXcmpStatus, this`signalMessages
      ensures Outbound() == Out.SendSignal(old(Outbound()), dest, signal)
    {
      var s := outboundXcmpStatus;
      var k := Out.Position(s, dest);
      if k < |s| {
        s := s[k := s[k].(signalsExist := true)];
      } else {
        s := s + [Out.NewDetails(dest).(signalsExist := true)];
      }
      var page := Out.SignalPage(signalMessages, dest);
      if page == [] {
        page := [FormatByte(Signals), SignalByte(signal)];
      } else {
        page := page + [SignalByte(signal)];
      }
      signalMessages := signalMessages[dest := page];
      outboundXcmpStatus := s;
      assert page == Out.SignalLocal(Out.At(old(Outbound()), dest), signal).signal;
    }

    /** `expected` is the debug assertion: the channel was not suspended yet. */
    method SuspendChannel(target: ParaId) returns (expected: bool)
      modifies this`outboundXcmpStatus
      ensures Outbound() == Out.SuspendChannel(old(Outbound()), target)
      ensures expected <==> Out.Of(old(outboundXcmpStatus), target).state.Ok?
    {
      var s := outboundXcmpStatus;
      var k := Out.Position(s, target);
      if k < |s| {
        expected := s[k].state.Ok?;
        outboundXcmpStatus := s[k := s[k].(state := Out.Suspended)];
      } else {
        expected := true;
        outboundXcmpStatus := s + [Out.NewDetails(target).(state := Out.Suspended)];
      }
    }

    /** `expected` is the debug assertion: the channel exists and was suspended. */
    method ResumeChannel(target: ParaId) returns (expected: bool)
      modifies this`outboundXcmpStatus
      ensures Outbound() == Out.ResumeChannel(old(Outbound()), target)
      ensures expected <==> Out.Of(old(outboundXcmpStatus), target).state.Suspended?
    {
      var s := outboundXcmpStatus;
      var index := Out.Position(s, target);
      if index < |s| {
        expected := s[index].state.Suspended?;
        if s[index].firstIndex == s[index].lastIndex {
          outboundXcmpStatus := s[..index] + s[index + 1..];
        } else {
          outboundXcmpStatus := s[index := s[index].(state := Out.Ok)];
        }
      } else {
        expected := false;
      }
    }

    /** One turn of the batch loop: the page to push, if any, and the channel's new storage. */
    method VisitChannel(status: Out.Details, pages: DoubleMap, signals: map<ParaId, Bytes>, channel: Out.ChannelStatus)
      returns (status': Out.Details, pages': DoubleMap, signals': map<ParaId, Bytes>, push: Option<Out.Gone>, ghost gone: seq<Out.Gone>)
      ensures Out.Taking([status'], pages', signals', gone) == Out.TakeHead(status, pages, signals, channel)
      ensures push.Some? <==> Out.Emits(gone)
      ensures push.Some? ==> push.value == gone[0]
    {
      status', pages', signals', push, gone := status, pages, signals, None, [];
      var r := status.recipient;
      if status.state.Suspended? { return; }
      var inner := Inner(pages, r);
      match channel {
        case Closed =>
          ghost var l := Out.Local(status, inner, Out.SignalPage(signals, r));
          gone := Out.Visit(l, channel).gone;
          var left := RemoveWindow(inner, status.firstIndex, status.lastIndex);
          pages' := StorePages(pages, r, left);
          if status.signalsExist { signals' := Out.StoreSignal(signals, r, []); }
          status' := Out.NewDetails(r);
        case Full =>
        case Ready(now, ever) =>
          var page: Bytes;
          if status.signalsExist {
            page := Out.SignalPage(signals, r);
            if |page| >= now { return; }
            signals' := Out.StoreSignal(signals, r, []);
            status' := status.(signalsExist := false);
          } else if status.lastIndex > status.firstIndex {
            page := Page(inner, status.firstIndex);
            if |page| >= now { return; }
            pages' := StorePages(pages, r, inner - {status.firstIndex});
            status' := status.(firstIndex := status.firstIndex + 1);
          } else {
            return;
          }
          if status'.firstIndex == status'.lastIndex { status' := status'.(firstIndex := 0, lastIndex := 0); }
          if |page| <= ever { push := Some(Out.Gone(r, status.signalsExist, page, Out.Emitted)); }
          gone := [Out.Gone(r, status.signalsExist, page, Out.FateOf(page, ever))];
      }
    }

    /** Removes the pages `first`, ..., `last - 1`. */
    method RemoveWindow(inner: map<nat, Bytes>, first: nat, last: nat) returns (left: map<nat, Bytes>)
      ensures left == map i | i in inner && !(first <= i < last) :: inner[i]
    {
      left := inner;
      var i := first;
      while i < last
        invariant first <= i
        invariant left == map k | k in inner && !(first <= k < i && k < last) :: inner[k]
      {
        left := left - {i};
        i := i + 1;
      }
    }

    /** The batch loop: visits statuses in order until the batch is full. */
    method CollectPages(info: Out.ChannelInfo, maxMessageCount: nat)
      returns (statuses: seq<Out.Details>, pages: DoubleMap, signals: map<ParaId, Bytes>, result: seq<Out.Gone>, ghost gone: seq<Out.Gone>)
      ensures Out.Taking(statuses, pages, signals, gone) ==
              Out.TakeLoop(outboundXcmpStatus, outboundXcmpMessages, signalMessages, info, maxMessageCount)
      ensures result == Filter(gone, Out.IsEmitted())
    {
      hide Out.TakeHead;
      hide Out.TakeLoop;
      hide Filter;
      hide LoopInvariant;
      statuses, pages, signals, result, gone := outboundXcmpStatus, outboundXcmpMessages, signalMessages, [], [];
      var n := |statuses|;
      var i := 0;
      LoopStart(statuses, pages, signals, info, maxMessageCount);
      FilterNone(gone, Out.IsEmitted());
      while i < n && |result| < maxMessageCount
        invariant 0 <= i <= n == |statuses| && |result| <= maxMessageCount
        invariant result == Filter(gone, Out.IsEmitted())
        invariant LoopInvariant(outboundXcmpStatus, outboundXcmpMessages, signalMessages, info, maxMessageCount,
                                statuses, i, pages, signals, gone, |result|)
      {
        var channel := info(statuses[i].recipient);
        var status', pages', signals', push, goneNow := VisitChannel(statuses[i], pages, signals, channel);
        LoopTurn(outboundXcmpStatus, outboundXcmpMessages, signalMessages, info, maxMessageCount,
                 statuses, i, pages, signals, gone, |result|, Out.Taking([status'], pages', signals', goneNow));
        EmissionTurn(statuses[i], pages, signals, channel, gone, goneNow);
        if push.Some? { result := result + [push.value]; }
        statuses, pages, signals, gone := statuses[i := status'], pages', signals', gone + goneNow;
        i := i + 1;
      }
      LoopEnd(outboundXcmpStatus, outboundXcmpMessages, signalMessages, info, maxMessageCount,
              statuses, i, pages, signals, gone, |result|);
    }

    /** Builds the batch; on a panic the block is rejected and storage stays as it was. */
    method TakeOutboundMessages(info: Out.ChannelInfo, maximumChannels: nat)
      returns (panics: bool, result: seq<Out.Gone>)
      modifies this`outboundXcmpStatus, this`outboundXcmpMessages, this`signalMessages
      ensures match Out.Take(old(Outbound()), info, maximumChannels)
              case Panics => panics && Outbound() == old(Outbound())
              case Taken(s', batch, _) => !panics && Outbound() == s' && result == batch
    {
      hide Out.TakeLoop;
      hide Filter;
      var oldStatusesLen := |outboundXcmpStatus|;
      var statuses, pages, signals, messages, gone := CollectPages(info, Min(oldStatusesLen, maximumChannels));
      result := StableSort(messages, Out.ByRecipient());
      statuses := Filter(statuses, Out.NotIdle());
      var pruned := oldStatusesLen - |statuses|;
      if pruned > |result| || |result| - pruned > |statuses| { return true, result; }
      var amount := |result| - pruned;
      outboundXcmpStatus := statuses[amount..] + statuses[..amount];
      outboundXcmpMessages, signalMessages := pages, signals;
      panics := false;
    }

    // ---------------------------------------------------------------- inbound

    method CreateShuffle(len: nat, draw: nat -> nat) returns (shuffled: seq<nat>)
      ensures shuffled == In.CreateShuffle(len, draw)
      ensures In.Permutation(shuffled, len)
    {
      In.ShuffleIsPermutation(In.Upto(len), 0, draw);
      shuffled := In.Upto(len);
      var i := 0;
      while i < len
        invariant 0 <= i <= len == |shuffled|
        invariant In.ShuffleFrom(shuffled, i, draw) == In.CreateShuffle(len, draw)
      {
        shuffled := In.Swap(shuffled, i, draw(i) % len);
        i := i + 1;
      }
    }

    method StashOverweight(sender: ParaId, sentAt: nat, xcm: Bytes) returns (index: nat)
      modifies this`overweight, this`overweightCount
      ensures In.Overweight(overweight, overweightCount, freed) ==
              In.StashOverweight(In.Overweight(old(overweight), old(overweightCount), freed), In.Stash(sender, sentAt, xcm))
      ensures index == old(overweightCount)
    {
      index := overweightCount;
      overweightCount := overweightCount + 1;
      overweight := overweight[index := In.Stash(sender, sentAt, xcm)];
    }

    /** A stashed message is tried again with the caller's limit; unless that succeeds it stays where it is. */
    method ServiceOverweight(env: In.Env, index: nat, weightLimit: nat) returns (result: In.OverweightResult)
      modifies this`overweight, this`tick, this`freed
      ensures (Inbound(), result) == In.ServiceOverweight(env, old(Inbound()), index, weightLimit)
      ensures result.Serviced? <==> index in old(overweight) && index !in overweight
    {
      if index !in overweight { return In.BadOverweightIndex; }
      var stash := overweight[index];
      var decoded := env.decode(stash.msg);
      if decoded != Some(|stash.msg|) { return In.BadXcm; }
      var handled := env.execute(tick, stash.sender, stash.sentAt, stash.msg, weightLimit);
      tick := tick + 1;
      match handled {
        case Used(weight) =>
          overweight := overweight - {index};
          freed := freed + [index];
          result := In.Serviced(weight);
        case _ => result := In.WeightOverLimit;
      }
    }

    method ProcessXcmpMessage(env: In.Env, sender: ParaId, meta: In.Meta, maxWeight: nat, maxIndividualWeight: nat)
      returns (weightUsed: nat, isEmpty: bool)
      requires In.EnvOk(env)
      modifies this`inboundXcmpMessages, this`overweight, this`overweightCount, this`tick, this`log
      ensures var data := Page(Inner(old(inboundXcmpMessages), sender), meta.sentAt);
              var p := In.ParsePage(env, sender, meta, old(Parsing(data, 0)), maxWeight, maxIndividualWeight);
              && isEmpty == (p.rest == []) && Parsing(p.rest, weightUsed) == p
              && inboundXcmpMessages == In.StoreRest(old(inboundXcmpMessages), sender, meta.sentAt, p.rest)
    {
      var data := Page(Inner(inboundXcmpMessages, sender), meta.sentAt);
      var remaining := data;
      weightUsed := 0;
      if meta.format.ConcatenatedVersionedXcm? {
        remaining, weightUsed := ParseFragments(env, sender, meta.sentAt, data, maxWeight, maxIndividualWeight);
      } else {
        if remaining != [] { log := log + [In.Record(sender, remaining, In.Refused(In.Invalid))]; }
        remaining := [];
      }
      isEmpty := remaining == [];
      var inner := Inner(inboundXcmpMessages, sender);
      inner := if isEmpty then inner - {meta.sentAt} else inner[meta.sentAt := remaining];
      inboundXcmpMessages := StorePages(inboundXcmpMessages, sender, inner);
    }

    /** The loop over the fragments of a page. */
    method ParseFragments(env: In.Env, sender: ParaId, sentAt: nat, data: Bytes, maxWeight: nat, maxIndividualWeight: nat)
      returns (remaining: Bytes, weightUsed: nat)
      requires In.EnvOk(env)
      modifies this`overweight, this`overweightCount, this`tick, this`log
      ensures Parsing(remaining, weightUsed) ==
              In.ParseXcm(env, sender, sentAt, old(Parsing(data, 0)), maxWeight, maxIndividualWeight)
    {
      remaining, weightUsed := data, 0;
      var stop := false;
      while remaining != [] && !stop
        invariant weightUsed <= maxWeight
        invariant In.ParseXcm(env, sender, sentAt, old(Parsing(data, 0)), maxWeight, maxIndividualWeight) ==
                  if stop then Parsing(remaining, weightUsed)
                  else In.ParseXcm(env, sender, sentAt, Parsing(remaining, weightUsed), maxWeight, maxIndividualWeight)
        decreases |remaining|, !stop
      {
        hide In.ParseStep;
        hide In.ParseXcm;
        hide In.EnvOk;
        ghost var turn := Parsing(remaining, weightUsed);
        In.ParseTurn(env, sender, sentAt, turn, maxWeight, maxIndividualWeight);
        remaining, weightUsed, stop := DecideFragment(env, sender, sentAt, remaining, weightUsed, maxWeight, maxIndividualWeight);
      }
    }

    /** Decides the first fragment; `stop` leaves it in place for the next call. */
    method DecideFragment(env: In.Env, sender: ParaId, sentAt: nat, rest: Bytes, used: nat, maxWeight: nat, maxIndividualWeight: nat)
      returns (remaining: Bytes, weightUsed: nat, stop: bool)
      requires In.EnvOk(env) && rest != [] && used <= maxWeight
      modifies this`overweight, this`overweightCount, this`tick, this`log
      ensures (Parsing(remaining, weightUsed), stop) ==
              In.ParseStep(env, sender, sentAt, old(Parsing(rest, used)), maxWeight, maxIndividualWeight)
    {
      weightUsed, stop := used, false;
      var decoded := env.decode(rest);
      if decoded.None? {
        log := log + [In.Record(sender, rest, In.Garbage)];
        remaining := [];
        return;
      }
      var msg := rest[..decoded.value];
      var handled := env.execute(tick, sender, sentAt, msg, maxWeight - used);
      tick := tick + 1;
      remaining := rest[decoded.value..];
      match handled {
        case Used(w) =>
          weightUsed := used + w;
          log := log + [In.Record(sender, msg, In.Executed(w))];
        case OverLimit(required) =>
          if required > maxIndividualWeight {
            var index := StashOverweight(sender, sentAt, msg);
            log := log + [In.Record(sender, msg, In.Stashed(index, required))];
          } else if required <= maxWeight {
            remaining, stop := rest, true;
          } else {
            log := log + [In.Record(sender, msg, In.Refused(handled))];
          }
        case Invalid =>
          log := log + [In.Record(sender, msg, In.Refused(handled))];
      }
    }

    ghost function Parsing(rest: Bytes, used: nat): In.Parse
      reads this
    {
      In.Parse(rest, used, tick, In.Overweight(overweight, overweightCount, freed), log)
    }

    /** Processes the oldest page of channel `index` and drops its metadata once it is done. */
    method ProcessOldestPage(env: In.Env, status: seq<In.InDetails>, index: nat, grant: nat)
      returns (status': seq<In.InDetails>, weightProcessed: nat)
      requires In.EnvOk(env) && index < |status| && status[index].meta != []
      modifies this`inboundXcmpMessages, this`overweight, this`overweightCount, this`tick, this`log
      ensures In.Served(Inbound().(status := status'), weightProcessed) ==
              In.ProcessPage(env, old(Inbound()).(status := status), index, grant, queueConfig.maxIndividual)
    {
      hide In.ParsePage;
      var d := status[index];
      var isEmpty;
      weightProcessed, isEmpty := ProcessXcmpMessage(env, d.sender, d.meta[0], grant, queueConfig.maxIndividual);
      status' := if isEmpty then status[index := d.(meta := d.meta[1..])] else status;
    }

    /** Serves one channel: a page, then Resume if the channel has drained. */
    method ServeChannel(env: In.Env, status: seq<In.InDetails>, index: nat, grant: nat)
      returns (status': seq<In.InDetails>, weightProcessed: nat)
      requires In.EnvOk(env) && index < |status|
      modifies this`inboundXcmpMessages, this`overweight, this`overweightCount, this`tick, this`log, this`calls,
               this`outboundXcmpStatus, this`signalMessages
      ensures In.Served(Inbound().(status := status'), weightProcessed) ==
              In.ServeChannel(env, queueConfig, old(Inbound()).(status := status), index, grant)
      ensures Replayed(old(Outbound()), old(calls), Outbound(), calls)
    {
      hide In.ProcessPage;
      hide In.ResumeIfDrained;
      hide Replayed;
      hide Inbound;
      status', weightProcessed := status, 0;
      if status[index].meta != [] {
        status', weightProcessed := ProcessOldestPage(env, status, index, grant);
      }
      status' := ResumeIfDrained(status', index);
    }

    /** A suspended channel with few enough pages left is told to go on. */
    method ResumeIfDrained(status: seq<In.InDetails>, index: nat) returns (status': seq<In.InDetails>)
      requires index < |status|
      modifies this`calls, this`outboundXcmpStatus, this`signalMessages
      ensures Inbound().(status := status') == In.ResumeIfDrained(old(Inbound()).(status := status), index, queueConfig.resumeThreshold)
      ensures Replayed(old(Outbound()), old(calls), Outbound(), calls)
    {
      hide Replayed;
      status' := status;
      var d := status[index];
      if |d.meta| <= queueConfig.resumeThreshold && d.state.Suspended? {
        ReplayedCall(Outbound(), calls, In.Issue(Note(d.sender, Resume)));
        SendSignal(d.sender, Resume);
        calls := calls + [In.Issue(Note(d.sender, Resume))];
        status' := status'[index := d.(state := In.Ok)];
      } else {
        ReplayedNone(Outbound(), calls);
      }
    }

    method ServiceXcmpQueue(env: In.Env, maxWeight: nat, isController: ParaId -> bool, draw: nat -> nat)
      returns (weightUsed: nat)
      requires In.EnvOk(env)
      modifies this`inboundXcmpStatus, this`inboundXcmpMessages, this`overweight, this`overweightCount, this`tick,
               this`log, this`calls, this`outboundXcmpStatus, this`signalMessages
      ensures In.Served(Inbound(), weightUsed) ==
              In.ServiceQueue(old(JobOf(env, maxWeight, isController)), old(Inbound()), draw)
      ensures Replayed(old(Outbound()), old(calls), Outbound(), calls)
    {
      hide Replayed;
      hide In.ServiceRun;
      var status := inboundXcmpStatus;
      if status == [] {
        ReplayedNone(Outbound(), calls);
        return 0;
      }
      var shuffled := CreateShuffle(|status|, draw);
      assert Inbound().(status := status) == Inbound();
      status, weightUsed := ServiceLoop(env, maxWeight, isController, status, shuffled);
      inboundXcmpStatus := Filter(status, In.HasPages());
    }

    /** The scheduler loop over a shuffled list of channels, which grows while it is walked. */
    method ServiceLoop(env: In.Env, maxWeight: nat, isController: ParaId -> bool, status0: seq<In.InDetails>, shuffled0: seq<nat>)
      returns (status: seq<In.InDetails>, weightUsed: nat)
      requires In.ServiceOk(JobOf(env, maxWeight, isController), Turn(status0, shuffled0, 0, 0, 0))
      modifies this`inboundXcmpMessages, this`overweight, this`overweightCount, this`tick,
               this`log, this`calls, this`outboundXcmpStatus, this`signalMessages
      ensures var v := In.ServiceRun(old(JobOf(env, maxWeight, isController)), old(Turn(status0, shuffled0, 0, 0, 0)));
              Inbound().(status := status) == v.s && weightUsed == v.used
      ensures Replayed(old(Outbound()), old(calls), Outbound(), calls)
    {
      hide Replayed;
      hide In.ServiceRun;
      hide In.ServiceStep;
      hide Inbound;
      hide Outbound;
      status, weightUsed := status0, 0;
      var shuffled := shuffled0;
      var weightAvailable: nat := 0;
      var shuffleIndex: nat := 0;
      ReplayedNone(Outbound(), calls);
      ghost var job := JobOf(env, maxWeight, isController);
      ghost var start := Turn(status, shuffled, 0, 0, 0);
      SamePages();
      while shuffleIndex < |shuffled| && SatSub(maxWeight, weightUsed) >= queueConfig.thresholdWeight
        invariant In.ServiceOk(job, Turn(status, shuffled, shuffleIndex, weightUsed, weightAvailable))
        invariant In.ServiceRun(job, Turn(status, shuffled, shuffleIndex, weightUsed, weightAvailable)) == In.ServiceRun(job, start)
        invariant Replayed(old(Outbound()), old(calls), Outbound(), calls)
        invariant Inbound().pages == inboundXcmpMessages
        decreases In.Work(inboundXcmpMessages, status), |shuffled| - shuffleIndex
      {
        ghost var turn, out0, calls0 := Turn(status, shuffled, shuffleIndex, weightUsed, weightAvailable), Outbound(), calls;
        In.StepDecreases(job, turn);
        In.RunTurn(job, turn);
        status, shuffled, shuffleIndex, weightUsed, weightAvailable :=
          ServiceTurn(env, maxWeight, isController, status, shuffled, shuffleIndex, weightUsed, weightAvailable);
        ReplayedThen(old(Outbound()), old(calls), out0, calls0, Outbound(), calls);
        SamePages();
      }
      In.RunEnd(job, Turn(status, shuffled, shuffleIndex, weightUsed, weightAvailable));
    }

    lemma SamePages()
      ensures Inbound().pages == inboundXcmpMessages
    {
    }

    ghost function Turn(status: seq<In.InDetails>, shuffled: seq<nat>, shuffleIndex: nat, weightUsed: nat, weightAvailable: nat): In.Service
      reads this
    {
      In.Service(Inbound().(status := status), shuffled, shuffleIndex, weightUsed, weightAvailable)
    }

    /** One turn of the scheduler loop. */
    method ServiceTurn(env: In.Env, maxWeight: nat, isController: ParaId -> bool,
                       status: seq<In.InDetails>, shuffled: seq<nat>, shuffleIndex: nat, weightUsed: nat, weightAvailable: nat)
      returns (status': seq<In.InDetails>, shuffled': seq<nat>, shuffleIndex': nat, weightUsed': nat, weightAvailable': nat)
      requires In.ServiceOk(JobOf(env, maxWeight, isController), Turn(status, shuffled, shuffleIndex, weightUsed, weightAvailable))
      requires shuffleIndex < |shuffled|
      modifies this`inboundXcmpMessages, this`overweight, this`overweightCount, this`tick,
               this`log, this`calls, this`outboundXcmpStatus, this`signalMessages
      ensures Turn(status', shuffled', shuffleIndex', weightUsed', weightAvailable') ==
              In.ServiceStep(old(JobOf(env, maxWeight, isController)), old(Turn(status, shuffled, shuffleIndex, weightUsed, weightAvailable)))
      ensures Replayed(old(Outbound()), old(calls), Outbound(), calls)
    {
      hide In.ServeTurn;
      hide Replayed;
      var index := shuffled[shuffleIndex];
      if queueSuspended && !isController(status[index].sender) {
        ReplayedNone(Outbound(), calls);
        return status, shuffled, shuffleIndex + 1, weightUsed, weightAvailable;
      }
      status', shuffled', shuffleIndex', weightUsed', weightAvailable' :=
        ServeTurn(env, maxWeight, isController, status, shuffled, shuffleIndex, weightUsed, weightAvailable);
    }

    /** The part of a turn that serves a channel. */
    method ServeTurn(env: In.Env, maxWeight: nat, isController: ParaId -> bool,
                     status: seq<In.InDetails>, shuffled: seq<nat>, shuffleIndex: nat, weightUsed: nat, weightAvailable: nat)
      returns (status': seq<In.InDetails>, shuffled': seq<nat>, shuffleIndex': nat, weightUsed': nat, weightAvailable': nat)
      requires In.ServiceOk(JobOf(env, maxWeight, isController), Turn(status, shuffled, shuffleIndex, weightUsed, weightAvailable))
      requires shuffleIndex < |shuffled|
      modifies this`inboundXcmpMessages, this`overweight, this`overweightCount, this`tick,
               this`log, this`calls, this`outboundXcmpStatus, this`signalMessages
      ensures Turn(status', shuffled', shuffleIndex', weightUsed', weightAvailable') ==
              In.ServeTurn(old(JobOf(env, maxWeight, isController)), old(Turn(status, shuffled, shuffleIndex, weightUsed, weightAvailable)))
      ensures Replayed(old(Outbound()), old(calls), Outbound(), calls)
    {
      hide In.ServeChannel;
      hide In.Unlocked;
      hide Replayed;
      hide Inbound;
      hide Outbound;
      shuffled', shuffleIndex' := shuffled, shuffleIndex;
      var index := shuffled[shuffleIndex];
      weightAvailable' := UnlockWeight(maxWeight, status, shuffleIndex, weightAvailable);
      var weightProcessed;
      status', weightProcessed := ServeChannel(env, status, index, SatSub(weightAvailable', weightUsed));
      weightUsed' := weightUsed + weightProcessed;
      if status'[index].meta != [] && (weightProcessed > 0 || weightAvailable' != maxWeight) {
        // Nobody else waits, so the same channel gets another turn.
        if shuffleIndex + 1 == |shuffled| { return; }
        shuffled' := shuffled + [index];
      }
      shuffleIndex' := shuffleIndex + 1;
    }

    /** How much may be used once the next channel has had its turn. */
    method UnlockWeight(maxWeight: nat, status: seq<In.InDetails>, shuffleIndex: nat, weightAvailable: nat) returns (available: nat)
      requires weightAvailable <= maxWeight
      ensures weightAvailable <= available <= maxWeight
      ensures available == In.Unlocked(queueConfig, maxWeight, shuffleIndex < |status|, weightAvailable)
    {
      available := weightAvailable;
      if available != maxWeight {
        if shuffleIndex < |status| {
          available := available + (maxWeight - available) / (queueConfig.restrictDecay + 1);
          if available + queueConfig.thresholdWeight > maxWeight { available := maxWeight; }
        } else {
          available := maxWeight;
        }
      }
    }

    /** Reads the signals of one page; decoding stops at the first byte that is no signal. */
    method HearSignals(sender: ParaId, data: Bytes)
      modifies this`outboundXcmpStatus, this`calls
      ensures calls == old(calls) + In.HearAll(sender, DecodeSignals(data))
      ensures Replayed(old(Outbound()), old(calls), Outbound(), calls)
    {
      hide Replayed;
      var dataRef := data;
      ghost var heard: seq<Signal> := [];
      ReplayedNone(Outbound(), calls);
      while dataRef != [] && dataRef[0] <= 1
        invariant heard + DecodeSignals(dataRef) == DecodeSignals(data)
        invariant calls == old(calls) + In.HearAll(sender, heard)
        invariant Replayed(old(Outbound()), old(calls), Outbound(), calls)
        decreases |dataRef|
      {
        hide DecodeSignals;
        var signal := if dataRef[0] == 0 then Suspend else Resume;
        ghost var call, out0, calls0 := In.Hear(Note(sender, signal)), Outbound(), calls;
        if signal.Suspend? {
          var _ := SuspendChannel(sender);
        } else {
          var _ := ResumeChannel(sender);
        }
        calls := calls + [call];
        ReplayedCall(out0, calls0, call);
        ReplayedThen(old(Outbound()), old(calls), out0, calls0, Outbound(), calls);
        HearOne(sender, heard, dataRef, signal);
        heard := heard + [signal];
        dataRef := dataRef[1..];
      }
    }

    /** Records one data page in the local status list and stores its payload. */
    method RecordPage(status: seq<In.InDetails>, a: In.Arrival, format: Format)
      returns (status': seq<In.InDetails>)
      requires a.data != []
      modifies this`inboundXcmpMessages, this`calls, this`accepted, this`outboundXcmpStatus, this`signalMessages
      ensures Inbound().(status := status') ==
              In.RecordPage(queueConfig, old(Inbound()).(status := status), a, format, a.data[1..])
      ensures Replayed(old(Outbound()), old(calls), Outbound(), calls)
    {
      hide Replayed;
      hide Search;
      hide Apply;
      hide Out.SendSignal;
      hide StorePages;
      ReplayedNone(Outbound(), calls);
      var found := Search(status, In.BySenderId(), a.sender, 0, |status|);
      if found.Some? {
        var d := status[found.value];
        var count := |d.meta|;
        if count >= queueConfig.suspendThreshold && d.state.Ok? {
          d := d.(state := In.Suspended);
          ReplayedCall(Outbound(), calls, In.Issue(Note(a.sender, Suspend)));
          ApplyIssue(Outbound(), Note(a.sender, Suspend));
          SendSignal(a.sender, Suspend);
          calls := calls + [In.Issue(Note(a.sender, Suspend))];
        }
        if count < queueConfig.dropThreshold {
          d := d.(meta := d.meta + [In.Meta(a.sentAt, format)]);
          accepted := accepted + [a];
        }
        status' := status[found.value := d];
      } else {
        status' := status + [In.InDetails(a.sender, In.Ok, [In.Meta(a.sentAt, format)])];
        accepted := accepted + [a];
      }
      inboundXcmpMessages := StorePages(inboundXcmpMessages, a.sender, Inner(inboundXcmpMessages, a.sender)[a.sentAt := a.data[1..]]);
    }

    /** Handles one arriving page: signals act at once, data is recorded, the rest is ignored. */
    method ReceivePage(status: seq<In.InDetails>, a: In.Arrival) returns (status': seq<In.InDetails>)
      modifies this`inboundXcmpMessages, this`calls, this`accepted, this`outboundXcmpStatus, this`signalMessages
      ensures Inbound().(status := status') == In.Receive(queueConfig, old(Inbound()).(status := status), a)
      ensures Replayed(old(Outbound()), old(calls), Outbound(), calls)
    {
      hide Replayed;
      hide In.RecordPage;
      status' := status;
      var format := DecodeFormat(a.data);
      if format.None? {
        ReplayedNone(Outbound(), calls);
      } else if format.value.Signals? {
        HearSignals(a.sender, a.data[1..]);
      } else {
        status' := RecordPage(status, a, format.value);
      }
    }

    method HandleXcmpMessages(env: In.Env, batch: seq<In.Arrival>, maxWeight: nat, isController: ParaId -> bool, draw: nat -> nat)
      returns (weightUsed: nat)
      requires In.EnvOk(env)
      modifies this`inboundXcmpStatus, this`inboundXcmpMessages, this`overweight, this`overweightCount, this`tick,
               this`log, this`calls, this`accepted, this`outboundXcmpStatus, this`signalMessages
      ensures In.Served(Inbound(), weightUsed) ==
              In.HandleMessages(old(JobOf(env, maxWeight, isController)), old(Inbound()), batch, draw)
      ensures Replayed(old(Outbound()), old(calls), Outbound(), calls)
    {
      hide Replayed;
      hide In.Receive;
      hide In.ServiceQueue;
      var status := inboundXcmpStatus;
      var i := 0;
      assert Inbound().(status := status) == Inbound();
      assert batch[0..] == batch;
      ReplayedNone(Outbound(), calls);
      while i < |batch|
        invariant 0 <= i <= |batch|
        invariant In.ReceiveAll(queueConfig, Inbound().(status := status), batch[i..]) == In.ReceiveAll(queueConfig, old(Inbound()), batch)
        invariant Replayed(old(Outbound()), old(calls), Outbound(), calls)
      {
        ghost var out0, calls0 := Outbound(), calls;
        assert batch[i..][0] == batch[i] && batch[i..][1..] == batch[i + 1..];
        status := ReceivePage(status, batch[i]);
        ReplayedThen(old(Outbound()), old(calls), out0, calls0, Outbound(), calls);
        i := i + 1;
      }
      ghost var out0, calls0 := Outbound(), calls;
      assert batch[i..] == [];
      inboundXcmpStatus := StableSort(status, In.BySender());
      weightUsed := ServiceXcmpQueue(env, maxWeight, isController, draw);
      ReplayedThen(old(Outbound()), old(calls), out0, calls0, Outbound(), calls);
    }
  }

  // ---- the batch loop against its specification ----

  /** The loop has turned `statuses[..i]` into what the specification says and has the rest to do. */
  ghost predicate LoopInvariant(st: seq<Out.Details>, pages0: DoubleMap, signals0: map<ParaId, Bytes>, info: Out.ChannelInfo,
                                max: nat, statuses: seq<Out.Details>, i: nat, pages: DoubleMap, signals: map<ParaId, Bytes>,
                                gone: seq<Out.Gone>, taken: nat)
  {
    && i <= |statuses| && taken <= max
    && var rest := Out.TakeLoop(statuses[i..], pages, signals, info, max - taken);
       Out.TakeLoop(st, pages0, signals0, info, max) ==
       Out.Taking(statuses[..i] + rest.statuses, rest.pages, rest.signals, gone + rest.gone)
  }

  lemma HearOne(sender: ParaId, heard: seq<Signal>, data: Bytes, signal: Signal)
    requires data != [] && data[0] <= 1 && signal == if data[0] == 0 then Suspend else Resume
    ensures heard + DecodeSignals(data) == (heard + [signal]) + DecodeSignals(data[1..])
    ensures In.HearAll(sender, heard + [signal]) == In.HearAll(sender, heard) + [In.Hear(Note(sender, signal))]
  {
    assert DecodeSignals(data) == [signal] + DecodeSignals(data[1..]);
  }

  lemma LoopStart(st: seq<Out.Details>, pages: DoubleMap, signals: map<ParaId, Bytes>, info: Out.ChannelInfo, max: nat)
    ensures LoopInvariant(st, pages, signals, info, max, st, 0, pages, signals, [], 0)
  {
    hide Out.TakeLoop;
    assert st[0..] == st && st[..0] == [];
    var t := Out.TakeLoop(st, pages, signals, info, max);
    assert [] + t.statuses == t.statuses && [] + t.gone == t.gone;
  }

  lemma LoopTurn(st: seq<Out.Details>, pages0: DoubleMap, signals0: map<ParaId, Bytes>, info: Out.ChannelInfo,
                 max: nat, statuses: seq<Out.Details>, i: nat, pages: DoubleMap, signals: map<ParaId, Bytes>,
                 gone: seq<Out.Gone>, taken: nat, head: Out.Taking)
    requires i < |statuses| && taken < max
    requires LoopInvariant(st, pages0, signals0, info, max, statuses, i, pages, signals, gone, taken)
    requires head == Out.TakeHead(statuses[i], pages, signals, info(statuses[i].recipient))
    ensures LoopInvariant(st, pages0, signals0, info, max, statuses[i := head.statuses[0]], i + 1, head.pages, head.signals,
                          gone + head.gone, if Out.Emits(head.gone) then taken + 1 else taken)
  {
    hide Out.TakeHead;
    hide Out.TakeLoop;
    var todo := statuses[i..];
    Out.TakeLoopTurn(todo, pages, signals, info, max - taken);
    var rest := Out.TakeLoop(todo[1..], head.pages, head.signals, info, max - if Out.Emits(head.gone) then taken + 1 else taken);
    CutAt(statuses, i, head.statuses[0]);
    assert head.statuses == [head.statuses[0]];
    Associative(statuses[..i], head.statuses, rest.statuses);
    Associative(gone, head.gone, rest.gone);
  }

  lemma CutAt(st: seq<Out.Details>, i: nat, d: Out.Details)
    requires i < |st|
    ensures st[i := d][i + 1..] == st[i..][1..] && st[i := d][..i + 1] == st[..i] + [d]
  {
  }

  lemma LoopEnd(st: seq<Out.Details>, pages0: DoubleMap, signals0: map<ParaId, Bytes>, info: Out.ChannelInfo,
                max: nat, statuses: seq<Out.Details>, i: nat, pages: DoubleMap, signals: map<ParaId, Bytes>,
                gone: seq<Out.Gone>, taken: nat)
    requires i == |statuses| || taken == max
    requires LoopInvariant(st, pages0, signals0, info, max, statuses, i, pages, signals, gone, taken)
    ensures Out.TakeLoop(st, pages0, signals0, info, max) == Out.Taking(statuses, pages, signals, gone)
  {
    assert statuses[..i] + statuses[i..] == statuses;
  }

  lemma EmissionTurn(d: Out.Details, pages: DoubleMap, signals: map<ParaId, Bytes>, cs: Out.ChannelStatus,
                     gone: seq<Out.Gone>, now: seq<Out.Gone>)
    requires now == Out.TakeHead(d, pages, signals, cs).gone
    ensures Filter(gone + now, Out.IsEmitted()) ==
            if Out.Emits(now) then Filter(gone, Out.IsEmitted()) + [now[0]] else Filter(gone, Out.IsEmitted())
  {
    FilterAppend(gone, now, Out.IsEmitted());
    if Out.Emits(now) { FilterAll(now, Out.IsEmitted()); } else { FilterNone(now, Out.IsEmitted()); }
  }
}
