/**
 When the inbound scheduler gives up on a channel: it goes round as long as there is weight, and what it
 leaves was passed over or could not use the weight there was. A backlog that fits is drained.
 */
module XcmpScheduler {
  import opened Common
  import opened XcmpFormat
  import opened XcmpInbound
  import opened XcmpInboundProofs
  import opened XcmpMessages

  // ------------------------------------------------------------------ one turn

  /** The channels still to visit, in order. */
  function Waiting(v: Service): seq<nat>
    requires v.index <= |v.shuffled|
  {
    v.shuffled[v.index..]
  }

  /** The queue is suspended and `k` is not the controller. */
  predicate PassedOver(j: Job, s: Inbound, k: nat)
    requires k < |s.status|
  {
    j.suspended && !j.isController(s.status[k].sender)
  }

  /** After its turn channel `k` has pages left, and it used weight or not everything was unlocked. */
  predicate GoesAgain(j: Job, v: Service, v': Service, k: nat)
    requires k < |v'.s.status|
  {
    v'.s.status[k].meta != [] && (v'.used > v.used || v'.available < j.maxWeight)
  }

  lemma PassingTurn(j: Job, v: Service)
    requires ServiceOk(j, v) && v.index < |v.shuffled| && PassedOver(j, v.s, v.shuffled[v.index])
    ensures ServiceStep(j, v) == v.(index := v.index + 1) && Waiting(ServiceStep(j, v)) == Waiting(v)[1..]
  {
    hide ServeTurn;
  }

  lemma ServingTurn(j: Job, v: Service)
    requires ServiceOk(j, v) && v.index < |v.shuffled| && !PassedOver(j, v.s, v.shuffled[v.index])
    ensures var v', k := ServiceStep(j, v), Waiting(v)[0];
            && Waiting(v') == Waiting(v)[1..] + (if GoesAgain(j, v, v', k) then [k] else [])
            && v'.index == (if GoesAgain(j, v, v', k) && |Waiting(v)| == 1 then v.index else v.index + 1)
            && v'.available == Unlock(j, v) && v'.used >= v.used
  {
    hide ServeChannel;
    hide Unlock;
  }

  lemma TurnElsewhere(j: Job, v: Service)
    requires ServiceOk(j, v) && v.index < |v.shuffled|
    ensures var v', k := ServiceStep(j, v), v.shuffled[v.index];
            forall i :: 0 <= i < |v.s.status| && i != k ==> v'.s.status[i] == v.s.status[i]
  {
    hide ServeChannel;
    hide ServiceStep;
    StepServes(j, v);
    ServeShape(j.env, j.cfg, v.s, v.shuffled[v.index], Unlock(j, v) - v.used);
  }

  /**
   One turn of the loop: the first channel that waits is passed over, or served and queued behind all
   others if it goes again; the others stay in their order. Only a channel that waits alone is served
   again without counting as a turn of the round.
   */
  lemma TurnQueues(j: Job, v: Service)
    requires ServiceOk(j, v) && v.index < |v.shuffled|
    ensures var v', k := ServiceStep(j, v), Waiting(v)[0];
            && (if PassedOver(j, v.s, k) then v' == v.(index := v.index + 1) && Waiting(v') == Waiting(v)[1..]
                else
                  && Waiting(v') == Waiting(v)[1..] + (if GoesAgain(j, v, v', k) then [k] else [])
                  && v'.index == (if GoesAgain(j, v, v', k) && |Waiting(v)| == 1 then v.index else v.index + 1)
                  && v'.available == Unlock(j, v) && v'.used >= v.used)
            && forall i :: 0 <= i < |v.s.status| && i != k ==> v'.s.status[i] == v.s.status[i]
  {
    hide ServiceStep;
    hide Unlock;
    TurnElsewhere(j, v);
    if PassedOver(j, v.s, v.shuffled[v.index]) { PassingTurn(j, v); } else { ServingTurn(j, v); }
  }

  // ------------------------------------------------------------------ whole calls

  /** The state after `n` turns is about to serve `k` for the last time: everything is unlocked, and it uses nothing. */
  ghost predicate StallsAt(j: Job, v: Service, n: nat, k: nat, last: InDetails)
    requires ServiceOk(j, v)
  {
    var u := After(j, v, n);
    && Continues(j, u) && u.shuffled[u.index] == k && !PassedOver(j, u.s, k)
    && var u' := ServiceStep(j, u);
       u'.available == j.maxWeight && u'.used == u.used && u'.s.status[k] == last
  }

  ghost predicate Stalls(j: Job, v: Service, k: nat, last: InDetails)
    requires ServiceOk(j, v)
  {
    exists n: nat :: StallsAt(j, v, n, k, last)
  }

  lemma StallsLater(j: Job, v: Service, k: nat, last: InDetails)
    requires ServiceOk(j, v) && Continues(j, v) && Stalls(j, ServiceStep(j, v), k, last)
    ensures Stalls(j, v, k, last)
  {
    hide ServiceStep;
    var n: nat :| StallsAt(j, ServiceStep(j, v), n, k, last);
    assert After(j, v, n + 1) == After(j, ServiceStep(j, v), n);
    assert StallsAt(j, v, n + 1, k, last);
  }

  /** A channel that waits no more is not touched again. */
  lemma {:induction false} DoneStays(j: Job, v: Service, k: nat)
    requires ServiceOk(j, v) && k < |v.s.status| && k !in Waiting(v)
    ensures var r := ServiceRun(j, v); k < |r.s.status| && r.s.status[k] == v.s.status[k]
    decreases Work(v.s.pages, v.s.status), |v.shuffled| - v.index
  {
    if Continues(j, v) {
      hide ServiceStep;
      StepDecreases(j, v);
      TurnQueues(j, v);
      assert Waiting(v)[0] in Waiting(v);
      DoneStays(j, ServiceStep(j, v), k);
    }
  }

  lemma SameSender(j: Job, v: Service, k: nat)
    requires ServiceOk(j, v) && k < |v.s.status|
    ensures var s' := ServiceRun(j, v).s; k < |s'.status| && s'.status[k].sender == v.s.status[k].sender
  {
    hide ServiceRun;
    ServiceKeepsSenders(j, v);
    assert Senders(ServiceRun(j, v).s.status)[k] == Senders(v.s.status)[k];
  }

  lemma LastIsIn(w: seq<nat>, k: nat)
    ensures k in w + [k]
  {
    assert (w + [k])[|w|] == k;
  }

  /** The last visit of a channel that does not go again. */
  lemma LastVisit(j: Job, v: Service, k: nat)
    requires ServiceOk(j, v) && Continues(j, v) && Waiting(v)[0] == k && !PassedOver(j, v.s, k) && k !in Waiting(ServiceStep(j, v))
    ensures var r := ServiceRun(j, v); k < |r.s.status| && (r.s.status[k].meta == [] || Stalls(j, v, k, r.s.status[k]))
  {
    hide ServiceStep;
    TurnQueues(j, v);
    RunTurn(j, v);
    var v' := ServiceStep(j, v);
    LastIsIn(Waiting(v)[1..], k);
    DoneStays(j, v', k);
    hide ServiceRun;
    if v'.s.status[k].meta != [] {
      assert After(j, v, 0) == v;
      assert StallsAt(j, v, 0, k, v'.s.status[k]);
    }
  }

  /**
   What becomes of every channel that waits, over the whole loop: if the loop ends with weight to spare,
   the channel is drained, passed over, or stalled at its last visit.
   */
  lemma {:induction false} GivenUpOnlyIf(j: Job, v: Service, k: nat)
    requires ServiceOk(j, v) && k in Waiting(v)
    ensures var r := ServiceRun(j, v);
            && k < |r.s.status|
            && (SatSub(j.maxWeight, r.used) >= j.cfg.thresholdWeight ==>
                  r.s.status[k].meta == [] || PassedOver(j, r.s, k) || Stalls(j, v, k, r.s.status[k]))
    decreases Work(v.s.pages, v.s.status), |v.shuffled| - v.index
  {
    hide ServiceStep;
    hide Stalls;
    if Continues(j, v) {
      StepDecreases(j, v);
      TurnQueues(j, v);
      var v' := ServiceStep(j, v);
      if k in Waiting(v') {
        GivenUpOnlyIf(j, v', k);
        RunTurn(j, v);
        hide ServiceRun;
        var r := ServiceRun(j, v');
        if Stalls(j, v', k, r.s.status[k]) { StallsLater(j, v, k, r.s.status[k]); }
      } else {
        assert Waiting(v) == [Waiting(v)[0]] + Waiting(v)[1..];
        SameSender(j, v, k);
        if !PassedOver(j, v.s, k) { LastVisit(j, v, k); }
      }
    }
  }

  lemma {:induction false} ShuffleKeeps(s: seq<nat>, i: nat, draw: nat -> nat, k: nat)
    requires i <= |s| && k in s
    ensures k in ShuffleFrom(s, i, draw)
    decreases |s| - i
  {
    if i < |s| {
      var m := draw(i) % |s|;
      var s' := Swap(s, i, m);
      var a :| 0 <= a < |s| && s[a] == k;
      assert s'[if a == i then m else if a == m then i else a] == k;
      ShuffleKeeps(s', i + 1, draw, k);
    }
  }

  lemma SwapKeepsElements(s: seq<nat>, i: nat, k: nat)
    requires i < |s| && k < |s|
    ensures multiset(Swap(s, i, k)) == multiset(s)
  {
  }

  lemma SameDraws(s: seq<nat>, i: nat, draw: nat -> nat, draw': nat -> nat)
    requires i <= |s| && forall n: nat :: n >= i ==> draw(n) == draw'(n)
    ensures ShuffleFrom(s, i, draw) == ShuffleFrom(s, i, draw')
    decreases |s| - i
  {
    if i < |s| { SameDraws(Swap(s, i, draw(i) % |s|), i + 1, draw, draw'); }
  }

  lemma NextIsLater(s: seq<nat>, target: seq<nat>, i: nat)
    requires multiset(target) == multiset(s) && i < |s| && i < |target| && target[..i] == s[..i]
    ensures exists k :: i <= k < |s| && s[k] == target[i]
  {
    assert s == s[..i] + s[i..] && target == target[..i] + target[i..];
    assert multiset(s) == multiset(s[..i]) + multiset(s[i..]);
    assert multiset(target) == multiset(target[..i]) + multiset(target[i..]);
    var x := target[i];
    assert target[i..][0] == x && x in multiset(target[i..]);
    assert multiset(s[i..])[x] == multiset(s)[x] - multiset(s[..i])[x] == multiset(target[i..])[x];
    assert x in s[i..];
  }

  lemma ShuffleTurn(s: seq<nat>, i: nat, draw: nat -> nat, k: nat)
    requires i < |s| && k < |s| && draw(i) == k
    ensures ShuffleFrom(s, i, draw) == ShuffleFrom(Swap(s, i, k), i + 1, draw)
  {
    assert k % |s| == k;
  }

  /** Swapping the wanted element to place `i` extends the agreement by one. */
  lemma SwapAgrees(s: seq<nat>, target: seq<nat>, i: nat, k: nat)
    requires |target| == |s| && i <= k < |s| && target[..i] == s[..i] && s[k] == target[i]
    ensures target[..i + 1] == Swap(s, i, k)[..i + 1] && multiset(Swap(s, i, k)) == multiset(s)
  {
    SwapKeepsElements(s, i, k);
    var s' := Swap(s, i, k);
    assert s'[i] == s[k];
    assert s'[..i + 1] == s[..i] + [s[k]] && target[..i + 1] == target[..i] + [target[i]];
  }

  /** Some random numbers lead from `s` to any order of it that agrees with it up to `i`. */
  lemma {:induction false} ShuffleReaches(s: seq<nat>, target: seq<nat>, i: nat) returns (draw: nat -> nat)
    requires |target| == |s| && i <= |s| && multiset(target) == multiset(s) && target[..i] == s[..i]
    ensures ShuffleFrom(s, i, draw) == target
    decreases |s| - i
  {
    if i == |s| {
      draw := (n: nat) => 0;
      assert target[..i] == target && s[..i] == s;
    } else {
      hide ShuffleFrom;
      NextIsLater(s, target, i);
      var k: nat :| i <= k < |s| && s[k] == target[i];
      SwapAgrees(s, target, i, k);
      hide Swap;
      var later := ShuffleReaches(Swap(s, i, k), target, i + 1);
      draw := (n: nat) => if n == i then k else later(n);
      SameDraws(Swap(s, i, k), i + 1, draw, later);
      ShuffleTurn(s, i, draw, k);
    }
  }

  /** The shuffle is a real one: every order of the channels comes out for some random numbers. */
  lemma EveryOrderCanBeDrawn(target: seq<nat>) returns (draw: nat -> nat)
    requires multiset(target) == multiset(Upto(|target|))
    ensures CreateShuffle(|target|, draw) == target
  {
    draw := ShuffleReaches(Upto(|target|), target, 0);
  }

  /** A service call begins with every channel waiting. */
  lemma EveryoneWaits(j: Job, s: Inbound, draw: nat -> nat, k: nat)
    requires EnvOk(j.env) && k < |s.status|
    ensures var v := Service(s, CreateShuffle(|s.status|, draw), 0, 0, 0); ServiceOk(j, v) && k in Waiting(v)
  {
    ShuffleIsPermutation(Upto(|s.status|), 0, draw);
    assert Upto(|s.status|)[k] == k;
    ShuffleKeeps(Upto(|s.status|), 0, draw, k);
    assert CreateShuffle(|s.status|, draw)[0..] == CreateShuffle(|s.status|, draw);
  }

  /** The entry `d` is that of channel `k`, which was passed over or stalled. */
  ghost predicate LeftOver(j: Job, s: Inbound, draw: nat -> nat, k: nat, d: InDetails)
    requires EnvOk(j.env) && k < |s.status|
  {
    EveryoneWaits(j, s, draw, k);
    d.sender == s.status[k].sender &&
    (PassedOver(j, s, k) || Stalls(j, Service(s, CreateShuffle(|s.status|, draw), 0, 0, 0), k, d))
  }

  /**
   Whole service calls: if at least the threshold is left unused, every entry left is one that suspension
   passed over, or one that used nothing at its last visit although everything was unlocked.
   */
  lemma ServiceLeavesOnly(j: Job, s: Inbound, draw: nat -> nat, d: InDetails)
    requires EnvOk(j.env)
    requires var r := ServiceQueue(j, s, draw); d in r.s.status && SatSub(j.maxWeight, r.used) >= j.cfg.thresholdWeight
    ensures exists k: nat :: k < |s.status| && LeftOver(j, s, draw, k, d)
  {
    hide ServiceRun;
    hide Stalls;
    var v := Service(s, CreateShuffle(|s.status|, draw), 0, 0, 0);
    ShuffleIsPermutation(Upto(|s.status|), 0, draw);
    var st := ServiceRun(j, v).s.status;
    FilterMember(st, HasPages(), d);
    var k: nat :| k < |st| && st[k] == d;
    ServiceKeepsSenders(j, v);
    assert |Senders(st)| == |Senders(s.status)| && Senders(st)[k] == Senders(s.status)[k];
    EveryoneWaits(j, s, draw, k);
    GivenUpOnlyIf(j, v, k);
    assert LeftOver(j, s, draw, k, d);
  }

  // ------------------------------------------------------------------ a backlog that runs

  /** The bytes are messages to the end. */
  ghost predicate Whole(dec: Codec, b: Bytes)
    decreases |b|
  {
    b == [] || (dec(b).Some? && 0 < dec(b).value <= |b| && Whole(dec, b[dec(b).value..]))
  }

  /** A page of messages, at least one. */
  ghost predicate HoldsMessages(dec: Codec, m: Meta, payload: Bytes) {
    m.format.ConcatenatedVersionedXcm? && payload != [] && Whole(dec, payload)
  }

  /** Every waiting page of the entry holds messages. */
  ghost predicate EntryRuns(dec: Codec, pages: DoubleMap, d: InDetails) {
    forall i :: 0 <= i < |d.meta| ==> HoldsMessages(dec, d.meta[i], Page(Inner(pages, d.sender), d.meta[i].sentAt))
  }

  /** No two entries or pages share storage, and every waiting page holds messages. */
  ghost predicate Runs(dec: Codec, s: Inbound) {
    && UniqueSenders(s.status)
    && forall i :: 0 <= i < |s.status| ==> DistinctTimes(s.status[i].meta) && EntryRuns(dec, s.pages, s.status[i])
  }

  /** The executor runs everything that is given at least `need`, and it uses some weight. */
  ghost predicate Willing(env: Env, need: nat) {
    forall tick: nat, x: ParaId, at: nat, msg: Bytes, limit: nat ::
      limit >= need ==> env.execute(tick, x, at, msg, limit).Used? && env.execute(tick, x, at, msg, limit).weight > 0
  }

  lemma {:induction false} ParseLeavesWhole(env: Env, x: ParaId, at: nat, p: Parse, maxWeight: nat, maxIndividual: nat)
    requires EnvOk(env) && p.used <= maxWeight && Whole(env.decode, p.rest)
    ensures var r := ParseXcm(env, x, at, p, maxWeight, maxIndividual); Whole(env.decode, r.rest) && r.used >= p.used
    decreases |p.rest|
  {
    if p.rest != [] {
      var (p', stop) := ParseStep(env, x, at, p, maxWeight, maxIndividual);
      if !stop { ParseLeavesWhole(env, x, at, p', maxWeight, maxIndividual); }
    }
  }

  /** A page of messages that is offered what the executor needs uses weight. */
  lemma PageUses(env: Env, x: ParaId, m: Meta, p: Parse, maxWeight: nat, maxIndividual: nat, need: nat)
    requires EnvOk(env) && Willing(env, need) && p.used == 0 && need <= maxWeight && HoldsMessages(env.decode, m, p.rest)
    ensures ParsePage(env, x, m, p, maxWeight, maxIndividual).used > 0
  {
    ParseTurn(env, x, m.sentAt, p, maxWeight, maxIndividual);
    var (p', stop) := ParseStep(env, x, m.sentAt, p, maxWeight, maxIndividual);
    assert !stop && p'.used > 0;
    ParseLeavesWhole(env, x, m.sentAt, p', maxWeight, maxIndividual);
  }

  lemma PageRuns(env: Env, x: ParaId, m: Meta, p: Parse, maxWeight: nat, maxIndividual: nat)
    requires EnvOk(env) && p.used <= maxWeight && HoldsMessages(env.decode, m, p.rest)
    ensures var rest := ParsePage(env, x, m, p, maxWeight, maxIndividual).rest; rest != [] ==> HoldsMessages(env.decode, m, rest)
  {
    hide ParseXcm;
    ParseLeavesWhole(env, x, m.sentAt, p, maxWeight, maxIndividual);
  }

  lemma OtherEntryRuns(dec: Codec, pages: DoubleMap, pages': DoubleMap, d: InDetails)
    requires EntryRuns(dec, pages, d)
    requires forall i :: 0 <= i < |d.meta| ==> Page(Inner(pages', d.sender), d.meta[i].sentAt) == Page(Inner(pages, d.sender), d.meta[i].sentAt)
    ensures EntryRuns(dec, pages', d)
  {
    hide HoldsMessages;
  }

  /** The served entry still runs: its first page is shorter or gone, the others are as they were. */
  lemma ServedEntryRuns(dec: Codec, pages: DoubleMap, pages': DoubleMap, d: InDetails, rest: Bytes)
    requires d.meta != [] && DistinctTimes(d.meta) && EntryRuns(dec, pages, d) && (rest != [] ==> HoldsMessages(dec, d.meta[0], rest))
    requires Page(Inner(pages', d.sender), d.meta[0].sentAt) == rest
    requires forall t: nat :: t != d.meta[0].sentAt ==> Page(Inner(pages', d.sender), t) == Page(Inner(pages, d.sender), t)
    ensures EntryRuns(dec, pages', if rest == [] then d.(meta := d.meta[1..]) else d)
  {
    hide HoldsMessages;
    forall i | 0 < i < |d.meta| ensures HoldsMessages(dec, d.meta[i], Page(Inner(pages', d.sender), d.meta[i].sentAt)) {
      assert d.meta[i].sentAt != d.meta[0].sentAt;
    }
  }

  lemma ProcessRuns(env: Env, s: Inbound, k: nat, grant: nat, maxIndividual: nat)
    requires EnvOk(env) && k < |s.status| && s.status[k].meta != [] && Runs(env.decode, s)
    ensures Runs(env.decode, ProcessPage(env, s, k, grant, maxIndividual).s)
  {
    hide ParsePage;
    hide HoldsMessages;
    hide StoreRest;
    var d := s.status[k];
    var m, x := d.meta[0], d.sender;
    var p0 := Parse(Page(Inner(s.pages, x), m.sentAt), 0, s.tick, s.over, s.log);
    var rest := ParsePage(env, x, m, p0, grant, maxIndividual).rest;
    PageRuns(env, x, m, p0, grant, maxIndividual);
    RestElsewhere(s.pages, x, m.sentAt, rest);
    var pages' := StoreRest(s.pages, x, m.sentAt, rest);
    ServedEntryRuns(env.decode, s.pages, pages', d, rest);
    forall i | 0 <= i < |s.status| && i != k ensures EntryRuns(env.decode, pages', s.status[i]) {
      assert s.status[i].sender != x;
      OtherEntryRuns(env.decode, s.pages, pages', s.status[i]);
    }
  }

  lemma ServeRuns(env: Env, cfg: Config, s: Inbound, k: nat, grant: nat)
    requires EnvOk(env) && k < |s.status| && Runs(env.decode, s)
    ensures Runs(env.decode, ServeChannel(env, cfg, s, k, grant).s)
  {
    hide ProcessPage;
    hide HoldsMessages;
    if s.status[k].meta != [] { ProcessRuns(env, s, k, grant, cfg.maxIndividual); }
  }

  lemma StepRuns(j: Job, v: Service)
    requires ServiceOk(j, v) && v.index < |v.shuffled| && Runs(j.env.decode, v.s)
    ensures Runs(j.env.decode, ServiceStep(j, v).s)
  {
    hide Runs;
    hide ServiceStep;
    hide ServeChannel;
    StepServes(j, v);
    ServeRuns(j.env, j.cfg, v.s, v.shuffled[v.index], Unlock(j, v) - v.used);
  }

  lemma {:induction false} AfterRuns(j: Job, v: Service, n: nat)
    requires ServiceOk(j, v) && Runs(j.env.decode, v.s)
    ensures Runs(j.env.decode, After(j, v, n).s)
    decreases n
  {
    hide Runs;
    hide ServiceStep;
    if n > 0 && Continues(j, v) {
      StepRuns(j, v);
      AfterRuns(j, ServiceStep(j, v), n - 1);
    }
  }

  /** A channel that runs uses weight whenever everything is unlocked, if the threshold covers what the executor needs. */
  lemma RunningChannelUses(j: Job, v: Service)
    requires ServiceOk(j, v) && Continues(j, v) && Runs(j.env.decode, v.s) && Willing(j.env, j.cfg.thresholdWeight)
    requires var k := v.shuffled[v.index]; !PassedOver(j, v.s, k) && v.s.status[k].meta != []
    ensures ServiceStep(j, v).available == j.maxWeight ==> ServiceStep(j, v).used > v.used
  {
    hide ParsePage;
    hide HoldsMessages;
    hide StoreRest;
    hide Willing;
    var d := v.s.status[v.shuffled[v.index]];
    if Unlock(j, v) == j.maxWeight {
      PageUses(j.env, d.sender, d.meta[0], Parse(Page(Inner(v.s.pages, d.sender), d.meta[0].sentAt), 0, v.s.tick, v.s.over, v.s.log),
               j.maxWeight - v.used, j.cfg.maxIndividual, j.cfg.thresholdWeight);
    }
  }

  lemma RunningChannelNeverStalls(j: Job, v: Service, k: nat, last: InDetails)
    requires ServiceOk(j, v) && Runs(j.env.decode, v.s) && Willing(j.env, j.cfg.thresholdWeight) && last.meta != []
    ensures !Stalls(j, v, k, last)
  {
    hide ServiceStep;
    hide Runs;
    hide Willing;
    forall n: nat ensures !StallsAt(j, v, n, k, last) {
      if StallsAt(j, v, n, k, last) {
        var u := After(j, v, n);
        AfterRuns(j, v, n);
        StillHasPages(j, u);
        RunningChannelUses(j, u);
        assert false;
      }
    }
  }

  lemma StillHasPages(j: Job, v: Service)
    requires ServiceOk(j, v) && v.index < |v.shuffled|
    ensures var k := v.shuffled[v.index]; ServiceStep(j, v).s.status[k].meta != [] ==> v.s.status[k].meta != []
  {
    hide ServeChannel;
    hide ServiceStep;
    StepServes(j, v);
    ServeShape(j.env, j.cfg, v.s, v.shuffled[v.index], Unlock(j, v) - v.used);
  }

  /**
   If every waiting page holds messages, which the executor runs when given the threshold, and the queue
   is not suspended, a service call drains it or leaves less than the threshold unused.
   */
  lemma RunningQueueIsDrained(j: Job, s: Inbound, draw: nat -> nat)
    requires EnvOk(j.env) && Runs(j.env.decode, s) && Willing(j.env, j.cfg.thresholdWeight) && !j.suspended
    ensures var r := ServiceQueue(j, s, draw); r.s.status == [] || SatSub(j.maxWeight, r.used) < j.cfg.thresholdWeight
  {
    hide ServiceQueue;
    hide Runs;
    hide Willing;
    hide Stalls;
    var r := ServiceQueue(j, s, draw);
    if r.s.status != [] && SatSub(j.maxWeight, r.used) >= j.cfg.thresholdWeight {
      var d := r.s.status[0];
      ServiceLeavesOnly(j, s, draw, d);
      var k: nat :| k < |s.status| && LeftOver(j, s, draw, k, d);
      EveryoneWaits(j, s, draw, k);
      LeftHasPages(j, s, draw);
      RunningChannelNeverStalls(j, Service(s, CreateShuffle(|s.status|, draw), 0, 0, 0), k, d);
      assert false;
    }
  }

  lemma LeftHasPages(j: Job, s: Inbound, draw: nat -> nat)
    requires EnvOk(j.env)
    ensures forall d :: d in ServiceQueue(j, s, draw).s.status && s.status != [] ==> d.meta != []
  {
    hide ServiceRun;
    if s.status != [] {
      ShuffleIsPermutation(Upto(|s.status|), 0, draw);
      ForgetLeavesPages(ServiceRun(j, Service(s, CreateShuffle(|s.status|, draw), 0, 0, 0)).s.status);
    }
  }

  // ------------------------------------------------------------------ what a backlog can cost

  /** No message uses more than `most`. */
  ghost predicate Cheap(env: Env, most: nat) {
    forall tick: nat, x: ParaId, at: nat, msg: Bytes, limit: nat ::
      env.execute(tick, x, at, msg, limit).Used? ==> env.execute(tick, x, at, msg, limit).weight <= most
  }

  lemma TimesOneMore(w: nat, n: nat)
    ensures w * (n + 1) == w * n + w
  {
  }

  lemma StepCosts(env: Env, x: ParaId, at: nat, p: Parse, maxWeight: nat, maxIndividual: nat, w: nat)
    requires EnvOk(env) && Cheap(env, w) && p.rest != [] && p.used <= maxWeight
    ensures ParseStep(env, x, at, p, maxWeight, maxIndividual).0.used <= p.used + w
  {
  }

  /** The weight used is covered by the messages decided, at `w` each. */
  lemma {:induction false} ParseCosts(env: Env, x: ParaId, at: nat, p: Parse, maxWeight: nat, maxIndividual: nat, w: nat)
    requires EnvOk(env) && Cheap(env, w) && p.used <= maxWeight
    ensures var r := ParseXcm(env, x, at, p, maxWeight, maxIndividual);
            && r.used + w * |Cut(env.decode, r.rest)| <= p.used + w * |Cut(env.decode, p.rest)|
            && |Cut(env.decode, r.rest)| <= |Cut(env.decode, p.rest)| && (p.rest == [] ==> r.rest == [])
    decreases |p.rest|
  {
    if p.rest != [] {
      hide Cut;
      hide ParseStep;
      hide Cheap;
      StepCuts(env, x, at, p, maxWeight, maxIndividual);
      ParseTurn(env, x, at, p, maxWeight, maxIndividual);
      StepCosts(env, x, at, p, maxWeight, maxIndividual, w);
      var (p', stop) := ParseStep(env, x, at, p, maxWeight, maxIndividual);
      if !stop {
        ParseCosts(env, x, at, p', maxWeight, maxIndividual, w);
        TimesOneMore(w, |Cut(env.decode, p'.rest)|);
      } else {
        StoppedUsesNothing(env, x, at, p, maxWeight, maxIndividual);
      }
    }
  }

  lemma StoppedUsesNothing(env: Env, x: ParaId, at: nat, p: Parse, maxWeight: nat, maxIndividual: nat)
    requires EnvOk(env) && p.rest != [] && p.used <= maxWeight && ParseStep(env, x, at, p, maxWeight, maxIndividual).1
    ensures ParseStep(env, x, at, p, maxWeight, maxIndividual).0.used == p.used
  {
  }

  lemma PageCosts(env: Env, x: ParaId, m: Meta, p: Parse, maxWeight: nat, maxIndividual: nat, w: nat)
    requires EnvOk(env) && Cheap(env, w) && p.used == 0
    ensures var r := ParsePage(env, x, m, p, maxWeight, maxIndividual); var dec := env.decode;
            && r.used + w * |CutPage(dec, m.format, r.rest)| <= w * |CutPage(dec, m.format, p.rest)|
            && forall f: Format :: |CutPage(dec, f, r.rest)| <= |CutPage(dec, f, p.rest)|
  {
    hide Cheap;
    hide ParseXcm;
    ParseCosts(env, x, m.sentAt, p, maxWeight, maxIndividual, w);
  }

  /** The number of messages that wait. */
  function Backlog(dec: Codec, pages: DoubleMap, status: seq<InDetails>): nat {
    if status == [] then 0 else |MessagesOf(dec, pages, status[0].sender, status[0].meta)| + Backlog(dec, pages, status[1..])
  }

  /** No page holds more messages than before, whatever its format. */
  ghost predicate Fewer(dec: Codec, pages: DoubleMap, pages': DoubleMap) {
    forall x: ParaId, at: nat, f: Format :: |CutPage(dec, f, Page(Inner(pages', x), at))| <= |CutPage(dec, f, Page(Inner(pages, x), at))|
  }

  lemma {:induction false} FewerMessages(dec: Codec, pages: DoubleMap, pages': DoubleMap, x: ParaId, meta: seq<Meta>)
    requires Fewer(dec, pages, pages')
    ensures |MessagesOf(dec, pages', x, meta)| <= |MessagesOf(dec, pages, x, meta)|
  {
    hide CutPage;
    if meta != [] { FewerMessages(dec, pages, pages', x, meta[1..]); }
  }

  lemma {:induction false} BacklogShrinks(dec: Codec, pages: DoubleMap, pages': DoubleMap, status: seq<InDetails>)
    requires Fewer(dec, pages, pages')
    ensures Backlog(dec, pages', status) <= Backlog(dec, pages, status)
  {
    if status != [] {
      FewerMessages(dec, pages, pages', status[0].sender, status[0].meta);
      BacklogShrinks(dec, pages, pages', status[1..]);
    }
  }

  /** The backlog shrinks at least by what entry `k` loses. */
  lemma {:induction false} BacklogDrops(dec: Codec, pages: DoubleMap, pages': DoubleMap, status: seq<InDetails>, k: nat, d: InDetails)
    requires Fewer(dec, pages, pages') && k < |status|
    ensures Backlog(dec, pages', status[k := d]) + |MessagesOf(dec, pages, status[k].sender, status[k].meta)| <=
            Backlog(dec, pages, status) + |MessagesOf(dec, pages', d.sender, d.meta)|
  {
    hide Fewer;
    hide MessagesOf;
    if k == 0 {
      assert status[k := d][1..] == status[1..];
      BacklogShrinks(dec, pages, pages', status[1..]);
    } else {
      assert status[k := d][1..] == status[1..][k - 1 := d];
      FewerMessages(dec, pages, pages', status[0].sender, status[0].meta);
      BacklogDrops(dec, pages, pages', status[1..], k - 1, d);
    }
  }

  lemma RestIsFewer(dec: Codec, pages: DoubleMap, x: ParaId, at: nat, rest: Bytes)
    requires forall f: Format :: |CutPage(dec, f, rest)| <= |CutPage(dec, f, Page(Inner(pages, x), at))|
    ensures Fewer(dec, pages, StoreRest(pages, x, at, rest))
  {
    hide CutPage;
    hide StoreRest;
    RestElsewhere(pages, x, at, rest);
  }

  lemma Distributes(w: nat, a: nat, b: nat)
    ensures w * (a + b) == w * a + w * b
  {
  }

  lemma Covered(w: nat, used: nat, before: nat, after: nat, left: nat, left': nat)
    requires used + w * after <= w * before && left' + before <= left + after
    ensures used + w * left' <= w * left
  {
    TimesLess(w, left' + before, left + after);
    Distributes(w, left', before);
    Distributes(w, left, after);
  }

  /** What the served entry loses covers the weight used. */
  lemma EntryCosts(dec: Codec, pages: DoubleMap, pages': DoubleMap, d: InDetails, rest: Bytes, used: nat, w: nat)
    requires d.meta != [] && Fewer(dec, pages, pages') && Page(Inner(pages', d.sender), d.meta[0].sentAt) == rest
    requires used + w * |CutPage(dec, d.meta[0].format, rest)| <= w * |CutPage(dec, d.meta[0].format, Page(Inner(pages, d.sender), d.meta[0].sentAt))|
    ensures var meta' := if rest == [] then d.meta[1..] else d.meta;
            used + w * |MessagesOf(dec, pages', d.sender, meta')| <= w * |MessagesOf(dec, pages, d.sender, d.meta)|
  {
    var x, m := d.sender, d.meta[0];
    assert CutPage(dec, m.format, []) == [];
    hide CutPage;
    hide Fewer;
    var page, page' := |CutPage(dec, m.format, Page(Inner(pages, x), m.sentAt))|, |CutPage(dec, m.format, rest)|;
    var tail, tail' := |MessagesOf(dec, pages, x, d.meta[1..])|, |MessagesOf(dec, pages', x, d.meta[1..])|;
    FewerMessages(dec, pages, pages', x, d.meta[1..]);
    TimesLess(w, tail', tail);
    Distributes(w, page, tail);
    Distributes(w, page', tail');
  }

  lemma ServeCosts(env: Env, cfg: Config, s: Inbound, k: nat, grant: nat, w: nat)
    requires EnvOk(env) && Cheap(env, w) && k < |s.status|
    ensures var r := ServeChannel(env, cfg, s, k, grant);
            r.used + w * Backlog(env.decode, r.s.pages, r.s.status) <= w * Backlog(env.decode, s.pages, s.status)
  {
    hide ParsePage;
    hide StoreRest;
    hide Cheap;
    hide Fewer;
    hide CutPage;
    hide Backlog;
    hide MessagesOf;
    var d, dec := s.status[k], env.decode;
    var r := ServeChannel(env, cfg, s, k, grant);
    if d.meta == [] {
      StateIsNoBacklog(dec, s.pages, s.status, k, s.status[k].(state := Ok));
    } else {
      var m, x := d.meta[0], d.sender;
      var p0 := Parse(Page(Inner(s.pages, x), m.sentAt), 0, s.tick, s.over, s.log);
      var p := ParsePage(env, x, m, p0, grant, cfg.maxIndividual);
      PageCosts(env, x, m, p0, grant, cfg.maxIndividual, w);
      var pages' := StoreRest(s.pages, x, m.sentAt, p.rest);
      RestIsFewer(dec, s.pages, x, m.sentAt, p.rest);
      RestElsewhere(s.pages, x, m.sentAt, p.rest);
      EntryCosts(dec, s.pages, pages', d, p.rest, p.used, w);
      var d' := r.s.status[k];
      assert r.s.status == s.status[k := d'];
      BacklogDrops(dec, s.pages, pages', s.status, k, d');
      Covered(w, p.used, |MessagesOf(dec, s.pages, x, d.meta)|, |MessagesOf(dec, pages', x, d'.meta)|,
              Backlog(dec, s.pages, s.status), Backlog(dec, pages', r.s.status));
    }
  }

  lemma StateIsNoBacklog(dec: Codec, pages: DoubleMap, status: seq<InDetails>, k: nat, d: InDetails)
    requires k < |status| && d.sender == status[k].sender && d.meta == status[k].meta
    ensures Backlog(dec, pages, status[k := d]) <= Backlog(dec, pages, status) && status[k := status[k]] == status
  {
    BacklogDrops(dec, pages, pages, status, k, d);
  }

  lemma StepCostsCovered(j: Job, v: Service, w: nat)
    requires ServiceOk(j, v) && v.index < |v.shuffled| && Cheap(j.env, w)
    ensures var v' := ServiceStep(j, v);
            v'.used + w * Backlog(j.env.decode, v'.s.pages, v'.s.status) <= v.used + w * Backlog(j.env.decode, v.s.pages, v.s.status)
  {
    hide ServeChannel;
    hide Cheap;
    hide Backlog;
    ServeCosts(j.env, j.cfg, v.s, v.shuffled[v.index], Unlock(j, v) - v.used, w);
  }

  /** Over the whole loop the weight used is covered by the messages that went, at `w` each. */
  lemma {:induction false} BacklogCovers(j: Job, v: Service, w: nat)
    requires ServiceOk(j, v) && Cheap(j.env, w)
    ensures var v' := ServiceRun(j, v);
            v'.used + w * Backlog(j.env.decode, v'.s.pages, v'.s.status) <= v.used + w * Backlog(j.env.decode, v.s.pages, v.s.status)
    decreases Work(v.s.pages, v.s.status), |v.shuffled| - v.index
  {
    if Continues(j, v) {
      hide ServiceStep;
      hide Cheap;
      hide Backlog;
      StepDecreases(j, v);
      StepCostsCovered(j, v, w);
      BacklogCovers(j, ServiceStep(j, v), w);
    }
  }

  lemma NotNegative(w: nat, n: nat)
    ensures w * n >= 0
  {
  }

  lemma QueueCosts(j: Job, s: Inbound, draw: nat -> nat, w: nat)
    requires EnvOk(j.env) && Cheap(j.env, w)
    ensures ServiceQueue(j, s, draw).used <= w * Backlog(j.env.decode, s.pages, s.status)
  {
    hide EnvOk;
    hide Cheap;
    hide Backlog;
    hide ServiceRun;
    hide Filter;
    hide CreateShuffle;
    NotNegative(w, Backlog(j.env.decode, s.pages, s.status));
    if s.status != [] {
      EveryoneWaits(j, s, draw, 0);
      var v := Service(s, CreateShuffle(|s.status|, draw), 0, 0, 0);
      BacklogCovers(j, v, w);
      NotNegative(w, Backlog(j.env.decode, ServiceRun(j, v).s.pages, ServiceRun(j, v).s.status));
    }
  }

  /**
   A backlog that fits is drained: if each waiting page holds messages that run and use between 1 and `w`,
   and the weight covers all of them and the threshold on top, a single service call decides everything.
   */
  lemma FittingQueueIsDrained(j: Job, s: Inbound, draw: nat -> nat, w: nat)
    requires EnvOk(j.env) && Runs(j.env.decode, s) && Willing(j.env, j.cfg.thresholdWeight) && Cheap(j.env, w) && !j.suspended
    requires w * Backlog(j.env.decode, s.pages, s.status) + j.cfg.thresholdWeight <= j.maxWeight
    ensures var r := ServiceQueue(j, s, draw); r.s.status == [] && r.used <= w * Backlog(j.env.decode, s.pages, s.status)
  {
    hide ServiceQueue;
    hide EnvOk;
    hide Runs;
    hide Willing;
    hide Cheap;
    hide Backlog;
    QueueCosts(j, s, draw, w);
    RunningQueueIsDrained(j, s, draw);
  }
}
