/**
 Exactly what the downward queue does with every message, told by the executor's own answers: the paged
 queue with its side store behaves like one list that is worked through from the front.
 */
module DmpVerdicts {
  import opened Common
  import opened DmpQueue

  // ------------------------------------------------------------------ the executor's own words

  /** The message is executed and the executor asks for more than it was given. */
  predicate Balks(env: Env, tick: nat, limit: nat, m: Message) {
    env.decode(m.data).Xcm? && env.execute(tick, m.data, limit).WeightLimitReached?
  }

  /** What the executor asks for when it balks. */
  function Asked(env: Env, tick: nat, limit: nat, m: Message): nat {
    match env.execute(tick, m.data, limit)
    case WeightLimitReached(required) => required
    case Finished(_) => 0
  }

  /** What the executor says it used; a message it never sees costs nothing. */
  function Cost(env: Env, tick: nat, limit: nat, m: Message): nat {
    if !env.decode(m.data).Xcm? then 0
    else
      match env.execute(tick, m.data, limit)
      case WeightLimitReached(_) => 0
      case Finished(weight) => weight
  }

  /** What the executor used on the messages one after the other, each given what the others left. */
  function Spent(env: Env, tick: nat, limit: nat, msgs: seq<Message>): nat {
    if msgs == [] then 0
    else
      var n := |msgs| - 1;
      var before := Spent(env, tick, limit, msgs[..n]);
      before + Cost(env, tick + n, SatSub(limit, before), msgs[n])
  }

  lemma SpentSnoc(env: Env, tick: nat, limit: nat, msgs: seq<Message>, m: Message)
    ensures var before := Spent(env, tick, limit, msgs);
            Spent(env, tick, limit, msgs + [m]) == before + Cost(env, tick + |msgs|, SatSub(limit, before), m)
  {
    assert (msgs + [m])[..|msgs|] == msgs;
  }

  /** The fate that answers the executor: serviced for what it used, or parked with what it asked for. */
  predicate Answers(env: Env, tick: nat, limit: nat, rec: Record) {
    if Balks(env, tick, limit, rec.msg) then rec.fate.Parked? && rec.fate.required == Asked(env, tick, limit, rec.msg)
    else rec.fate == Serviced(Cost(env, tick, limit, rec.msg))
  }

  /** One attempt, told by the executor. */
  lemma AttemptIs(env: Env, tick: nat, limit: nat, m: Message)
    requires EnvOk(env)
    ensures Cost(env, tick, limit, m) <= limit
    ensures TryService(env, tick, limit, m.data) ==
            if Balks(env, tick, limit, m) then TooHeavy(Asked(env, tick, limit, m)) else Done(Cost(env, tick, limit, m))
  {
  }

  // ------------------------------------------------------------------ the records so far

  /** Since the log was `start` long every record answers the executor, and `used` is what it used on them. */
  ghost predicate Exact(env: Env, tick: nat, limit: nat, start: nat, log: seq<Record>, used: nat) {
    && start <= |log|
    && used <= limit
    && var msgs := Decided(log)[start..];
       && used == Spent(env, tick, limit, msgs)
       && forall i :: 0 <= i < |msgs| ==> Answers(env, tick + i, SatSub(limit, Spent(env, tick, limit, msgs[..i])), log[start + i])
  }

  lemma ExactNone(env: Env, tick: nat, limit: nat, log: seq<Record>)
    ensures Exact(env, tick, limit, |log|, log, 0)
  {
  }

  lemma ExactSnoc(env: Env, tick: nat, limit: nat, start: nat, log: seq<Record>, used: nat, rec: Record)
    requires EnvOk(env) && Exact(env, tick, limit, start, log, used)
    requires Answers(env, tick + |log| - start, limit - used, rec)
    ensures Exact(env, tick, limit, start, log + [rec], used + Cost(env, tick + |log| - start, limit - used, rec.msg))
  {
    hide EnvOk;
    hide Answers;
    hide Cost;
    hide Spent;
    var msgs, msgs' := Decided(log)[start..], Decided(log + [rec])[start..];
    assert msgs' == msgs + [rec.msg];
    SpentSnoc(env, tick, limit, msgs, rec.msg);
    AttemptIs(env, tick + |msgs|, limit - used, rec.msg);
    forall i | 0 <= i < |msgs'| ensures Answers(env, tick + i, SatSub(limit, Spent(env, tick, limit, msgs'[..i])), (log + [rec])[start + i]) {
      assert msgs'[..i] == msgs[..i];
      if i == |msgs| { assert msgs[..i] == msgs; }
    }
  }

  // ------------------------------------------------------------------ servicing the queue

  lemma {:induction false} PageIsExact(env: Env, tick: nat, limit: nat, start: nat, p: Progress)
    requires EnvOk(env) && Exact(env, tick, limit, start, p.log, p.used) && p.tick == tick + |p.log| - start
    ensures var r := ServicePage(env, limit, p);
            && Exact(env, tick, limit, start, r.log, r.used)
            && (if r.rest == [] then r.tick == tick + |r.log| - start
                else Balks(env, tick + |r.log| - start, limit - r.used, r.rest[0]))
    decreases |p.rest|
  {
    hide EnvOk;
    hide Exact;
    hide ServicePage;
    hide TryService;
    hide Balks;
    ExactBounds(env, tick, limit, start, p.log, p.used);
    if p.rest == [] {
      PageEmpty(env, limit, p);
    } else {
      var m := p.rest[0];
      PageTurn(env, limit, p);
      AttemptIs(env, p.tick, limit - p.used, m);
      if !Balks(env, p.tick, limit - p.used, m) {
        var w := Cost(env, p.tick, limit - p.used, m);
        ExactSnoc(env, tick, limit, start, p.log, p.used, Record(m, Serviced(w)));
        PageIsExact(env, tick, limit, start, Advance(p, w));
      }
    }
  }

  lemma ExactBounds(env: Env, tick: nat, limit: nat, start: nat, log: seq<Record>, used: nat)
    requires Exact(env, tick, limit, start, log, used)
    ensures start <= |log| && used <= limit
  {
  }

  /** Servicing stops exactly at the first message at which the executor balks, and that one stays first. */
  lemma {:induction false} ServiceIsExact(env: Env, tick: nat, limit: nat, start: nat, s: Dmp, used: nat)
    requires EnvOk(env) && Exact(env, tick, limit, start, s.log, used) && s.tick == tick + |s.log| - start && s.beginUsed <= s.endUsed
    ensures var (s', used') := ServiceFrom(env, limit, s, used);
            && Exact(env, tick, limit, start, s'.log, used')
            && (if s'.beginUsed < s'.endUsed then Flat(s') != [] && Balks(env, tick + |s'.log| - start, limit - used', Flat(s')[0])
                else s'.tick == tick + |s'.log| - start)
    decreases s.endUsed - s.beginUsed
  {
    hide EnvOk;
    hide Exact;
    hide ServicePage;
    hide Balks;
    ExactBounds(env, tick, limit, start, s.log, used);
    if s.beginUsed < s.endUsed {
      var p0 := Progress(used, PageAt(s.pages, s.beginUsed), s.tick, s.log);
      PageIsExact(env, tick, limit, start, p0);
      var p := ServicePage(env, limit, p0);
      ExactBounds(env, tick, limit, start, p.log, p.used);
      if p.rest == [] {
        ServiceIsExact(env, tick, limit, start, AfterPage(s, p), p.used);
      } else {
        FlatHead(AfterPage(s, p));
      }
    }
  }

  // ------------------------------------------------------------------ handling arrivals

  /** Everything so far is decided exactly, and if a page is open the executor balked at its first message. */
  ghost predicate HandlesExactly(env: Env, tick: nat, limit: nat, maxIndividual: nat, start: nat, h: Handling) {
    && Exact(env, tick, limit, start, h.s.log, h.used)
    && (h.page.None? ==> h.s.tick == tick + |h.s.log| - start)
    && (h.page.Some? && h.s.beginUsed == h.s.endUsed ==>
          && h.page.value != []
          && var at, left, m := tick + |h.s.log| - start, limit - h.used, h.page.value[0];
             Balks(env, at, left, m) && Asked(env, at, left, m) <= maxIndividual)
  }

  lemma ArrivalIsExact(env: Env, tick: nat, limit: nat, maxIndividual: nat, start: nat, h: Handling, m: Message)
    requires EnvOk(env) && h.used <= limit && HandlesExactly(env, tick, limit, maxIndividual, start, h)
    ensures HandlesExactly(env, tick, limit, maxIndividual, start, HandleOne(env, limit, maxIndividual, h, m))
    ensures HandleOne(env, limit, maxIndividual, h, m).s.endUsed == h.s.endUsed && HandleOne(env, limit, maxIndividual, h, m).s.beginUsed == h.s.beginUsed
  {
    hide EnvOk;
    hide Exact;
    hide TryService;
    hide Balks;
    hide Asked;
    hide Cost;
    ExactBounds(env, tick, limit, start, h.s.log, h.used);
    if h.page.None? {
      var at, left := h.s.tick, limit - h.used;
      AttemptIs(env, at, left, m);
      if !Balks(env, at, left, m) {
        ExactSnoc(env, tick, limit, start, h.s.log, h.used, Record(m, Serviced(Cost(env, at, left, m))));
      } else if Asked(env, at, left, m) > maxIndividual {
        BalkingIsFree(env, at, left, m);
        ExactSnoc(env, tick, limit, start, h.s.log, h.used, Record(m, Parked(h.s.overweightCount, Asked(env, at, left, m))));
      }
    }
  }

  lemma BalkingIsFree(env: Env, tick: nat, limit: nat, m: Message)
    requires Balks(env, tick, limit, m)
    ensures Cost(env, tick, limit, m) == 0
  {
  }

  lemma {:induction false} ArrivalsAreExact(env: Env, tick: nat, limit: nat, maxIndividual: nat, start: nat, h: Handling, batch: seq<Message>)
    requires EnvOk(env) && h.used <= limit && HandlesExactly(env, tick, limit, maxIndividual, start, h)
    ensures var h' := HandleAll(env, limit, maxIndividual, h, batch);
            HandlesExactly(env, tick, limit, maxIndividual, start, h') && h'.s.beginUsed == h.s.beginUsed && h'.s.endUsed == h.s.endUsed
    decreases |batch|
  {
    hide EnvOk;
    hide HandlesExactly;
    hide HandleOne;
    if batch != [] {
      ArrivalIsExact(env, tick, limit, maxIndividual, start, h, batch[0]);
      ArrivalsAreExact(env, tick, limit, maxIndividual, start, HandleOne(env, limit, maxIndividual, h, batch[0]), batch[1..]);
    }
  }

  // ------------------------------------------------------------------ whole calls

  /**
   From `s` to `s'` the list `todo` was worked through from the front: the messages decided are the first
   of it, each with the fate that answers the executor, which was given the limit minus what it had used
   on those before; the rest is queued; and if there is a rest, the executor balked at its first message.
   */
  ghost predicate WorksThrough(env: Env, limit: nat, s: Dmp, todo: seq<Message>, s': Dmp, used: nat) {
    var n := |s'.log| - |s.log|;
    && 0 <= n <= |todo|
    && s.log <= s'.log && Decided(s'.log) == Decided(s.log) + todo[..n] && Flat(s') == todo[n..]
    && used == Spent(env, s.tick, limit, todo[..n]) <= limit
    && (forall i :: 0 <= i < n ==> Answers(env, s.tick + i, SatSub(limit, Spent(env, s.tick, limit, todo[..i])), s'.log[|s.log| + i]))
    && (n < |todo| ==> Balks(env, s.tick + n, limit - used, todo[n]))
  }

  lemma Worked(env: Env, limit: nat, s: Dmp, todo: seq<Message>, s': Dmp, used: nat)
    requires s.log <= s'.log && Exact(env, s.tick, limit, |s.log|, s'.log, used) && Decided(s'.log) + Flat(s') == Decided(s.log) + todo
    requires Flat(s') != [] ==> Balks(env, s.tick + |s'.log| - |s.log|, limit - used, Flat(s')[0])
    ensures WorksThrough(env, limit, s, todo, s', used)
  {
    hide Balks;
    hide Answers;
    hide Spent;
    hide FlatFrom;
    var n, before, msgs := |s'.log| - |s.log|, Decided(s.log), Decided(s'.log)[|s.log|..];
    assert before <= Decided(s'.log);
    assert Decided(s'.log) == before + msgs;
    Associative(before, msgs, Flat(s'));
    SameHead(before, msgs + Flat(s'), todo);
    assert todo == msgs + Flat(s') && todo[..n] == msgs && todo[n..] == Flat(s');
    forall i | 0 <= i < n ensures todo[..i] == msgs[..i] {}
  }

  /** Servicing the queue. */
  lemma ServicingIsExact(env: Env, limit: nat, s: Dmp)
    requires EnvOk(env) && QueueOk(s)
    ensures var (s', used) := ServiceFrom(env, limit, s, 0); WorksThrough(env, limit, s, Flat(s), s', used)
  {
    hide EnvOk;
    hide WorksThrough;
    hide Exact;
    hide ServiceFrom;
    hide ServicedWeight;
    hide Balks;
    hide ParkedMessages;
    var (s', used) := ServiceFrom(env, limit, s, 0);
    ExactNone(env, s.tick, limit, s.log);
    ServiceIsExact(env, s.tick, limit, |s.log|, s, 0);
    ServiceKeepsQueue(env, limit, s, 0);
    ServiceWeighs(env, limit, s, 0);
    if s'.beginUsed >= s'.endUsed { FlatEmpty(s'); }
    Worked(env, limit, s, Flat(s), s', used);
  }

  lemma {:induction false} OpenPageDecidesNothing(env: Env, limit: nat, maxIndividual: nat, h: Handling, batch: seq<Message>)
    requires EnvOk(env) && h.used <= limit && h.page.Some?
    ensures HandleAll(env, limit, maxIndividual, h, batch) == h.(page := Some(h.page.value + batch))
    decreases |batch|
  {
    if batch == [] {
      assert h.page.value + batch == h.page.value;
    } else {
      OpenPageDecidesNothing(env, limit, maxIndividual, h.(page := Some(h.page.value + [batch[0]])), batch[1..]);
      assert h.page.value + [batch[0]] + batch[1..] == h.page.value + batch;
    }
  }

  /** The arrivals behind a queue that was serviced dry. */
  lemma DryHandling(env: Env, limit: nat, maxIndividual: nat, s: Dmp, s1: Dmp, used: nat, batch: seq<Message>)
    requires EnvOk(env) && used <= limit && QueueOk(s1) && s1.beginUsed == s1.endUsed && s.log <= s1.log
    requires Exact(env, s.tick, limit, |s.log|, s1.log, used) && s1.tick == s.tick + |s1.log| - |s.log|
    requires s1.received == Decided(s.log) + Flat(s)
    ensures var h := HandleAll(env, limit, maxIndividual, Handling(s1, used, None), batch);
            var n := |h.s.log| - |s.log|; var todo := Flat(s) + batch;
            && WorksThrough(env, limit, s, todo, Deposit(h), h.used) && s1.log <= h.s.log
            && (n < |todo| ==> Asked(env, s.tick + n, limit - h.used, todo[n]) <= maxIndividual)
  {
    hide EnvOk;
    hide WorksThrough;
    hide Exact;
    hide ServicedWeight;
    hide Balks;
    hide Asked;
    hide ParkedMessages;
    hide HandleAll;
    hide Deposit;
    hide FlatFrom;
    var h0 := Handling(s1, used, None);
    var h, todo := HandleAll(env, limit, maxIndividual, h0, batch), Flat(s) + batch;
    ArrivalsAreExact(env, s.tick, limit, maxIndividual, |s.log|, h0, batch);
    assert Decided(s1.log) + Flat(s1) + [] == s1.received;
    HandleAllOk(env, limit, maxIndividual, h0, batch, s1.received);
    DepositOk(h, s1.received + batch);
    HandleWeighs(env, limit, maxIndividual, h0, batch);
    FlatEmpty(h.s);
    Associative(Decided(s.log), Flat(s), batch);
    DepositLog(h);
    OpenedIsFlat(h);
    Worked(env, limit, s, todo, Deposit(h), h.used);
    WorkedRest(env, limit, s, todo, Deposit(h), h.used);
  }

  lemma DepositLog(h: Handling)
    ensures Deposit(h).log == h.s.log
  {
  }

  /** If nothing is queued, the deposited page is the queue. */
  lemma OpenedIsFlat(h: Handling)
    requires h.s.beginUsed == h.s.endUsed && WindowOk(h.s)
    ensures Flat(Deposit(h)) == Opened(h)
  {
    var s := Deposit(h);
    if h.page.Some? {
      FlatSnoc(s.pages, s.beginUsed, h.s.endUsed);
      assert FlatFrom(s.pages, s.beginUsed, h.s.endUsed) == [];
    }
  }

  lemma WorkedRest(env: Env, limit: nat, s: Dmp, todo: seq<Message>, s': Dmp, used: nat)
    requires WorksThrough(env, limit, s, todo, s', used)
    ensures var n := |s'.log| - |s.log|; 0 <= n <= |todo| && Flat(s') == todo[n..]
  {
  }

  /** Arrivals behind a queue that is not dry are queued. */
  lemma WetHandling(env: Env, limit: nat, maxIndividual: nat, s: Dmp, s1: Dmp, used: nat, batch: seq<Message>)
    requires EnvOk(env) && used <= limit && QueueOk(s1) && s1.beginUsed < s1.endUsed && s.log <= s1.log && Flat(s1) != []
    requires Exact(env, s.tick, limit, |s.log|, s1.log, used) && Balks(env, s.tick + |s1.log| - |s.log|, limit - used, Flat(s1)[0])
    requires s1.received == Decided(s.log) + Flat(s)
    ensures var h := HandleAll(env, limit, maxIndividual, Handling(s1, used, Some([])), batch);
            && WorksThrough(env, limit, s, Flat(s) + batch, Deposit(h), h.used)
            && h.s.log == s1.log && |s1.log| - |s.log| < |Flat(s)|
  {
    hide EnvOk;
    hide WorksThrough;
    hide Exact;
    hide Balks;
    hide ParkedMessages;
    hide HandleAll;
    hide FlatFrom;
    var h0 := Handling(s1, used, Some([]));
    OpenPageDecidesNothing(env, limit, maxIndividual, h0, batch);
    assert [] + batch == batch;
    var s' := Deposit(HandleAll(env, limit, maxIndividual, h0, batch));
    FlatSnoc(s'.pages, s'.beginUsed, s1.endUsed);
    FlatFrame(s1.pages, s'.pages, s1.beginUsed, s1.endUsed);
    assert Flat(s') == Flat(s1) + batch;
    Associative(Decided(s.log), Flat(s), batch);
    Associative(Decided(s1.log), Flat(s1), batch);
    assert |Decided(s1.log) + Flat(s1)| == |Decided(s.log) + Flat(s)|;
    Worked(env, limit, s, Flat(s) + batch, s', used);
  }

  /**
   Handling a batch: the queue and then the arrivals are worked through as one list. A message is parked
   if and only if it is an arrival that is reached and the executor asks for more than the individual
   maximum; so the list is given up at the first message of the old queue at which the executor balks at
   all, or at the first arrival for which it asks for no more than the maximum.
   */
  lemma HandlingIsExact(env: Env, limit: nat, maxIndividual: nat, s: Dmp, batch: seq<Message>)
    requires EnvOk(env) && QueueOk(s)
    ensures var (s', used) := HandleMessages(env, limit, maxIndividual, s, batch);
            var n, todo := |s'.log| - |s.log|, Flat(s) + batch;
            && WorksThrough(env, limit, s, todo, s', used)
            && (forall i :: |s.log| <= i < |s'.log| && s'.log[i].fate.Parked? ==>
                              i >= |s.log| + |Flat(s)| && s'.log[i].fate.required > maxIndividual)
            && (|Flat(s)| <= n < |todo| ==> Asked(env, s.tick + n, limit - used, todo[n]) <= maxIndividual)
  {
    hide EnvOk;
    hide WorksThrough;
    hide Exact;
    hide Balks;
    hide Asked;
    hide ParkedMessages;
    hide ServicedWeight;
    hide ServiceFrom;
    hide HandleAll;
    hide FlatFrom;
    var (s1, used) := ServiceFrom(env, limit, s, 0);
    ExactNone(env, s.tick, limit, s.log);
    ServiceIsExact(env, s.tick, limit, |s.log|, s, 0);
    ServiceKeepsQueue(env, limit, s, 0);
    ServiceWeighs(env, limit, s, 0);
    HandlingIsAccounted(env, limit, maxIndividual, s, batch);
    var (s', used') := HandleMessages(env, limit, maxIndividual, s, batch);
    if s1.beginUsed < s1.endUsed {
      WetHandling(env, limit, maxIndividual, s, s1, used, batch);
    } else {
      DryHandling(env, limit, maxIndividual, s, s1, used, batch);
      FlatEmpty(s1);
      assert |Decided(s1.log) + []| == |Decided(s.log) + Flat(s)|;
    }
    ReceivedAside(env, limit, s, Flat(s) + batch, s');
  }

  lemma ReceivedAside(env: Env, limit: nat, s: Dmp, todo: seq<Message>, s': Dmp)
    ensures forall before: seq<Message>, used: nat ::
              WorksThrough(env, limit, s, todo, s'.(received := before), used) ==> WorksThrough(env, limit, s, todo, s', used)
  {
    hide Spent;
    hide Balks;
    hide Answers;
    forall before: seq<Message> ensures Flat(s'.(received := before)) == Flat(s') {}
  }

  /**
   A message of the side store that is serviced again: the executor, given the limit of the call, balks,
   and nothing changes, or it goes from the store, which keeps all others.
   */
  lemma OverweightIsExact(env: Env, s: Dmp, index: nat, limit: nat)
    requires EnvOk(env)
    ensures var (s', result) := ServiceOverweight(env, s, index, limit);
            && s'.log == s.log && s'.pages == s.pages && s'.beginUsed == s.beginUsed && s'.endUsed == s.endUsed
            && s'.received == s.received && s'.overweightCount == s.overweightCount
            && (if index !in s.overweight then result == Unknown && s'.overweight == s.overweight
                else if Balks(env, s.tick, limit, s.overweight[index]) then result == OverLimit && s'.overweight == s.overweight
                else
                  && result == Executed(Cost(env, s.tick, limit, s.overweight[index]))
                  && index !in s'.overweight && forall i: nat :: i != index ==>
                       (i in s'.overweight <==> i in s.overweight) && (i in s.overweight ==> s'.overweight[i] == s.overweight[i]))
  {
    hide Cost;
    hide Balks;
    hide TryService;
    if index in s.overweight { AttemptIs(env, s.tick, limit, s.overweight[index]); }
  }
}
