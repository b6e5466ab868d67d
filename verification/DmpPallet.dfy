/** The downward message queue pallet as it runs: storage items as fields, hooks and calls as methods. */
module DmpPallet {
  import opened Common
  import opened DmpQueue
  import Spec = DmpQueue

  class DmpQueuePallet {
    var beginUsed: nat
    var endUsed: nat
    var overweightCount: nat
    var pages: map<nat, seq<Message>>
    var overweight: map<nat, Message>
    var maxIndividual: nat
    // History.
    var tick: nat
    ghost var received: seq<Message>
    ghost var log: seq<Record>
    ghost var freed: seq<nat>

    ghost function State(): Dmp
      reads this
    {
      Dmp(beginUsed, endUsed, pages, overweight, overweightCount, tick, received, log, freed)
    }

    constructor (maxIndividual: nat)
      ensures State() == Genesis && this.maxIndividual == maxIndividual
    {
      beginUsed, endUsed, overweightCount, pages, overweight := 0, 0, 0, map[], map[];
      this.maxIndividual := maxIndividual;
      tick, received, log, freed := 0, [], [], [];
    }

    /** Services one message: only a message that needs more than the limit is turned down. */
    method TryServiceMessage(env: Env, limit: nat, data: Bytes) returns (a: Attempt)
      requires EnvOk(env)
      modifies this`tick
      ensures a == TryService(env, old(tick), limit, data) && tick == old(tick) + 1
      ensures a.Done? ==> a.weight <= limit
      ensures a.TooHeavy? ==> env.decode(data).Xcm? && a.required > limit
      ensures !env.decode(data).Xcm? ==> a == Done(0)
      ensures env.decode(data).Xcm? ==> match env.execute(old(tick), data, limit)
                                        case Finished(weight) => a == Done(weight)
                                        case WeightLimitReached(required) => a == TooHeavy(required)
    {
      var maybeMsg := env.decode(data);
      var nth := tick;
      tick := tick + 1;
      match maybeMsg {
        case InvalidFormat => return Done(0);
        case UnsupportedVersion => return Done(0);
        case Xcm =>
      }
      var outcome := env.execute(nth, data, limit);
      match outcome {
        case WeightLimitReached(required) => a := TooHeavy(required);
        case Finished(weight) => a := Done(weight);
      }
    }

    /** The inner loop: services a page and returns what is left of it. */
    method ServiceOnePage(env: Env, limit: nat, used: nat, page: seq<Message>) returns (used': nat, rest: seq<Message>)
      requires EnvOk(env) && used <= limit
      modifies this`tick, this`log
      ensures Progress(used', rest, tick, log) == ServicePage(env, limit, Progress(used, page, old(tick), old(log)))
    {
      hide ServicePage;
      hide TryService;
      hide EnvOk;
      used' := used;
      var i := 0;
      assert page[0..] == page;
      ghost var start := Progress(used, page, tick, log);
      while i < |page|
        invariant 0 <= i <= |page| && used' <= limit
        invariant ServicePage(env, limit, Progress(used', page[i..], tick, log)) == ServicePage(env, limit, start)
      {
        ghost var p := Progress(used', page[i..], tick, log);
        assert page[i..][0] == page[i] && page[i..][1..] == page[i + 1..];
        PageTurn(env, limit, p);
        var attempt := TryServiceMessage(env, SatSub(limit, used'), page[i].data);
        if attempt.TooHeavy? { return used', page[i..]; }
        log := log + [Record(page[i], Serviced(attempt.weight))];
        used' := used' + attempt.weight;
        i := i + 1;
        assert Progress(used', page[i..], tick, log) == Advance(p, attempt.weight);
      }
      rest := [];
      assert page[i..] == [];
      PageEmpty(env, limit, Progress(used', rest, tick, log));
    }

    method ServiceQueue(env: Env, limit: nat) returns (used: nat)
      requires EnvOk(env)
      modifies this`beginUsed, this`endUsed, this`pages, this`tick, this`log
      ensures (State(), used) == ServiceFrom(env, limit, old(State()), 0)
    {
      hide ServicePage;
      used := 0;
      while beginUsed < endUsed
        invariant used <= limit && ServiceFrom(env, limit, State(), used) == ServiceFrom(env, limit, old(State()), 0)
        decreases endUsed - beginUsed
      {
        var page := PageAt(pages, beginUsed);
        var rest;
        used, rest := ServiceOnePage(env, limit, used, page);
        if rest != [] {
          // This message has to wait, and so has everything behind it.
          pages := pages[beginUsed := rest];
          return;
        }
        pages := pages - {beginUsed};
        beginUsed := beginUsed + 1;
      }
      if beginUsed == endUsed { beginUsed, endUsed := 0, 0; }
    }

    method OnIdle(env: Env, maxWeight: nat) returns (used: nat)
      requires EnvOk(env)
      modifies this`beginUsed, this`endUsed, this`pages, this`tick, this`log
      ensures State() == Step(old(State()), Op.OnIdle(env, maxWeight)) && used <= maxWeight
    {
      used := ServiceQueue(env, maxWeight);
    }

    method HandleDmpMessages(env: Env, batch: seq<Message>, limit: nat) returns (used: nat)
      requires EnvOk(env)
      modifies this`beginUsed, this`endUsed, this`pages, this`overweight, this`overweightCount, this`tick, this`log, this`received
      ensures (State(), used) == HandleMessages(env, limit, maxIndividual, old(State()), batch)
    {
      hide ServiceFrom;
      hide HandleOne;
      used := ServiceQueue(env, limit);
      var enqueuePage: Option<seq<Message>> := None;
      if endUsed > beginUsed { enqueuePage := Some([]); }
      ghost var start := Handling(State(), used, enqueuePage);
      var i := 0;
      assert batch[0..] == batch;
      while i < |batch|
        invariant 0 <= i <= |batch| && used <= limit
        invariant HandleAll(env, limit, maxIndividual, Handling(State(), used, enqueuePage), batch[i..]) == HandleAll(env, limit, maxIndividual, start, batch)
        invariant received == old(received)
      {
        assert batch[i..][0] == batch[i] && batch[i..][1..] == batch[i + 1..];
        used, enqueuePage := HandleMessage(env, limit, used, enqueuePage, batch[i]);
        i := i + 1;
      }
      if enqueuePage.Some? {
        pages := pages[endUsed := enqueuePage.value];
        endUsed := endUsed + 1;
      }
      received := received + batch;
    }

    /** The body of the arrival loop. */
    method HandleMessage(env: Env, limit: nat, used: nat, page: Option<seq<Message>>, m: Message)
      returns (used': nat, page': Option<seq<Message>>)
      requires EnvOk(env) && used <= limit
      modifies this`overweight, this`overweightCount, this`tick, this`log
      ensures Handling(State(), used', page') == HandleOne(env, limit, maxIndividual, old(Handling(State(), used, page)), m)
    {
      used', page' := used, page;
      if page'.None? {
        var attempt := TryServiceMessage(env, SatSub(limit, used), m.data);
        match attempt {
          case Done(consumed) =>
            used' := used + consumed;
            log := log + [Record(m, Serviced(consumed))];
          case TooHeavy(required) =>
            if required > maxIndividual {
              overweight := overweight[overweightCount := m];
              log := log + [Record(m, Parked(overweightCount, required))];
              overweightCount := overweightCount + 1;
              return;
            }
            page' := Some([]);
        }
      }
      assert [] + [m] == [m];
      if page'.Some? { page' := Some(page'.value + [m]); }
    }

    method ServiceOverweight(env: Env, index: nat, weightLimit: nat) returns (result: OverweightResult)
      requires EnvOk(env)
      modifies this`overweight, this`tick, this`freed
      ensures (State(), result) == Spec.ServiceOverweight(env, old(State()), index, weightLimit)
    {
      if index !in overweight { return Unknown; }
      var attempt := TryServiceMessage(env, weightLimit, overweight[index].data);
      if attempt.TooHeavy? { return OverLimit; }
      overweight := overweight - {index};
      freed := freed + [index];
      result := Executed(attempt.weight);
    }
  }
}
