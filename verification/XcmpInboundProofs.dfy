/**
 What the inbound half of the XCMP queue promises: resumable parsing undoes aggregation, the
 scheduler never visits an empty channel, every accepted page is decided once and in order, and
 the signals issued to a peer alternate.
 */
module XcmpInboundProofs {
  import opened Common
  import opened XcmpFormat
  import opened XcmpInbound

  // ------------------------------------------------------------------ the parser, fragment by fragment

  function Messages(log: seq<Record>): (m: seq<Bytes>)
    ensures |m| == |log| && forall i :: 0 <= i < |m| ==> m[i] == log[i].msg
  {
    seq(|log|, i requires 0 <= i < |log| => log[i].msg)
  }

  ghost predicate AllFragments(env: Env, frags: seq<Bytes>) { forall f :: f in frags ==> IsFragment(env, f) }

  /** Between `p` and `r` the first `k` fragments were decided, one record each, and the rest is left. */
  ghost predicate DecidesPrefix(p: Parse, r: Parse, frags: seq<Bytes>, k: nat) {
    && k <= |frags|
    && p.log <= r.log
    && Messages(r.log[|p.log|..]) == frags[..k]
    && r.rest == Concat(frags[k..])
  }

  lemma FirstFragment(env: Env, frags: seq<Bytes>)
    requires EnvOk(env) && AllFragments(env, frags) && frags != []
    ensures Concat(frags) != [] && env.decode(Concat(frags)) == Some(|frags[0]|) && |frags[0]| <= |Concat(frags)|
    ensures Concat(frags)[..|frags[0]|] == frags[0] && Concat(frags)[|frags[0]|..] == Concat(frags[1..])
  {
    assert frags[0] in frags;
    assert Concat(frags) == frags[0] + Concat(frags[1..]);
  }

  /** A turn of the parser either keeps everything for later or cuts one record off the front. */
  lemma ParseStepRecord(env: Env, x: ParaId, at: nat, p: Parse, maxWeight: nat, maxIndividual: nat)
    requires EnvOk(env) && p.rest != [] && p.used <= maxWeight
    ensures var (p', stop) := ParseStep(env, x, at, p, maxWeight, maxIndividual);
            if stop then p.used > 0 && p'.rest == p.rest && p'.log == p.log && p'.over == p.over
            else
              && |p'.log| == |p.log| + 1
              && p'.log == p.log + [p'.log[|p.log|]]
              && p'.log[|p.log|].sender == x
              && p'.log[|p.log|].msg + p'.rest == p.rest
              && (env.decode(p.rest).Some? ==> |p'.log[|p.log|].msg| == env.decode(p.rest).value)
  {
  }

  lemma PrefixStep(p: Parse, p': Parse, r: Parse, frags: seq<Bytes>, k: nat)
    requires frags != [] && |p'.log| == |p.log| + 1 && p'.log == p.log + [p'.log[|p.log|]] && p'.log[|p.log|].msg == frags[0]
    requires DecidesPrefix(p', r, frags[1..], k)
    ensures DecidesPrefix(p, r, frags, k + 1)
  {
    assert r.log[|p.log|..] == [p'.log[|p.log|]] + r.log[|p'.log|..];
    assert frags[..k + 1] == [frags[0]] + frags[1..][..k];
    assert frags[1..][k..] == frags[k + 1..];
  }

  lemma PrefixCompose(p: Parse, mid: Parse, r: Parse, frags: seq<Bytes>, a: nat, b: nat)
    requires DecidesPrefix(p, mid, frags, a) && DecidesPrefix(mid, r, frags[a..], b)
    ensures DecidesPrefix(p, r, frags, a + b)
  {
    assert r.log[|p.log|..] == mid.log[|p.log|..] + r.log[|mid.log|..];
    assert frags[..a + b] == frags[..a] + frags[a..][..b];
    assert frags[a..][b..] == frags[a + b..];
  }

  lemma PrefixNone(p: Parse, r: Parse, frags: seq<Bytes>)
    requires p.log == r.log && r.rest == Concat(frags)
    ensures DecidesPrefix(p, r, frags, 0)
  {
    assert r.log[|p.log|..] == [] && frags[0..] == frags;
  }

  /** One call decides a prefix of the fragments and leaves the remainder on a fragment boundary. */
  lemma ParseDecidesPrefix(env: Env, x: ParaId, at: nat, p: Parse, maxWeight: nat, maxIndividual: nat, frags: seq<Bytes>)
    returns (k: nat)
    requires EnvOk(env) && p.used <= maxWeight && AllFragments(env, frags) && p.rest == Concat(frags)
    ensures DecidesPrefix(p, ParseXcm(env, x, at, p, maxWeight, maxIndividual), frags, k)
    ensures p.used == 0 && frags != [] ==> k > 0
    decreases |frags|
  {
    hide DecidesPrefix;
    hide ParseStep;
    if frags == [] {
      k := 0;
      PrefixNone(p, p, frags);
    } else {
      hide IsFragment;
      FirstFragment(env, frags);
      ParseStepRecord(env, x, at, p, maxWeight, maxIndividual);
      var (p', stop) := ParseStep(env, x, at, p, maxWeight, maxIndividual);
      if stop {
        k := 0;
        PrefixNone(p, p', frags);
      } else {
        assert AllFragments(env, frags[1..]);
        var msg := p'.log[|p.log|].msg;
        assert msg == p.rest[..|msg|] && p'.rest == p.rest[|msg|..];
        var k' := ParseDecidesPrefix(env, x, at, p', maxWeight, maxIndividual, frags[1..]);
        k := k' + 1;
        PrefixStep(p, p', ParseXcm(env, x, at, p', maxWeight, maxIndividual), frags, k');
      }
    }
  }

  /** The weight and executor state of one later call for the same page. */
  datatype Grant = Grant(maxWeight: nat, maxIndividual: nat, tick: nat)

  /** Processing the same page again and again, each time from what the previous call left. */
  function Resumed(env: Env, x: ParaId, at: nat, p: Parse, grants: seq<Grant>): Parse
    requires EnvOk(env)
    decreases |grants|
  {
    if grants == [] then p
    else
      var g := grants[0];
      Resumed(env, x, at, ParseXcm(env, x, at, p.(used := 0, tick := g.tick), g.maxWeight, g.maxIndividual), grants[1..])
  }

  /**
   Resumable parsing undoes aggregation: however often processing is interrupted, the fragments of
   a page are decided each exactly once and in order, and what is stored starts at a fragment.
   Enough calls decide them all.
   */
  lemma {:induction false} ResumedParsingUndoesAggregation(env: Env, x: ParaId, at: nat, p: Parse, grants: seq<Grant>, frags: seq<Bytes>)
    returns (k: nat)
    requires EnvOk(env) && AllFragments(env, frags) && p.rest == Concat(frags)
    ensures DecidesPrefix(p, Resumed(env, x, at, p, grants), frags, k)
    ensures |grants| >= |frags| ==> k == |frags|
    decreases |grants|
  {
    hide DecidesPrefix;
    hide ParseXcm;
    if grants == [] {
      k := 0;
      PrefixNone(p, p, frags);
    } else {
      var g := grants[0];
      var start := p.(used := 0, tick := g.tick);
      var a := ParseDecidesPrefix(env, x, at, start, g.maxWeight, g.maxIndividual, frags);
      var mid := ParseXcm(env, x, at, start, g.maxWeight, g.maxIndividual);
      PrefixRest(start, mid, frags, a);
      var b := ResumedParsingUndoesAggregation(env, x, at, mid, grants[1..], frags[a..]);
      k := a + b;
      var r := Resumed(env, x, at, mid, grants[1..]);
      PrefixCompose(start, mid, r, frags, a, b);
      PrefixFrom(start, p, r, frags, k);
    }
  }

  lemma PrefixRest(p: Parse, r: Parse, frags: seq<Bytes>, k: nat)
    requires DecidesPrefix(p, r, frags, k)
    ensures k <= |frags| && r.rest == Concat(frags[k..])
  {
  }

  lemma PrefixFrom(p: Parse, q: Parse, r: Parse, frags: seq<Bytes>, k: nat)
    requires p.log == q.log && DecidesPrefix(p, r, frags, k)
    ensures DecidesPrefix(q, r, frags, k) && k <= |frags|
  {
  }

  // ------------------------------------------------------------------ weight accounting

  /** The weight of everything executed so far. */
  function ExecutedWeight(log: seq<Record>): nat {
    if log == [] then 0
    else
      var r := log[|log| - 1];
      ExecutedWeight(log[..|log| - 1]) + if r.verdict.Executed? then r.verdict.weight else 0
  }

  lemma ExecutedWeightSnoc(log: seq<Record>, r: Record)
    ensures ExecutedWeight(log + [r]) == ExecutedWeight(log) + if r.verdict.Executed? then r.verdict.weight else 0
  {
    assert (log + [r])[..|log|] == log;
  }

  lemma FragmentWeighs(env: Env, x: ParaId, at: nat, p: Parse, maxWeight: nat, maxIndividual: nat)
    requires EnvOk(env) && p.rest != [] && p.used <= maxWeight
    ensures var p' := ParseStep(env, x, at, p, maxWeight, maxIndividual).0;
            ExecutedWeight(p'.log) - p'.used == ExecutedWeight(p.log) - p.used
  {
    hide ExecutedWeight;
    var p' := ParseStep(env, x, at, p, maxWeight, maxIndividual).0;
    if p'.log != p.log {
      var rec := p'.log[|p.log|];
      assert p'.log == p.log + [rec];
      ExecutedWeightSnoc(p.log, rec);
    }
  }

  lemma {:induction false} ParseWeighs(env: Env, x: ParaId, at: nat, p: Parse, maxWeight: nat, maxIndividual: nat)
    requires EnvOk(env) && p.used <= maxWeight
    ensures var r := ParseXcm(env, x, at, p, maxWeight, maxIndividual); ExecutedWeight(r.log) - r.used == ExecutedWeight(p.log) - p.used
    decreases |p.rest|
  {
    if p.rest != [] {
      ParseTurn(env, x, at, p, maxWeight, maxIndividual);
      FragmentWeighs(env, x, at, p, maxWeight, maxIndividual);
      hide ExecutedWeight;
      hide ParseXcm;
      hide ParseStep;
      var (p', stop) := ParseStep(env, x, at, p, maxWeight, maxIndividual);
      if !stop { ParseWeighs(env, x, at, p', maxWeight, maxIndividual); }
    }
  }

  lemma ServeWeighs(env: Env, cfg: Config, s: Inbound, k: nat, grant: nat)
    requires EnvOk(env) && k < |s.status|
    ensures var r := ServeChannel(env, cfg, s, k, grant); ExecutedWeight(r.s.log) == ExecutedWeight(s.log) + r.used
  {
    hide ExecutedWeight;
    hide ParseXcm;
    var d := s.status[k];
    if d.meta != [] {
      var m := d.meta[0];
      var p := Parse(Page(Inner(s.pages, d.sender), m.sentAt), 0, s.tick, s.over, s.log);
      ParseWeighs(env, d.sender, m.sentAt, p, grant, cfg.maxIndividual);
      ExecutedWeightSnoc(p.log, Record(d.sender, p.rest, Refused(Invalid)));
    }
  }

  /** The weight a service run reports is exactly the weight of the messages it executed. */
  lemma {:induction false} ServiceWeighs(j: Job, v: Service)
    requires ServiceOk(j, v)
    ensures var v' := ServiceRun(j, v); ExecutedWeight(v'.s.log) - v'.used == ExecutedWeight(v.s.log) - v.used
    decreases Work(v.s.pages, v.s.status), |v.shuffled| - v.index
  {
    if Continues(j, v) {
      hide ExecutedWeight;
      hide ServiceStep;
      StepDecreases(j, v);
      StepWeighs(j, v);
      ServiceWeighs(j, ServiceStep(j, v));
    }
  }

  lemma StepWeighs(j: Job, v: Service)
    requires ServiceOk(j, v) && v.index < |v.shuffled|
    ensures var v' := ServiceStep(j, v); ExecutedWeight(v'.s.log) - v'.used == ExecutedWeight(v.s.log) - v.used
  {
    hide ExecutedWeight;
    hide ServeChannel;
    ServeWeighs(j.env, j.cfg, v.s, v.shuffled[v.index], Unlock(j, v) - v.used);
  }

  /** Whole service calls: the reported weight is within the limit and is what executing messages cost. */
  lemma ServiceQueueWeighs(j: Job, s: Inbound, draw: nat -> nat)
    requires EnvOk(j.env)
    ensures var r := ServiceQueue(j, s, draw); r.used <= j.maxWeight && ExecutedWeight(r.s.log) == ExecutedWeight(s.log) + r.used
  {
    hide ExecutedWeight;
    if s.status != [] {
      hide ServiceRun;
      ShuffleIsPermutation(Upto(|s.status|), 0, draw);
      ServiceWeighs(j, Service(s, CreateShuffle(|s.status|, draw), 0, 0, 0));
    }
  }

  // ------------------------------------------------------------------ exactly what becomes of each fragment

  ghost predicate GivenUp(rec: Record) { rec.verdict.Refused? && rec.verdict.cause.OverLimit? }

  /** The executor asks for more weight than it was given, but the page's grant would do: the page has to wait. */
  predicate Postpones(answer: Handled, maxWeight: nat, maxIndividual: nat) {
    answer.OverLimit? && answer.required <= maxIndividual && answer.required <= maxWeight
  }

  /**
   The verdict that answers the executor's `answer`, both ways: executed if it ran; stashed if it needs
   more than the individual maximum; given up for lack of weight if it needs more than the page's whole
   grant but no more than the individual maximum; refused if it failed otherwise.
   */
  ghost predicate Answers(rec: Record, answer: Handled, maxWeight: nat, maxIndividual: nat) {
    && (rec.verdict.Executed? <==> answer.Used?)
    && (rec.verdict.Executed? ==> rec.verdict.weight == answer.weight <= maxWeight)
    && (rec.verdict.Stashed? <==> answer.OverLimit? && answer.required > maxIndividual)
    && (rec.verdict.Stashed? ==> rec.verdict.required == answer.required)
    && (GivenUp(rec) <==> answer.OverLimit? && maxWeight < answer.required <= maxIndividual)
    && (rec.verdict == Refused(Invalid) <==> answer.Invalid?)
    && !rec.verdict.Garbage?
  }

  /** What the executor says to the `i`-th fragment after `p`, given what `log` says was executed before it. */
  function AnswerAt(env: Env, x: ParaId, at: nat, p: Parse, log: seq<Record>, msg: Bytes, maxWeight: nat, i: nat): Handled
    requires |p.log| + i <= |log|
  {
    var used := p.used + ExecutedWeight(log[..|p.log| + i]) - ExecutedWeight(p.log);
    if 0 <= used <= maxWeight then env.execute(p.tick + i, x, at, msg, maxWeight - used) else Invalid
  }

  /** Between `p` and `r`: every decided fragment got the verdict of its answer, and the first one left was postponed. */
  ghost predicate Exact(env: Env, x: ParaId, at: nat, p: Parse, r: Parse, maxWeight: nat, maxIndividual: nat, frags: seq<Bytes>, k: nat) {
    && DecidesPrefix(p, r, frags, k)
    && |r.log| == |p.log| + k
    && (forall i :: 0 <= i < k ==>
          Answers(r.log[|p.log| + i], AnswerAt(env, x, at, p, r.log, frags[i], maxWeight, i), maxWeight, maxIndividual))
    && (k < |frags| ==> Postpones(AnswerAt(env, x, at, p, r.log, frags[k], maxWeight, k), maxWeight, maxIndividual))
  }

  /** One turn on a page that starts with the fragment `msg`. */
  lemma TurnAnswers(env: Env, x: ParaId, at: nat, p: Parse, maxWeight: nat, maxIndividual: nat, msg: Bytes)
    requires EnvOk(env) && p.rest != [] && p.used <= maxWeight
    requires env.decode(p.rest) == Some(|msg|) && |msg| <= |p.rest| && p.rest[..|msg|] == msg
    ensures var (p', stop) := ParseStep(env, x, at, p, maxWeight, maxIndividual);
            var answer := env.execute(p.tick, x, at, msg, maxWeight - p.used);
            && (stop <==> Postpones(answer, maxWeight, maxIndividual))
            && (stop ==> p'.log == p.log)
            && (!stop ==>
                  && p'.tick == p.tick + 1 && |p'.log| == |p.log| + 1 && p'.log == p.log + [p'.log[|p.log|]]
                  && Answers(p'.log[|p.log|], answer, maxWeight, maxIndividual)
                  && p'.log[|p.log|].msg == msg && p'.rest == p.rest[|msg|..])
  {
  }

  lemma ExactTail(env: Env, x: ParaId, at: nat, p: Parse, p': Parse, r: Parse, maxWeight: nat, maxIndividual: nat, frags: seq<Bytes>, k: nat, i: nat)
    requires frags != [] && p'.tick == p.tick + 1 && |p'.log| == |p.log| + 1 && i < k
    requires ExecutedWeight(p'.log) - p'.used == ExecutedWeight(p.log) - p.used
    requires Exact(env, x, at, p', r, maxWeight, maxIndividual, frags[1..], k)
    ensures |p.log| + i + 1 < |r.log| && i + 1 < |frags|
    ensures Answers(r.log[|p.log| + i + 1], AnswerAt(env, x, at, p, r.log, frags[i + 1], maxWeight, i + 1), maxWeight, maxIndividual)
  {
    hide ExecutedWeight;
    hide Answers;
    hide AnswerAt;
    assert Answers(r.log[|p'.log| + i], AnswerAt(env, x, at, p', r.log, frags[1..][i], maxWeight, i), maxWeight, maxIndividual);
    SameAnswer(env, x, at, p, p', r.log, frags[i + 1], maxWeight, i);
  }

  lemma ExactHead(env: Env, x: ParaId, at: nat, p: Parse, log: seq<Record>, msg: Bytes, maxWeight: nat)
    requires p.log <= log && p.used <= maxWeight
    ensures AnswerAt(env, x, at, p, log, msg, maxWeight, 0) == env.execute(p.tick, x, at, msg, maxWeight - p.used)
  {
    hide ExecutedWeight;
    assert log[..|p.log|] == p.log;
  }

  lemma ExactStep(env: Env, x: ParaId, at: nat, p: Parse, p': Parse, r: Parse, maxWeight: nat, maxIndividual: nat, frags: seq<Bytes>, k: nat)
    requires frags != [] && p.used <= maxWeight && p'.tick == p.tick + 1
    requires |p'.log| == |p.log| + 1 && p'.log == p.log + [p'.log[|p.log|]] && p'.log[|p.log|].msg == frags[0]
    requires ExecutedWeight(p'.log) - p'.used == ExecutedWeight(p.log) - p.used
    requires Answers(p'.log[|p.log|], env.execute(p.tick, x, at, frags[0], maxWeight - p.used), maxWeight, maxIndividual)
    requires Exact(env, x, at, p', r, maxWeight, maxIndividual, frags[1..], k)
    ensures Exact(env, x, at, p, r, maxWeight, maxIndividual, frags, k + 1)
  {
    hide ExecutedWeight;
    hide Answers;
    hide AnswerAt;
    PrefixStep(p, p', r, frags, k);
    ExactHead(env, x, at, p, r.log, frags[0], maxWeight);
    forall i | 0 <= i < k + 1
      ensures Answers(r.log[|p.log| + i], AnswerAt(env, x, at, p, r.log, frags[i], maxWeight, i), maxWeight, maxIndividual)
    {
      if i > 0 {
        ExactTail(env, x, at, p, p', r, maxWeight, maxIndividual, frags, k, i - 1);
      } else {
        assert r.log[|p.log|] == p'.log[|p.log|];
      }
    }
    if k + 1 < |frags| { SameAnswer(env, x, at, p, p', r.log, frags[k + 1], maxWeight, k); }
  }

  lemma ExactStop(env: Env, x: ParaId, at: nat, p: Parse, r: Parse, maxWeight: nat, maxIndividual: nat, frags: seq<Bytes>)
    requires r.log == p.log && r.rest == Concat(frags) && p.used <= maxWeight
    requires frags != [] ==> Postpones(env.execute(p.tick, x, at, frags[0], maxWeight - p.used), maxWeight, maxIndividual)
    ensures Exact(env, x, at, p, r, maxWeight, maxIndividual, frags, 0)
  {
    hide ExecutedWeight;
    PrefixNone(p, r, frags);
    assert r.log[..|p.log|] == p.log;
  }

  lemma SameAnswer(env: Env, x: ParaId, at: nat, p: Parse, p': Parse, log: seq<Record>, msg: Bytes, maxWeight: nat, i: nat)
    requires p'.tick == p.tick + 1 && |p'.log| == |p.log| + 1 && |p'.log| + i <= |log|
    requires ExecutedWeight(p'.log) - p'.used == ExecutedWeight(p.log) - p.used
    ensures AnswerAt(env, x, at, p', log, msg, maxWeight, i) == AnswerAt(env, x, at, p, log, msg, maxWeight, i + 1)
  {
    hide ExecutedWeight;
  }

  /** One turn of a call on a page of fragments: it stops, or the first fragment gets its verdict. */
  lemma PageTurn(env: Env, x: ParaId, at: nat, p: Parse, maxWeight: nat, maxIndividual: nat, frags: seq<Bytes>)
    requires EnvOk(env) && p.used <= maxWeight && AllFragments(env, frags) && p.rest == Concat(frags) && frags != []
    ensures p.rest != []
    ensures var (p', stop) := ParseStep(env, x, at, p, maxWeight, maxIndividual);
            var answer := env.execute(p.tick, x, at, frags[0], maxWeight - p.used);
            && ParseXcm(env, x, at, p, maxWeight, maxIndividual) == (if stop then p' else ParseXcm(env, x, at, p', maxWeight, maxIndividual))
            && (stop ==> Postpones(answer, maxWeight, maxIndividual) && p'.log == p.log && p'.rest == p.rest)
            && (!stop ==>
                  && p'.tick == p.tick + 1 && |p'.log| == |p.log| + 1 && p'.log == p.log + [p'.log[|p.log|]]
                  && Answers(p'.log[|p.log|], answer, maxWeight, maxIndividual)
                  && p'.log[|p.log|].msg == frags[0] && p'.rest == Concat(frags[1..])
                  && ExecutedWeight(p'.log) - p'.used == ExecutedWeight(p.log) - p.used)
  {
    hide IsFragment;
    hide ExecutedWeight;
    hide Concat;
    hide ParseXcm;
    hide ParseStep;
    hide Answers;
    FirstFragment(env, frags);
    ParseTurn(env, x, at, p, maxWeight, maxIndividual);
    TurnAnswers(env, x, at, p, maxWeight, maxIndividual, frags[0]);
    FragmentWeighs(env, x, at, p, maxWeight, maxIndividual);
  }

  /**
   The fate of every fragment of a page, at any point of any page and with any store: each one decided
   has exactly the verdict that the executor's answer to it calls for, and the call stops exactly at the
   first fragment whose answer postpones the page.
   */
  lemma {:induction false} VerdictsAreExact(env: Env, x: ParaId, at: nat, p: Parse, maxWeight: nat, maxIndividual: nat, frags: seq<Bytes>)
    returns (k: nat)
    requires EnvOk(env) && p.used <= maxWeight && AllFragments(env, frags) && p.rest == Concat(frags)
    ensures Exact(env, x, at, p, ParseXcm(env, x, at, p, maxWeight, maxIndividual), maxWeight, maxIndividual, frags, k)
    decreases |frags|
  {
    hide Exact;
    hide EnvOk;
    hide AllFragments;
    hide Concat;
    hide ExecutedWeight;
    hide Answers;
    hide Postpones;
    hide ParseXcm;
    hide ParseStep;
    if frags == [] {
      k := 0;
      NothingToParse(env, x, at, p, maxWeight, maxIndividual);
      ExactStop(env, x, at, p, p, maxWeight, maxIndividual, frags);
    } else {
      PageTurn(env, x, at, p, maxWeight, maxIndividual, frags);
      var (p', stop) := ParseStep(env, x, at, p, maxWeight, maxIndividual);
      if stop {
        k := 0;
        ExactStop(env, x, at, p, p', maxWeight, maxIndividual, frags);
      } else {
        LaterFragments(env, frags);
        var k' := VerdictsAreExact(env, x, at, p', maxWeight, maxIndividual, frags[1..]);
        k := k' + 1;
        ExactStep(env, x, at, p, p', ParseXcm(env, x, at, p', maxWeight, maxIndividual), maxWeight, maxIndividual, frags, k');
      }
    }
  }

  lemma NothingToParse(env: Env, x: ParaId, at: nat, p: Parse, maxWeight: nat, maxIndividual: nat)
    requires EnvOk(env) && p.used <= maxWeight && p.rest == Concat([])
    ensures ParseXcm(env, x, at, p, maxWeight, maxIndividual) == p
  {
  }

  lemma LaterFragments(env: Env, frags: seq<Bytes>)
    requires AllFragments(env, frags) && frags != []
    ensures AllFragments(env, frags[1..])
  {
    hide IsFragment;
  }

  /** Fragments are given up for lack of weight only between the page's grant and the individual maximum. */
  lemma {:induction false} VerdictsAreFair(env: Env, x: ParaId, at: nat, p: Parse, maxWeight: nat, maxIndividual: nat)
    requires EnvOk(env) && p.used <= maxWeight
    ensures var r := ParseXcm(env, x, at, p, maxWeight, maxIndividual);
            && p.log <= r.log
            && forall i :: |p.log| <= i < |r.log| && GivenUp(r.log[i]) ==> maxWeight < r.log[i].verdict.cause.required <= maxIndividual
    decreases |p.rest|
  {
    if p.rest != [] {
      var (p', stop) := ParseStep(env, x, at, p, maxWeight, maxIndividual);
      if !stop { VerdictsAreFair(env, x, at, p', maxWeight, maxIndividual); }
    }
  }

  /** No page, executor or moment makes a call with this grant give a fragment up for lack of weight. */
  ghost predicate SafeGrant(maxWeight: nat, maxIndividual: nat) {
    forall env: Env, x: ParaId, at: nat, p: Parse ::
      EnvOk(env) && p.used <= maxWeight ==>
        forall i :: |p.log| <= i < |ParseXcm(env, x, at, p, maxWeight, maxIndividual).log| ==>
                      !GivenUp(ParseXcm(env, x, at, p, maxWeight, maxIndividual).log[i])
  }

  /** An executor to which every page is one message that needs exactly `n`. */
  function Needs(n: nat): Env {
    Env((b: Bytes) => Some(|b|),
        (tick: nat, x: ParaId, at: nat, msg: Bytes, limit: nat) => if limit < n then OverLimit(n) else Used(0))
  }

  /** A grant is safe if and only if it covers the individual maximum. */
  lemma SafeGrantIff(maxWeight: nat, maxIndividual: nat)
    ensures SafeGrant(maxWeight, maxIndividual) <==> maxIndividual <= maxWeight
  {
    if maxIndividual <= maxWeight {
      forall env: Env, x: ParaId, at: nat, p: Parse | EnvOk(env) && p.used <= maxWeight
        ensures forall i :: |p.log| <= i < |ParseXcm(env, x, at, p, maxWeight, maxIndividual).log| ==>
                              !GivenUp(ParseXcm(env, x, at, p, maxWeight, maxIndividual).log[i])
      {
        VerdictsAreFair(env, x, at, p, maxWeight, maxIndividual);
      }
    } else {
      var env, page, p := Needs(maxIndividual), [0], Parse([0], 0, 0, Overweight(map[], 0, []), []);
      var r := ParseXcm(env, 0, 0, p, maxWeight, maxIndividual);
      assert EnvOk(env);
      assert p.rest[1..] == [] && p.rest[..1] == [0];
      assert r.log == [Record(0, [0], Refused(OverLimit(maxIndividual)))];
      assert GivenUp(r.log[0]);
    }
  }

  // ------------------------------------------------------------------ how much weight is unlocked

  /** The weight that is still held back. */
  function Locked(j: Job, v: Service): nat
    requires v.available <= j.maxWeight
  {
    j.maxWeight - v.available
  }

  /**
   Exactly when the next channel may use everything that is left: in a later round, or with decay 0, or
   when all but one part in `decay + 1` of the locked weight is less than the threshold.
   */
  lemma EverythingUnlockedIff(j: Job, v: Service)
    requires v.available < j.maxWeight
    ensures var locked := Locked(j, v); var decay := j.cfg.restrictDecay;
            Unlock(j, v) == j.maxWeight <==>
            v.index >= |v.s.status| || decay == 0 || locked - locked / (decay + 1) < j.cfg.thresholdWeight
  {
    var locked, parts := Locked(j, v), j.cfg.restrictDecay + 1;
    if parts > 1 { ShareIsLess(locked, parts); }
  }

  lemma ShareIsLess(x: nat, parts: nat)
    requires x > 0 && parts > 1
    ensures x / parts < x
  {
    assert x / parts * parts <= x;
    if x / parts > 0 { TimesMore(x / parts, parts); }
  }

  lemma {:induction false} TimesMore(q: nat, n: nat)
    requires q > 0 && n > 1
    ensures q * n > q
  {
    if q > 1 { TimesMore(q - 1, n); }
  }

  /**
   Exactly when a service call offers its first channel the whole weight. The setting is described as
   doing that at 1; in fact it depends on the threshold, and only 0 always does it.
   */
  lemma FirstGrantIsEverythingIff(j: Job, s: Inbound, shuffled: seq<nat>)
    requires s.status != [] && j.maxWeight > 0
    ensures var decay := j.cfg.restrictDecay;
            Unlock(j, Service(s, shuffled, 0, 0, 0)) == j.maxWeight <==>
            decay == 0 || j.maxWeight - j.maxWeight / (decay + 1) < j.cfg.thresholdWeight
  {
    EverythingUnlockedIff(j, Service(s, shuffled, 0, 0, 0));
  }

  /** With a decay of 1 and a threshold of at most half the weight the first channel gets half of it. */
  lemma DecayOneUnlocksHalf(j: Job, s: Inbound, shuffled: seq<nat>)
    requires s.status != [] && j.cfg.restrictDecay == 1 && 0 < j.maxWeight && j.cfg.thresholdWeight <= j.maxWeight / 2
    ensures Unlock(j, Service(s, shuffled, 0, 0, 0)) == j.maxWeight / 2 < j.maxWeight
  {
    FirstGrantIsEverythingIff(j, s, shuffled);
  }

  function Pow(b: nat, n: nat): nat { if n == 0 then 1 else b * Pow(b, n - 1) }

  /** The scheduler after at most `n` turns. */
  ghost function After(j: Job, v: Service, n: nat): (v': Service)
    requires ServiceOk(j, v)
    ensures ServiceOk(j, v')
    decreases n
  {
    if n == 0 || !Continues(j, v) then v else After(j, ServiceStep(j, v), n - 1)
  }

  lemma ShareLeaves(x: nat, parts: nat)
    requires parts > 0
    ensures parts * (x - x / parts) >= (parts - 1) * x
  {
    assert parts * (x / parts) <= x;
    assert parts * (x - x / parts) == parts * x - parts * (x / parts);
  }

  lemma StepHoldsBack(j: Job, v: Service)
    requires ServiceOk(j, v) && v.index < |v.shuffled|
    ensures var v' := ServiceStep(j, v); var d := j.cfg.restrictDecay;
            v'.available == j.maxWeight || (d + 1) * Locked(j, v') >= d * Locked(j, v)
  {
    hide ServeChannel;
    var locked, d := Locked(j, v), j.cfg.restrictDecay;
    ShareLeaves(locked, d + 1);
    var v' := ServiceStep(j, v);
    assert v'.available == v.available || v'.available == Unlock(j, v);
    if v'.available == v.available {
      MoreParts(d, locked);
    } else if v'.available != j.maxWeight {
      assert Locked(j, v') == locked - locked / (d + 1);
    }
  }

  lemma MoreParts(d: nat, x: nat)
    ensures (d + 1) * x >= d * x
  {
  }

  lemma TimesLess(a: nat, x: nat, y: nat)
    requires x <= y
    ensures a * x <= a * y
  {
  }

  lemma TimesSwap(a: nat, b: nat, c: nat)
    ensures a * b * c == a * (b * c) == b * (a * c)
  {
  }

  lemma PowChain(p: nat, q: nat, d: nat, x: nat, y: nat, z: nat)
    requires p * z >= q * y && (d + 1) * y >= d * x
    ensures (d + 1) * p * z >= d * q * x
  {
    TimesSwap(d + 1, p, z);
    TimesLess(d + 1, q * y, p * z);
    TimesSwap(d + 1, q, y);
    TimesLess(q, d * x, (d + 1) * y);
    TimesSwap(d, q, x);
  }

  /** Everything is unlocked in `v'`, or at least the part (decay / (decay + 1))^n of what was locked in `v` still is. */
  ghost predicate HeldBack(j: Job, v: Service, v': Service, n: nat) {
    v.available <= j.maxWeight && v'.available <= j.maxWeight &&
    var d := j.cfg.restrictDecay;
    v'.available == j.maxWeight || Pow(d + 1, n) * Locked(j, v') >= Pow(d, n) * Locked(j, v)
  }

  lemma HeldBackStays(j: Job, v: Service, n: nat)
    requires v.available <= j.maxWeight
    ensures HeldBack(j, v, v, n)
  {
    var d := j.cfg.restrictDecay;
    PowGrows(d, n);
    TimesBoth(Pow(d, n), Pow(d + 1, n), Locked(j, v));
  }

  lemma HeldBackTurn(j: Job, v: Service, v1: Service, v': Service, n: nat)
    requires v.available <= j.maxWeight && v1.available <= v'.available && n > 0
    requires HeldBack(j, v1, v', n - 1)
    requires var d := j.cfg.restrictDecay; v1.available == j.maxWeight || (d + 1) * Locked(j, v1) >= d * Locked(j, v)
    ensures HeldBack(j, v, v', n)
  {
    var d := j.cfg.restrictDecay;
    PowTurn(d, n);
    PowTurn(d + 1, n);
    hide Pow;
    if v'.available != j.maxWeight {
      PowChain(Pow(d + 1, n - 1), Pow(d, n - 1), d, Locked(j, v), Locked(j, v1), Locked(j, v'));
    }
  }

  /**
   What the decay is for: after `n` turns of the scheduler, whatever the channels did, either everything
   is unlocked or at least the part (decay / (decay + 1))^n of the weight is still held back for others.
   */
  lemma {:induction false} WeightIsHeldBack(j: Job, v: Service, n: nat)
    requires ServiceOk(j, v)
    ensures HeldBack(j, v, After(j, v, n), n)
    decreases n
  {
    hide ServiceStep;
    hide HeldBack;
    if n == 0 || !Continues(j, v) {
      HeldBackStays(j, v, n);
    } else {
      var v1 := ServiceStep(j, v);
      StepHoldsBack(j, v);
      WeightIsHeldBack(j, v1, n - 1);
      AvailableNeverFalls(j, v1, n - 1);
      HeldBackTurn(j, v, v1, After(j, v1, n - 1), n);
    }
  }

  lemma TimesBoth(a: nat, b: nat, x: nat)
    requires a <= b
    ensures a * x <= b * x
  {
  }

  lemma PowTurn(b: nat, n: nat)
    requires n > 0
    ensures Pow(b, n) == b * Pow(b, n - 1)
  {
  }

  lemma {:induction false} PowGrows(d: nat, n: nat)
    ensures Pow(d + 1, n) >= Pow(d, n)
  {
    if n > 0 {
      PowGrows(d, n - 1);
      PowTurn(d, n);
      PowTurn(d + 1, n);
      hide Pow;
      TimesLess(d, Pow(d, n - 1), Pow(d + 1, n - 1));
      TimesBoth(d, d + 1, Pow(d + 1, n - 1));
    }
  }

  lemma {:induction false} AvailableNeverFalls(j: Job, v: Service, n: nat)
    requires ServiceOk(j, v)
    ensures After(j, v, n).available >= v.available
    decreases n
  {
    hide ServiceStep;
    if n > 0 && Continues(j, v) { AvailableNeverFalls(j, ServiceStep(j, v), n - 1); }
  }

  // ------------------------------------------------------------------ overweight messages

  /** The stashed messages in the order they were stashed. */
  function StashLog(log: seq<Record>): seq<(ParaId, Bytes)> {
    if log == [] then []
    else
      var r := log[|log| - 1];
      StashLog(log[..|log| - 1]) + if r.verdict.Stashed? then [(r.sender, r.msg)] else []
  }

  lemma StashLogSnoc(log: seq<Record>, r: Record)
    ensures StashLog(log + [r]) == StashLog(log) + if r.verdict.Stashed? then [(r.sender, r.msg)] else []
  {
    assert (log + [r])[..|log|] == log;
  }

  /**
   The n-th message ever stashed has index n and stays in the store until it is serviced, which happens
   at most once; no index is ever reused.
   */
  ghost predicate StashesInOrder(over: Overweight, log: seq<Record>) {
    var l := StashLog(log);
    && |l| == over.count
    && (forall i: nat :: i in over.store <==> i < over.count && i !in over.freed)
    && (forall i: nat :: i in over.store ==> over.store[i].sender == l[i].0 && over.store[i].msg == l[i].1)
    && (forall i :: 0 <= i < |over.freed| ==> over.freed[i] < over.count)
    && (forall i, j :: 0 <= i < j < |over.freed| ==> over.freed[i] != over.freed[j])
  }

  /** Servicing an overweight message removes it exactly if it is executed, and keeps all others in order. */
  lemma OverweightStashes(env: Env, s: Inbound, index: nat, limit: nat)
    requires StashesInOrder(s.over, s.log)
    ensures var (s', result) := ServiceOverweight(env, s, index, limit);
            && StashesInOrder(s'.over, s'.log)
            && (result.Serviced? <==> index in s.over.store && index !in s'.over.store)
            && (forall i: nat :: i != index ==> (i in s'.over.store <==> i in s.over.store))
            && s'.log == s.log && s'.calls == s.calls && s'.accepted == s.accepted && s'.status == s.status && s'.pages == s.pages
  {
    hide StashLog;
  }

  /**
   Servicing an overweight message, told by the codec and the executor: it goes from the store if and only
   if it is there, decodes as a whole, and runs with the caller's limit.
   */
  lemma OverweightIsExact(env: Env, s: Inbound, index: nat, limit: nat)
    ensures var (s', result) := ServiceOverweight(env, s, index, limit);
            if index !in s.over.store then result == BadOverweightIndex && s' == s
            else
              var stash := s.over.store[index];
              var runs := env.execute(s.tick, stash.sender, stash.sentAt, stash.msg, limit);
              if env.decode(stash.msg) != Some(|stash.msg|) then result == BadXcm && s' == s
              else if !runs.Used? then result == WeightOverLimit && s'.over == s.over
              else
                && result == Serviced(runs.weight) && index !in s'.over.store && s'.over.count == s.over.count
                && forall i: nat :: i != index ==>
                     (i in s'.over.store <==> i in s.over.store) && (i in s.over.store ==> s'.over.store[i] == s.over.store[i])
  {
  }

  lemma StepStashesInOrder(env: Env, x: ParaId, at: nat, p: Parse, maxWeight: nat, maxIndividual: nat)
    requires EnvOk(env) && p.rest != [] && p.used <= maxWeight && StashesInOrder(p.over, p.log)
    ensures var p' := ParseStep(env, x, at, p, maxWeight, maxIndividual).0; StashesInOrder(p'.over, p'.log)
  {
    hide StashesInOrder;
    var (p', stop) := ParseStep(env, x, at, p, maxWeight, maxIndividual);
    if !stop {
      var rec := p'.log[|p.log|];
      assert p'.log == p.log + [rec];
      if rec.verdict.Stashed? { OneStash(p.over, p.log, rec, at); } else { NoStash(p.over, p.log, rec); }
    }
  }

  lemma OneStash(over: Overweight, log: seq<Record>, r: Record, at: nat)
    requires StashesInOrder(over, log) && r.verdict.Stashed?
    ensures StashesInOrder(StashOverweight(over, Stash(r.sender, at, r.msg)), log + [r])
  {
    hide StashLog;
    StashLogSnoc(log, r);
  }

  lemma {:induction false} ParseStashesInOrder(env: Env, x: ParaId, at: nat, p: Parse, maxWeight: nat, maxIndividual: nat)
    requires EnvOk(env) && p.used <= maxWeight && StashesInOrder(p.over, p.log)
    ensures var r := ParseXcm(env, x, at, p, maxWeight, maxIndividual); StashesInOrder(r.over, r.log)
    decreases |p.rest|
  {
    if p.rest != [] {
      hide ParseStep;
      hide StashesInOrder;
      StepStashesInOrder(env, x, at, p, maxWeight, maxIndividual);
      var (p', stop) := ParseStep(env, x, at, p, maxWeight, maxIndividual);
      if !stop {
        ParseStashesInOrder(env, x, at, p', maxWeight, maxIndividual);
      }
    }
  }

  lemma StepStashNamesPage(env: Env, x: ParaId, at: nat, p: Parse, maxWeight: nat, maxIndividual: nat)
    requires EnvOk(env) && p.rest != [] && p.used <= maxWeight
    ensures var over' := ParseStep(env, x, at, p, maxWeight, maxIndividual).0.over;
            && p.over.count <= over'.count
            && (forall i: nat :: i < p.over.count ==> (i in over'.store <==> i in p.over.store) && (i in p.over.store ==> over'.store[i] == p.over.store[i]))
            && (forall i: nat :: p.over.count <= i < over'.count ==> i in over'.store && over'.store[i].sender == x && over'.store[i].sentAt == at)
  {
  }

  /** What a page stashes is kept with its sender and the page's time, and what was stashed before stays. */
  lemma {:induction false} StashesNameTheirPage(env: Env, x: ParaId, at: nat, p: Parse, maxWeight: nat, maxIndividual: nat)
    requires EnvOk(env) && p.used <= maxWeight
    ensures var over' := ParseXcm(env, x, at, p, maxWeight, maxIndividual).over;
            && p.over.count <= over'.count
            && (forall i: nat :: i < p.over.count ==> (i in over'.store <==> i in p.over.store) && (i in p.over.store ==> over'.store[i] == p.over.store[i]))
            && (forall i: nat :: p.over.count <= i < over'.count ==> i in over'.store && over'.store[i].sender == x && over'.store[i].sentAt == at)
    decreases |p.rest|
  {
    if p.rest != [] {
      hide ParseStep;
      StepStashNamesPage(env, x, at, p, maxWeight, maxIndividual);
      var (p', stop) := ParseStep(env, x, at, p, maxWeight, maxIndividual);
      if !stop { StashesNameTheirPage(env, x, at, p', maxWeight, maxIndividual); }
    }
  }

  // ------------------------------------------------------------------ senders

  ghost predicate SortedSenders(st: seq<InDetails>) {
    forall i, j :: 0 <= i < j < |st| ==> st[i].sender < st[j].sender
  }

  ghost predicate UniqueSenders(st: seq<InDetails>) {
    forall i, j :: 0 <= i < j < |st| ==> st[i].sender != st[j].sender
  }

  function Place(st: seq<InDetails>, x: ParaId): (k: nat)
    ensures k <= |st|
    ensures forall i :: 0 <= i < k ==> st[i].sender != x
    ensures k < |st| ==> st[k].sender == x
  {
    if st == [] || st[0].sender == x then 0 else 1 + Place(st[1..], x)
  }

  /** The entry of a sender; an unknown sender is Ok and has no pages. */
  function Entry(st: seq<InDetails>, x: ParaId): InDetails {
    var k := Place(st, x);
    if k < |st| then st[k] else InDetails(x, Ok, [])
  }

  /** There is at most one entry of `y`. */
  ghost predicate Single(st: seq<InDetails>, y: ParaId) {
    forall i, j :: 0 <= i < j < |st| && st[i].sender == y ==> st[j].sender != y
  }

  lemma EntryIs(st: seq<InDetails>, k: nat)
    requires k < |st| && Single(st, st[k].sender)
    ensures Entry(st, st[k].sender) == st[k]
  {
    assert Place(st, st[k].sender) <= k;
  }

  /** Updating one entry touches no other sender, and needs no other sender to be unique. */
  lemma EntryUpdate(st: seq<InDetails>, k: nat, d: InDetails)
    requires k < |st| && d.sender == st[k].sender
    ensures forall y: ParaId :: Single(st[k := d], y) <==> Single(st, y)
    ensures forall y: ParaId :: y != d.sender ==> Entry(st[k := d], y) == Entry(st, y)
    ensures Single(st, d.sender) ==> Entry(st[k := d], d.sender) == d
  {
    var t := st[k := d];
    forall i | 0 <= i < |st| ensures t[i].sender == st[i].sender {}
    forall y: ParaId ensures Place(t, y) == Place(st, y) {}
    if Single(st, d.sender) { EntryIs(t, k); }
  }

  function IsOf(y: ParaId): InDetails -> bool { (d: InDetails) => d.sender == y }

  /** The entries of `y` in the list, of which there should be at most one. */
  function Mine(st: seq<InDetails>, y: ParaId): seq<InDetails> { Filter(st, IsOf(y)) }

  lemma {:induction false} MineIsEmpty(st: seq<InDetails>, y: ParaId)
    ensures Mine(st, y) == [] <==> forall d :: d in st ==> d.sender != y
  {
    if st != [] {
      MineIsEmpty(st[1..], y);
      assert st[0] in st && forall d :: d in st <==> d == st[0] || d in st[1..];
    }
  }

  lemma {:induction false} MineIsEntry(st: seq<InDetails>, y: ParaId)
    ensures Entry(st, y) == if Mine(st, y) == [] then InDetails(y, Ok, []) else Mine(st, y)[0]
  {
    if st != [] { MineIsEntry(st[1..], y); }
  }

  /** The first entry aside, there is at most one if and only if the first is not of `y` or no later one is. */
  lemma SingleTurn(st: seq<InDetails>, y: ParaId)
    requires st != []
    ensures Single(st, y) <==> Single(st[1..], y) && (st[0].sender == y ==> forall d :: d in st[1..] ==> d.sender != y)
  {
    var rest := st[1..];
    forall i | 0 <= i < |rest| ensures rest[i] == st[i + 1] {}
    if Single(st, y) {
      forall d | d in rest && st[0].sender == y ensures d.sender != y { var i :| 0 <= i < |rest| && rest[i] == d; assert st[i + 1] == d; }
    } else {
      var i, j :| 0 <= i < j < |st| && st[i].sender == y && st[j].sender == y;
      assert st[j] == rest[j - 1] && st[j] in rest;
      if i > 0 { assert st[i] == rest[i - 1]; }
    }
  }

  lemma {:induction false} MineIsSingle(st: seq<InDetails>, y: ParaId)
    ensures Single(st, y) <==> |Mine(st, y)| <= 1
  {
    if st != [] {
      hide Single;
      MineIsSingle(st[1..], y);
      MineIsEmpty(st[1..], y);
      SingleTurn(st, y);
    }
  }

  lemma MineIs(st: seq<InDetails>, y: ParaId)
    ensures Single(st, y) <==> |Mine(st, y)| <= 1
    ensures Entry(st, y) == if Mine(st, y) == [] then InDetails(y, Ok, []) else Mine(st, y)[0]
    ensures Mine(st, y) == [] <==> forall d :: d in st ==> d.sender != y
  {
    MineIsEmpty(st, y);
    MineIsEntry(st, y);
    MineIsSingle(st, y);
  }

  // ------------------------------------------------------------------ the flow of one channel

  function Decided(log: seq<Record>, x: ParaId): Bytes {
    if log == [] then []
    else
      var r := log[|log| - 1];
      Decided(log[..|log| - 1], x) + if r.sender == x then r.msg else []
  }

  lemma DecidedSnoc(log: seq<Record>, r: Record, x: ParaId)
    ensures Decided(log + [r], x) == if r.sender == x then Decided(log, x) + r.msg else Decided(log, x)
  {
    assert (log + [r])[..|log|] == log;
    assert Decided(log, x) + [] == Decided(log, x);
  }

  function PagesOf(pages: DoubleMap, x: ParaId, meta: seq<Meta>): Bytes {
    if meta == [] then [] else Page(Inner(pages, x), meta[0].sentAt) + PagesOf(pages, x, meta[1..])
  }

  /** The bytes of a sender that wait to be decided, oldest page first. */
  function Pending(s: Inbound, x: ParaId): Bytes { PagesOf(s.pages, x, Entry(s.status, x).meta) }

  function Accepted(arrivals: seq<Arrival>, x: ParaId): Bytes {
    if arrivals == [] then []
    else
      var a := arrivals[|arrivals| - 1];
      Accepted(arrivals[..|arrivals| - 1], x) + if a.sender == x && a.data != [] then a.data[1..] else []
  }

  lemma AcceptedSnoc(arrivals: seq<Arrival>, a: Arrival, x: ParaId)
    requires a.data != []
    ensures Accepted(arrivals + [a], x) == if a.sender == x then Accepted(arrivals, x) + a.data[1..] else Accepted(arrivals, x)
  {
    assert (arrivals + [a])[..|arrivals|] == arrivals;
    assert Accepted(arrivals, x) + [] == Accepted(arrivals, x);
  }

  /** Decided bytes followed by waiting bytes are the accepted bytes: nothing lost, repeated or reordered. */
  ghost predicate Flows(s: Inbound, x: ParaId) {
    Decided(s.log, x) + Pending(s, x) == Accepted(s.accepted, x)
  }

  ghost predicate DistinctTimes(meta: seq<Meta>) {
    forall i, j :: 0 <= i < j < |meta| ==> meta[i].sentAt != meta[j].sentAt
  }

  lemma {:induction false} PagesOfElsewhere(pages: DoubleMap, pages': DoubleMap, x: ParaId, meta: seq<Meta>)
    requires forall m :: m in meta ==> Page(Inner(pages', x), m.sentAt) == Page(Inner(pages, x), m.sentAt)
    ensures PagesOf(pages', x, meta) == PagesOf(pages, x, meta)
  {
    if meta != [] {
      assert meta[0] in meta;
      PagesOfElsewhere(pages, pages', x, meta[1..]);
    }
  }

  lemma {:induction false} ParseFlows(env: Env, x: ParaId, at: nat, p: Parse, maxWeight: nat, maxIndividual: nat, y: ParaId)
    requires EnvOk(env) && p.used <= maxWeight
    ensures var r := ParseXcm(env, x, at, p, maxWeight, maxIndividual);
            if y == x then Decided(r.log, y) + r.rest == Decided(p.log, y) + p.rest
            else Decided(r.log, y) == Decided(p.log, y)
    decreases |p.rest|
  {
    if p.rest != [] {
      hide Decided;
      hide ParseStep;
      ParseStepRecord(env, x, at, p, maxWeight, maxIndividual);
      var (p', stop) := ParseStep(env, x, at, p, maxWeight, maxIndividual);
      if !stop {
        var rec := p'.log[|p.log|];
        DecidedSnoc(p.log, rec, y);
        ParseFlows(env, x, at, p', maxWeight, maxIndividual, y);
        Associative(Decided(p.log, y), rec.msg, p'.rest);
      }
    }
  }

  lemma PageFlows(env: Env, x: ParaId, m: Meta, p: Parse, maxWeight: nat, maxIndividual: nat, y: ParaId)
    requires EnvOk(env) && p.used <= maxWeight
    ensures var r := ParsePage(env, x, m, p, maxWeight, maxIndividual);
            if y == x then Decided(r.log, y) + r.rest == Decided(p.log, y) + p.rest
            else Decided(r.log, y) == Decided(p.log, y)
  {
    hide Decided;
    hide ParseXcm;
    ParseFlows(env, x, m.sentAt, p, maxWeight, maxIndividual, y);
    if !m.format.ConcatenatedVersionedXcm? {
      DecidedSnoc(p.log, Record(x, p.rest, Refused(Invalid)), y);
      assert Decided(p.log, y) + p.rest + [] == Decided(p.log, y) + p.rest;
      if p.rest == [] { assert Decided(p.log, y) + [] == Decided(p.log, y); }
    }
  }

  // ---- what serving a channel does to each sender ----

  /** Deciding part of the oldest page moves its bytes from "waiting" to "decided". */
  lemma MovesBytes(dec: Bytes, dec': Bytes, data: Bytes, rest: Bytes, tail: Bytes)
    requires dec' + rest == dec + data
    ensures dec' + (rest + tail) == dec + (data + tail)
  {
    Associative(dec', rest, tail);
    Associative(dec, data, tail);
  }

  lemma ProcessPending(env: Env, s: Inbound, k: nat, grant: nat, maxIndividual: nat, y: ParaId)
    requires EnvOk(env) && k < |s.status| && s.status[k].meta != []
    requires Single(s.status, y) && DistinctTimes(Entry(s.status, y).meta)
    ensures var d := s.status[k]; var x, m := d.sender, d.meta[0]; var data := Page(Inner(s.pages, x), m.sentAt);
            var p := ParsePage(env, x, m, Parse(data, 0, s.tick, s.over, s.log), grant, maxIndividual);
            var s' := ProcessPage(env, s, k, grant, maxIndividual).s; var tail := PagesOf(s.pages, x, d.meta[1..]);
            if y == x then Pending(s, y) == data + tail && Pending(s', y) == p.rest + tail
            else Pending(s', y) == Pending(s, y)
  {
    hide ParsePage;
    hide StoreRest;
    var d := s.status[k];
    var m, x := d.meta[0], d.sender;
    var p := ParsePage(env, x, m, Parse(Page(Inner(s.pages, x), m.sentAt), 0, s.tick, s.over, s.log), grant, maxIndividual);
    RestElsewhere(s.pages, x, m.sentAt, p.rest);
    var pages' := StoreRest(s.pages, x, m.sentAt, p.rest);
    EntryUpdate(s.status, k, d.(meta := d.meta[1..]));
    if y == x {
      EntryIs(s.status, k);
      forall t | t in d.meta[1..] ensures t.sentAt != m.sentAt {}
      PagesOfElsewhere(s.pages, pages', x, d.meta[1..]);
      assert p.rest == [] ==> [] + PagesOf(s.pages, x, d.meta[1..]) == PagesOf(s.pages, x, d.meta[1..]);
    } else {
      PagesOfElsewhere(s.pages, pages', y, Entry(s.status, y).meta);
    }
  }

  lemma ProcessFlows(env: Env, s: Inbound, k: nat, grant: nat, maxIndividual: nat, y: ParaId)
    requires EnvOk(env) && k < |s.status| && s.status[k].meta != []
    requires Single(s.status, y) && DistinctTimes(Entry(s.status, y).meta) && Flows(s, y)
    ensures Flows(ProcessPage(env, s, k, grant, maxIndividual).s, y)
  {
    hide ParsePage;
    hide Decided;
    hide Accepted;
    hide Pending;
    hide PagesOf;
    hide StoreRest;
    var d := s.status[k];
    var m, x := d.meta[0], d.sender;
    var data := Page(Inner(s.pages, x), m.sentAt);
    var p0 := Parse(data, 0, s.tick, s.over, s.log);
    var p := ParsePage(env, x, m, p0, grant, maxIndividual);
    PageFlows(env, x, m, p0, grant, maxIndividual, y);
    ProcessPending(env, s, k, grant, maxIndividual, y);
    if y == x { MovesBytes(Decided(s.log, x), Decided(p.log, x), data, p.rest, PagesOf(s.pages, x, d.meta[1..])); }
  }

  /** After a call the page is still stored if and only if its metadata is still there. */
  lemma PageGoesWithMetadata(env: Env, s: Inbound, k: nat, grant: nat, maxIndividual: nat)
    requires EnvOk(env) && k < |s.status| && s.status[k].meta != []
    ensures var s' := ProcessPage(env, s, k, grant, maxIndividual).s; var d := s.status[k];
            && (d.meta[0].sentAt in Inner(s'.pages, d.sender) <==> s'.status[k].meta == d.meta)
            && forall at: nat :: at != d.meta[0].sentAt ==> (at in Inner(s'.pages, d.sender) <==> at in Inner(s.pages, d.sender))
  {
    hide ParsePage;
    var d := s.status[k];
    assert |d.meta[1..]| != |d.meta|;
  }

  lemma RestElsewhere(pages: DoubleMap, x: ParaId, at: nat, rest: Bytes)
    ensures Page(Inner(StoreRest(pages, x, at, rest), x), at) == rest
    ensures forall y: ParaId, t: nat :: y != x || t != at ==>
                                          Page(Inner(StoreRest(pages, x, at, rest), y), t) == Page(Inner(pages, y), t)
  {
  }

  lemma ResumeFlows(s: Inbound, k: nat, threshold: nat, y: ParaId)
    requires k < |s.status| && Single(s.status, y) && Flows(s, y)
    ensures Flows(ResumeIfDrained(s, k, threshold), y)
  {
    hide Decided;
    hide Accepted;
    EntryUpdate(s.status, k, s.status[k].(state := Ok));
    if y == s.status[k].sender { EntryIs(s.status, k); }
  }

  lemma ProcessShape(env: Env, s: Inbound, k: nat, grant: nat, maxIndividual: nat)
    requires EnvOk(env) && k < |s.status| && s.status[k].meta != []
    ensures var s' := ProcessPage(env, s, k, grant, maxIndividual).s; var d := s.status[k];
            && (s'.status == s.status || s'.status == s.status[k := d.(meta := d.meta[1..])])
            && s'.calls == s.calls && s'.accepted == s.accepted
  {
  }

  /** Serving a channel lifts a suspension exactly when few enough pages are left, and then issues Resume. */
  lemma ServeShape(env: Env, cfg: Config, s: Inbound, k: nat, grant: nat)
    requires EnvOk(env) && k < |s.status|
    ensures var s' := ServeChannel(env, cfg, s, k, grant).s; var d, d' := s.status[k], s'.status[k];
            && s'.status == s.status[k := d']
            && d'.sender == d.sender && (d'.meta == d.meta || (d.meta != [] && d'.meta == d.meta[1..]))
            && (d'.state.Suspended? <==> d.state.Suspended? && |d'.meta| > cfg.resumeThreshold)
            && (d'.meta == [] ==> d'.state.Ok?)
            && (if d.state == d'.state then s'.calls == s.calls
                else d.state.Suspended? && d'.state.Ok? && s'.calls == s.calls + [Issue(Note(d.sender, Resume))])
            && s'.accepted == s.accepted
  {
    hide ProcessPage;
    if s.status[k].meta != [] { ProcessShape(env, s, k, grant, cfg.maxIndividual); }
  }

  /** What serving a channel does to the entry of `y`. */
  lemma ServeEntry(env: Env, cfg: Config, s: Inbound, k: nat, grant: nat, y: ParaId)
    requires EnvOk(env) && k < |s.status| && Single(s.status, y)
    ensures var st' := ServeChannel(env, cfg, s, k, grant).s.status; var d, d' := Entry(s.status, y), Entry(st', y);
            && Single(st', y)
            && (d'.meta == d.meta || (d.meta != [] && d'.meta == d.meta[1..]))
            && (if y == s.status[k].sender then s.status[k] == d && st'[k] == d' else d' == d)
  {
    hide ServeChannel;
    ServeShape(env, cfg, s, k, grant);
    EntryUpdate(s.status, k, ServeChannel(env, cfg, s, k, grant).s.status[k]);
    if y == s.status[k].sender { EntryIs(s.status, k); }
  }

  /** The entry of `y` is unique, its waiting pages have different stamps, and its bytes flow in order. */
  ghost predicate Delivers(s: Inbound, y: ParaId) {
    Single(s.status, y) && DistinctTimes(Entry(s.status, y).meta) && Flows(s, y)
  }

  lemma ServeFlows(env: Env, cfg: Config, s: Inbound, k: nat, grant: nat, y: ParaId)
    requires EnvOk(env) && k < |s.status| && Delivers(s, y)
    ensures Flows(ServeChannel(env, cfg, s, k, grant).s, y)
  {
    hide ProcessPage;
    hide Flows;
    if s.status[k].meta == [] {
      ResumeFlows(s, k, cfg.resumeThreshold, y);
    } else {
      var s1 := ProcessPage(env, s, k, grant, cfg.maxIndividual).s;
      ProcessFlows(env, s, k, grant, cfg.maxIndividual, y);
      ProcessShape(env, s, k, grant, cfg.maxIndividual);
      EntryUpdate(s.status, k, s.status[k].(meta := s.status[k].meta[1..]));
      ResumeFlows(s1, k, cfg.resumeThreshold, y);
    }
  }

  lemma ServeDelivers(env: Env, cfg: Config, s: Inbound, k: nat, grant: nat, y: ParaId)
    requires EnvOk(env) && k < |s.status| && Delivers(s, y)
    ensures Delivers(ServeChannel(env, cfg, s, k, grant).s, y)
  {
    ServeFlows(env, cfg, s, k, grant, y);
    hide ServeChannel;
    hide Flows;
    ServeEntry(env, cfg, s, k, grant, y);
  }

  // ------------------------------------------------------------------ the handshake, issuing side

  function Issues(calls: seq<Call>): seq<Note> {
    if calls == [] then []
    else
      var c := calls[|calls| - 1];
      Issues(calls[..|calls| - 1]) + if c.Issue? then [c.note] else []
  }

  lemma IssuesSnoc(calls: seq<Call>, c: Call)
    ensures Issues(calls + [c]) == if c.Issue? then Issues(calls) + [c.note] else Issues(calls)
  {
    assert (calls + [c])[..|calls|] == calls;
    assert Issues(calls) + [] == Issues(calls);
  }

  /** The signals issued to a peer alternate, and the inbound state tells which one was last. */
  ghost predicate Shakes(s: Inbound, y: ParaId) {
    var sigs := SignalsWith(Issues(s.calls), y);
    Alternates(sigs) && (Entry(s.status, y).state.Suspended? <==> |sigs| % 2 == 1)
  }

  /** Issuing the opposite of the current state to one peer keeps every peer's signals alternating. */
  lemma FlipShakes(s: Inbound, s': Inbound, x: ParaId, y: ParaId)
    requires Shakes(s, y)
    requires var d, d' := Entry(s.status, x), Entry(s'.status, x);
             && d.state != d'.state
             && s'.calls == s.calls + [Issue(Note(x, if d.state.Ok? then Suspend else Resume))]
    requires y != x ==> Entry(s'.status, y).state == Entry(s.status, y).state
    ensures Shakes(s', y)
  {
    hide SignalsWith;
    hide Alternates;
    hide Issues;
    var c := s'.calls[|s.calls|];
    IssuesSnoc(s.calls, c);
    SignalsWithSnoc(Issues(s.calls), c.note, y);
    AlternatesSnoc(SignalsWith(Issues(s.calls), y), c.note.signal);
  }

  /** The entry of `y` is unique and not suspended without pages, and the signals issued to `y` alternate. */
  ghost predicate Handshakes(s: Inbound, y: ParaId) {
    Single(s.status, y) && (Entry(s.status, y).meta == [] ==> Entry(s.status, y).state.Ok?) && Shakes(s, y)
  }

  lemma ServeHandshakes(env: Env, cfg: Config, s: Inbound, k: nat, grant: nat, y: ParaId)
    requires EnvOk(env) && k < |s.status| && Handshakes(s, y)
    ensures Handshakes(ServeChannel(env, cfg, s, k, grant).s, y)
  {
    hide ServeChannel;
    ServeShape(env, cfg, s, k, grant);
    ServeEntry(env, cfg, s, k, grant, y);
    var s' := ServeChannel(env, cfg, s, k, grant).s;
    var x := s.status[k].sender;
    if x != y && s.status[k].state != s'.status[k].state {
      OtherIssue(s, s', Note(x, Resume), y);
    } else if x == y && s.status[k].state != s'.status[k].state {
      FlipShakes(s, s', x, y);
    }
  }

  /** A signal issued to another peer is not seen by `y`. */
  lemma OtherIssue(s: Inbound, s': Inbound, n: Note, y: ParaId)
    requires Shakes(s, y) && n.peer != y && s'.calls == s.calls + [Issue(n)] && Entry(s'.status, y) == Entry(s.status, y)
    ensures Shakes(s', y)
  {
    hide SignalsWith;
    hide Issues;
    IssuesSnoc(s.calls, Issue(n));
    SignalsWithSnoc(Issues(s.calls), n, y);
  }

  // ------------------------------------------------------------------ the scheduler

  /** The channels still to visit are distinct and each has a page. */
  ghost predicate PendingOk(v: Service) {
    && v.index <= |v.shuffled|
    && (forall i :: 0 <= i < |v.shuffled| ==> v.shuffled[i] < |v.s.status|)
    && (forall i, k :: v.index <= i < k < |v.shuffled| ==> v.shuffled[i] != v.shuffled[k])
    && (forall i :: v.index <= i < |v.shuffled| ==> v.s.status[v.shuffled[i]].meta != [])
  }

  lemma StepKeepsPending(j: Job, v: Service)
    requires ServiceOk(j, v) && v.index < |v.shuffled| && PendingOk(v)
    ensures PendingOk(ServiceStep(j, v))
  {
    hide ServeChannel;
    hide Unlock;
    var k := v.shuffled[v.index];
    var grant := Unlock(j, v) - v.used;
    ServeShape(j.env, j.cfg, v.s, k, grant);
  }

  /** Every visit of this service run finds a page: the "there must be messages" assertion holds. */
  ghost predicate NeverVisitsEmpty(j: Job, v: Service)
    requires ServiceOk(j, v)
    decreases Work(v.s.pages, v.s.status), |v.shuffled| - v.index
  {
    Continues(j, v) ==>
      && v.s.status[v.shuffled[v.index]].meta != []
      && (StepDecreases(j, v); NeverVisitsEmpty(j, ServiceStep(j, v)))
  }

  lemma {:induction false} ServiceNeverVisitsEmpty(j: Job, v: Service)
    requires ServiceOk(j, v) && PendingOk(v)
    ensures NeverVisitsEmpty(j, v)
    decreases Work(v.s.pages, v.s.status), |v.shuffled| - v.index
  {
    if Continues(j, v) {
      hide ServiceStep;
      StepDecreases(j, v);
      StepKeepsPending(j, v);
      ServiceNeverVisitsEmpty(j, ServiceStep(j, v));
    }
  }

  /** Between `s` and `s'` the channel of `y` stays in order, in each of the two respects, and so does the store. */
  ghost predicate Preserves(s: Inbound, s': Inbound, y: ParaId) {
    && (Handshakes(s, y) ==> Handshakes(s', y))
    && (Delivers(s, y) ==> Delivers(s', y))
    && (StashesInOrder(s.over, s.log) ==> StashesInOrder(s'.over, s'.log))
  }

  lemma ProcessStashes(env: Env, s: Inbound, k: nat, grant: nat, maxIndividual: nat)
    requires EnvOk(env) && k < |s.status| && s.status[k].meta != [] && StashesInOrder(s.over, s.log)
    ensures var s' := ProcessPage(env, s, k, grant, maxIndividual).s; StashesInOrder(s'.over, s'.log)
  {
    hide ParseXcm;
    hide StashesInOrder;
    var d := s.status[k];
    var m := d.meta[0];
    var p0 := Parse(Page(Inner(s.pages, d.sender), m.sentAt), 0, s.tick, s.over, s.log);
    ParseStashesInOrder(env, d.sender, m.sentAt, p0, grant, maxIndividual);
    if !m.format.ConcatenatedVersionedXcm? { NoStash(s.over, s.log, Record(d.sender, p0.rest, Refused(Invalid))); }
  }

  lemma NoStash(over: Overweight, log: seq<Record>, r: Record)
    requires StashesInOrder(over, log) && !r.verdict.Stashed?
    ensures StashesInOrder(over, log + [r])
  {
    StashLogSnoc(log, r);
    assert StashLog(log) + [] == StashLog(log);
  }

  lemma ServePreserves(env: Env, cfg: Config, s: Inbound, k: nat, grant: nat, y: ParaId)
    requires EnvOk(env) && k < |s.status|
    ensures Preserves(s, ServeChannel(env, cfg, s, k, grant).s, y)
  {
    hide Handshakes;
    hide Delivers;
    hide StashesInOrder;
    if Handshakes(s, y) { ServeHandshakes(env, cfg, s, k, grant, y); }
    if Delivers(s, y) { ServeDelivers(env, cfg, s, k, grant, y); }
    hide ProcessPage;
    if s.status[k].meta != [] && StashesInOrder(s.over, s.log) { ProcessStashes(env, s, k, grant, cfg.maxIndividual); }
  }

  /** A turn passes a channel over or serves it once. */
  lemma StepServes(j: Job, v: Service)
    requires ServiceOk(j, v) && v.index < |v.shuffled|
    ensures var s' := ServiceStep(j, v).s;
            s' == v.s || s' == ServeChannel(j.env, j.cfg, v.s, v.shuffled[v.index], Unlock(j, v) - v.used).s
  {
    hide ServeChannel;
  }

  lemma StepPreserves(j: Job, v: Service, y: ParaId)
    requires ServiceOk(j, v) && v.index < |v.shuffled|
    ensures Preserves(v.s, ServiceStep(j, v).s, y)
  {
    hide Handshakes;
    hide Delivers;
    hide StashesInOrder;
    hide ServeChannel;
    hide ServiceStep;
    StepServes(j, v);
    ServePreserves(j.env, j.cfg, v.s, v.shuffled[v.index], Unlock(j, v) - v.used, y);
  }

  lemma {:induction false} ServicePreserves(j: Job, v: Service, y: ParaId)
    requires ServiceOk(j, v)
    ensures Preserves(v.s, ServiceRun(j, v).s, y)
    decreases Work(v.s.pages, v.s.status), |v.shuffled| - v.index
  {
    hide Handshakes;
    hide Delivers;
    hide StashesInOrder;
    if Continues(j, v) {
      hide ServiceStep;
      StepDecreases(j, v);
      StepPreserves(j, v, y);
      ServicePreserves(j, ServiceStep(j, v), y);
    }
  }

  function Senders(st: seq<InDetails>): (r: seq<ParaId>)
    ensures |r| == |st| && forall i :: 0 <= i < |r| ==> r[i] == st[i].sender
  {
    seq(|st|, i requires 0 <= i < |st| => st[i].sender)
  }

  lemma StepKeepsSenders(j: Job, v: Service)
    requires ServiceOk(j, v) && v.index < |v.shuffled|
    ensures Senders(ServiceStep(j, v).s.status) == Senders(v.s.status)
  {
    hide ServeChannel;
    hide ServiceStep;
    StepServes(j, v);
    ServeShape(j.env, j.cfg, v.s, v.shuffled[v.index], Unlock(j, v) - v.used);
  }

  /** Serving never reorders or adds senders. */
  lemma {:induction false} ServiceKeepsSenders(j: Job, v: Service)
    requires ServiceOk(j, v)
    ensures Senders(ServiceRun(j, v).s.status) == Senders(v.s.status)
    decreases Work(v.s.pages, v.s.status), |v.shuffled| - v.index
  {
    if Continues(j, v) {
      hide ServiceStep;
      StepDecreases(j, v);
      StepKeepsSenders(j, v);
      ServiceKeepsSenders(j, ServiceStep(j, v));
    }
  }

  lemma SameSendersSorted(a: seq<InDetails>, b: seq<InDetails>)
    requires Senders(a) == Senders(b) && SortedSenders(a)
    ensures SortedSenders(b)
  {
    assert |a| == |Senders(a)| == |b|;
    forall i | 0 <= i < |b| ensures b[i].sender == a[i].sender {
      assert Senders(a)[i] == Senders(b)[i];
    }
  }

  // ------------------------------------------------------------------ between operations

  ghost predicate AllHavePages(st: seq<InDetails>) { forall d :: d in st ==> d.meta != [] }

  lemma {:induction false} FilterSortedSenders(st: seq<InDetails>)
    requires SortedSenders(st)
    ensures SortedSenders(Filter(st, HasPages()))
  {
    if st != [] {
      assert SortedSenders(st[1..]);
      FilterSortedSenders(st[1..]);
      var f := Filter(st[1..], HasPages());
      forall i | 0 <= i < |f| ensures st[0].sender < f[i].sender {
        assert f[i] in f;
        FilterMember(st[1..], HasPages(), f[i]);
      }
    }
  }

  /**
   An entry is forgotten only when it has no pages: nobody can tell it is gone, except that an entry that
   was suspended without pages would be Ok again.
   */
  lemma ForgettingIsInvisible(st: seq<InDetails>, y: ParaId)
    requires Single(st, y)
    ensures var f := Filter(st, HasPages()); var d, d' := Entry(st, y), Entry(f, y);
            Single(f, y) && d'.meta == d.meta && ((d.meta == [] ==> d.state.Ok?) ==> d' == d)
  {
    var f := Filter(st, HasPages());
    MineIs(st, y);
    MineIs(f, y);
    FiltersCommute(st, HasPages(), IsOf(y));
    var mine := Mine(st, y);
    if mine != [] {
      assert mine == [mine[0]];
      FilterMember(st, IsOf(y), mine[0]);
      FilterOne(mine[0], HasPages());
    }
  }

  lemma ForgetPreserves(s: Inbound, y: ParaId)
    ensures Preserves(s, s.(status := Filter(s.status, HasPages())), y)
  {
    hide Filter;
    hide StashesInOrder;
    hide Decided;
    hide Accepted;
    hide SignalsWith;
    hide Issues;
    if Single(s.status, y) { ForgettingIsInvisible(s.status, y); }
  }

  lemma ForgetLeavesPages(st: seq<InDetails>)
    ensures AllHavePages(Filter(st, HasPages()))
  {
    forall d | d in Filter(st, HasPages()) ensures d.meta != [] { FilterMember(st, HasPages(), d); }
  }

  /** A whole service call keeps every channel in order, for any weight, shuffle and executor, whatever the others are like. */
  lemma ServiceQueuePreserves(j: Job, s: Inbound, draw: nat -> nat, y: ParaId)
    requires EnvOk(j.env)
    ensures Preserves(s, ServiceQueue(j, s, draw).s, y) && AllHavePages(ServiceQueue(j, s, draw).s.status)
  {
    hide Handshakes;
    hide Delivers;
    hide StashesInOrder;
    if s.status != [] {
      hide ServiceRun;
      var v := Service(s, CreateShuffle(|s.status|, draw), 0, 0, 0);
      ShuffleIsPermutation(Upto(|s.status|), 0, draw);
      ServicePreserves(j, v, y);
      ForgetPreserves(ServiceRun(j, v).s, y);
      ForgetLeavesPages(ServiceRun(j, v).s.status);
    }
  }

  /** If every entry has a page when a service call starts, it visits only channels that have pages. */
  lemma ServiceQueueNeverVisitsEmpty(j: Job, s: Inbound, draw: nat -> nat)
    requires EnvOk(j.env) && AllHavePages(s.status)
    ensures var shuffled := CreateShuffle(|s.status|, draw);
            && Permutation(shuffled, |s.status|)
            && ServiceOk(j, Service(s, shuffled, 0, 0, 0))
            && NeverVisitsEmpty(j, Service(s, shuffled, 0, 0, 0))
  {
    var shuffled := CreateShuffle(|s.status|, draw);
    ShuffleIsPermutation(Upto(|s.status|), 0, draw);
    var v := Service(s, shuffled, 0, 0, 0);
    forall i | 0 <= i < |shuffled| ensures s.status[shuffled[i]].meta != [] {
      assert s.status[shuffled[i]] in s.status;
    }
    ServiceNeverVisitsEmpty(j, v);
  }

  // ------------------------------------------------------------------ the empty state

  lemma EmptyInOrder(y: ParaId)
    ensures Handshakes(Empty, y) && Delivers(Empty, y) && StashesInOrder(Empty.over, Empty.log) && AllHavePages(Empty.status)
  {
    hide Flows;
    hide Shakes;
    EmptyFlows(y);
    EmptyShakes(y);
    assert StashLog([]) == [];
  }

  lemma EmptyFlows(y: ParaId)
    ensures Flows(Empty, y)
  {
    assert Pending(Empty, y) == [] && Decided([], y) == [] && Accepted([], y) == [];
  }

  lemma EmptyShakes(y: ParaId)
    ensures Shakes(Empty, y)
  {
    assert Issues([]) == [];
    assert SignalsWith([], y) == [];
  }
}
