/**
 The runtime upgrade protocol: new code is announced to the relay chain in the block that schedules
 it, stays pending, and becomes the chain's code only when the relay chain gives the go-ahead.
 */
module CodeUpgrade {
  import opened Common

  datatype GoAhead = Proceed | Abort

  /**
   Storage: the running code, the code waiting for the go-ahead, the code announced by the current
   block, whether it was set since the last `on_finalize`, the relay's restriction, the code size
   limit, and whether the inherent's data is present.
   */
  datatype Upgrade = Upgrade(code: Bytes, pending: Option<Bytes>, announced: Option<Bytes>, didSet: bool,
                             restricted: bool, maxCodeSize: Option<nat>, hasData: bool)

  datatype Error = ValidationDataNotAvailable | ProhibitedByPolkadot | OverlappingUpgrades
                 | HostConfigurationNotAvailable | TooBig

  function ScheduleError(u: Upgrade, code: Bytes): Option<Error> {
    if !u.hasData then Some(ValidationDataNotAvailable)
    else if u.restricted then Some(ProhibitedByPolkadot)
    else if u.pending.Some? then Some(OverlappingUpgrades)
    else if u.maxCodeSize.None? then Some(HostConfigurationNotAvailable)
    else if |code| > u.maxCodeSize.value then Some(TooBig)
    else None
  }

  function Schedule(u: Upgrade, code: Bytes): Upgrade {
    if ScheduleError(u, code).Some? then u
    else u.(pending := Some(code), announced := Some(code), didSet := true)
  }

  /** Exactly when a code can be scheduled, and the first of the reasons when it cannot. */
  lemma ScheduledIff(u: Upgrade, code: Bytes)
    ensures ScheduleError(u, code).None? <==>
            u.hasData && !u.restricted && u.pending.None? && u.maxCodeSize.Some? && |code| <= u.maxCodeSize.value
    ensures ScheduleError(u, code) == Some(ValidationDataNotAvailable) <==> !u.hasData
    ensures ScheduleError(u, code) == Some(ProhibitedByPolkadot) <==> u.hasData && u.restricted
    ensures ScheduleError(u, code) == Some(OverlappingUpgrades) <==> u.hasData && !u.restricted && u.pending.Some?
    ensures ScheduleError(u, code) == Some(HostConfigurationNotAvailable) <==> u.hasData && !u.restricted && u.pending.None? && u.maxCodeSize.None?
  {
  }

  function OnInitialize(u: Upgrade): Upgrade {
    u.(announced := if u.didSet then u.announced else None, hasData := false)
  }

  /** The inherent: None is a panic, raised by a go-ahead without pending code or by a second inherent. */
  function SetValidationData(u: Upgrade, signal: Option<GoAhead>, restricted: bool, maxCodeSize: nat): Option<Upgrade> {
    if u.hasData then None
    else
      var u' := u.(restricted := restricted, maxCodeSize := Some(maxCodeSize), hasData := true);
      match signal
      case None => Some(u')
      case Some(Abort) => Some(u'.(pending := None))
      case Some(Proceed) => if u.pending.None? then None else Some(u'.(code := u.pending.value, pending := None))
  }

  /** The inherent panics if and only if it is the second of the block or gives a go-ahead to no code. */
  lemma InherentIff(u: Upgrade, signal: Option<GoAhead>, restricted: bool, maxCodeSize: nat)
    ensures SetValidationData(u, signal, restricted, maxCodeSize).Some? <==> !u.hasData && (signal == Some(Proceed) ==> u.pending.Some?)
    ensures var r := SetValidationData(u, signal, restricted, maxCodeSize);
            r.Some? ==>
              && (forall again: Option<GoAhead>, m: nat :: SetValidationData(r.value, again, restricted, m).None?)
              && (r.value.pending.Some? <==> signal.None? && u.pending.Some?)
              && r.value.restricted == restricted && r.value.maxCodeSize == Some(maxCodeSize)
              && r.value.announced == u.announced && r.value.didSet == u.didSet
  {
  }

  function OnFinalize(u: Upgrade): Upgrade { u.(didSet := false, restricted := false) }

  // ------------------------------------------------------------------ blocks

  /**
   One block: codes scheduled by an earlier pallet's `on_initialize`, the inherent, then codes
   scheduled by transactions, and codes scheduled after this pallet's `on_finalize` by a later pallet's.
   */
  datatype Block = Block(early: seq<Bytes>, signal: Option<GoAhead>, restricted: bool, maxCodeSize: nat,
                         late: seq<Bytes>, after: seq<Bytes>)

  /** The storage together with the codes successfully scheduled and the upgrades resolved so far. */
  datatype Chain = Chain(u: Upgrade, scheduled: seq<Bytes>, resolved: nat)

  function ScheduleAll(c: Chain, codes: seq<Bytes>): Chain
    decreases |codes|
  {
    if codes == [] then c
    else
      ScheduleAll(c.(u := Schedule(c.u, codes[0]),
                     scheduled := if ScheduleError(c.u, codes[0]).None? then c.scheduled + [codes[0]] else c.scheduled),
                  codes[1..])
  }

  function Inherent(c: Chain, b: Block): Option<Chain> {
    var r := SetValidationData(c.u, b.signal, b.restricted, b.maxCodeSize);
    if r.None? then None
    else Some(c.(u := r.value, resolved := if b.signal.Some? && c.u.pending.Some? then c.resolved + 1 else c.resolved))
  }

  /** The chain when the transactions of a block start; None if the block panics. */
  function Begun(c: Chain, b: Block): Option<Chain> {
    var c1 := ScheduleAll(c, b.early);
    Inherent(c1.(u := OnInitialize(c1.u)), b)
  }

  predicate Accepted(c: Chain, b: Block) { Begun(c, b).Some? }

  /** The chain right after this pallet's `on_finalize`. */
  function Finalized(c: Chain, b: Block): Chain
    requires Accepted(c, b)
  {
    var c' := ScheduleAll(Begun(c, b).value, b.late);
    c'.(u := OnFinalize(c'.u))
  }

  /** A block that panics is rejected and leaves the chain as it was. */
  function Execute(c: Chain, b: Block): Chain {
    if Accepted(c, b) then ScheduleAll(Finalized(c, b), b.after) else c
  }

  function Run(c: Chain, blocks: seq<Block>): Chain
    decreases |blocks|
  {
    if blocks == [] then c else Run(Execute(c, blocks[0]), blocks[1..])
  }

  // ------------------------------------------------------------------ one upgrade at a time

  /** Of the scheduled upgrades all but at most the last are resolved; the pending code is that last one. */
  ghost predicate OneOutstanding(c: Chain) {
    if c.u.pending.Some? then |c.scheduled| == c.resolved + 1 && c.u.pending.value == c.scheduled[c.resolved]
    else |c.scheduled| == c.resolved
  }

  lemma {:induction false} ScheduleAllOutstanding(c: Chain, codes: seq<Bytes>)
    requires OneOutstanding(c)
    ensures OneOutstanding(ScheduleAll(c, codes))
    ensures ScheduleAll(c, codes).u.code == c.u.code && ScheduleAll(c, codes).u.hasData == c.u.hasData
    ensures c.scheduled <= ScheduleAll(c, codes).scheduled
    decreases |codes|
  {
    if codes != [] {
      var c' := c.(u := Schedule(c.u, codes[0]),
                   scheduled := if ScheduleError(c.u, codes[0]).None? then c.scheduled + [codes[0]] else c.scheduled);
      ScheduleAllOutstanding(c', codes[1..]);
    }
  }

  /** Scheduling announces the last code that was actually scheduled, if any was. */
  lemma {:induction false} ScheduleAllAnnounces(c: Chain, codes: seq<Bytes>)
    ensures var c' := ScheduleAll(c, codes);
            && c.scheduled <= c'.scheduled
            && (if c'.scheduled == c.scheduled then c'.u.announced == c.u.announced && c'.u.didSet == c.u.didSet
                else c'.u.announced == Some(c'.scheduled[|c'.scheduled| - 1]) && c'.u.didSet)
    decreases |codes|
  {
    if codes != [] {
      var c1 := c.(u := Schedule(c.u, codes[0]),
                   scheduled := if ScheduleError(c.u, codes[0]).None? then c.scheduled + [codes[0]] else c.scheduled);
      ScheduleAllAnnounces(c1, codes[1..]);
    }
  }

  /** A code that was set after the last `on_finalize` is the last one scheduled and still announced. */
  ghost predicate SetIsAnnounced(c: Chain) {
    c.u.didSet ==> c.scheduled != [] && c.u.announced == Some(c.scheduled[|c.scheduled| - 1])
  }

  /** At every block boundary: one upgrade outstanding at most, and no restriction stored. */
  ghost predicate Settled(c: Chain) { OneOutstanding(c) && SetIsAnnounced(c) && !c.u.restricted }

  lemma {:induction false} ScheduleAllElse(c: Chain, codes: seq<Bytes>)
    ensures var c' := ScheduleAll(c, codes);
            && c'.resolved == c.resolved && c'.u.restricted == c.u.restricted
            && c'.u.hasData == c.u.hasData && c'.u.maxCodeSize == c.u.maxCodeSize
    decreases |codes|
  {
    if codes != [] {
      ScheduleAllElse(c.(u := Schedule(c.u, codes[0]),
                         scheduled := if ScheduleError(c.u, codes[0]).None? then c.scheduled + [codes[0]] else c.scheduled), codes[1..]);
    }
  }

  lemma ExecuteSettles(c: Chain, b: Block)
    requires Settled(c)
    ensures Settled(Execute(c, b))
  {
    hide ScheduleAll;
    if Accepted(c, b) {
      var c2, c3 := Begun(c, b).value, Finalized(c, b);
      ScheduleAllOutstanding(c, b.early);
      ScheduleAllOutstanding(c2, b.late);
      ScheduleAllOutstanding(c3, b.after);
      ScheduleAllAnnounces(c3, b.after);
      ScheduleAllElse(c3, b.after);
    }
  }

  /** A block is rejected if and only if it brings a go-ahead while no code is pending. */
  lemma AcceptedIff(c: Chain, b: Block)
    ensures Accepted(c, b) <==> !(b.signal == Some(Proceed) && ScheduleAll(c, b.early).u.pending.None?)
    ensures !Accepted(c, b) ==> Execute(c, b) == c
  {
    hide ScheduleAll;
  }

  /** Over all runs there is at most one outstanding upgrade. */
  lemma {:induction false} RunSettles(c: Chain, blocks: seq<Block>)
    requires Settled(c)
    ensures Settled(Run(c, blocks))
    decreases |blocks|
  {
    if blocks != [] {
      hide Settled;
      hide Execute;
      ExecuteSettles(c, blocks[0]);
      RunSettles(Execute(c, blocks[0]), blocks[1..]);
    }
  }

  /**
   The running code changes only in an accepted block with the go-ahead, and then to the code of the
   one outstanding upgrade, which the block resolves.
   */
  lemma CodeChangesOnlyOnGoAhead(c: Chain, b: Block)
    requires Settled(c)
    ensures var c' := Execute(c, b); var c1 := ScheduleAll(c, b.early);
            if Accepted(c, b) && b.signal == Some(Proceed)
            then |c1.scheduled| == c1.resolved + 1 && c'.u.code == c1.scheduled[c1.resolved] && c'.resolved == c.resolved + 1
            else c'.u.code == c.u.code
  {
    hide ScheduleAll;
    ScheduleAllOutstanding(c, b.early);
    ScheduleAllElse(c, b.early);
    if Accepted(c, b) {
      var c2, c3 := Begun(c, b).value, Finalized(c, b);
      ScheduleAllOutstanding(c2, b.late);
      ScheduleAllElse(c2, b.late);
      ScheduleAllOutstanding(c3, b.after);
      ScheduleAllElse(c3, b.after);
    }
  }

  // ------------------------------------------------------------------ which blocks announce a code

  /**
   An accepted block announces a code if and only if one was scheduled in it or after the `on_finalize`
   of the block before, and then it is the last code ever scheduled.
   */
  lemma AnnouncedIff(c: Chain, b: Block)
    requires SetIsAnnounced(c) && Accepted(c, b)
    ensures var c' := Execute(c, b);
            && c.scheduled <= c'.scheduled
            && (c'.u.announced.Some? <==> |c'.scheduled| > |c.scheduled| || c.u.didSet)
            && (c'.u.announced.Some? ==> c'.u.announced.value == c'.scheduled[|c'.scheduled| - 1])
  {
    hide ScheduleAll;
    ScheduleAllAnnounces(c, b.early);
    ScheduleAllAnnounces(Begun(c, b).value, b.late);
    ScheduleAllAnnounces(Finalized(c, b), b.after);
  }

  /** Something was scheduled after the `on_finalize` of this block. */
  predicate SchedulesAfter(c: Chain, b: Block)
    requires Accepted(c, b)
  {
    Execute(c, b).scheduled != Finalized(c, b).scheduled
  }

  /**
   Of two accepted blocks in a row of which the second schedules nothing, the second announces a code if
   and only if the first scheduled one after its `on_finalize`; both then announce the same code.
   */
  lemma AnnouncedAgainIff(c: Chain, b: Block, next: Block)
    requires Settled(c) && Accepted(c, b) && Accepted(Execute(c, b), next)
    requires Execute(Execute(c, b), next).scheduled == Execute(c, b).scheduled
    ensures var c1 := Execute(c, b); var c2 := Execute(c1, next);
            && (c2.u.announced.Some? <==> SchedulesAfter(c, b))
            && (c2.u.announced.Some? ==> c2.u.announced == c1.u.announced)
  {
    hide ScheduleAll;
    ScheduleAllAnnounces(Finalized(c, b), b.after);
    ExecuteSettles(c, b);
    AnnouncedIff(Execute(c, b), next);
  }

  /** Code scheduled after this pallet's `on_finalize` is announced a second time by the next block. */
  lemma LateScheduleIsAnnouncedAgain(c: Chain, code: Bytes, b: Block)
    requires Settled(c) && ScheduleError(c.u, code).None? && b.early == [] && b.late == [] && b.after == [] && b.signal.None?
    ensures var c1 := ScheduleAll(c, [code]);
            && c1.u.announced == Some(code)
            && Accepted(c1, b) && Execute(c1, b).scheduled == c1.scheduled && Execute(c1, b).u.announced == Some(code)
  {
    assert [code][1..] == [];
    var c1 := ScheduleAll(c, [code]);
    assert c1 == ScheduleAll(c.(u := Schedule(c.u, code), scheduled := c.scheduled + [code]), []);
  }

  // ------------------------------------------------------------------ when the relay's restriction counts

  /**
   While the transactions of an accepted block run, a code can be scheduled if and only if the relay
   does not restrict upgrades in this block, none is pending and the code is small enough.
   */
  lemma TransactionSchedulesIff(c: Chain, b: Block, done: nat, code: Bytes)
    requires Accepted(c, b) && done <= |b.late|
    ensures var now := ScheduleAll(Begun(c, b).value, b.late[..done]);
            && (ScheduleError(now.u, code).None? <==> !b.restricted && now.u.pending.None? && |code| <= b.maxCodeSize)
            && (ScheduleError(now.u, code) == Some(ProhibitedByPolkadot) <==> b.restricted)
  {
    hide ScheduleAll;
    ScheduleAllElse(Begun(c, b).value, b.late[..done]);
  }

  /**
   Once `on_finalize` has run, and until the next `on_initialize`, the restriction is not looked at any
   more: a code can be scheduled if and only if none is pending and it is small enough, even if the relay
   restricts upgrades in this block and in the next.
   */
  lemma RestrictionForgottenAfterFinalize(c: Chain, b: Block, code: Bytes)
    requires Accepted(c, b)
    ensures var c' := Execute(c, b);
            ScheduleError(c'.u, code).None? <==> c'.u.pending.None? && |code| <= b.maxCodeSize
  {
    hide ScheduleAll;
    ScheduleAllElse(Begun(c, b).value, b.late);
    ScheduleAllElse(Finalized(c, b), b.after);
  }

  /** A restricted block all of whose codes are refused, followed by an early code that is not. */
  lemma EarlyScheduleIgnoresRestriction(c: Chain, b: Block, next: Block)
    requires Settled(c) && c.u.pending.None?
    requires b.restricted && b.early == [] && b.after == [] && b.signal.None?
    requires next.restricted && |next.early| == 1 && |next.early[0]| <= b.maxCodeSize && next.signal.None?
    ensures Accepted(c, b) && Execute(c, b).scheduled == c.scheduled
    ensures Accepted(Execute(c, b), next) && Execute(Execute(c, b), next).scheduled == c.scheduled + next.early
  {
    hide ScheduleAll;
    ScheduleNone(c);
    var c2, c' := Begun(c, b).value, Execute(c, b);
    RestrictedSchedulesNothing(c2, b.late);
    ScheduleNone(Finalized(c, b));
    ScheduleOne(c', next.early[0]);
    assert next.early == [next.early[0]];
    var d2 := Begun(c', next).value;
    RestrictedSchedulesNothing(d2, next.late);
    var d3 := Finalized(c', next);
    PendingSchedulesNothing(d3, next.after);
  }

  lemma ScheduleNone(c: Chain)
    ensures ScheduleAll(c, []) == c
  {
  }

  lemma ScheduleOne(c: Chain, code: Bytes)
    requires ScheduleError(c.u, code).None?
    ensures ScheduleAll(c, [code]) == c.(u := Schedule(c.u, code), scheduled := c.scheduled + [code])
  {
    assert [code][1..] == [];
  }

  /** Under a restriction nothing is scheduled, whatever is tried. */
  lemma {:induction false} RestrictedSchedulesNothing(c: Chain, codes: seq<Bytes>)
    requires c.u.restricted
    ensures ScheduleAll(c, codes) == c
    decreases |codes|
  {
    if codes != [] { RestrictedSchedulesNothing(c, codes[1..]); }
  }

  /** While an upgrade is pending nothing is scheduled, whatever is tried. */
  lemma {:induction false} PendingSchedulesNothing(c: Chain, codes: seq<Bytes>)
    requires c.u.pending.Some?
    ensures ScheduleAll(c, codes) == c
    decreases |codes|
  {
    if codes != [] { PendingSchedulesNothing(c, codes[1..]); }
  }
}
