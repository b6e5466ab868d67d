/** The collator selection pallet as it runs: storage items as fields, calls and hooks as methods. */
module CollatorPallet {
  import opened Common
  import opened CollatorSelection

  class CollatorSelectionPallet {
    const config: Config
    var candidates: seq<Candidate>
    var lastAuthoredBlock: map<AccountId, nat>
    var invulnerables: seq<AccountId>
    var desiredCandidates: nat
    var candidacyBond: nat
    // The currency and the block number, which belong to other pallets.
    var balances: map<AccountId, Account>
    var now: nat

    ghost function View(): State
      reads this
    {
      State(candidates, lastAuthoredBlock, invulnerables, desiredCandidates, candidacyBond, balances, now)
    }

    constructor (config: Config, invulnerables: seq<AccountId>, bond: nat, desired: nat, balances: map<AccountId, Account>)
      ensures this.config == config && View() == State([], map[], invulnerables, desired, bond, balances, 0)
    {
      this.config, this.invulnerables, this.balances := config, invulnerables, balances;
      candidates, lastAuthoredBlock, now := [], map[], 0;
      desiredCandidates, candidacyBond := desired, bond;
    }

    function Balances(who: AccountId): Account
      reads this
    {
      if who in balances then balances[who] else Account(0, 0)
    }

    method RegisterAsCandidate(who: AccountId) returns (error: Option<Error>)
      modifies this`candidates, this`lastAuthoredBlock, this`balances
      ensures error == RegisterError(config, old(View()), who)
      ensures View() == Register(config, old(View()), who)
      ensures forall others: AccountId -> nat :: old(Backed(View(), others)) ==> Backed(View(), others)
    {
      hide Backed;
      forall others: AccountId -> nat | Backed(View(), others) ensures Backed(Register(config, View(), who), others) {
        RegisterBacked(config, View(), who, others);
      }
      hide IndexOf;
      if |candidates| >= desiredCandidates { return Some(TooManyCandidates); }
      if who in invulnerables { return Some(AlreadyInvulnerable); }
      var validatorKey := config.validatorId(who);
      if validatorKey.None? { return Some(NoAssociatedValidatorId); }
      if !config.registered(validatorKey.value) { return Some(ValidatorNotRegistered); }
      var deposit := candidacyBond;
      if IndexOf(candidates, who) < |candidates| { return Some(AlreadyCandidate); }
      var account := Balances(who);
      if account.free < deposit { return Some(InsufficientBalance); }
      // A full candidate list fails after the reservation, and the failed call leaves no trace.
      if |candidates| >= config.maxCandidates { return Some(TooManyCandidates); }
      balances := balances[who := Account(account.free - deposit, account.reserved + deposit)];
      candidates := candidates + [Candidate(who, deposit)];
      lastAuthoredBlock := lastAuthoredBlock[who := now + config.kickThreshold];
      error := None;
    }

    method TryRemoveCandidate(who: AccountId) returns (removed: bool)
      modifies this`candidates, this`lastAuthoredBlock, this`balances
      ensures removed == (IndexOf(old(candidates), who) < |old(candidates)|)
      ensures View() == TryRemove(old(View()), who)
      ensures forall others: AccountId -> nat :: old(Backed(View(), others)) ==>
                && Backed(View(), others)
                && Balances(who).free == old(Balances(who)).free + DepositOf(old(candidates), who)
                && Balances(who).reserved == others(who)
    {
      hide Backed;
      forall others: AccountId -> nat | Backed(View(), others)
        ensures Backed(TryRemove(View(), who), others)
        ensures AccountOf(TryRemove(View(), who), who) == Account(AccountOf(View(), who).free + DepositOf(candidates, who), others(who))
      {
        RemoveBacked(View(), who, others);
      }
      var index := IndexOf(candidates, who);
      if index == |candidates| { return false; }
      var candidate := candidates[index];
      candidates := candidates[..index] + candidates[index + 1..];
      var account := Balances(who);
      var back := Min(candidate.deposit, account.reserved);
      balances := balances[who := Account(account.free + back, account.reserved - back)];
      lastAuthoredBlock := lastAuthoredBlock - {who};
      removed := true;
    }

    method LeaveIntent(who: AccountId) returns (error: Option<Error>)
      modifies this`candidates, this`lastAuthoredBlock, this`balances
      ensures error == LeaveError(config, old(View()), who)
      ensures View() == Leave(config, old(View()), who)
      ensures error.None? ==> |candidates| >= config.minCandidates
    {
      if |candidates| <= config.minCandidates { return Some(TooFewCandidates); }
      var removed := TryRemoveCandidate(who);
      error := if removed then None else Some(NotCandidate);
    }

    /** Walks the snapshot and removes stale candidates from storage while more than the minimum remain. */
    method KickStaleCandidates(snapshot: seq<Candidate>) returns (active: seq<AccountId>)
      modifies this`candidates, this`lastAuthoredBlock, this`balances
      ensures Kicked(View(), active) == KickStale(config, old(View()), snapshot)
    {
      active := [];
      var i := 0;
      assert snapshot[0..] == snapshot && [] + KickStale(config, View(), snapshot).kept == KickStale(config, View(), snapshot).kept;
      while i < |snapshot|
        invariant 0 <= i <= |snapshot|
        invariant var r := KickStale(config, View(), snapshot[i..]);
                  KickStale(config, old(View()), snapshot) == Kicked(r.s, active + r.kept)
      {
        hide TryRemove;
        ghost var turn := KickStale(config, View(), snapshot[i..]);
        var who := snapshot[i].who;
        assert snapshot[i..][0] == snapshot[i] && snapshot[i..][1..] == snapshot[i + 1..];
        var lastBlock := if who in lastAuthoredBlock then lastAuthoredBlock[who] else 0;
        if SatSub(now, lastBlock) < config.kickThreshold || |candidates| <= config.minCandidates {
          Associative(active, [who], KickStale(config, View(), snapshot[i + 1..]).kept);
          active := active + [who];
        } else {
          var _ := TryRemoveCandidate(who);
        }
        i := i + 1;
      }
      assert active + [] == active;
    }

    method NewSession() returns (collators: seq<AccountId>)
      modifies this`candidates, this`lastAuthoredBlock, this`balances
      ensures (View(), collators) == CollatorSelection.NewSession(config, old(View()))
      ensures old(Distinct(candidates)) ==> collators == invulnerables + Accounts(candidates) && |candidates| >= Min(|old(candidates)|, config.minCandidates)
      ensures forall others: AccountId -> nat :: old(Backed(View(), others)) ==> Backed(View(), others)
    {
      if Distinct(candidates) { NewSessionIsRemaining(config, View(), (a: AccountId) => 0); }
      forall others: AccountId -> nat | Backed(View(), others) ensures Backed(CollatorSelection.NewSession(config, View()).0, others) {
        NewSessionIsRemaining(config, View(), others);
      }
      hide Backed;
      hide CollatorSelection.NewSession;
      var active := KickStaleCandidates(candidates);
      collators := invulnerables + active;
    }

    /** `paid` is the currency's answer to the transfer, which the hook ignores. */
    method NoteAuthor(author: AccountId, paid: bool)
      modifies this`balances, this`lastAuthoredBlock
      ensures View() == CollatorSelection.NoteAuthor(config, old(View()), author, paid)
      ensures old(Balances(config.pot)).free >= config.existentialDeposit ==> Balances(config.pot).free >= config.existentialDeposit
    {
      var pot := Balances(config.pot);
      var reward := SatSub(pot.free, config.existentialDeposit) / 2;
      if paid {
        balances := balances[config.pot := pot.(free := pot.free - reward)];
        var account := Balances(author);
        balances := balances[author := account.(free := account.free + reward)];
      }
      lastAuthoredBlock := lastAuthoredBlock[author := now];
    }
  }
}
