/**
 Collator selection: candidates reserve a bond to join, get exactly that bond back when they leave or
 are kicked, and the session manager kicks candidates that stopped authoring, but never too many.
 */
module CollatorSelection {
  import opened Common

  type AccountId = nat

  datatype Candidate = Candidate(who: AccountId, deposit: nat)

  datatype Account = Account(free: nat, reserved: nat)

  /** Storage, the balances of all accounts, and the block number. */
  datatype State = State(candidates: seq<Candidate>, lastAuthored: map<AccountId, nat>, invulnerables: seq<AccountId>,
                         desired: nat, bond: nat, balances: map<AccountId, Account>, now: nat)

  /** Constants of the runtime; accounts may have a validator id, and validator ids may have session keys. */
  datatype Config = Config(minCandidates: nat, maxCandidates: nat, kickThreshold: nat, existentialDeposit: nat,
                           pot: AccountId, validatorId: AccountId -> Option<nat>, registered: nat -> bool)

  datatype Error = TooManyCandidates | TooFewCandidates | AlreadyInvulnerable | NoAssociatedValidatorId | ValidatorNotRegistered
                 | AlreadyCandidate | NotCandidate | InsufficientBalance

  function AccountOf(s: State, a: AccountId): Account { if a in s.balances then s.balances[a] else Account(0, 0) }

  function LastBlock(s: State, a: AccountId): nat { if a in s.lastAuthored then s.lastAuthored[a] else 0 }

  function IndexOf(cs: seq<Candidate>, who: AccountId): (k: nat)
    ensures k <= |cs|
    ensures forall i :: 0 <= i < k ==> cs[i].who != who
    ensures k < |cs| ==> cs[k].who == who
  {
    if cs == [] || cs[0].who == who then 0 else 1 + IndexOf(cs[1..], who)
  }

  function Reserve(s: State, who: AccountId, amount: nat): State
    requires AccountOf(s, who).free >= amount
  {
    var a := AccountOf(s, who);
    s.(balances := s.balances[who := Account(a.free - amount, a.reserved + amount)])
  }

  /** Moves reserved balance back, as far as there is any. */
  function Unreserve(s: State, who: AccountId, amount: nat): State {
    var a := AccountOf(s, who);
    var m := Min(amount, a.reserved);
    s.(balances := s.balances[who := Account(a.free + m, a.reserved - m)])
  }

  function RegisterError(cfg: Config, s: State, who: AccountId): Option<Error> {
    if |s.candidates| >= s.desired then Some(TooManyCandidates)
    else if who in s.invulnerables then Some(AlreadyInvulnerable)
    else if cfg.validatorId(who).None? then Some(NoAssociatedValidatorId)
    else if !cfg.registered(cfg.validatorId(who).value) then Some(ValidatorNotRegistered)
    else if IndexOf(s.candidates, who) < |s.candidates| then Some(AlreadyCandidate)
    else if AccountOf(s, who).free < s.bond then Some(InsufficientBalance)
    else if |s.candidates| >= cfg.maxCandidates then Some(TooManyCandidates)
    else None
  }

  function Register(cfg: Config, s: State, who: AccountId): State {
    if RegisterError(cfg, s, who).Some? then s
    else
      Reserve(s, who, s.bond).(candidates := s.candidates + [Candidate(who, s.bond)],
                               lastAuthored := s.lastAuthored[who := s.now + cfg.kickThreshold])
  }

  function TryRemove(s: State, who: AccountId): State {
    var k := IndexOf(s.candidates, who);
    if k == |s.candidates| then s
    else
      Unreserve(s, who, s.candidates[k].deposit).(candidates := s.candidates[..k] + s.candidates[k + 1..],
                                                  lastAuthored := s.lastAuthored - {who})
  }

  function LeaveError(cfg: Config, s: State, who: AccountId): Option<Error> {
    if |s.candidates| <= cfg.minCandidates then Some(TooFewCandidates)
    else if IndexOf(s.candidates, who) == |s.candidates| then Some(NotCandidate)
    else None
  }

  function Leave(cfg: Config, s: State, who: AccountId): State {
    if LeaveError(cfg, s, who).Some? then s else TryRemove(s, who)
  }

  predicate IsStale(cfg: Config, s: State, who: AccountId) { SatSub(s.now, LastBlock(s, who)) >= cfg.kickThreshold }

  datatype Kicked = Kicked(s: State, kept: seq<AccountId>)

  /** Goes through a snapshot of the candidates, removing stale ones from storage as long as enough remain. */
  function KickStale(cfg: Config, s: State, snapshot: seq<Candidate>): Kicked
    decreases |snapshot|
  {
    if snapshot == [] then Kicked(s, [])
    else
      var who := snapshot[0].who;
      if !IsStale(cfg, s, who) || |s.candidates| <= cfg.minCandidates then
        var r := KickStale(cfg, s, snapshot[1..]);
        Kicked(r.s, [who] + r.kept)
      else KickStale(cfg, TryRemove(s, who), snapshot[1..])
  }

  /** Half of the pot above the existential deposit goes to the author. */
  function Reward(cfg: Config, s: State): nat { SatSub(AccountOf(s, cfg.pot).free, cfg.existentialDeposit) / 2 }

  /** Moves free balance; a transfer to oneself changes nothing. */
  function Transfer(s: State, from: AccountId, to: AccountId, amount: nat): State
    requires amount <= AccountOf(s, from).free
  {
    var f := AccountOf(s, from);
    var s1 := s.(balances := s.balances[from := f.(free := f.free - amount)]);
    var t := AccountOf(s1, to);
    s1.(balances := s1.balances[to := t.(free := t.free + amount)])
  }

  /** The author is rewarded if the currency lets the transfer through (`paid`); the block counts in any case. */
  function NoteAuthor(cfg: Config, s: State, author: AccountId, paid: bool): State {
    (if paid then Transfer(s, cfg.pot, author, Reward(cfg, s)) else s).(lastAuthored := s.lastAuthored[author := s.now])
  }

  // ------------------------------------------------------------------ invariants

  ghost predicate Distinct(cs: seq<Candidate>) { forall i, j :: 0 <= i < j < |cs| ==> cs[i].who != cs[j].who }

  function DepositOf(cs: seq<Candidate>, who: AccountId): nat {
    var k := IndexOf(cs, who);
    if k < |cs| then cs[k].deposit else 0
  }

  function TotalDeposits(cs: seq<Candidate>): nat { if cs == [] then 0 else cs[0].deposit + TotalDeposits(cs[1..]) }

  /**
   Every account has reserved exactly the deposit it made when it registered, if it did, on top of what
   other pallets hold reserved of it.
   */
  ghost predicate Backed(s: State, others: AccountId -> nat) {
    Distinct(s.candidates) && forall a: AccountId :: AccountOf(s, a).reserved == others(a) + DepositOf(s.candidates, a)
  }

  lemma IndexIs(cs: seq<Candidate>, k: nat)
    requires Distinct(cs) && k < |cs|
    ensures IndexOf(cs, cs[k].who) == k
  {
  }

  lemma RegisterBacked(cfg: Config, s: State, who: AccountId, others: AccountId -> nat)
    requires Backed(s, others)
    ensures Backed(Register(cfg, s, who), others)
    ensures RegisterError(cfg, s, who).None? ==>
              AccountOf(Register(cfg, s, who), who).free == AccountOf(s, who).free - s.bond && DepositOf(Register(cfg, s, who).candidates, who) == s.bond
  {
    if RegisterError(cfg, s, who).None? {
      var s' := Register(cfg, s, who);
      var cs, cs' := s.candidates, s'.candidates;
      assert Distinct(cs');
      forall a: AccountId ensures DepositOf(cs', a) == if a == who then s.bond else DepositOf(cs, a) {
        if IndexOf(cs, a) < |cs| {
          assert cs'[IndexOf(cs, a)].who == a;
          IndexIs(cs', IndexOf(cs, a));
        } else if a == who {
          IndexIs(cs', |cs|);
        }
      }
    }
  }

  /** An exit refunds exactly what was reserved at registration, whatever the bond is by now. */
  lemma RemoveBacked(s: State, who: AccountId, others: AccountId -> nat)
    requires Backed(s, others)
    ensures Backed(TryRemove(s, who), others)
    ensures AccountOf(TryRemove(s, who), who).free == AccountOf(s, who).free + DepositOf(s.candidates, who)
    ensures AccountOf(TryRemove(s, who), who).reserved == others(who)
    ensures forall a: AccountId :: a != who ==> AccountOf(TryRemove(s, who), a) == AccountOf(s, a)
  {
    hide IndexOf;
    var cs := s.candidates;
    assert AccountOf(s, who).reserved == others(who) + DepositOf(cs, who);
    if IndexOf(cs, who) < |cs| {
      RemoveDeposits(cs, IndexOf(cs, who));
      hide Distinct;
    }
  }

  lemma RemoveDeposits(cs: seq<Candidate>, k: nat)
    requires Distinct(cs) && k < |cs|
    ensures var cs' := cs[..k] + cs[k + 1..];
            Distinct(cs') && forall a: AccountId :: DepositOf(cs', a) == if a == cs[k].who then 0 else DepositOf(cs, a)
  {
    var cs' := cs[..k] + cs[k + 1..];
    forall i | 0 <= i < |cs'| ensures cs'[i] == cs[if i < k then i else i + 1] {}
    assert Distinct(cs');
    forall a: AccountId ensures DepositOf(cs', a) == if a == cs[k].who then 0 else DepositOf(cs, a) {
      var i := IndexOf(cs, a);
      if i < |cs| && i != k {
        var n := if i < k then i else i - 1;
        assert cs'[n] == cs[i];
        IndexIs(cs', n);
      } else {
        assert IndexOf(cs', a) == |cs'|;
      }
    }
  }

  // ------------------------------------------------------------------ kicking

  function Accounts(cs: seq<Candidate>): (r: seq<AccountId>)
    ensures |r| == |cs| && forall i :: 0 <= i < |r| ==> r[i] == cs[i].who
  {
    seq(|cs|, i requires 0 <= i < |cs| => cs[i].who)
  }

  lemma RemoveAt(cs: seq<Candidate>, kept: seq<Candidate>, c: Candidate, todo: seq<Candidate>)
    requires cs == kept + [c] + todo && Distinct(cs)
    ensures IndexOf(cs, c.who) == |kept|
    ensures cs[..|kept|] + cs[|kept| + 1..] == kept + todo
    ensures Distinct(kept + todo)
  {
    assert cs[|kept|] == c;
    IndexIs(cs, |kept|);
    forall i | 0 <= i < |kept + todo| ensures (kept + todo)[i] == cs[if i < |kept| then i else i + 1] {}
  }

  lemma RemoveShrinks(s: State, kept: seq<Candidate>, c: Candidate, todo: seq<Candidate>)
    requires s.candidates == kept + [c] + todo && Distinct(s.candidates)
    ensures TryRemove(s, c.who).candidates == kept + todo && Distinct(kept + todo)
  {
    RemoveAt(s.candidates, kept, c, todo);
  }

  /**
   Kicking while walking a snapshot agrees with storage: if storage is what was kept so far followed by
   what is still to visit, the accounts returned are the candidates that remain, in order; kicking stops
   at the minimum; and deposits stay backed, whatever other pallets hold reserved.
   */
  lemma {:induction false} KickAgreesWithStorage(cfg: Config, s: State, kept: seq<Candidate>, todo: seq<Candidate>, others: AccountId -> nat)
    requires Distinct(s.candidates) && s.candidates == kept + todo
    ensures var r := KickStale(cfg, s, todo);
            && Distinct(r.s.candidates)
            && Accounts(r.s.candidates) == Accounts(kept) + r.kept
            && |r.s.candidates| >= Min(|s.candidates|, cfg.minCandidates)
            && (Backed(s, others) ==> Backed(r.s, others))
    decreases |todo|
  {
    hide Backed;
    hide Distinct;
    hide TryRemove;
    if todo == [] {
      assert s.candidates == kept;
    } else {
      var c, rest := todo[0], todo[1..];
      assert s.candidates == kept + [c] + rest;
      if !IsStale(cfg, s, c.who) || |s.candidates| <= cfg.minCandidates {
        KickAgreesWithStorage(cfg, s, kept + [c], rest, others);
        assert Accounts(kept + [c]) == Accounts(kept) + [c.who];
        Associative(Accounts(kept), [c.who], KickStale(cfg, s, rest).kept);
      } else {
        if Backed(s, others) { RemoveBacked(s, c.who, others); }
        RemoveShrinks(s, kept, c, rest);
        KickAgreesWithStorage(cfg, TryRemove(s, c.who), kept, rest, others);
      }
    }
  }

  /** The collators of the next session: the invulnerables, then the candidates that remain. */
  function NewSession(cfg: Config, s: State): (State, seq<AccountId>) {
    var r := KickStale(cfg, s, s.candidates);
    (r.s, s.invulnerables + r.kept)
  }

  lemma NewSessionIsRemaining(cfg: Config, s: State, others: AccountId -> nat)
    requires Distinct(s.candidates)
    ensures var (s', collators) := NewSession(cfg, s);
            && Distinct(s'.candidates)
            && collators == s.invulnerables + Accounts(s'.candidates)
            && |s'.candidates| >= Min(|s.candidates|, cfg.minCandidates)
            && (Backed(s, others) ==> Backed(s', others))
  {
    hide KickStale;
    hide Backed;
    hide Distinct;
    assert s.candidates == [] + s.candidates;
    KickAgreesWithStorage(cfg, s, [], s.candidates, others);
    var kept := KickStale(cfg, s, s.candidates).kept;
    assert Accounts([]) + kept == kept;
  }

  // ------------------------------------------------------------------ who is kicked

  predicate Stale(cfg: Config, s: State, c: Candidate) {
    var last := if c.who in s.lastAuthored then s.lastAuthored[c.who] else 0;
    s.now >= last + cfg.kickThreshold || cfg.kickThreshold == 0
  }

  /**
   Exactly who can register, and what that brings: a place at the end with the bond of the moment as
   deposit, and two kick thresholds before being stale.
   */
  lemma RegisteredIff(cfg: Config, s: State, who: AccountId)
    ensures var s' := Register(cfg, s, who);
            if && |s.candidates| < s.desired && |s.candidates| < cfg.maxCandidates
               && who !in s.invulnerables && who !in Accounts(s.candidates)
               && cfg.validatorId(who).Some? && cfg.registered(cfg.validatorId(who).value)
               && AccountOf(s, who).free >= s.bond
            then
              && RegisterError(cfg, s, who).None? && s'.candidates == s.candidates + [Candidate(who, s.bond)]
              && forall t: nat :: Stale(cfg, s'.(now := t), Candidate(who, s.bond)) <==> t >= s.now + 2 * cfg.kickThreshold || cfg.kickThreshold == 0
            else RegisterError(cfg, s, who).Some? && s' == s
  {
    CandidateIs(s.candidates, who);
    hide IndexOf;
  }

  lemma CandidateIs(cs: seq<Candidate>, who: AccountId)
    ensures IndexOf(cs, who) < |cs| <==> who in Accounts(cs)
  {
    if who in Accounts(cs) { var i :| 0 <= i < |cs| && Accounts(cs)[i] == who; assert cs[i].who == who; }
    if IndexOf(cs, who) < |cs| { assert Accounts(cs)[IndexOf(cs, who)] == who; }
  }

  /** Exactly who can leave: a candidate, while more than the minimum are there; the others stay in order. */
  lemma LeftIff(cfg: Config, s: State, who: AccountId)
    ensures var s' := Leave(cfg, s, who); var k := IndexOf(s.candidates, who);
            if |s.candidates| > cfg.minCandidates && who in Accounts(s.candidates)
            then LeaveError(cfg, s, who).None? && s'.candidates == s.candidates[..k] + s.candidates[k + 1..]
            else LeaveError(cfg, s, who).Some? && s' == s
  {
    CandidateIs(s.candidates, who);
    hide IndexOf;
  }

  /** The record of authoring goes with the candidacy, and with nothing else. */
  lemma RemovalForgets(s: State, who: AccountId, a: AccountId)
    ensures var s' := TryRemove(s, who);
            && (a in s'.lastAuthored <==> a in s.lastAuthored && !(a == who && who in Accounts(s.candidates)))
            && (a in s'.lastAuthored ==> s'.lastAuthored[a] == s.lastAuthored[a])
  {
    CandidateIs(s.candidates, who);
    hide IndexOf;
  }

  /** An author is not stale for a whole threshold; nobody else's record changes. */
  lemma AuthorIsFresh(cfg: Config, s: State, author: AccountId, paid: bool, c: Candidate)
    ensures var s' := NoteAuthor(cfg, s, author, paid);
            forall t: nat :: Stale(cfg, s'.(now := t), c) <==>
              if c.who == author then t >= s.now + cfg.kickThreshold || cfg.kickThreshold == 0 else Stale(cfg, s.(now := t), c)
  {
  }

  /** How many of the candidates are stale. */
  function StaleCount(cfg: Config, s: State, cs: seq<Candidate>): nat {
    if cs == [] then 0 else (if Stale(cfg, s, cs[0]) then 1 else 0) + StaleCount(cfg, s, cs[1..])
  }

  /** The candidates of `cs` that stay if the first `quota` stale ones go. */
  function Remaining(cfg: Config, s: State, cs: seq<Candidate>, quota: nat): seq<Candidate> {
    if cs == [] then []
    else if Stale(cfg, s, cs[0]) && quota > 0 then Remaining(cfg, s, cs[1..], quota - 1)
    else [cs[0]] + Remaining(cfg, s, cs[1..], quota)
  }

  lemma RemoveTouchesOne(s: State, who: AccountId, c: Candidate, cfg: Config)
    requires c.who != who
    ensures Stale(cfg, TryRemove(s, who), c) <==> Stale(cfg, s, c)
  {
    hide IndexOf;
  }

  lemma {:induction false} SameStaleness(cfg: Config, s: State, s': State, cs: seq<Candidate>, quota: nat)
    requires forall c :: c in cs ==> (Stale(cfg, s', c) <==> Stale(cfg, s, c))
    ensures Remaining(cfg, s', cs, quota) == Remaining(cfg, s, cs, quota)
  {
    hide Stale;
    if cs != [] {
      assert cs[0] in cs;
      SameStaleness(cfg, s, s', cs[1..], quota);
      if quota > 0 { SameStaleness(cfg, s, s', cs[1..], quota - 1); }
    }
  }

  lemma IsStaleIs(cfg: Config, s: State, c: Candidate)
    ensures IsStale(cfg, s, c.who) <==> Stale(cfg, s, c)
  {
  }

  lemma StillStale(cfg: Config, s: State, c: Candidate, rest: seq<Candidate>)
    requires Distinct([c] + rest)
    ensures forall d :: d in rest ==> (Stale(cfg, TryRemove(s, c.who), d) <==> Stale(cfg, s, d))
  {
    hide Stale;
    hide TryRemove;
    forall d | d in rest ensures Stale(cfg, TryRemove(s, c.who), d) <==> Stale(cfg, s, d) {
      var i :| 0 <= i < |rest| && rest[i] == d;
      assert ([c] + rest)[0].who != ([c] + rest)[i + 1].who;
      RemoveTouchesOne(s, c.who, d, cfg);
    }
  }

  lemma TailDistinct(kept: seq<Candidate>, todo: seq<Candidate>)
    requires Distinct(kept + todo)
    ensures Distinct(todo)
  {
    forall i, j | 0 <= i < j < |todo| ensures todo[i].who != todo[j].who {
      assert (kept + todo)[|kept| + i] == todo[i] && (kept + todo)[|kept| + j] == todo[j];
    }
  }

  lemma {:induction false} KickIsExact(cfg: Config, s: State, kept: seq<Candidate>, todo: seq<Candidate>)
    requires Distinct(s.candidates) && s.candidates == kept + todo
    ensures KickStale(cfg, s, todo).s.candidates == kept + Remaining(cfg, s, todo, SatSub(|s.candidates|, cfg.minCandidates))
    decreases |todo|
  {
    hide Distinct;
    hide TryRemove;
    hide Stale;
    hide IsStale;
    if todo != [] {
      var c, rest := todo[0], todo[1..];
      var quota := SatSub(|s.candidates|, cfg.minCandidates);
      assert s.candidates == kept + [c] + rest;
      IsStaleIs(cfg, s, c);
      if !Stale(cfg, s, c) || quota == 0 {
        KickIsExact(cfg, s, kept + [c], rest);
        Associative(kept, [c], Remaining(cfg, s, rest, quota));
      } else {
        RemoveShrinks(s, kept, c, rest);
        TailDistinct(kept, todo);
        assert todo == [c] + rest;
        StillStale(cfg, s, c, rest);
        KickIsExact(cfg, TryRemove(s, c.who), kept, rest);
        SameStaleness(cfg, s, TryRemove(s, c.who), rest, quota - 1);
      }
    }
  }

  lemma {:induction false} RemainingIff(cfg: Config, s: State, cs: seq<Candidate>, quota: nat, i: nat)
    requires Distinct(cs) && i < |cs|
    ensures cs[i] in Remaining(cfg, s, cs, quota) <==> !(Stale(cfg, s, cs[i]) && StaleCount(cfg, s, cs[..i]) < quota)
  {
    hide Stale;
    var first, rest := cs[0], cs[1..];
    var quota' := if Stale(cfg, s, first) && quota > 0 then quota - 1 else quota;
    if i == 0 {
      assert cs[..0] == [];
      forall j | 0 <= j < |rest| ensures rest[j] != first { assert cs[j + 1] == rest[j]; }
      RemainingMembers(cfg, s, rest, quota', first);
    } else {
      assert cs[..i][0] == first && cs[..i][1..] == rest[..i - 1];
      TailDistinct([first], rest);
      assert cs == [first] + rest;
      RemainingIff(cfg, s, rest, quota', i - 1);
      assert cs[0].who != cs[i].who;
    }
  }

  lemma {:induction false} RemainingMembers(cfg: Config, s: State, cs: seq<Candidate>, quota: nat, c: Candidate)
    ensures c in Remaining(cfg, s, cs, quota) ==> c in cs
  {
    hide Stale;
    if cs != [] {
      RemainingMembers(cfg, s, cs[1..], quota, c);
      if quota > 0 { RemainingMembers(cfg, s, cs[1..], quota - 1, c); }
    }
  }

  /**
   Exactly who goes at a new session: a candidate that has authored nothing for the kick threshold, if so
   few stale ones are before it in the list that more than the minimum remain. Who has authored stays, and
   so do the order and the deposits of all that stay.
   */
  lemma KickedIff(cfg: Config, s: State, i: nat)
    requires Distinct(s.candidates) && i < |s.candidates|
    ensures var cs, cs' := s.candidates, NewSession(cfg, s).0.candidates; var quota := SatSub(|cs|, cfg.minCandidates);
            && cs' == Remaining(cfg, s, cs, quota)
            && (cs[i] !in cs' <==> Stale(cfg, s, cs[i]) && StaleCount(cfg, s, cs[..i]) < quota)
  {
    hide Stale;
    hide KickStale;
    hide Distinct;
    hide Remaining;
    var cs := s.candidates;
    assert cs == [] + cs;
    KickIsExact(cfg, s, [], cs);
    assert [] + Remaining(cfg, s, cs, SatSub(|cs|, cfg.minCandidates)) == Remaining(cfg, s, cs, SatSub(|cs|, cfg.minCandidates));
    RemainingIff(cfg, s, cs, SatSub(|cs|, cfg.minCandidates), i);
  }

  // ------------------------------------------------------------------ whole runs

  datatype Op =
    | SetBond(bond: nat)
    | SetDesired(desired: nat)
    | SetInvulnerables(accounts: seq<AccountId>)
    | RegisterAs(who: AccountId)
    | LeaveAs(who: AccountId)
    | Author(author: AccountId, paid: bool)
    | Session
    | NextBlock
    | OtherPallet(account: AccountId, free: nat, theirs: nat)

  /**
   One operation. Other pallets may do anything with an account, as long as they leave the reserve that
   backs its candidacy alone: afterwards it has some free balance and some reserve of theirs.
   */
  function Step(cfg: Config, s: State, op: Op): State {
    match op
    case SetBond(b) => s.(bond := b)
    case SetDesired(d) => s.(desired := d)
    case SetInvulnerables(a) => s.(invulnerables := a)
    case RegisterAs(who) => Register(cfg, s, who)
    case LeaveAs(who) => Leave(cfg, s, who)
    case Author(a, paid) => NoteAuthor(cfg, s, a, paid)
    case Session => NewSession(cfg, s).0
    case NextBlock => s.(now := s.now + 1)
    case OtherPallet(a, free, theirs) => s.(balances := s.balances[a := Account(free, theirs + DepositOf(s.candidates, a))])
  }

  function Run(cfg: Config, s: State, ops: seq<Op>): State
    decreases |ops|
  {
    if ops == [] then s else Run(cfg, Step(cfg, s, ops[0]), ops[1..])
  }

  lemma NoteAuthorBacked(cfg: Config, s: State, author: AccountId, paid: bool, others: AccountId -> nat)
    requires Backed(s, others)
    ensures Backed(NoteAuthor(cfg, s, author, paid), others)
  {
    var s' := NoteAuthor(cfg, s, author, paid);
    forall a: AccountId ensures AccountOf(s', a).reserved == AccountOf(s, a).reserved {
      assert AccountOf(s, a).reserved == others(a) + DepositOf(s.candidates, a);
    }
  }

  /** What other pallets hold reserved, after an operation. */
  function OthersAfter(others: AccountId -> nat, op: Op): AccountId -> nat {
    if op.OtherPallet? then (a: AccountId) => if a == op.account then op.theirs else others(a) else others
  }

  function OthersAfterAll(others: AccountId -> nat, ops: seq<Op>): AccountId -> nat
    decreases |ops|
  {
    if ops == [] then others else OthersAfterAll(OthersAfter(others, ops[0]), ops[1..])
  }

  lemma OtherPalletBacked(cfg: Config, s: State, op: Op, others: AccountId -> nat)
    requires Backed(s, others) && op.OtherPallet?
    ensures Backed(Step(cfg, s, op), OthersAfter(others, op))
  {
    hide IndexOf;
  }

  lemma StepBacked(cfg: Config, s: State, op: Op, others: AccountId -> nat)
    requires Backed(s, others)
    ensures Backed(Step(cfg, s, op), OthersAfter(others, op))
  {
    hide TryRemove;
    hide Register;
    hide KickStale;
    hide NoteAuthor;
    hide DepositOf;
    match op {
      case RegisterAs(who) => RegisterBacked(cfg, s, who, others);
      case LeaveAs(who) => RemoveBacked(s, who, others);
      case Author(a, paid) => NoteAuthorBacked(cfg, s, a, paid, others);
      case Session => NewSessionIsRemaining(cfg, s, others);
      case OtherPallet(_, _, _) => OtherPalletBacked(cfg, s, op, others);
      case _ =>
    }
  }

  /**
   Over any run, with bonds changing and other pallets reserving and releasing at any time, every deposit
   is backed by exactly that reserve on top of theirs.
   */
  lemma {:induction false} RunBacked(cfg: Config, s: State, ops: seq<Op>, others: AccountId -> nat)
    requires Backed(s, others)
    ensures Backed(Run(cfg, s, ops), OthersAfterAll(others, ops))
    decreases |ops|
  {
    if ops != [] {
      hide Backed;
      hide Step;
      StepBacked(cfg, s, ops[0], others);
      RunBacked(cfg, Step(cfg, s, ops[0]), ops[1..], OthersAfter(others, ops[0]));
    }
  }

  // ---- money ----

  /** The sum of `f` over a set of accounts. */
  ghost function Sum(f: AccountId -> nat, accounts: set<AccountId>): nat {
    if accounts == {} then 0
    else
      var a :| a in accounts;
      f(a) + Sum(f, accounts - {a})
  }

  function Balance(s: State): AccountId -> nat { (a: AccountId) => AccountOf(s, a).free + AccountOf(s, a).reserved }

  /** What an account has reserved beyond what other pallets hold. */
  function Reserved(s: State, others: AccountId -> nat): AccountId -> nat {
    (a: AccountId) => SatSub(AccountOf(s, a).reserved, others(a))
  }

  lemma {:induction false} SumPick(f: AccountId -> nat, accounts: set<AccountId>, a: AccountId)
    requires a in accounts
    ensures Sum(f, accounts) == f(a) + Sum(f, accounts - {a})
    decreases accounts
  {
    var b :| b in accounts && Sum(f, accounts) == f(b) + Sum(f, accounts - {b});
    if a != b {
      SumPick(f, accounts - {b}, a);
      SumPick(f, accounts - {a}, b);
      assert accounts - {a} - {b} == accounts - {b} - {a};
    }
  }

  lemma {:induction false} SumFrame(f: AccountId -> nat, g: AccountId -> nat, accounts: set<AccountId>)
    requires forall a :: a in accounts ==> f(a) == g(a)
    ensures Sum(f, accounts) == Sum(g, accounts)
    decreases accounts
  {
    if accounts != {} {
      var a :| a in accounts;
      SumPick(f, accounts, a);
      SumPick(g, accounts, a);
      SumFrame(f, g, accounts - {a});
    }
  }

  lemma {:induction false} SumZero(f: AccountId -> nat, accounts: set<AccountId>)
    requires forall a :: a in accounts ==> f(a) == 0
    ensures Sum(f, accounts) == 0
    decreases accounts
  {
    if accounts != {} {
      var a :| a in accounts;
      SumPick(f, accounts, a);
      SumZero(f, accounts - {a});
    }
  }

  /** A transfer between two accounts leaves the sum over both as it is. */
  lemma SumMoves(f: AccountId -> nat, g: AccountId -> nat, accounts: set<AccountId>, x: AccountId, y: AccountId)
    requires x in accounts && y in accounts && x != y && f(x) + f(y) == g(x) + g(y)
    requires forall a :: a in accounts && a != x && a != y ==> f(a) == g(a)
    ensures Sum(f, accounts) == Sum(g, accounts)
  {
    hide Sum;
    var others := accounts - {x};
    SumPick(f, accounts, x);
    SumPick(g, accounts, x);
    SumPick(f, others, y);
    SumPick(g, others, y);
    SumFrame(f, g, others - {y});
  }

  /**
   Noting an author creates and destroys nothing, whether the transfer succeeds or not. The pot is never
   asked for more than it has, and if it had its existential deposit it keeps it, so the transfer cannot
   fail because of the pot. The author gains half of what the pot has above its existential deposit, rounded
   down, or nothing if the transfer failed.
   */
  lemma NoteAuthorConserves(cfg: Config, s: State, author: AccountId, paid: bool, accounts: set<AccountId>)
    requires cfg.pot in accounts && author in accounts
    ensures var s' := NoteAuthor(cfg, s, author, paid); var pot := AccountOf(s, cfg.pot).free;
            && Sum(Balance(s'), accounts) == Sum(Balance(s), accounts)
            && Reward(cfg, s) <= pot && 2 * Reward(cfg, s) <= SatSub(pot, cfg.existentialDeposit) < 2 * Reward(cfg, s) + 2
            && (pot >= cfg.existentialDeposit ==> AccountOf(s', cfg.pot).free >= cfg.existentialDeposit)
            && (pot < cfg.existentialDeposit ==> forall a: AccountId :: AccountOf(s', a) == AccountOf(s, a))
            && (author != cfg.pot ==>
                  AccountOf(s', author) == AccountOf(s, author).(free := AccountOf(s, author).free + if paid then Reward(cfg, s) else 0))
  {
    hide Sum;
    var f, g := Balance(s), Balance(NoteAuthor(cfg, s, author, paid));
    if author == cfg.pot || !paid {
      SumFrame(f, g, accounts);
    } else {
      SumMoves(f, g, accounts, cfg.pot, author);
    }
  }

  lemma {:induction false} SumOfDeposits(f: AccountId -> nat, cs: seq<Candidate>, accounts: set<AccountId>)
    requires Distinct(cs) && (forall c :: c in cs ==> c.who in accounts)
    requires forall a :: a in accounts ==> f(a) == DepositOf(cs, a)
    ensures Sum(f, accounts) == TotalDeposits(cs)
    decreases |cs|
  {
    if cs == [] {
      SumZero(f, accounts);
    } else {
      var c := cs[0];
      assert c in cs;
      SumPick(f, accounts, c.who);
      IndexIs(cs, 0);
      forall d | d in cs[1..] ensures d.who in accounts - {c.who} { assert d in cs; }
      forall a | a in accounts - {c.who} ensures f(a) == DepositOf(cs[1..], a) { assert f(a) == DepositOf(cs, a); }
      SumOfDeposits(f, cs[1..], accounts - {c.who});
    }
  }

  lemma ReservedSums(s: State, others: AccountId -> nat, accounts: set<AccountId>)
    requires Backed(s, others) && forall c :: c in s.candidates ==> c.who in accounts
    ensures Sum(Reserved(s, others), accounts) == TotalDeposits(s.candidates)
  {
    SumOfDeposits(Reserved(s, others), s.candidates, accounts);
  }

  /**
   Over any run, what is reserved beyond other pallets' holds sums up to the stored deposits, over any
   accounts that include the candidates.
   */
  lemma TotalReservedIsTotalDeposits(cfg: Config, s: State, ops: seq<Op>, others: AccountId -> nat, accounts: set<AccountId>)
    requires Backed(s, others) && forall c :: c in Run(cfg, s, ops).candidates ==> c.who in accounts
    ensures var s' := Run(cfg, s, ops);
            Sum(Reserved(s', OthersAfterAll(others, ops)), accounts) == TotalDeposits(s'.candidates)
  {
    hide Backed;
    hide Run;
    hide Sum;
    RunBacked(cfg, s, ops, others);
    ReservedSums(Run(cfg, s, ops), OthersAfterAll(others, ops), accounts);
  }
}
