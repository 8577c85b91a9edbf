/** The Safe's token balance, kept by folding transfer logs, against the balances of the token contract. */
module SafeBalance {
  import opened HoprTypes
  import opened TicketStore
  import opened Handlers

  // Minted tokens come from the zero address, burned ones go to it; it holds nothing itself.
  datatype Token = Token(balances: map<Address, nat>, totalSupply: nat)

  function BalanceOf(t: Token, a: Address): nat {
    if a in t.balances then t.balances[a] else 0
  }

  ghost function Sum(balances: map<Address, nat>, holders: set<Address>): nat
    requires holders <= balances.Keys
  {
    if holders == {} then 0
    else
      var a :| a in holders;
      balances[a] + Sum(balances, holders - {a})
  }

  lemma {:induction false} SumRemove(balances: map<Address, nat>, holders: set<Address>, a: Address)
    requires holders <= balances.Keys && a in holders
    ensures Sum(balances, holders) == balances[a] + Sum(balances, holders - {a})
    decreases holders
  {
    var b :| b in holders && Sum(balances, holders) == balances[b] + Sum(balances, holders - {b});
    if b != a {
      SumRemove(balances, holders - {b}, a);
      SumRemove(balances, holders - {a}, b);
      assert holders - {b} - {a} == holders - {a} - {b};
    }
  }

  lemma {:induction false} SumSame(x: map<Address, nat>, y: map<Address, nat>, holders: set<Address>)
    requires holders <= x.Keys && holders <= y.Keys && forall a :: a in holders ==> x[a] == y[a]
    ensures Sum(x, holders) == Sum(y, holders)
    decreases holders
  {
    if holders != {} {
      var a :| a in holders;
      SumSame(x, y, holders - {a});
      SumRemove(x, holders, a);
      SumRemove(y, holders, a);
    }
  }

  ghost predicate Sound(t: Token) {
    Sum(t.balances, t.balances.Keys) == t.totalSupply && BalanceOf(t, 0) == 0
  }

  lemma BalanceWithinSupply(t: Token, a: Address)
    requires Sound(t)
    ensures BalanceOf(t, a) <= t.totalSupply
  {
    if a in t.balances {
      SumRemove(t.balances, t.balances.Keys, a);
    }
  }

  function WithBalance(t: Token, a: Address, balance: nat): map<Address, nat> {
    t.balances[a := balance]
  }

  lemma SumAfterSetting(t: Token, a: Address, balance: nat)
    ensures var after := WithBalance(t, a, balance);
      Sum(after, after.Keys) + BalanceOf(t, a) == Sum(t.balances, t.balances.Keys) + balance
  {
    var after := WithBalance(t, a, balance);
    SumRemove(after, after.Keys, a);
    var others := after.Keys - {a};
    SumSame(t.balances, after, others);
    if a in t.balances {
      SumRemove(t.balances, t.balances.Keys, a);
      assert t.balances.Keys - {a} == others;
    } else {
      assert t.balances.Keys == others;
    }
  }

  /** What the contract allows: no sender overdraws, and the supply stays below a cap. */
  predicate Allowed(t: Token, log: ContractLog, cap: nat) {
    log.Transfer? ==>
      && (log.from != 0 || log.to != 0)
      && (log.from == 0 ==> t.totalSupply + log.value <= cap)
      && (log.from != 0 ==> BalanceOf(t, log.from) >= log.value)
  }

  function Debited(t: Token, from: Address, value: nat): Token
    requires from != 0 ==> BalanceOf(t, from) >= value
  {
    if from == 0 then t.(totalSupply := t.totalSupply + value)
    else t.(balances := WithBalance(t, from, BalanceOf(t, from) - value))
  }

  function CreditedTo(t: Token, to: Address, value: nat): Token {
    if to == 0 then t.(totalSupply := if t.totalSupply >= value then t.totalSupply - value else 0)
    else t.(balances := WithBalance(t, to, BalanceOf(t, to) + value))
  }

  function TokenAfter(t: Token, log: ContractLog): Token
    requires exists cap :: Allowed(t, log, cap)
  {
    if log.Transfer? then CreditedTo(Debited(t, log.from, log.value), log.to, log.value) else t
  }

  /** The total supply is always the sum of all balances. */
  lemma TransferStaysSound(t: Token, log: ContractLog, cap: nat)
    requires Sound(t) && t.totalSupply <= cap && Allowed(t, log, cap)
    ensures Sound(TokenAfter(t, log)) && TokenAfter(t, log).totalSupply <= cap
  {
    if log.Transfer? {
      var debited := Debited(t, log.from, log.value);
      if log.from != 0 {
        SumAfterSetting(t, log.from, BalanceOf(t, log.from) - log.value);
      }
      if log.to != 0 {
        SumAfterSetting(debited, log.to, BalanceOf(debited, log.to) + log.value);
      }
    }
  }

  predicate IsSelfTransfer(log: ContractLog, safe: Address) {
    log.Transfer? && log.from == safe && log.to == safe
  }

  /** What the Safe sends to itself is credited and never debited. */
  function SelfSent(logs: seq<ContractLog>, safe: Address): nat {
    if logs == [] then 0
    else (if IsSelfTransfer(logs[0], safe) then logs[0].value else 0) + SelfSent(logs[1..], safe)
  }

  predicate AllowedAll(t: Token, logs: seq<ContractLog>, cap: nat)
    decreases |logs|
  {
    logs == [] || (Allowed(t, logs[0], cap) && AllowedAll(TokenAfter(t, logs[0]), logs[1..], cap))
  }

  function TokenAfterAll(t: Token, logs: seq<ContractLog>, cap: nat): Token
    requires AllowedAll(t, logs, cap)
    decreases |logs|
  {
    if logs == [] then t else TokenAfterAll(TokenAfter(t, logs[0]), logs[1..], cap)
  }

  lemma BalanceAfter(cfg: Config, index: Index, log: ContractLog)
    ensures Apply(cfg, index, log).safeBalance
         == if log.Transfer? then OnTransfer(cfg, index, log.from, log.to, log.value).index.safeBalance else index.safeBalance
  {
  }

  lemma StepTracks(cfg: Config, index: Index, t: Token, log: ContractLog, cap: nat, surplus: nat)
    requires cfg.safe != 0 && Sound(t) && t.totalSupply <= cap && Allowed(t, log, cap)
    requires index.safeBalance == BalanceOf(t, cfg.safe) + surplus
    requires var self := if IsSelfTransfer(log, cfg.safe) then log.value else 0; cap + surplus + self <= MAX_U256
    ensures Apply(cfg, index, log).safeBalance
         == BalanceOf(TokenAfter(t, log), cfg.safe) + surplus + if IsSelfTransfer(log, cfg.safe) then log.value else 0
  {
    hide Sum;
    hide Apply;
    BalanceAfter(cfg, index, log);
    BalanceWithinSupply(t, cfg.safe);
    TransferStaysSound(t, log, cap);
    BalanceWithinSupply(TokenAfter(t, log), cfg.safe);
  }

  /**
   Folding all transfers gives the Safe's balance in the token contract plus what the Safe sent to itself.
   No operation saturates as long as the largest supply and that surplus fit 256 bits together.
   */
  lemma {:induction false} FoldTracksLedger(cfg: Config, index: Index, t: Token, logs: seq<ContractLog>, cap: nat, surplus: nat)
    requires cfg.safe != 0 && Sound(t) && t.totalSupply <= cap && AllowedAll(t, logs, cap)
    requires index.safeBalance == BalanceOf(t, cfg.safe) + surplus
    requires cap + surplus + SelfSent(logs, cfg.safe) <= MAX_U256
    ensures ApplyAll(cfg, index, logs).safeBalance
         == BalanceOf(TokenAfterAll(t, logs, cap), cfg.safe) + surplus + SelfSent(logs, cfg.safe)
    decreases |logs|
  {
    hide Apply;
    hide TokenAfter;
    hide Sound;
    if logs != [] {
      var self := if IsSelfTransfer(logs[0], cfg.safe) then logs[0].value else 0;
      StepTracks(cfg, index, t, logs[0], cap, surplus);
      TransferStaysSound(t, logs[0], cap);
      FoldTracksLedger(cfg, Apply(cfg, index, logs[0]), TokenAfter(t, logs[0]), logs[1..], cap, surplus + self);
    }
  }

  /** So the balance is the ledger's if the supply fits 256 bits and the Safe sends nothing to itself. */
  lemma BalanceIsExact(cfg: Config, index: Index, t: Token, logs: seq<ContractLog>)
    requires cfg.safe != 0 && Sound(t) && t.totalSupply <= MAX_U256 && AllowedAll(t, logs, MAX_U256)
    requires index.safeBalance == BalanceOf(t, cfg.safe) && SelfSent(logs, cfg.safe) == 0
    ensures ApplyAll(cfg, index, logs).safeBalance == BalanceOf(TokenAfterAll(t, logs, MAX_U256), cfg.safe)
  {
    FoldTracksLedger(cfg, index, t, logs, MAX_U256, 0);
  }

  /** One transfer keeps the balance exact unless the Safe sends a positive amount to itself below the bound. */
  lemma SelfTransferMiscounts(cfg: Config, index: Index, t: Token, log: ContractLog)
    requires cfg.safe != 0 && Sound(t) && t.totalSupply <= MAX_U256 && Allowed(t, log, MAX_U256)
    requires index.safeBalance == BalanceOf(t, cfg.safe)
    ensures Apply(cfg, index, log).safeBalance == BalanceOf(TokenAfter(t, log), cfg.safe)
       <==> !(IsSelfTransfer(log, cfg.safe) && log.value > 0 && index.safeBalance < MAX_U256)
  {
    hide Sum;
    hide Apply;
    BalanceAfter(cfg, index, log);
    BalanceWithinSupply(t, cfg.safe);
    if !IsSelfTransfer(log, cfg.safe) {
      StepTracks(cfg, index, t, log, MAX_U256, 0);
    }
  }

  // ---------- replay ----------

  function Received(logs: seq<ContractLog>, safe: Address): nat {
    if logs == [] then 0
    else (if logs[0].Transfer? && logs[0].to == safe then logs[0].value else 0) + Received(logs[1..], safe)
  }

  function Sent(logs: seq<ContractLog>, safe: Address): nat {
    if logs == [] then 0
    else (if logs[0].Transfer? && logs[0].to != safe && logs[0].from == safe then logs[0].value else 0) + Sent(logs[1..], safe)
  }

  function Moved(safe: Address, balance: nat, log: ContractLog): nat {
    if log.Transfer? && log.to == safe then SatAdd(balance, log.value)
    else if log.Transfer? && log.from == safe then SatSub(balance, log.value)
    else balance
  }

  /** The Safe balance alone, as the logs move it. */
  function Folded(safe: Address, balance: nat, logs: seq<ContractLog>): nat
    decreases |logs|
  {
    if logs == [] then balance else Folded(safe, Moved(safe, balance, logs[0]), logs[1..])
  }

  lemma {:induction false} BalanceIsFolded(cfg: Config, index: Index, logs: seq<ContractLog>)
    ensures ApplyAll(cfg, index, logs).safeBalance == Folded(cfg.safe, index.safeBalance, logs)
    decreases |logs|
  {
    hide Apply;
    if logs != [] {
      BalanceAfter(cfg, index, logs[0]);
      BalanceIsFolded(cfg, Apply(cfg, index, logs[0]), logs[1..]);
    }
  }

  /** The number closest to x between two bounds. */
  function Clamp(x: int, floor: nat, ceiling: nat): nat
    requires floor <= ceiling
  {
    if x < floor then floor else if x > ceiling then ceiling else x
  }

  function Net(logs: seq<ContractLog>, safe: Address): int {
    Received(logs, safe) - Sent(logs, safe)
  }

  lemma ClampMoves(safe: Address, z: int, low: nat, high: nat, log: ContractLog)
    requires low <= high <= MAX_U256
    ensures Moved(safe, low, log) <= Moved(safe, high, log) <= MAX_U256
    ensures Moved(safe, Clamp(z, low, high), log) == Clamp(z + Net([log], safe), Moved(safe, low, log), Moved(safe, high, log))
  {
    assert [log][1..] == [];
    assert Received([], safe) == 0 && Sent([], safe) == 0;
  }

  lemma NetOfFirst(safe: Address, logs: seq<ContractLog>)
    requires logs != []
    ensures Net(logs, safe) == Net([logs[0]], safe) + Net(logs[1..], safe)
  {
    assert [logs[0]][1..] == [];
    assert Received([], safe) == 0 && Sent([], safe) == 0;
  }

  lemma {:induction false} ClampFolds(safe: Address, z: int, low: nat, high: nat, logs: seq<ContractLog>)
    requires low <= high <= MAX_U256
    ensures var floor, ceiling := Folded(safe, low, logs), Folded(safe, high, logs);
      floor <= ceiling <= MAX_U256
      && Folded(safe, Clamp(z, low, high), logs) == Clamp(z + Net(logs, safe), floor, ceiling)
    decreases |logs|
  {
    if logs == [] {
      assert Net([], safe) == 0;
    } else {
      hide Net;
      hide Clamp;
      hide Moved;
      var first := logs[0];
      ClampMoves(safe, z, low, high, first);
      NetOfFirst(safe, logs);
      ClampFolds(safe, z + Net([first], safe), Moved(safe, low, first), Moved(safe, high, first), logs[1..]);
    }
  }

  /**
   However often its operations saturate, a block moves the balance by its net amount, held between what an
   empty Safe and what a full one would end with.
   */
  lemma FoldIsClamped(cfg: Config, index: Index, logs: seq<ContractLog>)
    requires index.safeBalance <= MAX_U256
    ensures var floor, ceiling := Folded(cfg.safe, 0, logs), Folded(cfg.safe, MAX_U256, logs);
      floor <= ceiling <= MAX_U256
      && ApplyAll(cfg, index, logs).safeBalance == Clamp(index.safeBalance + Net(logs, cfg.safe), floor, ceiling)
  {
    BalanceIsFolded(cfg, index, logs);
    ClampFolds(cfg.safe, index.safeBalance, 0, MAX_U256, logs);
  }

  /**
   A replayed block leaves the balance right exactly if it moved nothing on balance, or took more than it
   brought and left what an empty Safe ends with, or brought more and left what a full one ends with.
   */
  lemma ReplayIsRightExactly(cfg: Config, index: Index, logs: seq<ContractLog>)
    requires index.safeBalance <= MAX_U256
    ensures var once, net := ApplyAll(cfg, index, logs), Net(logs, cfg.safe);
      ApplyAll(cfg, once, logs).safeBalance == once.safeBalance <==>
        || net == 0
        || (net < 0 && once.safeBalance == Folded(cfg.safe, 0, logs))
        || (net > 0 && once.safeBalance == Folded(cfg.safe, MAX_U256, logs))
  {
    hide ApplyAll;
    FoldIsClamped(cfg, index, logs);
    FoldIsClamped(cfg, ApplyAll(cfg, index, logs), logs);
  }
}
