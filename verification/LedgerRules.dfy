/** What the steps on token accounts have to be, account by account, and that the steps of
    the pool are exactly that. */
module LedgerRules {
  import opened Checked
  import opened Errors
  import opened Ledger
  import opened PriceCurve
  import opened FeeSchedule
  import opened SwapCurve
  import opened Pool
  import opened QuoteRules

  /** An amount goes from one account to another, and nothing else changes. */
  ghost predicate Paid(m: Balances, from: Key, to: Key, amount: nat, m': Balances) {
    && from in m && to in m && amount <= m[from]
    && m'.Keys == m.Keys
    && forall k :: k in m ==>
         m'[k] == if from == to then m[k]
                  else m[k] - (if k == from then amount else 0) + (if k == to then amount else 0)
  }

  lemma PaidRule(m: Balances, from: Key, to: Key, amount: U64, m': Balances)
    ensures Transfer(m, from, to, amount) == Ok(m') <==> Paid(m, from, to, amount, m')
  {
    if Paid(m, from, to, amount, m') {
      assert m'[to] < U64_LIMIT;
      assert m' == if from == to then m else m[from := m[from] - amount][to := m[to] + amount];
    }
  }

  /** New LP tokens in one account. */
  ghost predicate Credited(l: Lp, to: Key, amount: nat, l': Lp) {
    && to in l.balances
    && l'.supply == l.supply + amount
    && l'.balances.Keys == l.balances.Keys
    && forall k :: k in l.balances ==> l'.balances[k] == l.balances[k] + if k == to then amount else 0
  }

  lemma CreditedRule(l: Lp, to: Key, amount: U64, l': Lp)
    ensures MintTo(l, to, amount) == Ok(l') <==> Credited(l, to, amount, l')
  {
    if Credited(l, to, amount, l') {
      assert l'.balances[to] < U64_LIMIT && l'.supply < U64_LIMIT;
      assert l'.balances == l.balances[to := l.balances[to] + amount];
    }
  }

  /** The owner's fee as new LP tokens: the host named, if any, gets its part at the host
      rate, the fee account the rest where it exists, and nobody else anything. */
  ghost predicate Shared(l: Lp, fees: Fees, amount: nat, host: Option<Key>, feeAccount: Option<Key>, l': Lp,
                         part: nat)
  {
    if amount == 0 then l' == l && part == 0
    else
      && (if host.None? then part == 0
          else host.value in l.balances && FeeOf(amount, fees.hostNum, fees.hostDen, part) && part <= amount)
      && var rest := if feeAccount.Some? && feeAccount.value in l.balances then amount - part else 0;
         && l'.supply == l.supply + part + rest
         && l'.balances.Keys == l.balances.Keys
         && forall k :: k in l.balances ==>
              l'.balances[k] == l.balances[k] + (if host == Some(k) then part else 0)
                                              + (if feeAccount == Some(k) then rest else 0)
  }

  /** The ledger between the host's part and the owner's. */
  lemma HostCredited(l: Lp, fees: Fees, amount: U128, host: Option<Key>, part: U128, l1: Lp)
    requires amount > 0
    ensures MintHostFee(l, fees, amount, host) == Ok((l1, amount - part)) && part <= amount <==>
              && part <= amount
              && (if host.None? then part == 0 && l1 == l
                  else
                    && host.value in l.balances && FeeOf(amount, fees.hostNum, fees.hostDen, part)
                    && part < U64_LIMIT && Credited(l, host.value, part, l1))
  {
    if host.Some? && part <= amount {
      FeeRule(amount, fees.hostNum, fees.hostDen, part);
      if part < U64_LIMIT {
        CreditedRule(l, host.value, part, l1);
        if part == 0 && host.value in l.balances && Credited(l, host.value, part, l1) {
          assert l1.balances == l.balances;
        }
      }
    }
  }

  lemma SharedShowsPart(l: Lp, fees: Fees, amount: U128, host: Option<Key>, feeAccount: Option<Key>, l': Lp)
    returns (part: U128)
    requires MintOwnerFee(l, fees, amount, host, feeAccount) == Ok(l')
    ensures Shared(l, fees, amount, host, feeAccount, l', part)
  {
    if amount == 0 {
      part := 0;
    } else {
      var (l1, rest) := MintHostFee(l, fees, amount, host).value;
      part := amount - rest;
      HostCredited(l, fees, amount, host, part, l1);
      if feeAccount.Some? && feeAccount.value in l1.balances && rest > 0 {
        CreditedRule(l1, feeAccount.value, rest, l');
      }
    }
  }

  /** The ledger with the host's part in it. */
  function AfterHost(l: Lp, host: Option<Key>, part: U64): Lp
    requires host.Some? ==> host.value in l.balances && l.balances[host.value] + part < U64_LIMIT
    requires l.supply + part < U64_LIMIT
  {
    if host.None? then l else Lp(l.balances[host.value := l.balances[host.value] + part], l.supply + part)
  }

  lemma HostGiven(l: Lp, fees: Fees, amount: U128, host: Option<Key>, feeAccount: Option<Key>, l': Lp, part: U128)
    requires amount > 0 && Shared(l, fees, amount, host, feeAccount, l', part)
    ensures part <= amount && l.supply + part < U64_LIMIT
    ensures host.Some? ==> host.value in l.balances && l.balances[host.value] + part < U64_LIMIT
    ensures MintHostFee(l, fees, amount, host) == Ok((AfterHost(l, host, part), amount - part))
  {
    assert l'.supply < U64_LIMIT;
    if host.Some? {
      assert l'.balances[host.value] < U64_LIMIT;
    }
    HostCredited(l, fees, amount, host, part, AfterHost(l, host, part));
  }

  lemma PartGivesShared(l: Lp, fees: Fees, amount: U128, host: Option<Key>, feeAccount: Option<Key>, l': Lp, part: U128)
    requires Shared(l, fees, amount, host, feeAccount, l', part)
    ensures MintOwnerFee(l, fees, amount, host, feeAccount) == Ok(l')
  {
    if amount > 0 {
      HostGiven(l, fees, amount, host, feeAccount, l', part);
      RestGiven(l, fees, amount, host, feeAccount, l', part);
    }
  }

  /** What the owner gets once the host has its part. */
  lemma RestGiven(l: Lp, fees: Fees, amount: U128, host: Option<Key>, feeAccount: Option<Key>, l': Lp, part: U128)
    requires amount > 0 && part <= amount && Shared(l, fees, amount, host, feeAccount, l', part)
    requires l.supply + part < U64_LIMIT
    requires host.Some? ==> host.value in l.balances && l.balances[host.value] + part < U64_LIMIT
    ensures var (l1, rest) := (AfterHost(l, host, part), amount - part);
            if feeAccount.Some? && feeAccount.value in l1.balances && rest > 0 then
              rest < U64_LIMIT && MintTo(l1, feeAccount.value, rest) == Ok(l')
            else l' == l1
  {
    var l1 := AfterHost(l, host, part);
    assert l1.balances.Keys == l.balances.Keys;
    if feeAccount.Some? && feeAccount.value in l.balances && amount - part > 0 {
      assert amount - part < U64_LIMIT;
      CreditedRule(l1, feeAccount.value, amount - part, l');
    } else {
      assert l'.balances == l1.balances;
    }
  }

  /** What an account pays for a withdrawal: the fee to the fee account, where there is one,
      and the LP tokens that are burnt. */
  ghost predicate PaidAndBurnt(keys: PoolKeys, l: Lp, source: Key, fee: nat, burnt: nat, l': Lp) {
    && source in l.balances && source != keys.initialLp
    && fee + burnt <= l.balances[source]
    && (fee > 0 ==> keys.feeAccount in l.balances)
    && l'.supply + burnt == l.supply
    && l'.balances.Keys == l.balances.Keys
    && forall k :: k in l.balances ==>
         l'.balances[k] == l.balances[k] - (if k == source then fee + burnt else 0)
                                         + (if k == keys.feeAccount then fee else 0)
  }

  lemma PaidAndBurntRule(keys: PoolKeys, l: Lp, source: Key, fee: U64, burnt: U64, l': Lp)
    requires fee > 0 ==> keys.feeAccount != source
    ensures PayAndBurn(keys, l, source, fee, burnt) == Ok(l') <==> PaidAndBurnt(keys, l, source, fee, burnt, l')
  {
    if PaidAndBurnt(keys, l, source, fee, burnt, l') {
      if fee > 0 {
        assert l'.balances[keys.feeAccount] < U64_LIMIT;
        var m := l.balances[source := l.balances[source] - fee]
                           [keys.feeAccount := l.balances[keys.feeAccount] + fee];
        assert Transfer(l.balances, source, keys.feeAccount, fee) == Ok(m);
        assert l'.balances == m[source := m[source] - burnt];
      } else {
        assert l'.balances == l.balances[source := l.balances[source] - burnt];
      }
    }
  }

  /** The fee on a withdrawal, in LP tokens: at the owner's withdrawal rate where the fee
      account exists and is not the one withdrawn from; otherwise none. */
  ghost predicate WithdrawFeeOf(keys: PoolKeys, lp: Balances, fees: Fees, amount: nat, source: Key, fee: nat) {
    if keys.feeAccount in lp && keys.feeAccount != source then
      FeeOf(amount, fees.ownerWithdrawNum, fees.ownerWithdrawDen, fee)
    else fee == 0
  }

  lemma WithdrawFeeRule(keys: PoolKeys, lp: Balances, fees: Fees, amount: U128, source: Key, fee: nat)
    ensures WithdrawFee(keys, lp, fees, amount, source) == Ok(fee)
       <==> WithdrawFeeOf(keys, lp, fees, amount, source, fee)
  {
    FeeRule(amount, fees.ownerWithdrawNum, fees.ownerWithdrawDen, fee);
  }

  // ---------------------------------------------------------------------------
  // The owner's fee, priced and minted
  // ---------------------------------------------------------------------------

  /** How an owner's fee became LP tokens: how many, and the host's part of them. */
  datatype FeeWorking = FeeWorking(lp: U128, part: U128)

  /** The owner's fee, held out of the given reserves, is worth w.lp tokens of the given
      supply, rounded down, and these are shared out; no fee changes nothing. */
  ghost predicate FeeMinted(s: State, fee: nat, a: nat, b: nat, supply: nat, side: TradeDirection,
                            host: Option<Key>, feeAccount: Option<Key>, env: Env, l': Lp, w: FeeWorking)
  {
    if fee == 0 then l' == Lp(s.lp, s.supply)
    else
      && SingleIs(s.curve, fee, a, b, supply, side, Down, env.now, env.feeRoot, w.lp)
      && Shared(Lp(s.lp, s.supply), s.fees, w.lp, host, feeAccount, l', w.part)
  }

  lemma FeeShowsWorking(s: State, fee: U128, a: U128, b: U128, supply: U128, side: TradeDirection,
                        host: Option<Key>, feeAccount: Option<Key>, env: Env, l': Lp) returns (w: FeeWorking)
    requires fee > 0
    requires OwnerFeeStep(s, Lp(s.lp, s.supply), fee, a, b, supply, side, host, feeAccount, env) == Ok(l')
    ensures FeeMinted(s, fee, a, b, supply, side, host, feeAccount, env, l', w)
  {
    var lp := SingleSided(s.curve, fee, a, b, supply, side, Down, env.now, env.feeRoot).value;
    SingleRule(s.curve, fee, a, b, supply, side, Down, env.now, env.feeRoot, lp);
    var part := SharedShowsPart(Lp(s.lp, s.supply), s.fees, lp, host, feeAccount, l');
    w := FeeWorking(lp, part);
  }

  lemma WorkingGivesFee(s: State, fee: U128, a: U128, b: U128, supply: U128, side: TradeDirection,
                        host: Option<Key>, feeAccount: Option<Key>, env: Env, l': Lp, w: FeeWorking)
    requires fee > 0 && FeeMinted(s, fee, a, b, supply, side, host, feeAccount, env, l', w)
    ensures OwnerFeeStep(s, Lp(s.lp, s.supply), fee, a, b, supply, side, host, feeAccount, env) == Ok(l')
  {
    SingleRule(s.curve, fee, a, b, supply, side, Down, env.now, env.feeRoot, w.lp);
    PartGivesShared(Lp(s.lp, s.supply), s.fees, w.lp, host, feeAccount, l', w.part);
  }
}
