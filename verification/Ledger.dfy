/** Token accounts as maps from account key to balance, with the token program's
    transfer rule and the total of all balances. */
module Ledger {
  import opened Checked
  import opened Errors

  type Key = nat
  type Balances = map<Key, U64>

  function Balance(m: Balances, k: Key): Result<U64, SwapError> {
    if k in m then Ok(m[k]) else Err(ExpectedAccount)
  }

  /** Moves an amount between two existing accounts, which may be the same one. */
  function Transfer(m: Balances, from: Key, to: Key, amount: U64): Result<Balances, SwapError> {
    if from !in m || to !in m then Err(ExpectedAccount)
    else if m[from] < amount then Err(InsufficientFunds)
    else if from == to then Ok(m)
    else if m[to] + amount >= U64_LIMIT then Err(TokenOverflow)
    else Ok(m[from := m[from] - amount][to := m[to] + amount])
  }

  ghost function Total(m: Balances): nat {
    if m == map[] then 0
    else
      var k :| k in m;
      m[k] + Total(m - {k})
  }

  /** The total does not depend on the order of summation. */
  lemma {:induction false} TotalRemove(m: Balances, k: Key)
    requires k in m
    ensures Total(m) == m[k] + Total(m - {k})
    decreases |m|
  {
    var j :| j in m && Total(m) == m[j] + Total(m - {j});
    if j != k {
      TotalRemove(m - {j}, k);
      TotalRemove(m - {k}, j);
      assert m - {j} - {k} == m - {k} - {j};
    }
  }

  lemma TotalUpdate(m: Balances, k: Key, v: U64)
    requires k in m
    ensures Total(m[k := v]) == Total(m) - m[k] + v
  {
    TotalRemove(m, k);
    TotalRemove(m[k := v], k);
    assert m[k := v] - {k} == m - {k};
  }

  lemma TotalCovers(m: Balances, k: Key)
    requires k in m
    ensures m[k] <= Total(m)
  {
    TotalRemove(m, k);
  }

  lemma TotalCoversTwo(m: Balances, j: Key, k: Key)
    requires j in m && k in m && j != k
    ensures m[j] + m[k] <= Total(m)
  {
    TotalRemove(m, j);
    TotalRemove(m - {j}, k);
  }

  /** A transfer conserves the total, touches only its two accounts and keeps the set
      of accounts. */
  lemma TransferConserves(m: Balances, from: Key, to: Key, amount: U64)
    requires Transfer(m, from, to, amount).Ok?
    ensures var m' := Transfer(m, from, to, amount).value;
            && m'.Keys == m.Keys
            && Total(m') == Total(m)
            && (forall k :: k in m && k != from && k != to ==> m'[k] == m[k])
            && (from != to ==> m'[from] + amount == m[from] && m'[to] == m[to] + amount)
  {
    if from != to {
      TotalUpdate(m, from, m[from] - amount);
      TotalUpdate(m[from := m[from] - amount], to, m[to] + amount);
    }
  }
}
