/** The token's global invariant: the recorded total supply is the sum of all
    balances, stored balances and allowances are positive (a zero entry is
    removed), and nothing has been written before `initialize`. Every entry
    point preserves it, so it holds after any sequence of invocations from a
    fresh deployment. It also shows which overflow checks can never fire, and
    that mint/burn and transfer/transfer-back undo each other exactly. */
module TokenSupply {
  import opened Soroban
  import opened TokenBdb

  /** Sum of the amounts held in a balance map. */
  ghost function Sum(m: map<Address, I128>): int
    decreases |m|
  {
    if m == map[] then 0
    else
      var k :| k in m;
      m[k] + Sum(m - {k})
  }

  /** Any entry can be split off the sum, not only the one `Sum` picks. */
  lemma {:induction false} SumRemove(m: map<Address, I128>, k: Address)
    requires k in m
    ensures Sum(m) == m[k] + Sum(m - {k})
    decreases |m|
  {
    var j :| j in m && Sum(m) == m[j] + Sum(m - {j});
    if j != k {
      SumRemove(m - {j}, k);
      SumRemove(m - {k}, j);
      assert m - {j} - {k} == m - {k} - {j};
    }
  }

  /** Overwriting one entry changes the sum by the difference. */
  lemma SumUpdate(m: map<Address, I128>, k: Address, v: I128)
    ensures Sum(m[k := v]) == Sum(m) - Read(m, k) + v
  {
    SumRemove(m[k := v], k);
    if k in m {
      SumRemove(m, k);
      assert m[k := v] - {k} == m - {k};
    } else {
      assert m[k := v] - {k} == m;
    }
  }

  /** The same for a write that removes the entry when it becomes 0. */
  lemma SumPut(m: map<Address, I128>, k: Address, v: I128)
    ensures Sum(Put(m, k, v)) == Sum(m) - Read(m, k) + v
  {
    if v == 0 {
      if k in m {
        SumRemove(m, k);
      } else {
        assert m - {k} == m;
      }
    } else {
      SumUpdate(m, k, v);
    }
  }

  ghost predicate AllPositive<K(!new)>(m: map<K, I128>) {
    forall k :: k in m ==> m[k] > 0
  }

  /** With positive entries, two distinct balances together never exceed
      the sum. */
  lemma {:induction false} SumBoundsPair(m: map<Address, I128>, a: Address, b: Address)
    requires AllPositive(m)
    requires a != b
    ensures 0 <= Sum(m)
    ensures Read(m, a) + Read(m, b) <= Sum(m)
    decreases |m|
  {
    if m != map[] {
      var j :| j in m && Sum(m) == m[j] + Sum(m - {j});
      SumBoundsPair(m - {j}, a, b);
      if j == a || j == b {
        var other := if j == a then b else a;
        if other in m {
          SumRemove(m - {j}, other);
          SumBoundsPair(m - {j} - {other}, a, b);
        }
      }
    }
  }

  /** With positive entries, one balance never exceeds the sum. */
  lemma ReadBoundedBySum(m: map<Address, I128>, a: Address)
    requires AllPositive(m)
    ensures 0 <= Read(m, a) <= Sum(m)
  {
    if a in m {
      SumRemove(m, a);
      SumNonNegative(m - {a});
    } else {
      SumNonNegative(m);
    }
  }

  lemma {:induction false} SumNonNegative(m: map<Address, I128>)
    requires AllPositive(m)
    ensures 0 <= Sum(m)
    decreases |m|
  {
    if m != map[] {
      var j :| j in m && Sum(m) == m[j] + Sum(m - {j});
      SumNonNegative(m - {j});
    }
  }

  ghost predicate Valid(s: TokenState) {
    && AllPositive(s.balances)
    && AllPositive(s.allowances)
    && Sum(s.balances) == TotalSupply(s)
    && (s.initialized <==> s.admin.Some?)
    && (s.initialized <==> s.totalSupply.Some?)
    && (!s.initialized ==> s.balances == map[])
  }

  lemma FreshIsValid()
    ensures Valid(Fresh)
  {
  }

  lemma InitializePreservesValid(s: TokenState, signers: set<Address>, admin: Address,
                                 name: string, symbol: string, decimals: U32)
    requires Valid(s)
    ensures Valid(Initialize(s, signers, admin, name, symbol, decimals).After(s))
  {
  }

  lemma MintPreservesValid(s: TokenState, signers: set<Address>, to: Address, amount: I128)
    requires Valid(s)
    ensures Valid(Mint(s, signers, to, amount).After(s))
  {
    var r := Mint(s, signers, to, amount);
    if r.Ok? {
      SumUpdate(s.balances, to, Balance(s, to) + amount);
    }
  }

  lemma BurnPreservesValid(s: TokenState, signers: set<Address>, from: Address, amount: I128)
    requires Valid(s)
    ensures Valid(Burn(s, signers, from, amount).After(s))
  {
    var r := Burn(s, signers, from, amount);
    if r.Ok? {
      SumPut(s.balances, from, Balance(s, from) - amount);
    }
  }

  lemma TransferPreservesValid(s: TokenState, signers: set<Address>, from: Address, to: Address,
                               amount: I128)
    requires Valid(s)
    ensures Valid(Transfer(s, signers, from, to, amount).After(s))
  {
    var r := Transfer(s, signers, from, to, amount);
    if r.Ok? {
      var m := Put(s.balances, from, Balance(s, from) - amount);
      SumPut(s.balances, from, Balance(s, from) - amount);
      SumUpdate(m, to, Read(m, to) + amount);
    }
  }

  lemma ApprovePreservesValid(s: TokenState, signers: set<Address>, from: Address,
                              spender: Address, amount: I128)
    requires Valid(s)
    ensures Valid(Approve(s, signers, from, spender, amount).After(s))
  {
  }

  lemma TransferFromPreservesValid(s: TokenState, signers: set<Address>, spender: Address,
                                   from: Address, to: Address, amount: I128)
    requires Valid(s)
    ensures Valid(TransferFrom(s, signers, spender, from, to, amount).After(s))
  {
    var r := TransferFrom(s, signers, spender, from, to, amount);
    if r.Ok? {
      var m := Put(s.balances, from, Balance(s, from) - amount);
      SumPut(s.balances, from, Balance(s, from) - amount);
      SumUpdate(m, to, Read(m, to) + amount);
    }
  }

  /** One invocation of a state-changing entry point, with the addresses
      that signed it. */
  datatype Invocation =
    | InitializeCall(signers: set<Address>, admin: Address, name: string, symbol: string,
                     decimals: U32)
    | MintCall(signers: set<Address>, to: Address, amount: I128)
    | BurnCall(signers: set<Address>, from: Address, amount: I128)
    | TransferCall(signers: set<Address>, from: Address, to: Address, amount: I128)
    | ApproveCall(signers: set<Address>, from: Address, spender: Address, amount: I128)
    | TransferFromCall(signers: set<Address>, spender: Address, from: Address, to: Address,
                       amount: I128)

  /** The storage after one invocation, reverted when it fails. */
  function Step(s: TokenState, inv: Invocation): TokenState {
    match inv
    case InitializeCall(sg, admin, name, symbol, decimals) =>
      Initialize(s, sg, admin, name, symbol, decimals).After(s)
    case MintCall(sg, to, amount) => Mint(s, sg, to, amount).After(s)
    case BurnCall(sg, from, amount) => Burn(s, sg, from, amount).After(s)
    case TransferCall(sg, from, to, amount) => Transfer(s, sg, from, to, amount).After(s)
    case ApproveCall(sg, from, spender, amount) => Approve(s, sg, from, spender, amount).After(s)
    case TransferFromCall(sg, spender, from, to, amount) =>
      TransferFrom(s, sg, spender, from, to, amount).After(s)
  }

  function Run(s: TokenState, invs: seq<Invocation>): TokenState
    decreases |invs|
  {
    if invs == [] then s else Run(Step(s, invs[0]), invs[1..])
  }

  lemma StepPreservesValid(s: TokenState, inv: Invocation)
    requires Valid(s)
    ensures Valid(Step(s, inv))
  {
    match inv
    case InitializeCall(sg, admin, name, symbol, decimals) =>
      InitializePreservesValid(s, sg, admin, name, symbol, decimals);
    case MintCall(sg, to, amount) => MintPreservesValid(s, sg, to, amount);
    case BurnCall(sg, from, amount) => BurnPreservesValid(s, sg, from, amount);
    case TransferCall(sg, from, to, amount) => TransferPreservesValid(s, sg, from, to, amount);
    case ApproveCall(sg, from, spender, amount) => ApprovePreservesValid(s, sg, from, spender, amount);
    case TransferFromCall(sg, spender, from, to, amount) =>
      TransferFromPreservesValid(s, sg, spender, from, to, amount);
  }

  lemma {:induction false} RunPreservesValid(s: TokenState, invs: seq<Invocation>)
    requires Valid(s)
    ensures Valid(Run(s, invs))
    decreases |invs|
  {
    if invs != [] {
      StepPreservesValid(s, invs[0]);
      RunPreservesValid(Step(s, invs[0]), invs[1..]);
    }
  }

  /** After any history of invocations on a fresh deployment, the total
      supply is the sum of all balances and no balance is negative. */
  lemma SupplyIsSumOfBalances(invs: seq<Invocation>)
    ensures Sum(Run(Fresh, invs).balances) == TotalSupply(Run(Fresh, invs))
    ensures forall a :: 0 <= Balance(Run(Fresh, invs), a)
  {
    FreshIsValid();
    RunPreservesValid(Fresh, invs);
  }

  // ---------------------------------------------------------------------
  // Overflow checks that the invariant makes unreachable

  lemma TransferNeverOverflows(s: TokenState, signers: set<Address>, from: Address, to: Address,
                               amount: I128)
    requires Valid(s)
    ensures Transfer(s, signers, from, to, amount) != Fail(Contract(OverflowError))
    ensures Transfer(s, signers, from, to, amount).Ok? <==>
              amount > 0 && from != to && from in signers && amount <= Balance(s, from)
  {
    if from != to {
      SumBoundsPair(s.balances, from, to);
    }
  }

  lemma TransferFromNeverOverflows(s: TokenState, signers: set<Address>, spender: Address,
                                   from: Address, to: Address, amount: I128)
    requires Valid(s)
    ensures TransferFrom(s, signers, spender, from, to, amount) != Fail(Contract(OverflowError))
    ensures TransferFrom(s, signers, spender, from, to, amount).Ok? <==>
              && amount > 0 && from != to && spender in signers
              && amount <= Allowance(s, from, spender) && amount <= Balance(s, from)
  {
    if from != to {
      SumBoundsPair(s.balances, from, to);
    }
  }

  lemma BurnNeverOverflows(s: TokenState, signers: set<Address>, from: Address, amount: I128)
    requires Valid(s)
    ensures Burn(s, signers, from, amount) != Fail(Contract(OverflowError))
    ensures Burn(s, signers, from, amount).Ok? <==>
              amount > 0 && from in signers && amount <= Balance(s, from)
  {
    ReadBoundedBySum(s.balances, from);
  }

  /** The balance check in `mint` is subsumed by the supply check: mint
      overflows exactly when the supply would. */
  lemma MintOverflowIsSupplyOverflow(s: TokenState, signers: set<Address>, to: Address,
                                     amount: I128)
    requires Valid(s)
    requires amount > 0 && s.admin.Some? && s.admin.value in signers
    ensures Mint(s, signers, to, amount) == Fail(Contract(OverflowError)) <==>
              TotalSupply(s) + amount > I128_MAX
  {
    ReadBoundedBySum(s.balances, to);
  }

  // ---------------------------------------------------------------------
  // Inverses

  /** Burning what was just minted restores the storage exactly. */
  lemma BurnUndoesMint(s: TokenState, signers: set<Address>, to: Address, amount: I128)
    requires Valid(s)
    requires Mint(s, signers, to, amount).Ok?
    requires to in signers
    ensures Burn(Mint(s, signers, to, amount).state, signers, to, amount) == Ok(s, ())
  {
    var t := Mint(s, signers, to, amount).state;
    var r := Burn(t, signers, to, amount);
    var m := Put(t.balances, to, Balance(s, to));
    assert m == s.balances;
  }

  /** Sending the same amount back restores the storage exactly. */
  lemma TransferBackUndoesTransfer(s: TokenState, signers: set<Address>, from: Address,
                                   to: Address, amount: I128)
    requires Valid(s)
    requires Transfer(s, signers, from, to, amount).Ok?
    requires to in signers
    ensures Transfer(Transfer(s, signers, from, to, amount).state, signers, to, from, amount)
              == Ok(s, ())
  {
    var t := Transfer(s, signers, from, to, amount).state;
    SumBoundsPair(s.balances, from, to);
    var m := Put(t.balances, to, Balance(s, to));
    var m' := m[from := Balance(s, from)];
    assert m' == s.balances;
  }

  /** `approve` overwrites: a second approval replaces the first one as if
      the first had never happened. */
  lemma ApproveOverwrites(s: TokenState, signers: set<Address>, from: Address, spender: Address,
                          first: I128, second: I128)
    requires Approve(s, signers, from, spender, first).Ok?
    ensures Approve(Approve(s, signers, from, spender, first).state, signers, from, spender, second)
              == Approve(s, signers, from, spender, second)
  {
    var t := Approve(s, signers, from, spender, first).state;
    if second >= 0 {
      var key := (from, spender);
      assert Put(t.allowances, key, second) == Put(s.allowances, key, second);
    }
  }

  /** What `transfer_from` does to balances is exactly what `from`'s own
      `transfer` would do; it differs only in spending the allowance. */
  lemma TransferFromMovesLikeTransfer(s: TokenState, signers: set<Address>, spender: Address,
                                      from: Address, to: Address, amount: I128)
    requires TransferFrom(s, signers, spender, from, to, amount).Ok?
    ensures Transfer(s, {from}, from, to, amount).Ok?
    ensures TransferFrom(s, signers, spender, from, to, amount).state.balances
              == Transfer(s, {from}, from, to, amount).state.balances
  {
  }
}
