/** The Token BDB fungible token: one-shot initialisation with metadata,
    admin mint, holder burn, direct transfer, allowances with `approve` and
    `transfer_from`, and read-only getters that default to 0 or "".

    Storage is a record. The instance entries written by `initialize` are
    `Option`s, so that "key present" and "key absent" stay distinct as they are
    in the host; balances and allowances are the persistent entries, and an
    entry that would hold 0 is removed exactly where the contract removes it. */
module TokenBdb {
  import opened Soroban

  const MAX_DECIMALS := 18
  const MAX_NAME_LENGTH := 100
  const MAX_SYMBOL_LENGTH := 32

  datatype TokenError =
    | AlreadyInitialized
    | InvalidMetadata
    | InvalidDecimals
    | InvalidAmount
    | OverflowError
    | InsufficientBalance
    | InvalidRecipient
    | InsufficientAllowance

  datatype TokenState = TokenState(
    initialized: bool,
    admin: Option<Address>,
    name: Option<string>,
    symbol: Option<string>,
    decimals: Option<U32>,
    totalSupply: Option<I128>,
    balances: map<Address, I128>,
    allowances: map<(Address, Address), I128>)

  type TokenCall<R> = Call<TokenState, R, TokenError>

  /** Storage of a freshly deployed contract: nothing written yet. */
  const Fresh := TokenState(false, None, None, None, None, None, map[], map[])

  /** A persistent amount entry read with `unwrap_or(0)`. */
  function Read<K(!new)>(m: map<K, I128>, k: K): I128 {
    if k in m then m[k] else 0
  }

  /** Write an amount entry, removing it instead when the amount is 0. */
  function Put<K(!new)>(m: map<K, I128>, k: K, v: I128): (r: map<K, I128>)
    ensures Read(r, k) == v
    ensures forall j :: j != k ==> Read(r, j) == Read(m, j)
    ensures r.Keys <= m.Keys + {k}
    ensures k in r <==> v != 0
  {
    if v == 0 then m - {k} else m[k := v]
  }

  // ---------------------------------------------------------------------
  // Getters

  /** `balance`: the stored amount, or 0 when the entry is absent. */
  function Balance(s: TokenState, id: Address): (r: I128)
    ensures id in s.balances ==> r == s.balances[id]
    ensures id !in s.balances ==> r == 0
  {
    Read(s.balances, id)
  }

  /** `allowance`: the stored amount, or 0 when the entry is absent. */
  function Allowance(s: TokenState, from: Address, spender: Address): (r: I128)
    ensures (from, spender) in s.allowances ==> r == s.allowances[(from, spender)]
    ensures (from, spender) !in s.allowances ==> r == 0
  {
    Read(s.allowances, (from, spender))
  }

  /** `name`: "" until initialised, then the stored name. */
  function Name(s: TokenState): (r: string)
    ensures !s.initialized || s.name.None? ==> r == ""
    ensures s.initialized && s.name.Some? ==> r == s.name.value
  {
    if !s.initialized then "" else s.name.UnwrapOr("")
  }

  /** `symbol`: "" until initialised, then the stored symbol. */
  function Symbol(s: TokenState): (r: string)
    ensures !s.initialized || s.symbol.None? ==> r == ""
    ensures s.initialized && s.symbol.Some? ==> r == s.symbol.value
  {
    if !s.initialized then "" else s.symbol.UnwrapOr("")
  }

  /** `decimals`: 0 until initialised, then the stored decimals. */
  function Decimals(s: TokenState): (r: U32)
    ensures !s.initialized || s.decimals.None? ==> r == 0
    ensures s.initialized && s.decimals.Some? ==> r == s.decimals.value
  {
    if !s.initialized then 0 else s.decimals.UnwrapOr(0)
  }

  /** `total_supply`: the stored supply, or 0 when absent. */
  function TotalSupply(s: TokenState): (r: I128)
    ensures s.totalSupply.None? ==> r == 0
    ensures s.totalSupply.Some? ==> r == s.totalSupply.value
  {
    s.totalSupply.UnwrapOr(0)
  }

  /** `admin`: the stored admin, or a panic when none was stored. A getter
      leaves storage as it found it. */
  function Admin(s: TokenState): (r: TokenCall<Address>)
    ensures r.Ok? <==> s.admin.Some?
    ensures r.Ok? ==> r.state == s && r.value == s.admin.value
    ensures r.Fail? ==> r.failure == Panic("Admin not initialized")
  {
    match s.admin
    case Some(a) => Ok(s, a)
    case None => Fail(Panic("Admin not initialized"))
  }

  // ---------------------------------------------------------------------
  // Entry points. `signers` is the set of addresses that authorised the
  // invocation; `require_auth(a)` succeeds exactly when `a` is in it.

  predicate ValidMetadata(name: string, symbol: string) {
    && 0 < Utf8Len(name) <= MAX_NAME_LENGTH
    && 0 < Utf8Len(symbol) <= MAX_SYMBOL_LENGTH
  }

  function Initialize(s: TokenState, signers: set<Address>, admin: Address,
                      name: string, symbol: string, decimals: U32): (r: TokenCall<()>)
    ensures s.initialized ==> r == Fail(Contract(AlreadyInitialized))
    ensures !s.initialized && !ValidMetadata(name, symbol) ==> r == Fail(Contract(InvalidMetadata))
    ensures !s.initialized && ValidMetadata(name, symbol) && decimals > MAX_DECIMALS ==>
              r == Fail(Contract(InvalidDecimals))
    ensures (!s.initialized && ValidMetadata(name, symbol) && decimals <= MAX_DECIMALS
             && admin !in signers) ==> r == Fail(AuthRejected(admin))
    ensures r.Ok? <==> !s.initialized && ValidMetadata(name, symbol)
                       && decimals <= MAX_DECIMALS && admin in signers
    ensures r.Ok? ==>
              && r.state.initialized
              && Admin(r.state).Ok? && Admin(r.state).value == admin
              && Name(r.state) == name && Symbol(r.state) == symbol
              && Decimals(r.state) == decimals && TotalSupply(r.state) == 0
              && r.state.balances == s.balances && r.state.allowances == s.allowances
  {
    if s.initialized then Fail(Contract(AlreadyInitialized))
    else if Utf8Len(name) == 0 || Utf8Len(name) > MAX_NAME_LENGTH then Fail(Contract(InvalidMetadata))
    else if Utf8Len(symbol) == 0 || Utf8Len(symbol) > MAX_SYMBOL_LENGTH then Fail(Contract(InvalidMetadata))
    else if decimals > MAX_DECIMALS then Fail(Contract(InvalidDecimals))
    else if admin !in signers then Fail(AuthRejected(admin))
    else
      Ok(s.(initialized := true, admin := Some(admin), name := Some(name),
            symbol := Some(symbol), decimals := Some(decimals), totalSupply := Some(0)), ())
  }

  function Mint(s: TokenState, signers: set<Address>, to: Address, amount: I128): (r: TokenCall<()>)
    ensures amount <= 0 ==> r == Fail(Contract(InvalidAmount))
    ensures amount > 0 && s.admin.None? ==> r == Fail(Panic("Token not initialized"))
    ensures amount > 0 && s.admin.Some? && s.admin.value !in signers ==>
              r == Fail(AuthRejected(s.admin.value))
    ensures r.Ok? <==> amount > 0 && s.admin.Some? && s.admin.value in signers
                       && Balance(s, to) + amount <= I128_MAX
                       && TotalSupply(s) + amount <= I128_MAX
    ensures r.Fail? && amount > 0 && s.admin.Some? && s.admin.value in signers ==>
              r == Fail(Contract(OverflowError))
    ensures r.Ok? ==>
              && Balance(r.state, to) == Balance(s, to) + amount
              && TotalSupply(r.state) == TotalSupply(s) + amount
              && (forall a :: a != to ==> Balance(r.state, a) == Balance(s, a))
              && r.state.(balances := s.balances, totalSupply := s.totalSupply) == s
  {
    if amount <= 0 then Fail(Contract(InvalidAmount))
    else if s.admin.None? then Fail(Panic("Token not initialized"))
    else if s.admin.value !in signers then Fail(AuthRejected(s.admin.value))
    else
      match CheckedAdd(Balance(s, to), amount)
      case None => Fail(Contract(OverflowError))
      case Some(newBalance) =>
        match CheckedAdd(TotalSupply(s), amount)
        case None => Fail(Contract(OverflowError))
        case Some(newSupply) =>
          Ok(s.(balances := s.balances[to := newBalance], totalSupply := Some(newSupply)), ())
  }

  function Burn(s: TokenState, signers: set<Address>, from: Address, amount: I128): (r: TokenCall<()>)
    ensures amount <= 0 ==> r == Fail(Contract(InvalidAmount))
    ensures amount > 0 && from !in signers ==> r == Fail(AuthRejected(from))
    ensures amount > 0 && from in signers && Balance(s, from) < amount ==>
              r == Fail(Contract(InsufficientBalance))
    ensures r.Ok? <==> amount > 0 && from in signers && amount <= Balance(s, from)
                       && I128_MIN <= TotalSupply(s) - amount
    ensures r.Fail? && amount > 0 && from in signers && amount <= Balance(s, from) ==>
              r == Fail(Contract(OverflowError))
    ensures r.Ok? ==>
              && Balance(r.state, from) == Balance(s, from) - amount
              && TotalSupply(r.state) == TotalSupply(s) - amount
              && (forall a :: a != from ==> Balance(r.state, a) == Balance(s, a))
              && (Balance(r.state, from) == 0 ==> from !in r.state.balances)
              && r.state.(balances := s.balances, totalSupply := s.totalSupply) == s
  {
    if amount <= 0 then Fail(Contract(InvalidAmount))
    else if from !in signers then Fail(AuthRejected(from))
    else if Balance(s, from) < amount then Fail(Contract(InsufficientBalance))
    else
      var balances := Put(s.balances, from, Balance(s, from) - amount);
      match CheckedSub(TotalSupply(s), amount)
      case None => Fail(Contract(OverflowError))
      case Some(newSupply) => Ok(s.(balances := balances, totalSupply := Some(newSupply)), ())
  }

  function Transfer(s: TokenState, signers: set<Address>, from: Address, to: Address,
                    amount: I128): (r: TokenCall<()>)
    ensures amount <= 0 ==> r == Fail(Contract(InvalidAmount))
    ensures amount > 0 && from == to ==> r == Fail(Contract(InvalidRecipient))
    ensures amount > 0 && from != to && from !in signers ==> r == Fail(AuthRejected(from))
    ensures amount > 0 && from != to && from in signers && Balance(s, from) < amount ==>
              r == Fail(Contract(InsufficientBalance))
    ensures r.Ok? <==> amount > 0 && from != to && from in signers
                       && amount <= Balance(s, from) && Balance(s, to) + amount <= I128_MAX
    ensures r.Fail? && amount > 0 && from != to && from in signers && amount <= Balance(s, from) ==>
              r == Fail(Contract(OverflowError))
    ensures r.Ok? ==>
              && Balance(r.state, from) == Balance(s, from) - amount
              && Balance(r.state, to) == Balance(s, to) + amount
              && (forall a :: a != from && a != to ==> Balance(r.state, a) == Balance(s, a))
              && r.state.(balances := s.balances) == s
  {
    if amount <= 0 then Fail(Contract(InvalidAmount))
    else if from == to then Fail(Contract(InvalidRecipient))
    else if from !in signers then Fail(AuthRejected(from))
    else if Balance(s, from) < amount then Fail(Contract(InsufficientBalance))
    else
      var balances := Put(s.balances, from, Balance(s, from) - amount);
      match CheckedAdd(Read(balances, to), amount)
      case None => Fail(Contract(OverflowError))
      case Some(newTo) => Ok(s.(balances := balances[to := newTo]), ())
  }

  function Approve(s: TokenState, signers: set<Address>, from: Address, spender: Address,
                   amount: I128): (r: TokenCall<()>)
    ensures amount < 0 ==> r == Fail(Contract(InvalidAmount))
    ensures amount >= 0 && from !in signers ==> r == Fail(AuthRejected(from))
    ensures r.Ok? <==> amount >= 0 && from in signers
    ensures r.Ok? ==>
              && Allowance(r.state, from, spender) == amount
              && (amount == 0 ==> (from, spender) !in r.state.allowances)
              && (forall f, sp :: (f, sp) != (from, spender) ==>
                    Allowance(r.state, f, sp) == Allowance(s, f, sp))
              && r.state.(allowances := s.allowances) == s
  {
    if amount < 0 then Fail(Contract(InvalidAmount))
    else if from !in signers then Fail(AuthRejected(from))
    else Ok(s.(allowances := Put(s.allowances, (from, spender), amount)), ())
  }

  function TransferFrom(s: TokenState, signers: set<Address>, spender: Address, from: Address,
                        to: Address, amount: I128): (r: TokenCall<()>)
    ensures amount <= 0 ==> r == Fail(Contract(InvalidAmount))
    ensures amount > 0 && from == to ==> r == Fail(Contract(InvalidRecipient))
    ensures amount > 0 && from != to && spender !in signers ==> r == Fail(AuthRejected(spender))
    ensures amount > 0 && from != to && spender in signers && Allowance(s, from, spender) < amount ==>
              r == Fail(Contract(InsufficientAllowance))
    ensures (amount > 0 && from != to && spender in signers && amount <= Allowance(s, from, spender)
             && Balance(s, from) < amount) ==> r == Fail(Contract(InsufficientBalance))
    ensures r.Ok? <==> amount > 0 && from != to && spender in signers
                       && amount <= Allowance(s, from, spender) && amount <= Balance(s, from)
                       && Balance(s, to) + amount <= I128_MAX
    ensures (r.Fail? && amount > 0 && from != to && spender in signers
             && amount <= Allowance(s, from, spender) && amount <= Balance(s, from)) ==>
              r == Fail(Contract(OverflowError))
    ensures r.Ok? ==>
              && Balance(r.state, from) == Balance(s, from) - amount
              && Balance(r.state, to) == Balance(s, to) + amount
              && (forall a :: a != from && a != to ==> Balance(r.state, a) == Balance(s, a))
              && Allowance(r.state, from, spender) == Allowance(s, from, spender) - amount
              && (forall f, sp :: (f, sp) != (from, spender) ==>
                    Allowance(r.state, f, sp) == Allowance(s, f, sp))
              && r.state.(balances := s.balances, allowances := s.allowances) == s
  {
    if amount <= 0 then Fail(Contract(InvalidAmount))
    else if from == to then Fail(Contract(InvalidRecipient))
    else if spender !in signers then Fail(AuthRejected(spender))
    else if Allowance(s, from, spender) < amount then Fail(Contract(InsufficientAllowance))
    else if Balance(s, from) < amount then Fail(Contract(InsufficientBalance))
    else
      var balances := Put(s.balances, from, Balance(s, from) - amount);
      match CheckedAdd(Read(balances, to), amount)
      case None => Fail(Contract(OverflowError))
      case Some(newTo) =>
        var allowances := Put(s.allowances, (from, spender), Allowance(s, from, spender) - amount);
        Ok(s.(balances := balances[to := newTo], allowances := allowances), ())
  }

  // ---------------------------------------------------------------------
  // Properties relating several calls

  /** Before `initialize`, the metadata getters read their defaults. */
  lemma GettersBeforeInitialize(s: TokenState)
    requires !s.initialized
    ensures Name(s) == "" && Symbol(s) == "" && Decimals(s) == 0
  {
  }

  /** Once initialised, every later `initialize` fails with
      `AlreadyInitialized`, whatever its arguments and signers, and the
      metadata stays as the first call stored it. */
  lemma InitializeOnlyOnce(s: TokenState, signers: set<Address>, admin: Address, name: string,
                           symbol: string, decimals: U32, signers': set<Address>,
                           admin': Address, name': string, symbol': string, decimals': U32)
    requires Initialize(s, signers, admin, name, symbol, decimals).Ok?
    ensures var t := Initialize(s, signers, admin, name, symbol, decimals).state;
            && Initialize(t, signers', admin', name', symbol', decimals')
                 == Fail(Contract(AlreadyInitialized))
            && Name(t) == name && Symbol(t) == symbol && Decimals(t) == decimals
            && Admin(t).Ok? && Admin(t).value == admin
  {
  }
}
