/** The greeting contract: a one-shot `initialize` that records an admin and
    zeroes the greeting counter, and `hello`, which validates the name's byte
    length and counts the greeting. The `UltimoSaludo(usuario)` entry is only
    ever TTL-extended, never written. */
module HelloTiburona {
  import opened Soroban

  /** The contract's error enum; `Code` gives its `#[repr(u32)]` values. */
  datatype Error = NombreVacio | NombreMuyLargo | NoAutorizado | NoInicializado

  function Code(e: Error): (r: U32)
    ensures 1 <= r <= 4
  {
    match e
    case NombreVacio => 1
    case NombreMuyLargo => 2
    case NoAutorizado => 3
    case NoInicializado => 4
  }

  lemma CodeInjective(a: Error, b: Error)
    ensures Code(a) == Code(b) <==> a == b
  {
  }

  datatype DataKey = Admin | ContadorSaludos | UltimoSaludo(usuario: Address)

  /** The three kinds of entry. The value type of `UltimoSaludo` is never
      fixed by the contract, since nothing writes it; text is assumed. */
  datatype HelloState = HelloState(
    admin: Option<Address>,
    contadorSaludos: Option<U32>,
    ultimoSaludo: map<Address, string>)

  type HelloCall<R> = Call<HelloState, R, Error>

  const Fresh := HelloState(None, None, map[])

  const MAX_NOMBRE_BYTES := 32
  const GREETING := "Hola Tiburona!"

  /** `storage().has(key)` */
  predicate Has(s: HelloState, k: DataKey) {
    match k
    case Admin => s.admin.Some?
    case ContadorSaludos => s.contadorSaludos.Some?
    case UltimoSaludo(u) => u in s.ultimoSaludo
  }

  /** The greeting counter, read with a default of 0. */
  function Greetings(s: HelloState): U32 {
    s.contadorSaludos.UnwrapOr(0)
  }

  function Initialize(s: HelloState, admin: Address): (r: HelloCall<()>)
    ensures Has(s, Admin) ==> r == Fail(Contract(NoInicializado))
    ensures !Has(s, Admin) ==> r.Ok?
    ensures r.Ok? ==>
              && r.state.admin == Some(admin)
              && Has(r.state, ContadorSaludos) && Greetings(r.state) == 0
              && r.state.ultimoSaludo == s.ultimoSaludo
  {
    if Has(s, Admin) then Fail(Contract(NoInicializado))
    else Ok(s.(admin := Some(admin), contadorSaludos := Some(0)), ())
  }

  predicate ValidNombre(nombre: string) {
    0 < Utf8Len(nombre) <= MAX_NOMBRE_BYTES
  }

  /** `hello` as evidently intended: it returns the greeting text, and the
      TTL extension of `UltimoSaludo(usuario)` is taken to happen only when
      that entry exists. The unchecked `contador + 1`, reached only by an
      accepted name, is only modelled below the maximum. */
  function Hello(s: HelloState, usuario: Address, nombre: string): (r: HelloCall<string>)
    requires ValidNombre(nombre) ==> Greetings(s) < U32_MAX
    ensures Utf8Len(nombre) == 0 ==> r == Fail(Contract(NombreVacio))
    ensures Utf8Len(nombre) > MAX_NOMBRE_BYTES ==> r == Fail(Contract(NombreMuyLargo))
    ensures r.Ok? <==> ValidNombre(nombre)
    ensures r.Ok? ==>
              && r.value == GREETING
              && Greetings(r.state) == Greetings(s) + 1
              && r.state.admin == s.admin
              && r.state.ultimoSaludo == s.ultimoSaludo
  {
    if Utf8Len(nombre) == 0 then Fail(Contract(NombreVacio))
    else if Utf8Len(nombre) > MAX_NOMBRE_BYTES then Fail(Contract(NombreMuyLargo))
    else Ok(s.(contadorSaludos := Some(Greetings(s) + 1)), GREETING)
  }

  /** `hello` as written: after counting, it extends the TTL of the
      `UltimoSaludo(usuario)` entry, which the host refuses when that entry
      does not exist (and nothing ever writes it), and then builds its return
      value with `Symbol::new`, which the host refuses because of the space
      and the '!' of the greeting. Either way every accepted name reverts the
      whole invocation. */
  function HelloAsWritten(s: HelloState, usuario: Address, nombre: string): (r: HelloCall<string>)
    requires ValidNombre(nombre) ==> Greetings(s) < U32_MAX
    ensures Utf8Len(nombre) == 0 ==> r == Fail(Contract(NombreVacio))
    ensures Utf8Len(nombre) > MAX_NOMBRE_BYTES ==> r == Fail(Contract(NombreMuyLargo))
  {
    if Utf8Len(nombre) == 0 then Fail(Contract(NombreVacio))
    else if Utf8Len(nombre) > MAX_NOMBRE_BYTES then Fail(Contract(NombreMuyLargo))
    else
      var counted := s.(contadorSaludos := Some(Greetings(s) + 1));
      if !Has(counted, UltimoSaludo(usuario)) then Fail(Host(MissingValue))
      else
        match SymbolNew(GREETING)
        case Some(sym) => Ok(counted, sym)
        case None => Fail(Host(InvalidSymbol))
  }

  /** The as-written `hello` never succeeds, so the greeting counter never
      moves, whereas the corrected `Hello` accepts the same names. */
  lemma HelloAsWrittenAlwaysReverts(s: HelloState, usuario: Address, nombre: string)
    requires ValidNombre(nombre) ==> Greetings(s) < U32_MAX
    ensures HelloAsWritten(s, usuario, nombre).Fail?
    ensures HelloAsWritten(s, usuario, nombre).After(s) == s
    ensures ValidNombre(nombre) && !Has(s, UltimoSaludo(usuario)) ==>
              HelloAsWritten(s, usuario, nombre).failure == Host(MissingValue)
    ensures ValidNombre(nombre) && Has(s, UltimoSaludo(usuario)) ==>
              HelloAsWritten(s, usuario, nombre).failure == Host(InvalidSymbol)
    ensures ValidNombre(nombre) ==> Hello(s, usuario, nombre).Ok?
  {
    assert !IsSymbolChar(GREETING[4]);
  }

  /** A successful `hello` changes nothing but the greeting counter. */
  lemma HelloWritesOnlyTheCounter(s: HelloState, usuario: Address, nombre: string, k: DataKey)
    requires ValidNombre(nombre) ==> Greetings(s) < U32_MAX
    requires Hello(s, usuario, nombre).Ok?
    requires k != ContadorSaludos
    ensures Has(Hello(s, usuario, nombre).state, k) == Has(s, k)
    ensures Hello(s, usuario, nombre).state.(contadorSaludos := s.contadorSaludos) == s
  {
  }

  /** A second `initialize` fails whatever admin it is given, and leaves the
      stored admin and counter as the first one set them. */
  lemma InitializeOnlyOnce(s: HelloState, first: Address, second: Address)
    requires Initialize(s, first).Ok?
    ensures var t := Initialize(s, first).state;
            && Initialize(t, second) == Fail(Contract(NoInicializado))
            && Initialize(t, second).After(t).admin == Some(first)
            && Greetings(Initialize(t, second).After(t)) == 0
            && Code(Initialize(t, second).failure.code) == 4
  {
  }

  /** Number of names in a sequence that `hello` accepts. */
  function Accepted(nombres: seq<string>): nat {
    if nombres == [] then 0
    else (if ValidNombre(nombres[0]) then 1 else 0) + Accepted(nombres[1..])
  }

  /** The storage after calling `hello` once per name, failures reverting. */
  function GreetAll(s: HelloState, usuario: Address, nombres: seq<string>): HelloState
    requires Greetings(s) + Accepted(nombres) <= U32_MAX
    decreases |nombres|
  {
    if nombres == [] then s
    else
      var t := Hello(s, usuario, nombres[0]).After(s);
      GreetAll(t, usuario, nombres[1..])
  }

  /** The counter counts exactly the accepted greetings, even without a
      prior `initialize`, and the admin is never touched. */
  lemma {:induction false} CounterCountsAcceptedGreetings(s: HelloState, usuario: Address,
                                                         nombres: seq<string>)
    requires Greetings(s) + Accepted(nombres) <= U32_MAX
    ensures Greetings(GreetAll(s, usuario, nombres)) == Greetings(s) + Accepted(nombres)
    ensures GreetAll(s, usuario, nombres).admin == s.admin
    ensures GreetAll(s, usuario, nombres).ultimoSaludo == s.ultimoSaludo
    decreases |nombres|
  {
    if nombres != [] {
      var t := Hello(s, usuario, nombres[0]).After(s);
      CounterCountsAcceptedGreetings(t, usuario, nombres[1..]);
    }
  }

  /** Boundary cases of the name check. */
  lemma NameLengthBoundary(s: HelloState, usuario: Address)
    requires Greetings(s) < U32_MAX
    ensures Hello(s, usuario, "") == Fail(Contract(NombreVacio))
    ensures Code(Hello(s, usuario, "").failure.code) == 1
    ensures Hello(s, usuario, seq(32, _ => 'a')).Ok?
    ensures Hello(s, usuario, seq(33, _ => 'a')) == Fail(Contract(NombreMuyLargo))
    ensures Code(Hello(s, usuario, seq(33, _ => 'a')).failure.code) == 2
    ensures Hello(s, usuario, seq(16, _ => '\U{f1}')).Ok?
    ensures Hello(s, usuario, seq(17, _ => '\U{f1}')) == Fail(Contract(NombreMuyLargo))
  {
    Utf8LenBounds(seq(32, _ => 'a'));
    Utf8LenBounds(seq(33, _ => 'a'));
    TwoByteLength(seq(16, _ => '\U{f1}'));
    TwoByteLength(seq(17, _ => '\U{f1}'));
  }
}
