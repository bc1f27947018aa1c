/** Host-side notions shared by the three contracts: fixed-width integer
    bounds, addresses, the outcome of one contract invocation, Rust's checked
    arithmetic, the byte length of a host `String`, and the validity rule of a
    host `Symbol`.

    A contract entry point is modelled as a pure transition from the storage
    it sees to either a new storage plus a return value, or a failure. A
    failure reverts the whole invocation, so the caller keeps the old storage
    (`Call.After`). */
module Soroban {

  const I128_MIN: int := -0x8000_0000_0000_0000_0000_0000_0000_0000
  const I128_MAX: int := 0x7fff_ffff_ffff_ffff_ffff_ffff_ffff_ffff
  const U32_MAX: int := 0xffff_ffff

  /** Rust `i128` */
  type I128 = x: int | I128_MIN <= x <= I128_MAX
  /** Rust `u32` */
  type U32 = x: int | 0 <= x <= U32_MAX

  /** An account or contract address; its encoding is irrelevant here. */
  datatype Address = Address(id: string)

  /** A storage read that may find no entry (`get` returns `Option`). */
  datatype Option<T> = None | Some(value: T) {
    /** Rust's `unwrap_or`: the stored value, or `default` when absent. */
    function UnwrapOr(default: T): T {
      if Some? then value else default
    }
  }

  /** Why an invocation was reverted: a typed contract error
      (`panic_with_error!` or a returned `Err`), an untyped panic with its
      message (`panic!`, `expect`), a `require_auth` that the given
      address did not sign, or an error raised by the host itself. */
  datatype Failure<+E> =
    | Contract(code: E)
    | Panic(message: string)
    | AuthRejected(signer: Address)
    | Host(error: HostError)

  /** Errors the host raises on its own behalf, without a contract message:
      text that is not a valid `Symbol`, and a TTL extension of a storage
      entry that does not exist. */
  datatype HostError = InvalidSymbol | MissingValue

  /** Outcome of one invocation against storage of type S. */
  datatype Call<S, +R, +E> = Ok(state: S, value: R) | Fail(failure: Failure<E>) {
    /** The storage after the invocation: a failure reverts every write. */
    function After(before: S): S {
      if Ok? then state else before
    }
  }

  /** `i128::checked_add` */
  function CheckedAdd(a: I128, b: I128): (r: Option<I128>)
    ensures r.Some? <==> a + b <= I128_MAX && I128_MIN <= a + b
    ensures r.Some? ==> r.value - b == a
  {
    if I128_MIN <= a + b <= I128_MAX then Some(a + b) else None
  }

  /** `i128::checked_sub` */
  function CheckedSub(a: I128, b: I128): (r: Option<I128>)
    ensures r.Some? <==> a - b <= I128_MAX && I128_MIN <= a - b
    ensures r.Some? ==> r.value + b == a
  {
    if I128_MIN <= a - b <= I128_MAX then Some(a - b) else None
  }

  /** `u32::checked_add` */
  function CheckedAddU32(a: U32, b: U32): (r: Option<U32>)
    ensures r.Some? <==> a + b <= U32_MAX
    ensures r.Some? ==> r.value - b == a
  {
    if a + b <= U32_MAX then Some(a + b) else None
  }

  /** Number of bytes of one character in UTF-8. */
  function CharUtf8Len(c: char): nat {
    if c as int < 0x80 then 1
    else if c as int < 0x800 then 2
    else if c as int < 0x1_0000 then 3
    else 4
  }

  /** `String::len()` of a host string: its length in bytes, the text being
      UTF-8 encoded. */
  function Utf8Len(s: string): nat {
    if s == [] then 0 else CharUtf8Len(s[0]) + Utf8Len(s[1..])
  }

  predicate IsAscii(s: string) {
    forall i :: 0 <= i < |s| ==> s[i] as int < 0x80
  }

  /** The byte length lies between the character count and four times it;
      in particular it is zero exactly for the empty string, and it equals
      the character count for ASCII text. */
  lemma {:induction false} Utf8LenBounds(s: string)
    ensures |s| <= Utf8Len(s) <= 4 * |s|
    ensures Utf8Len(s) == 0 <==> s == []
    ensures IsAscii(s) ==> Utf8Len(s) == |s|
  {
    if s != [] {
      Utf8LenBounds(s[1..]);
      assert IsAscii(s) ==> IsAscii(s[1..]) by {
        if IsAscii(s) {
          forall i | 0 <= i < |s[1..]| ensures s[1..][i] as int < 0x80 {
            assert s[1..][i] == s[i + 1];
          }
        }
      }
    }
  }

  /** A string of two-byte characters has twice as many bytes. */
  lemma {:induction false} TwoByteLength(s: string)
    requires forall i :: 0 <= i < |s| ==> 0x80 <= s[i] as int < 0x800
    ensures Utf8Len(s) == 2 * |s|
  {
    if s != [] {
      TwoByteLength(s[1..]);
    }
  }

  const SYMBOL_MAX_LENGTH := 32

  predicate IsSymbolChar(c: char) {
    ('a' <= c <= 'z') || ('A' <= c <= 'Z') || ('0' <= c <= '9') || c == '_'
  }

  /** A host `Symbol` holds at most 32 characters from `[a-zA-Z0-9_]`. */
  predicate IsValidSymbol(s: string) {
    |s| <= SYMBOL_MAX_LENGTH && forall i :: 0 <= i < |s| ==> IsSymbolChar(s[i])
  }

  /** `Symbol::new`: `None` stands for its panic on text that is not a
      valid symbol. */
  function SymbolNew(s: string): (r: Option<string>)
    ensures r.Some? <==> IsValidSymbol(s)
    ensures r.Some? ==> r.value == s
  {
    if IsValidSymbol(s) then Some(s) else None
  }
}
