/** The counter contract: one `u32` kept in instance storage under the key
    COUNTER, read with a default of 0, with increment, decrement (which
    panics at 0), reset and a checked `increment_by`. */
module Contador {
  import opened Soroban

  /** The COUNTER entry, absent until the first write. */
  datatype CounterState = CounterState(counter: Option<U32>)

  type CounterCall<R> = Call<CounterState, R, ()>

  const Fresh := CounterState(None)

  const DECREMENT_AT_ZERO := "No se puede decrementar: contador ya est\U{e1} en 0"
  const INCREMENT_BY_OVERFLOW := "Overflow: la suma excede el m\U{e1}ximo permitido (MAX u32)"

  function GetCount(s: CounterState): (r: U32)
    ensures s.counter.None? ==> r == 0
    ensures s.counter.Some? ==> r == s.counter.value
  {
    s.counter.UnwrapOr(0)
  }

  /** `increment`: the unchecked `+= 1` is only modelled below the maximum. */
  function Increment(s: CounterState): (r: CounterCall<U32>)
    requires GetCount(s) < U32_MAX
    ensures r.Ok?
    ensures r.value == GetCount(s) + 1
    ensures GetCount(r.state) == r.value
  {
    var c := GetCount(s) + 1;
    Ok(CounterState(Some(c)), c)
  }

  function Decrement(s: CounterState): (r: CounterCall<U32>)
    ensures r.Fail? <==> GetCount(s) == 0
    ensures r.Fail? ==> r.failure == Panic(DECREMENT_AT_ZERO)
    ensures r.Ok? ==> r.value + 1 == GetCount(s) && GetCount(r.state) == r.value
  {
    var c := GetCount(s);
    if c == 0 then Fail(Panic(DECREMENT_AT_ZERO))
    else Ok(CounterState(Some(c - 1)), c - 1)
  }

  function Reset(s: CounterState): (r: CounterCall<()>)
    ensures r.Ok? && GetCount(r.state) == 0 && r.state.counter.Some?
  {
    Ok(CounterState(Some(0)), ())
  }

  function IncrementBy(s: CounterState, amount: U32): (r: CounterCall<U32>)
    ensures r.Ok? <==> GetCount(s) + amount <= U32_MAX
    ensures r.Fail? ==> r.failure == Panic(INCREMENT_BY_OVERFLOW)
    ensures r.Ok? ==> r.value - amount == GetCount(s) && GetCount(r.state) == r.value
  {
    match CheckedAddU32(GetCount(s), amount)
    case None => Fail(Panic(INCREMENT_BY_OVERFLOW))
    case Some(c) => Ok(CounterState(Some(c)), c)
  }

  /** Reference behaviour: `n` successive calls of `increment`. */
  function IncrementTimes(s: CounterState, n: nat): CounterState
    requires GetCount(s) + n <= U32_MAX
    decreases n
  {
    if n == 0 then s else IncrementTimes(Increment(s).state, n - 1)
  }

  /** `increment_by(n)` stores what `n` increments would store. */
  lemma {:induction false} IncrementByIsRepeatedIncrement(s: CounterState, n: U32)
    requires GetCount(s) + n <= U32_MAX
    ensures IncrementBy(s, n).Ok?
    ensures GetCount(IncrementBy(s, n).state) == GetCount(IncrementTimes(s, n))
    ensures n > 0 ==> IncrementBy(s, n).state == IncrementTimes(s, n)
    decreases n
  {
    if n > 0 {
      var t := Increment(s).state;
      IncrementByIsRepeatedIncrement(t, n - 1);
    }
  }

  /** A decrement right after an increment never panics and restores the
      count. */
  lemma DecrementUndoesIncrement(s: CounterState)
    requires GetCount(s) < U32_MAX
    ensures Decrement(Increment(s).state).Ok?
    ensures Decrement(Increment(s).state).value == GetCount(s)
    ensures GetCount(Decrement(Increment(s).state).state) == GetCount(s)
  {
  }

  /** `reset` forgets the history: any two counters are in the same storage
      state after it, and the next `increment` returns 1. */
  lemma ResetForgetsHistory(s: CounterState, t: CounterState)
    ensures Reset(s).state == Reset(t).state
    ensures Increment(Reset(s).state).value == 1
  {
  }

  /** The in-file unit tests, as expected values. */
  lemma IncrementTest()
    ensures Increment(Fresh).value == 1
    ensures Increment(Increment(Fresh).state).value == 2
    ensures GetCount(Increment(Increment(Fresh).state).state) == 2
  {
  }

  lemma DecrementTest()
    ensures var s := Increment(Increment(Increment(Fresh).state).state).state;
            Decrement(s).value == 2 && GetCount(Decrement(s).state) == 2
  {
  }

  lemma DecrementPanicTest()
    ensures Decrement(Fresh).Fail?
    ensures GetCount(Decrement(Fresh).After(Fresh)) == 0
  {
  }

  lemma ResetTest()
    ensures GetCount(Reset(Increment(Increment(Fresh).state).state).state) == 0
  {
  }
}
