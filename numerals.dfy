/**
 * Type-level natural numbers (`Zero`, `Succ<N>`) and the associated
 * `VALUE` constant and `Add` / `Mul` type functions of trait `Nat`.
 * A numeral type is modelled as a value of the datatype `Nat`; the
 * trait's associated types become functions defined, like the impls,
 * by recursion on the left operand.
 */
module Numerals {

  datatype Nat = Zero | Succ(pred: Nat)

  /** `Nat::VALUE`: zero for `Zero`, one more than the inner numeral for `Succ`. */
  function Value(n: Nat): (v: nat)
    ensures v == 0 <==> n == Zero
  {
    match n
    case Zero => 0
    case Succ(m) => Value(m) + 1
  }

  /** The numeral with exactly `k` `Succ` layers around `Zero`. */
  function FromValue(k: nat): (n: Nat)
    ensures Value(n) == k
  {
    if k == 0 then Zero else Succ(FromValue(k - 1))
  }

  /** `<A as Nat>::Add<B>`: `Zero + T = T`, `Succ<N> + T = Succ<N + T>`. */
  function Add(a: Nat, b: Nat): (r: Nat)
    ensures Value(r) == Value(a) + Value(b)
  {
    match a
    case Zero => b
    case Succ(n) => Succ(Add(n, b))
  }

  /** `<A as Nat>::Mul<B>`: `Zero * T = Zero`, `Succ<N> * T = (N * T) + T`. */
  function Mul(a: Nat, b: Nat): (r: Nat)
    ensures Value(r) == Value(a) * Value(b)
  {
    match a
    case Zero => Zero
    case Succ(n) =>
      assert (Value(n) + 1) * Value(b) == Value(n) * Value(b) + Value(b);
      Add(Mul(n, b), b)
  }

  /** Two numerals with the same `VALUE` are the same type. */
  lemma {:induction false} ValueInjective(a: Nat, b: Nat)
    requires Value(a) == Value(b)
    ensures a == b
  {
    match a
    case Zero =>
    case Succ(m) =>
      ValueInjective(m, b.pred);
  }

  /** `FromValue` is the only numeral of its value. */
  lemma {:induction false} FromValueOfValue(n: Nat)
    ensures FromValue(Value(n)) == n
  {
    ValueInjective(FromValue(Value(n)), n);
  }

  /** `Zero` is a right identity of `Add` (it is a left identity by definition). */
  lemma {:induction false} AddZeroRight(a: Nat)
    ensures Add(a, Zero) == a
  {
    ValueInjective(Add(a, Zero), a);
  }

  lemma {:induction false} AddAssociative(a: Nat, b: Nat, c: Nat)
    ensures Add(Add(a, b), c) == Add(a, Add(b, c))
  {
    ValueInjective(Add(Add(a, b), c), Add(a, Add(b, c)));
  }

  lemma {:induction false} AddCommutative(a: Nat, b: Nat)
    ensures Add(a, b) == Add(b, a)
  {
    ValueInjective(Add(a, b), Add(b, a));
  }

  /** `Succ<Zero>` is a left identity of `Mul`, the seed of the `*` fold. */
  lemma {:induction false} MulOneLeft(a: Nat)
    ensures Mul(Succ(Zero), a) == a
  {
    ValueInjective(Mul(Succ(Zero), a), a);
  }

  lemma {:induction false} MulDistributesOverAdd(a: Nat, b: Nat, c: Nat)
    ensures Mul(a, Add(b, c)) == Add(Mul(a, b), Mul(a, c))
  {
    var x, y, z := Value(a), Value(b), Value(c);
    assert x * (y + z) == x * y + x * z;
    ValueInjective(Mul(a, Add(b, c)), Add(Mul(a, b), Mul(a, c)));
  }
}
