/**
 * The nightly extensions: type-level booleans `TTrue` / `TFalse` with
 * `Or`, the type equality `IsEqual`, list membership `Contains` and the
 * element-wise `Map`. Type equality is equality of the elements' `Ty`
 * tags. The callable given to `Map` is an `FnMut`: it is modelled as a
 * function of the callable's state and the element, returning the new
 * state and the result, and `Map` threads that state through the calls.
 */
module Nightly {

  import opened HLists
  import opened Erasure

  datatype TBool = TTrue | TFalse
  {
    /** `TBool::VALUE`: true for `TTrue`, false for `TFalse`. */
    function Value(): (b: bool)
      ensures b <==> this.TTrue?
    {
      this == TTrue
    }

    /** `TBool::Or`: `TTrue` whatever the right operand, `TFalse` yields the right operand. */
    function Or(other: TBool): (r: TBool)
      ensures r.Value() == (Value() || other.Value())
    {
      match this
      case TTrue => TTrue
      case TFalse => other
    }
  }

  /** `IsEqual<U>` for `T`: `TTrue` for the same type, `TFalse` (the default impl) otherwise. */
  function IsEqual(t: Ty, u: Ty): (r: TBool)
    ensures r.Value() <==> t == u
  {
    if t == u then TTrue else TFalse
  }

  /**
   * `Contains<T>`: `TFalse` on `Nil`, and on `Cons` the head's `IsEqual`
   * or-ed with the tail's answer; true exactly when some element has type `t`.
   */
  function Contains(l: HList<Elem>, t: Ty): (r: TBool)
    ensures r.Value() <==> exists i :: 0 <= i < |Elements(l)| && Elements(l)[i].ty == t
  {
    match l
    case Nil => TFalse
    case Cons(h, tl) =>
      assert Elements(l)[0] == h;
      assert forall j :: 0 <= j < |Elements(tl)| ==> Elements(tl)[j] == Elements(l)[j + 1];
      IsEqual(h.ty, t).Or(Contains(tl, t))
  }

  /**
   * `Map<F>::map`: `Nil` to `Nil`; on `Cons`, the callable is applied to
   * the head first and the tail is mapped with the callable as that call
   * left it. Returns the mapped list and the callable's final state.
   */
  function Map<S, A, B>(l: HList<A>, f: (S, A) -> (S, B), s: S): (r: (HList<B>, S))
    ensures Length(r.0) == Length(l)
  {
    match l
    case Nil => (Nil, s)
    case Cons(h, t) =>
      var (s1, b) := f(s, h);
      var (rest, s2) := Map(t, f, s1);
      (Cons(b, rest), s2)
  }

  /**
   * The outputs of calling `f` on each element of `xs` in order, starting
   * from state `s` and passing each call the state the previous call left,
   * together with the final state.
   */
  function Outputs<S, A, B>(f: (S, A) -> (S, B), s: S, xs: seq<A>): (r: (seq<B>, S))
    ensures |r.0| == |xs|
    decreases |xs|
  {
    if xs == [] then ([], s)
    else
      var (s1, b) := f(s, xs[0]);
      var (bs, s2) := Outputs(f, s1, xs[1..]);
      ([b] + bs, s2)
  }

  /**
   * For every callable, `Map` produces the outputs of the calls made in
   * list order, each call seeing the state left by the one before, and
   * ends in the state the last call left.
   */
  lemma {:induction false} MapThreadsState<S, A, B>(l: HList<A>, f: (S, A) -> (S, B), s: S)
    ensures Elements(Map(l, f, s).0) == Outputs(f, s, Elements(l)).0
    ensures Map(l, f, s).1 == Outputs(f, s, Elements(l)).1
  {
    match l
    case Nil =>
    case Cons(h, t) =>
      assert Elements(l)[0] == h && Elements(l)[1..] == Elements(t);
      MapThreadsState(t, f, f(s, h).0);
  }

  /** A counter: each call returns the state and increments it. */
  function Counter<A>(): (f: (int, A) -> (int, int))
  {
    (n: int, a: A) => (n + 1, n)
  }

  /** Mapping with a counter that starts at `n` numbers the elements `n`, `n + 1`, … in list order. */
  lemma {:induction false} MapNumbers<A>(l: HList<A>, n: int)
    ensures |Elements(Map(l, Counter(), n).0)| == Length(l)
    ensures forall i :: 0 <= i < Length(l) ==> Elements(Map(l, Counter(), n).0)[i] == n + i
    ensures Map(l, Counter(), n).1 == n + Length(l)
  {
    match l
    case Nil =>
    case Cons(h, t) =>
      assert Counter()(n, h) == (n + 1, n);
      MapNumbers(t, n + 1);
      var rest := Map(t, Counter(), n + 1).0;
      assert Map(l, Counter(), n).0 == Cons(n, rest);
      assert Elements(Map(l, Counter(), n).0) == [n] + Elements(rest);
  }

  /** A callable that applies `g` and appends each argument it receives to its state. */
  function Recording<A, B>(g: A -> B): (f: (seq<A>, A) -> (seq<A>, B))
  {
    (log: seq<A>, a: A) => (log + [a], g(a))
  }

  /** `g` applied to each element of a sequence. */
  function Apply<A, B>(g: A -> B, xs: seq<A>): (ys: seq<B>)
    ensures |ys| == |xs|
    ensures forall i :: 0 <= i < |xs| ==> ys[i] == g(xs[i])
  {
    if xs == [] then [] else [g(xs[0])] + Apply(g, xs[1..])
  }

  /** Mapping with a recording callable: it has seen every element exactly once, in list order. */
  lemma {:induction false} MapCallsInOrder<A, B>(l: HList<A>, g: A -> B, log: seq<A>)
    ensures Map(l, Recording(g), log).1 == log + Elements(l)
  {
    match l
    case Nil =>
    case Cons(h, t) =>
      assert Recording(g)(log, h) == (log + [h], g(h));
      assert Map(l, Recording(g), log).1 == Map(t, Recording(g), log + [h]).1;
      MapCallsInOrder(t, g, log + [h]);
      assert log + [h] + Elements(t) == log + Elements(l);
  }

  /** Mapping with a callable whose result is `g` of its argument: element `i` of the output is `g` of element `i` of the input. */
  lemma {:induction false} MapAppliesToEach<A, B>(l: HList<A>, g: A -> B, log: seq<A>)
    ensures Elements(Map(l, Recording(g), log).0) == Apply(g, Elements(l))
  {
    match l
    case Nil =>
    case Cons(h, t) =>
      assert Recording(g)(log, h) == (log + [h], g(h));
      assert Map(l, Recording(g), log).0 == Cons(g(h), Map(t, Recording(g), log + [h]).0);
      MapAppliesToEach(t, g, log + [h]);
      assert Elements(l)[1..] == Elements(t);
  }
}
