/**
 * The heterogeneous list `Nil` / `Cons<Head, Tail>` and its positional
 * operations. A position is a type-level numeral (`Numerals.Nat`); the
 * element type is a parameter, so that one definition serves the value
 * lists (`list!`) and the type lists (`List!`). A position for which the
 * trait system has no impl (for instance `Get` at or past the end) is a
 * `requires` clause here; the total operations (`GetOptional`,
 * `RemoveOptional`) have none.
 *
 * `Elements` is the abstraction used by every contract: the sequence of
 * the list's elements, head first.
 */
module HLists {

  import opened Numerals
  import opened Optionals
  import opened RustStd

  datatype HList<E> = Nil | Cons(head: E, tail: HList<E>)

  function Length<E>(l: HList<E>): nat
  {
    match l
    case Nil => 0
    case Cons(_, t) => Length(t) + 1
  }

  /** The elements of `l` in order, position `Zero` first. */
  function Elements<E>(l: HList<E>): (s: seq<E>)
    ensures |s| == Length(l)
  {
    match l
    case Nil => []
    case Cons(h, t) => [h] + Elements(t)
  }

  /**
   * `list![a, b, …]` (and, on types, `List![A, B, …]`): no argument gives
   * `Nil`, one gives `Cons(a, Nil)`, more give `Cons(a, list![b, …])`.
   */
  function ListMacro<E>(xs: seq<E>): (l: HList<E>)
    ensures Elements(l) == xs
  {
    if |xs| == 0 then Nil
    else if |xs| == 1 then Cons(xs[0], Nil)
    else Cons(xs[0], ListMacro(xs[1..]))
  }

  /** Every list is the `list!` of its elements, so a list is determined by its elements. */
  lemma {:induction false} ListMacroOfElements<E>(l: HList<E>)
    ensures ListMacro(Elements(l)) == l
  {
    match l
    case Nil =>
    case Cons(h, t) =>
      ListMacroOfElements(t);
      assert Elements(l)[1..] == Elements(t);
  }

  lemma {:induction false} ElementsInjective<E>(a: HList<E>, b: HList<E>)
    requires Elements(a) == Elements(b)
    ensures a == b
  {
    ListMacroOfElements(a);
    ListMacroOfElements(b);
  }

  /** `Get<N>::get`: defined only below the length; yields the element at that position. */
  function Get<E>(l: HList<E>, p: Nat): (e: E)
    requires Value(p) < Length(l)
    ensures e == Elements(l)[Value(p)]
  {
    match p
    case Zero => l.head
    case Succ(n) => Get(l.tail, n)
  }

  /**
   * Writing `v` through the reference `GetMut<N>::get_mut` hands out:
   * defined where `Get` is, and the new list differs from the old one
   * only at that position.
   */
  function SetAt<E>(l: HList<E>, p: Nat, v: E): (r: HList<E>)
    requires Value(p) < Length(l)
    ensures Elements(r) == Elements(l)[Value(p) := v]
  {
    match p
    case Zero => Cons(v, l.tail)
    case Succ(n) => Cons(l.head, SetAt(l.tail, n, v))
  }

  /** `GetOptional<N>::get_optional`: total; `TSome` of the element exactly when the position is in range. */
  function GetOptional<E>(l: HList<E>, p: Nat): (r: Optional<E>)
    ensures r.TSome? <==> Value(p) < Length(l)
    ensures r.TSome? ==> r.value == Elements(l)[Value(p)]
  {
    match l
    case Nil => TNone
    case Cons(h, t) =>
      match p
      case Zero => TSome(h)
      case Succ(n) => GetOptional(t, n)
  }

  /** `get_optional` agrees with `get` where `get` exists, and `to_option` turns it into `Option`. */
  lemma GetOptionalToOption<E>(l: HList<E>, p: Nat)
    ensures ToOption(GetOptional(l, p)) == if Value(p) < Length(l) then Some(Get(l, p)) else None
  {
  }

  /**
   * Writing `v` through `GetOptionalMut<N>::get_optional_mut`: in range,
   * `TSome` of the element that was there and the list with `v` in its
   * place; out of range (every position of `Nil`), `TNone` and the list
   * unchanged.
   */
  function ReplaceOptional<E>(l: HList<E>, p: Nat, v: E): (r: (Optional<E>, HList<E>))
    ensures Value(p) < Length(l) ==> r.0 == TSome(Elements(l)[Value(p)]) && r.1 == SetAt(l, p, v)
    ensures Length(l) <= Value(p) ==> r == (TNone, l)
  {
    match l
    case Nil => (TNone, Nil)
    case Cons(h, t) =>
      match p
      case Zero => (TSome(h), Cons(v, t))
      case Succ(n) =>
        var (was, t') := ReplaceOptional(t, n, v);
        (was, Cons(h, t'))
  }

  /**
   * `Insert<N, T>::insert`: defined for positions up to the length (at
   * `Zero` on every list, `Nil` included); `v` lands at the position and
   * the other elements keep their order.
   */
  function Insert<E>(l: HList<E>, p: Nat, v: E): (r: HList<E>)
    requires Value(p) <= Length(l)
    ensures Elements(r) == Elements(l)[..Value(p)] + [v] + Elements(l)[Value(p)..]
  {
    match p
    case Zero => Cons(v, l)
    case Succ(n) => Cons(l.head, Insert(l.tail, n, v))
  }

  /** `HList::push`: puts `v` in front, which is inserting at `Zero`. */
  function Push<E>(l: HList<E>, v: E): (r: HList<E>)
    ensures r == Insert(l, Zero, v)
    ensures Elements(r) == [v] + Elements(l)
  {
    Cons(v, l)
  }

  /**
   * `Remove<N>::remove`: defined below the length; the removed element and
   * the list without it, the others in their order.
   */
  function Remove<E>(l: HList<E>, p: Nat): (r: (E, HList<E>))
    requires Value(p) < Length(l)
    ensures r.0 == Elements(l)[Value(p)]
    ensures Elements(r.1) == Elements(l)[..Value(p)] + Elements(l)[Value(p) + 1..]
  {
    match p
    case Zero => (l.head, l.tail)
    case Succ(n) =>
      var (removed, t) := Remove(l.tail, n);
      (removed, Cons(l.head, t))
  }

  /** `HList::pop`: `remove` at `Zero`, the head and the tail. */
  function Pop<E>(l: HList<E>): (r: (E, HList<E>))
    requires l.Cons?
    ensures r == Remove(l, Zero)
    ensures [r.0] + Elements(r.1) == Elements(l)
  {
    Remove(l, Zero)
  }

  /**
   * `RemoveOptional<N>::remove_optional`: total. In range it is `remove`
   * with the element wrapped in `TSome`; out of range, and at every
   * position of `Nil`, it is `TNone` and the list unchanged.
   */
  function RemoveOptional<E>(l: HList<E>, p: Nat): (r: (Optional<E>, HList<E>))
    ensures Value(p) < Length(l) ==> r.0 == TSome(Elements(l)[Value(p)])
    ensures Value(p) < Length(l) ==> Elements(r.1) == Elements(l)[..Value(p)] + Elements(l)[Value(p) + 1..]
    ensures Length(l) <= Value(p) ==> r == (TNone, l)
  {
    match l
    case Nil => (TNone, Nil)
    case Cons(h, t) =>
      match p
      case Zero => (TSome(h), t)
      case Succ(n) =>
        var (removed, t') := RemoveOptional(t, n);
        (removed, Cons(h, t'))
  }

  /** Removing what was just inserted at the same position gives back the value and the list. */
  lemma {:induction false} RemoveInsert<E>(l: HList<E>, p: Nat, v: E)
    requires Value(p) <= Length(l)
    ensures Remove(Insert(l, p, v), p) == (v, l)
  {
    match p
    case Zero =>
    case Succ(n) =>
      RemoveInsert(l.tail, n, v);
  }

  /** Re-inserting a removed element at its position gives back the list. */
  lemma {:induction false} InsertRemove<E>(l: HList<E>, p: Nat)
    requires Value(p) < Length(l)
    ensures Insert(Remove(l, p).1, p, Remove(l, p).0) == l
  {
    match p
    case Zero =>
    case Succ(n) =>
      InsertRemove(l.tail, n);
  }

  /** In range, `remove_optional` is `remove` with the removed value in `TSome`. */
  lemma {:induction false} RemoveOptionalAgreesWithRemove<E>(l: HList<E>, p: Nat)
    requires Value(p) < Length(l)
    ensures RemoveOptional(l, p) == (TSome(Remove(l, p).0), Remove(l, p).1)
  {
    ElementsInjective(RemoveOptional(l, p).1, Remove(l, p).1);
  }

  /** Writing through `get_mut` and reading back at any position. */
  lemma SetAtThenGet<E>(l: HList<E>, p: Nat, v: E, q: Nat)
    requires Value(p) < Length(l) && Value(q) < Length(l)
    ensures Length(SetAt(l, p, v)) == Length(l)
    ensures Get(SetAt(l, p, v), q) == if Value(q) == Value(p) then v else Get(l, q)
  {
  }
}
