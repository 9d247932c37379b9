/**
 * Consuming iteration over a homogeneous list: `PopOptional` detaches the
 * head, and `IntoIter::next` repeatedly takes its stored list, pops it and
 * stores the rest back. The boxed `dyn PopOptional<T>` of the library is
 * the list value itself here, with the element type `itemTy` as the
 * bound it was boxed under.
 */
module Iteration {

  import opened HLists
  import opened Erasure
  import opened RustStd

  /**
   * `PopOptional<T>::pop_optional` on a list whose elements all have type
   * `t`: the head and the tail, or `None` and `Nil` again on `Nil`.
   */
  function PopOptional(l: HList<Elem>, t: Ty): (r: (Option<Elem>, HList<Elem>))
    requires All(l, t)
    ensures All(r.1, t)
    ensures r.0 == if Elements(l) == [] then None else Some(Elements(l)[0])
    ensures Elements(r.1) == if Elements(l) == [] then [] else Elements(l)[1..]
    ensures r.0.Some? ==> r.0.value.ty == t
  {
    match l
    case Nil => (None, Nil)
    case Cons(value, tail) => (Some(value), tail)
  }

  /** The bound of `IntoIterator`: `Nil`, or a head type every tail element shares. */
  predicate Homogeneous(l: HList<Elem>)
  {
    l.Nil? || All(l.tail, l.head.ty)
  }

  /** `IntoIterator::Item`: `()` for `Nil`, the head's type for `Cons`. */
  function ItemType(l: HList<Elem>): Ty
  {
    if l.Nil? then Unit else l.head.ty
  }

  class IntoIter {
    var list: Option<HList<Elem>>
    const itemTy: Ty

    ghost predicate Valid()
      reads this
    {
      list.Some? ==> All(list.value, itemTy)
    }

    /** The elements still to be produced. */
    ghost function Remaining(): seq<Elem>
      reads this
    {
      if list.None? then [] else Elements(list.value)
    }

    /** `IntoIterator::into_iter` for `Nil` and `Cons`: stores the whole list. */
    constructor (l: HList<Elem>)
      requires Homogeneous(l)
      ensures Valid()
      ensures list == Some(l) && itemTy == ItemType(l)
      ensures Remaining() == Elements(l)
    {
      list := Some(l);
      itemTy := ItemType(l);
    }

    /**
     * `Iterator::next`: the next element in list order and one element
     * fewer to go; once nothing remains, `None` and still nothing.
     */
    method Next() returns (item: Option<Elem>)
      requires Valid()
      modifies this
      ensures Valid()
      ensures old(Remaining()) == [] ==> item == None && Remaining() == []
      ensures old(Remaining()) != [] ==> item == Some(old(Remaining())[0]) && Remaining() == old(Remaining())[1..]
      ensures item.Some? ==> item.value.ty == itemTy
    {
      var taken := list;
      list := None;
      if taken.None? {
        return None;
      }
      var (value, rest) := PopOptional(taken.value, itemTy);
      list := Some(rest);
      item := value;
    }
  }

  /** A client: `list![1, 2, 3].into_iter()` yields 1, 2, 3 and then `None`, and goes on yielding `None`. */
  method IterateListOfThree() returns (items: seq<Option<Elem>>)
    ensures items == [Some(Elem(Named("i32"), Data(1))), Some(Elem(Named("i32"), Data(2))),
                      Some(Elem(Named("i32"), Data(3))), None, None]
  {
    var i32 := Named("i32");
    var l := ListMacro([Elem(i32, Data(1)), Elem(i32, Data(2)), Elem(i32, Data(3))]);
    var it := new IntoIter(l);
    items := [];
    while |items| < 5
      invariant it.Valid() && |items| <= 5
      invariant it.Remaining() == Elements(l)[if |items| < 3 then |items| else 3..]
      invariant forall k :: 0 <= k < |items| ==> items[k] == if k < 3 then Some(Elements(l)[k]) else None
      decreases 5 - |items|
    {
      var x := it.Next();
      items := items + [x];
    }
  }
}
