/**
 * The tagged element type of a heterogeneous list and the shape-preserving
 * conversions of the library: `AsRefList`, `AsMutList` (each element seen
 * through a shared or a mutable reference) and `ToDynBox`, `AsDynRef`,
 * `AsDynMut` (each element erased behind `Box<dyn Any>`, `&dyn Any` or
 * `&mut dyn Any`), plus the `All<T>` bound.
 *
 * An element is an `Elem`: its static type `ty` and its content. A
 * reference has the pointee's content under a reference type; an erased
 * handle keeps the original value, which is what lets std's downcast
 * compare the requested type with the original one.
 */
module Erasure {

  import opened Numerals
  import opened HLists
  import opened RustStd

  datatype Ty =
    | Named(name: string)
    | Unit
    | Ref(target: Ty)
    | RefMut(target: Ty)
    | BoxDynAny
    | RefDynAny
    | RefMutDynAny

  datatype Elem = Elem(ty: Ty, content: Content)

  datatype Content = Data(bits: int) | Erased(inner: Elem)

  /** The five views a conversion can put on an element. */
  datatype View = SharedRef | MutRef | DynBox | DynRef | DynMut

  function ViewOf(v: Elem, view: View): Elem
  {
    match view
    case SharedRef => Elem(Ref(v.ty), v.content)
    case MutRef => Elem(RefMut(v.ty), v.content)
    case DynBox => Elem(BoxDynAny, Erased(v))
    case DynRef => Elem(RefDynAny, Erased(v))
    case DynMut => Elem(RefMutDynAny, Erased(v))
  }

  /** The pointee of a shared or mutable reference. */
  function Deref(v: Elem): Elem
  {
    match v.ty
    case Ref(t) => Elem(t, v.content)
    case RefMut(t) => Elem(t, v.content)
    case _ => v
  }

  /** std's downcast of an erased handle to `t`: the original value if it has type `t`, nothing otherwise. */
  function Downcast(v: Elem, t: Ty): Option<Elem>
  {
    if v.content.Erased? && v.content.inner.ty == t then Some(v.content.inner) else None
  }

  /** `All<T>`: every element has static type `t` (`Nil` qualifies for every `t`). */
  predicate All(l: HList<Elem>, t: Ty)
    ensures All(l, t) <==> forall i :: 0 <= i < |Elements(l)| ==> Elements(l)[i].ty == t
  {
    match l
    case Nil => true
    case Cons(h, tl) =>
      assert Elements(l)[0] == h;
      assert forall i :: 0 < i < |Elements(l)| ==> Elements(l)[i] == Elements(tl)[i - 1];
      assert forall j :: 0 <= j < |Elements(tl)| ==> Elements(tl)[j] == Elements(l)[j + 1];
      h.ty == t && All(tl, t)
  }

  /** The common recursion of the five conversion traits: `Nil` to `Nil`, `Cons(h, t)` to `Cons(view of h, conversion of t)`. */
  function ViewAll(l: HList<Elem>, view: View): (r: HList<Elem>)
    ensures |Elements(r)| == |Elements(l)|
    ensures forall i :: 0 <= i < |Elements(l)| ==> Elements(r)[i] == ViewOf(Elements(l)[i], view)
  {
    match l
    case Nil => Nil
    case Cons(h, t) => Cons(ViewOf(h, view), ViewAll(t, view))
  }

  /** `AsRefList::as_ref_list`: same length; element `i` is a `&` to element `i`. */
  function AsRefList(l: HList<Elem>): (r: HList<Elem>)
    ensures Length(r) == Length(l)
    ensures forall i :: 0 <= i < |Elements(l)| ==>
      Elements(r)[i].ty == Ref(Elements(l)[i].ty) && Deref(Elements(r)[i]) == Elements(l)[i]
  {
    ViewAll(l, SharedRef)
  }

  /** `AsMutList::as_mut_list`: same length; element `i` is a `&mut` to element `i`. */
  function AsMutList(l: HList<Elem>): (r: HList<Elem>)
    ensures Length(r) == Length(l)
    ensures forall i :: 0 <= i < |Elements(l)| ==>
      Elements(r)[i].ty == RefMut(Elements(l)[i].ty) && Deref(Elements(r)[i]) == Elements(l)[i]
  {
    ViewAll(l, MutRef)
  }

  /**
   * `ToDynBox::to_dyn_box`: a list of `Box<dyn Any>` (its output satisfies
   * `All<Box<dyn Any>>`) of the same length, whose element `i` downcasts
   * back to element `i` at its own type and to nothing at any other type.
   */
  function ToDynBox(l: HList<Elem>): (r: HList<Elem>)
    ensures Length(r) == Length(l) && All(r, BoxDynAny)
    ensures forall i, t :: 0 <= i < |Elements(l)| ==>
      Downcast(Elements(r)[i], t) == if t == Elements(l)[i].ty then Some(Elements(l)[i]) else None
  {
    ViewAll(l, DynBox)
  }

  /** `AsDynRef::as_dyn_ref`: as `ToDynBox`, with `&dyn Any` handles. */
  function AsDynRef(l: HList<Elem>): (r: HList<Elem>)
    ensures Length(r) == Length(l) && All(r, RefDynAny)
    ensures forall i, t :: 0 <= i < |Elements(l)| ==>
      Downcast(Elements(r)[i], t) == if t == Elements(l)[i].ty then Some(Elements(l)[i]) else None
  {
    ViewAll(l, DynRef)
  }

  /** `AsDynMut::as_dyn_mut`: as `ToDynBox`, with `&mut dyn Any` handles. */
  function AsDynMut(l: HList<Elem>): (r: HList<Elem>)
    ensures Length(r) == Length(l) && All(r, RefMutDynAny)
    ensures forall i, t :: 0 <= i < |Elements(l)| ==>
      Downcast(Elements(r)[i], t) == if t == Elements(l)[i].ty then Some(Elements(l)[i]) else None
  {
    ViewAll(l, DynMut)
  }

  /** The static type at each position of a list. */
  function Types(l: HList<Elem>): (ts: seq<Ty>)
    ensures |ts| == Length(l)
    ensures forall i :: 0 <= i < |ts| ==> ts[i] == Elements(l)[i].ty
  {
    match l
    case Nil => []
    case Cons(h, t) => [h.ty] + Types(t)
  }

  /**
   * Writing through `get_mut` a value of the position's own type, the only
   * write Rust accepts, leaves the static type of every position unchanged.
   */
  lemma SetAtKeepsTypes(l: HList<Elem>, p: Nat, v: Elem)
    requires Value(p) < Length(l) && v.ty == Get(l, p).ty
    ensures Types(SetAt(l, p, v)) == Types(l)
  {
  }

  /** The same for `get_optional_mut`; out of range nothing is written. */
  lemma ReplaceOptionalKeepsTypes(l: HList<Elem>, p: Nat, v: Elem)
    requires Value(p) < Length(l) ==> v.ty == Get(l, p).ty
    ensures Types(ReplaceOptional(l, p, v).1) == Types(l)
  {
  }
}
