/**
 * The `#[hkt]` attribute macro. It turns a function
 * `fn name<generics>(p1: T1, …, pn: Tn) -> R { body }` into a unit struct
 * `name` and three impls `FnOnce<(T1, …, Tn)>`, `FnMut<…>` and `Fn<…>`
 * whose methods `call_once`, `call_mut` and `call` destructure the
 * argument tuple with the pattern `(p1, …, pn)` and run `body`.
 *
 * Syntax trees are abstract: types, patterns and receivers keep what the
 * expansion depends on; generics and the body are opaque and are copied.
 */
module Hkt {

  import opened RustStd

  datatype RType =
    | PathType(path: string)
    | TupleType(elems: seq<RType>)
    | FnOnceOutput(args: RType)  // `<Self as FnOnce<args>>::Output`

  datatype Pat = IdentPat(name: string) | WildPat | TuplePat(elems: seq<Pat>)

  /** `self` (no reference), `&self`, `&mut self`, `mut self`. */
  datatype Receiver = Receiver(reference: bool, mutable: bool)

  datatype FnArg = ReceiverArg(receiver: Receiver) | TypedArg(pat: Pat, ty: RType)

  /** The generic parameter list and the body, as written; the macro only copies them. */
  type Generics = seq<string>
  type Block = seq<string>

  datatype ItemFn = ItemFn(name: string, generics: Generics, inputs: seq<FnArg>, output: Option<RType>, body: Block)

  datatype ImplMethod = ImplMethod(name: string, abi: string, receiver: Receiver, argPat: Pat, argTy: RType, ret: RType, body: Block)

  datatype ImplItem = OutputItem(ty: RType) | MethodItem(call: ImplMethod)

  datatype ItemImpl = ItemImpl(generics: Generics, traitName: string, traitArg: RType, selfTy: string, items: seq<ImplItem>)

  /** The emitted unit struct and the impls for it, in order. */
  datatype Expansion = Expansion(structName: string, impls: seq<ItemImpl>)

  const FnTraits: seq<string> := ["FnOnce", "FnMut", "Fn"]
  const CallMethods: seq<string> := ["call_once", "call_mut", "call"]
  const CallReceivers: seq<Receiver> := [Receiver(false, false), Receiver(true, true), Receiver(true, false)]

  /** The `filter_map` over the inputs: each typed parameter as a (pattern, type) pair, receivers dropped. */
  function TypedParams(inputs: seq<FnArg>): (r: seq<(Pat, RType)>)
    ensures |r| <= |inputs|
    ensures forall q :: q in r ==> TypedArg(q.0, q.1) in inputs
    ensures (forall i :: 0 <= i < |inputs| ==> inputs[i].TypedArg?) ==> |r| == |inputs|
  {
    if inputs == [] then []
    else
      (match inputs[0]
       case ReceiverArg(_) => []
       case TypedArg(p, t) => [(p, t)]) + TypedParams(inputs[1..])
  }

  /** `TypedParams` keeps the parameters' order: it maps a concatenation to the concatenation of its parts. */
  lemma {:induction false} TypedParamsAppend(a: seq<FnArg>, b: seq<FnArg>)
    ensures TypedParams(a + b) == TypedParams(a) + TypedParams(b)
  {
    if a != [] {
      assert (a + b)[0] == a[0];
      assert (a + b)[1..] == a[1..] + b;
      TypedParamsAppend(a[1..], b);
    } else {
      assert a + b == b;
    }
  }

  /** A receiver is dropped and a typed parameter is kept as it is. */
  lemma TypedParamsSingle(arg: FnArg)
    ensures TypedParams([arg]) == if arg.ReceiverArg? then [] else [(arg.pat, arg.ty)]
  {
    assert [arg][1..] == [];
  }

  /** `unzip`: the patterns and the types, position `k` of each coming from pair `k`. */
  function Unzip(ps: seq<(Pat, RType)>): (r: (seq<Pat>, seq<RType>))
    ensures |r.0| == |ps| && |r.1| == |ps|
    ensures forall k :: 0 <= k < |ps| ==> (r.0[k], r.1[k]) == ps[k]
  {
    if ps == [] then ([], [])
    else
      var (pats, tys) := Unzip(ps[1..]);
      ([ps[0].0] + pats, [ps[0].1] + tys)
  }

  /** The `Output` type: the declared return type, or `()` when none is declared. */
  function OutputType(output: Option<RType>): (t: RType)
    ensures output.Some? ==> t == output.value
    ensures output.None? ==> t == TupleType([])
  {
    match output
    case None => TupleType([])
    case Some(t) => t
  }

  /** The method of an impl, which is its last item. */
  function MethodOf(impl: ItemImpl): ImplMethod
    requires impl.items != [] && impl.items[|impl.items| - 1].MethodItem?
  {
    impl.items[|impl.items| - 1].call
  }

  /**
   * `impl` takes the parameters `params` as one tuple: its trait argument
   * is the tuple of their types, and its method destructures that tuple
   * with the tuple of their patterns, pattern `k` paired with type `k`.
   */
  predicate TakesParams(impl: ItemImpl, params: seq<(Pat, RType)>)
  {
    && impl.traitArg.TupleType?
    && |impl.traitArg.elems| == |params|
    && (forall k :: 0 <= k < |params| ==> impl.traitArg.elems[k] == params[k].1)
    && impl.items != [] && impl.items[|impl.items| - 1].MethodItem?
    && MethodOf(impl).argTy == impl.traitArg
    && MethodOf(impl).argPat.TuplePat?
    && |MethodOf(impl).argPat.elems| == |params|
    && (forall k :: 0 <= k < |params| ==> MethodOf(impl).argPat.elems[k] == params[k].0)
  }

  /** The impl at index `i` of the expansion. */
  function MakeImpl(f: ItemFn, patterns: seq<Pat>, argTy: RType, i: nat): ItemImpl
    requires i < 3
  {
    var call := ImplMethod(CallMethods[i], "rust-call", CallReceivers[i], TuplePat(patterns), argTy, FnOnceOutput(argTy), f.body);
    var outputItems := if i == 0 then [OutputItem(OutputType(f.output))] else [];
    ItemImpl(f.generics, FnTraits[i], argTy, f.name, outputItems + [MethodItem(call)])
  }

  /**
   * `#[hkt]`: a struct named after the function and exactly three impls
   * for it, `FnOnce`, `FnMut`, `Fn` in that order, with methods
   * `call_once` (by `self`), `call_mut` (by `&mut self`) and `call` (by
   * `&self`). Only the `FnOnce` impl declares `type Output`, before its
   * method. Every impl carries the function's generics and takes the
   * function's typed parameters as one tuple; every method returns
   * `<Self as FnOnce<Args>>::Output` and runs the function's body.
   */
  function HktMacro(f: ItemFn): (x: Expansion)
    ensures x.structName == f.name
    ensures |x.impls| == 3
    ensures forall i :: 0 <= i < 3 ==>
      && x.impls[i].traitName == FnTraits[i]
      && x.impls[i].selfTy == x.structName
      && x.impls[i].generics == f.generics
      && TakesParams(x.impls[i], TypedParams(f.inputs))
      && |x.impls[i].items| == (if i == 0 then 2 else 1)
      && MethodOf(x.impls[i]).name == CallMethods[i]
      && MethodOf(x.impls[i]).receiver == CallReceivers[i]
      && MethodOf(x.impls[i]).ret == FnOnceOutput(x.impls[i].traitArg)
      && MethodOf(x.impls[i]).body == f.body
    ensures x.impls[0].items[0] == OutputItem(OutputType(f.output))
  {
    var (patterns, argTypes) := Unzip(TypedParams(f.inputs));
    var argTy := TupleType(argTypes);
    Expansion(f.name, seq(3, i requires 0 <= i < 3 => MakeImpl(f, patterns, argTy, i)))
  }

  /** The bindings a call `name(a1, …, an)` makes: pattern `k` of the function's typed parameters to argument `k`. */
  function CallBindings<V>(params: seq<(Pat, RType)>, args: seq<V>): seq<(Pat, V)>
    requires |args| == |params|
  {
    seq(|args|, k requires 0 <= k < |args| => (params[k].0, args[k]))
  }

  /** The bindings a method makes when it destructures the argument tuple `(a1, …, an)` with its pattern. */
  function TupleBindings<V>(pat: Pat, args: seq<V>): Option<seq<(Pat, V)>>
  {
    if pat.TuplePat? && |pat.elems| == |args| then Some(seq(|args|, k requires 0 <= k < |args| => (pat.elems[k], args[k])))
    else None
  }

  /**
   * Calling the struct through any of the three impls with the argument
   * tuple binds the same patterns to the same arguments as calling the
   * function, and runs the same body.
   */
  lemma AdapterCallMatchesFunction<V>(f: ItemFn, i: nat, args: seq<V>)
    requires i < 3 && |args| == |TypedParams(f.inputs)|
    ensures TupleBindings(MethodOf(HktMacro(f).impls[i]).argPat, args) == Some(CallBindings(TypedParams(f.inputs), args))
    ensures MethodOf(HktMacro(f).impls[i]).body == f.body
  {
    var params := TypedParams(f.inputs);
    var m := MethodOf(HktMacro(f).impls[i]);
    assert TakesParams(HktMacro(f).impls[i], params);
    var bound := seq(|args|, k requires 0 <= k < |args| => (m.argPat.elems[k], args[k]));
    assert bound == CallBindings(params, args);
  }
}
