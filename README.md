# tlist in Dafny

A model of the `tlist` heterogeneous-list library and its companion macro
crates. The library encodes natural numbers as types (`Zero`,
`Succ<N>`), builds lists whose elements have different types (`Nil`,
`Cons<Head, Tail>`), and indexes, inserts into and removes from them at
positions given by those type-level numbers. Two procedural macros
expand integer literals (`nat!`) and a small `+` / `*` expression
language (`expr!`) into numeral types. A nightly crate adds type-level
booleans, membership and `map`, and an attribute macro (`#[hkt]`) turns
a function into a struct implementing `FnOnce`, `FnMut` and `Fn`.

What is resolved by the Rust trait system at compile time is modelled as
functions over datatypes:

- a numeral type is a value of `datatype Nat = Zero | Succ(Nat)`;
- a list is `HList<E> = Nil | Cons(head, tail)`, generic in the element
  type. Heterogeneous lists are `HList<Elem>`, where each `Elem` carries
  its static type `Ty` as a tag. Type-level lists (`List!`) are
  `HList<Ty>`;
- a position for which no impl exists (`get` at or past the end, `insert`
  beyond the end) becomes a `requires`. The total operations
  (`get_optional`, `remove_optional`) have no precondition;
- `&T` / `&mut T` are the same content under a `Ref` / `RefMut` type.
  Writing through `get_mut` or `get_optional_mut` is a functional update
  of the list.

The iterator `IntoIter` is stateful and is a class. Its `Next` method
takes the stored list, pops it and stores the rest back. `nat!` is a
method with the source's loop. The rest is pure.

Files and modules:

- `rust_std.dfy` (`RustStd`): `Option`, `Result`.
- `numerals.dfy` (`Numerals`): `Nat`, `VALUE`, `Add`, `Mul` and their
  algebra.
- `optional.dfy` (`Optionals`): `TNone` / `TSome`, `to_option`.
- `hlist.dfy` (`HLists`): the list, `list!` / `List!`, and the positional
  operations with their round trips.
- `erasure.dfy` (`Erasure`): element tags, `All<T>`, and the reference
  and `dyn Any` conversions.
- `iteration.dfy` (`Iteration`): `PopOptional` and `IntoIter`.
- `nat_macros.dfy` (`NatMacros`): `nat!`, and the `expr!` parser,
  evaluator and meaning.
- `tlist_nightly.dfy` (`Nightly`): `TBool`, `IsEqual`, `Contains`, `Map`.
- `hkt.dfy` (`Hkt`): the `#[hkt]` expansion.

`into_iter` exists for `Nil` and for lists whose every element has the
head's type (tlist/src/lib.rs:392-447): `PopOptional<T>` is implemented
for `Nil` and, among non-empty lists, only for `Cons<T, Tail>`. A
heterogeneous list is iterated through `to_dyn_box`.

The round trip `remove(insert(l, p, v), p) == (v, l)` is proved for every
`p` up to the length.

## Model

| member | source | states |
|---|---|---|
| Numerals.Value | tlist/src/lib.rs:15-24 | `VALUE` is 0 exactly for `Zero`; for `Succ<N>` it is one more than `N`'s |
| Numerals.Add | tlist/src/lib.rs:16-28 | `VALUE` of `A::Add<B>` is `VALUE(A) + VALUE(B)` |
| Numerals.Mul | tlist/src/lib.rs:16-28 | `VALUE` of `A::Mul<B>` is `VALUE(A) * VALUE(B)` |
| Numerals.ValueInjective | tlist/src/lib.rs:11-28 | two numerals with the same `VALUE` are the same numeral, because `VALUE` is the nesting depth |
| Numerals.FromValueOfValue | tlist/src/lib.rs:16-28 | every numeral is the `k`-fold `Succ` around `Zero` for `k = VALUE` |
| Numerals.AddZeroRight | tlist/src/lib.rs:16-28 | `Zero` is a right identity of `Add` |
| Numerals.AddAssociative | tlist/src/lib.rs:16-28 | `Add` is associative |
| Numerals.AddCommutative | tlist/src/lib.rs:16-28 | `Add` is commutative |
| Numerals.MulOneLeft | tlist/src/lib.rs:16-28 | `Succ<Zero>::Mul<T>` is `T` |
| Numerals.MulDistributesOverAdd | tlist/src/lib.rs:16-28 | `Mul` distributes over `Add` |
| Optionals.ToOption | tlist/src/lib.rs:57-74 | `TSome(x)` becomes `Some(x)` and `TNone` becomes `None` |
| HLists.ListMacro | tlist/src/lib.rs:143-167 | `list![a, b, …]` / `List![A, B, …]` has the arguments as its elements in order, first at position `Zero`; no argument gives `Nil` |
| HLists.ListMacroOfElements | tlist/src/lib.rs:143-172 | every list is the `list!` of its elements, so two lists with the same elements are equal |
| HLists.Get | tlist/src/lib.rs:180-203 | `get` exists only below the length and yields the element at that position |
| HLists.SetAt | tlist/src/lib.rs:205-222 | writing through `get_mut` exists only below the length and changes exactly that element; the length is unchanged |
| HLists.SetAtThenGet | tlist/src/lib.rs:205-222 | after writing through `get_mut`, `get` at that position gives the new value and `get` at every other position the old one |
| Erasure.SetAtKeepsTypes | tlist/src/lib.rs:205-222 | writing through `get_mut` a value of the position's own type, the only write Rust accepts, leaves every position's static type unchanged |
| Erasure.ReplaceOptionalKeepsTypes | tlist/src/lib.rs:277-284 | the same for `get_optional_mut`; out of range nothing is written |
| HLists.GetOptional | tlist/src/lib.rs:224-275 | `get_optional` is total: `TSome(element)` exactly when the position is below the length, else `TNone` (on `Nil` always) |
| HLists.GetOptionalToOption | tlist/src/lib.rs:235-275 | `get_optional(..).to_option()` is `Some(get(..))` in range and `None` out of range |
| HLists.ReplaceOptional | tlist/src/lib.rs:231-284 | writing through `get_optional_mut`: in range, `TSome` of the old element and only that element replaced; out of range, `TNone` and the list unchanged |
| HLists.Insert | tlist/src/lib.rs:286-309 | `insert` exists up to the length (at `Zero` on every list, `Nil` included); the value lands at the position and the other elements keep their order |
| HLists.Push | tlist/src/lib.rs:107-112 | `push` puts the value in front and equals `insert` at `Zero` |
| HLists.Remove | tlist/src/lib.rs:311-338 | `remove` exists below the length; it returns the element at the position and the list without it, order kept |
| HLists.Pop | tlist/src/lib.rs:114-119 | `pop` is `remove` at `Zero`: the head and the tail |
| HLists.RemoveOptional | tlist/src/lib.rs:340-381 | `remove_optional` is total: in range the element in `TSome` and the list without it; out of range, and at every position of `Nil`, `TNone` and the unchanged list |
| HLists.RemoveInsert | tlist/src/lib.rs:292-338 | `remove(insert(l, p, v), p) == (v, l)` for every position up to the length |
| HLists.InsertRemove | tlist/src/lib.rs:292-338 | re-inserting what `remove` returned, at the same position, restores the list |
| HLists.RemoveOptionalAgreesWithRemove | tlist/src/lib.rs:318-381 | in range, `remove_optional` is `remove` with the removed value wrapped in `TSome` |
| Erasure.All | tlist/src/lib.rs:383-386 | `All<T>` holds exactly when every element has type `T`; it holds on `Nil` |
| Erasure.AsRefList | tlist/src/lib.rs:461-479 | `as_ref_list` keeps the length; element `i` is a `&` to element `i` |
| Erasure.AsMutList | tlist/src/lib.rs:481-499 | `as_mut_list` keeps the length; element `i` is a `&mut` to element `i` |
| Erasure.ToDynBox | tlist/src/lib.rs:513-537 | `to_dyn_box` keeps the length and gives a list of `Box<dyn Any>`; handle `i` downcasts to element `i` at that element's type and to nothing at any other type |
| Erasure.AsDynRef | tlist/src/lib.rs:539-557 | as `to_dyn_box`, with `&dyn Any` handles |
| Erasure.AsDynMut | tlist/src/lib.rs:559-577 | as `to_dyn_box`, with `&mut dyn Any` handles |
| Erasure.Types | tlist/src/lib.rs:383-386 | the static type at each position, one per element |
| Iteration.PopOptional | tlist/src/lib.rs:388-406 | on a list of one element type: `Nil` gives `(None, Nil)`, `Cons` gives the head and the tail; the tail keeps the element type |
| Iteration.IntoIter.constructor | tlist/src/lib.rs:423-447 | `into_iter` needs every element to have the head's type; the item type is `()` for `Nil` and the head's type otherwise, and all elements remain to be produced |
| Iteration.IntoIter.Next | tlist/src/lib.rs:408-421 | `next` yields the first remaining element and drops it; once nothing remains it yields `None` and keeps yielding `None`; every item has the item type |
| Iteration.IterateListOfThree | tlist/tests/iteration.rs:4-11 | `list![1, 2, 3].into_iter()` yields 1, 2, 3, then `None`, and goes on yielding `None` |
| NatMacros.NatMacro | nat-macros/src/lib.rs:8-23 | `nat!(n)` is the numeral with exactly `n` `Succ` layers (so `nat!(0)` is `Zero`); a literal outside `u64` (negative or too large) or a non-literal fails the build |
| NatMacros.ParseExpr | nat-macros/src/lib.rs:50-90 | parsing dispatches on the first token: `+` gives Add, `*` gives Mul, a parenthesis gives Paren, a type gives Type, and a comma or other token is an error; Add and Mul take the rest of the stream |
| NatMacros.ParseTerminated | nat-macros/src/lib.rs:50-66 | an empty stream is no operands; otherwise the first operand is what `ParseExpr` reads first, and its error is the whole result's |
| NatMacros.ParseInput | nat-macros/src/lib.rs:141-145 | `parse_macro_input!` succeeds exactly when one expression parses and no token is left; a leftover token is `UnexpectedToken` |
| NatMacros.ParseInputPrint | nat-macros/src/lib.rs:43-90 | parsing the printed form of an expression gives it back, for every expression whose unparenthesised `+` / `*` forms are last operands |
| NatMacros.Eval | nat-macros/src/lib.rs:92-139 | evaluation never fails |
| NatMacros.EvalAll | nat-macros/src/lib.rs:96-122 | evaluating the operands never fails and gives one result per operand |
| NatMacros.ExprMacro | nat-macros/src/lib.rs:141-150 | `expr!` emits a compile error exactly when parsing fails, and that error is the parse error |
| NatMacros.EvalMeaning | nat-macros/src/lib.rs:92-139 | the expansion of every expression resolves to the numeral whose `VALUE` is the expression's arithmetic meaning: sums for `+` (0 for none), products for `*` (1 for none), parentheses transparent |
| NatMacros.FoldAddMeaning | nat-macros/src/lib.rs:96-108 | the `Add` fold from a seed has the value of the seed plus the sum of the operands |
| NatMacros.FoldMulMeaning | nat-macros/src/lib.rs:110-122 | the `Mul` fold from a seed has the value of the seed times the product of the operands |
| NatMacros.ExprMacroMeaning | nat-macros/src/lib.rs:141-150 | whatever parses, `expr!` expands to a type whose `VALUE` is the input's arithmetic meaning |
| NatMacros.ExprOnePlusTwo | tlist/tests/proc_macro.rs:9-17 | `expr!(+ One, Two)` has value 3 |
| NatMacros.ExprTwoTimesTwo | tlist/tests/proc_macro.rs:10-18 | `expr!(* Two, Two)` has value 4 |
| NatMacros.ExprOnePlusTwoPlusThree | tlist/tests/proc_macro.rs:12-20 | `expr!(+ One, Two, Three)` has value 6 |
| NatMacros.ExprOnePlusTwoTimesThree | tlist/tests/proc_macro.rs:13-21 | `expr!(+ One, (* Two, Three))` has value 7 |
| Nightly.TBool.Value | tlist-nightly/src/lib.rs:5-22 | `VALUE` is true exactly for `TTrue` |
| Nightly.TBool.Or | tlist-nightly/src/lib.rs:5-24 | `Or` is disjunction of the `VALUE`s: `TTrue.Or(T)` is true, `TFalse.Or(T)` is `T` |
| Nightly.IsEqual | tlist-nightly/src/lib.rs:26-36 | `IsEqual` is `TTrue` exactly when the two types are the same |
| Nightly.Contains | tlist-nightly/src/lib.rs:38-52 | `Contains<T>` is true exactly when some element has type `T` (so false on `Nil`) |
| Nightly.Map | tlist-nightly/src/lib.rs:54-78 | `map` keeps the length |
| Nightly.MapThreadsState | tlist-nightly/src/lib.rs:60-78 | for every `FnMut` callable, the mapped list is the outputs of the calls made in list order, each call starting from the state the previous call left, and the callable ends in the last call's state |
| Nightly.MapNumbers | tlist-nightly/src/lib.rs:60-78 | with a counter callable starting at `n`, element `i` of the mapped list is `n + i` and the counter ends at `n` plus the length |
| Nightly.MapAppliesToEach | tlist-nightly/src/lib.rs:60-78 | for a callable whose result is `g` of its argument, element `i` of the mapped list is `g` of element `i` |
| Nightly.MapCallsInOrder | tlist-nightly/src/lib.rs:68-78 | the callable is called once per element, head before tail, so a stateful `FnMut` sees the elements in list order |
| Hkt.TypedParams | tlist-macros/src/lib.rs:28-39 | the filter keeps only typed parameters, each as its (pattern, type) pair, and keeps them all when there is no receiver |
| Hkt.TypedParamsAppend | tlist-macros/src/lib.rs:28-40 | the parameter filter keeps order: the filter of a concatenation is the concatenation of the filters |
| Hkt.TypedParamsSingle | tlist-macros/src/lib.rs:33-39 | a receiver is dropped and a typed parameter is kept as its (pattern, type) pair |
| Hkt.Unzip | tlist-macros/src/lib.rs:28-40 | the pattern list and the type list have one entry per typed parameter, pattern `k` and type `k` from parameter `k` |
| Hkt.OutputType | tlist-macros/src/lib.rs:61-68 | `Output` is the declared return type, or `()` when none is declared |
| Hkt.HktMacro | tlist-macros/src/lib.rs:12-235 | a struct named after the function and exactly three impls for it: `FnOnce`, `FnMut`, `Fn` with `call_once` (`self`), `call_mut` (`&mut self`), `call` (`&self`); only `FnOnce` has `type Output`, before its method; each carries the function's generics, takes the parameter-type tuple with the matching pattern tuple, returns `<Self as FnOnce<Args>>::Output` and runs the function's body |
| Hkt.AdapterCallMatchesFunction | tlist-macros/src/lib.rs:42-59 | calling the struct through any of the three impls binds the function's parameter patterns to the same arguments as calling the function, and runs the same body |

## Left out

- Rust lifetimes and borrowing. A reference is modelled as its referent's content under a reference type. The associated types `AsRef<'a>` / `AsMut<'a>` of `Optional` turn `TSome<T>` into `TSome<&T>` / `TSome<&mut T>`. They are left out because, with a reference modelled as its referent's content, `GetOptional` already returns what they carry.
- Aliasing through `&mut`. Writing through `get_mut` and `get_optional_mut` is modelled as a functional update (`SetAt`, `ReplaceOptional`), not as a live reference into the list. `as_mut_list` and `as_dyn_mut` also hand out `&mut` references into the list. `AsMutList` and `AsDynMut` return relabelled copies, so writing through their elements is not modelled.
- HLists.SetAt: generic in the element type, so on `HList<Elem>` it also accepts a value whose static type differs from the position's, which Rust rejects. That the types stay unchanged is stated only for well-typed writes, by `Erasure.SetAtKeepsTypes`.
- HLists.ReplaceOptional: accepts a value of another static type for the same reason. `Erasure.ReplaceOptionalKeepsTypes` states type preservation for well-typed writes.
- Width of `VALUE`. `VALUE` is a `usize` in the source and an unbounded `nat` here; a numeral deeper than `usize::MAX` is not modelled.
- `Box<dyn Any>` and `TypeId` are std machinery. An erased handle keeps the original tagged value, and a downcast compares tags. The boxed `dyn PopOptional` inside `IntoIter` is the list value itself.
- Trait resolution and specialization are not modelled. A missing impl is a `requires`, and `IsEqual`'s default / specialised impls are a tag comparison.
- Token-level details of `syn` / `quote` are abstracted. A bare type in `expr!` is a single token, and a parenthesised group is a single token tree. The expansion is a term datatype, not tokens. When input has several syntax errors, the model reports the first one found, while `syn` may report a leftover token inside parentheses later. Spans and `to_compile_error` are left out.
- Name resolution in `expr!` is outside the macro. What each bare type name denotes is a parameter (`env`), and an undefined name, which is a later compiler error, is not modelled.
- Token syntax of `list!` / `List!` (trailing commas) is left out. The macros are modelled on the sequence of their arguments.
- For `#[hkt]`, the `extern "rust-call"` ABI is kept only as a string. The `#[allow(non_camel_case_types)]` attribute on the struct and the macro's unused attribute argument are left out.
- `(&list).into_iter()` and `(&mut list).into_iter()` appear in the iteration tests, but the library source defines no such impls, so they are not modelled.
- The `my_print` test callable prints, so it is not modelled. The order in which `map` calls a callable is stated with a recording callable instead. `Cons::new` in `map` is plain `Cons` construction.
