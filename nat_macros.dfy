/**
 * The two procedural macros of the numeral crate.
 *
 * `nat!(n)` expands an integer literal into `n` `Succ` layers around
 * `Zero`. `expr!(…)` parses a small prefix language over type names and
 * expands it into `Add` / `Mul` projections. Token streams are sequences
 * of `Tok`; a bare type is one `TypeTok`, and a parenthesised group is
 * one `ParenGroup` token tree. The expansion is a `Term`, the type
 * expression the macro emits; `Denote` is what the compiler resolves
 * that type to, given what each bare type name stands for.
 */
module NatMacros {

  import opened Numerals
  import opened RustStd

  // ---------------------------------------------------------------- nat!

  /** What `parse_macro_input!(input as LitInt)` sees: one integer literal, possibly negative, or anything else. */
  datatype NatInput = IntLiteral(digits: int) | OtherTokens

  /** Why `nat!` produces no numeral: the input is no integer literal, or `unwrap` panics on a value outside `u64` (negative or too large). */
  datatype NatError = NotAnIntegerLiteral | LiteralOutOfRange

  const U64_LIMIT: nat := 0x1_0000_0000_0000_0000

  /**
   * `nat!`: for a literal `n` that fits `u64`, the numeral with exactly
   * `n` `Succ` layers (so `nat!(0)` is `Zero`); otherwise the build fails.
   */
  method NatMacro(input: NatInput) returns (r: Result<Nat, NatError>)
    ensures input.OtherTokens? ==> r == Err(NotAnIntegerLiteral)
    ensures input.IntLiteral? && !(0 <= input.digits < U64_LIMIT) ==> r == Err(LiteralOutOfRange)
    ensures input.IntLiteral? && 0 <= input.digits < U64_LIMIT ==> r.Ok? && Value(r.value) == input.digits
  {
    if input.OtherTokens? {
      return Err(NotAnIntegerLiteral);
    }
    if input.digits < 0 || input.digits >= U64_LIMIT {
      return Err(LiteralOutOfRange);
    }
    var n := input.digits;
    var result := Zero;
    var i := 0;
    while i < n
      invariant 0 <= i <= n
      invariant Value(result) == i
    {
      result := Succ(result);
      i := i + 1;
    }
    return Ok(result);
  }

  // --------------------------------------------------------------- expr!

  datatype Tok =
    | PlusTok
    | StarTok
    | CommaTok
    | ParenGroup(inner: seq<Tok>)
    | TypeTok(name: string)
    | OtherTok

  /** `Expr` with its variants `Type`, `Add(ExprAdd)`, `Mul(ExprMul)` and `Paren(ExprParen)`. */
  datatype Expr =
    | TypeExpr(name: string)
    | AddExpr(operands: seq<Expr>)
    | MulExpr(operands: seq<Expr>)
    | ParenExpr(inner: Expr)

  /** syn's diagnostics: no type where one is needed, no comma between operands, tokens left over. */
  datatype SyntaxError = ExpectedType | ExpectedComma | UnexpectedToken

  /** The emitted type: a bare type, a numeral literal, `<acc as Nat>::Add<e>` or `<acc as Nat>::Mul<e>`. */
  datatype Term =
    | TypeTerm(name: string)
    | NatTerm(n: Nat)
    | AddTerm(acc: Term, operand: Term)
    | MulTerm(acc: Term, operand: Term)

  /** Size of a token tree, counting the tokens inside groups; parsing recurses on smaller sizes. */
  function TokSize(t: Tok): nat
  {
    match t
    case ParenGroup(inner) => 1 + TokensSize(inner)
    case _ => 1
  }

  function TokensSize(ts: seq<Tok>): nat
  {
    if ts == [] then 0 else TokSize(ts[0]) + TokensSize(ts[1..])
  }

  /**
   * `Parse for Expr`: dispatches on the first token (`+` to `ExprAdd`,
   * `*` to `ExprMul`, a parenthesis to `ExprParen`, anything else is
   * parsed as a type) and returns the expression and the tokens after it.
   * `ExprAdd` and `ExprMul` parse their operands with
   * `Punctuated::parse_terminated`, which takes the rest of the stream.
   */
  function ParseExpr(ts: seq<Tok>): (r: Result<(Expr, seq<Tok>), SyntaxError>)
    ensures r.Ok? ==> ts != [] && TokensSize(r.value.1) < TokensSize(ts)
    ensures r.Ok? && ts[0] == PlusTok ==> r.value.0.AddExpr? && r.value.1 == []
    ensures r.Ok? && ts[0] == StarTok ==> r.value.0.MulExpr? && r.value.1 == []
    ensures r.Ok? && ts[0].ParenGroup? ==> r.value.0.ParenExpr? && r.value.1 == ts[1..]
    ensures r.Ok? && ts[0].TypeTok? ==> r.value == (TypeExpr(ts[0].name), ts[1..])
    ensures ts != [] && (ts[0] == CommaTok || ts[0] == OtherTok) ==> r == Err(ExpectedType)
    decreases TokensSize(ts), 0
  {
    if ts == [] then Err(ExpectedType)
    else
      assert TokensSize(ts) == TokSize(ts[0]) + TokensSize(ts[1..]);
      match ts[0]
      case PlusTok =>
        (match ParseTerminated(ts[1..])
         case Ok(es) => Ok((AddExpr(es), []))
         case Err(e) => Err(e))
      case StarTok =>
        (match ParseTerminated(ts[1..])
         case Ok(es) => Ok((MulExpr(es), []))
         case Err(e) => Err(e))
      case ParenGroup(inner) =>
        assert TokSize(ts[0]) == 1 + TokensSize(inner);
        (match ParseExpr(inner)
         case Err(e) => Err(e)
         case Ok((e, rest)) =>
           if rest == [] then Ok((ParenExpr(e), ts[1..])) else Err(UnexpectedToken))
      case TypeTok(name) => Ok((TypeExpr(name), ts[1..]))
      case _ => Err(ExpectedType)
  }

  /**
   * `Punctuated::parse_terminated`: stop at the end of the stream; else
   * parse an operand, stop at the end, else require a comma and go on
   * (so one trailing comma is accepted and an empty stream is no operands).
   */
  function ParseTerminated(ts: seq<Tok>): (r: Result<seq<Expr>, SyntaxError>)
    ensures ts == [] ==> r == Ok([])
    ensures r.Ok? && ts != [] ==> ParseExpr(ts).Ok? && r.value != [] && r.value[0] == ParseExpr(ts).value.0
    ensures ParseExpr(ts).Err? && ts != [] ==> r == Err(ParseExpr(ts).error)
    decreases TokensSize(ts), 1
  {
    if ts == [] then Ok([])
    else
      match ParseExpr(ts)
      case Err(e) => Err(e)
      case Ok((e, rest)) =>
        if rest == [] then Ok([e])
        else if rest[0] != CommaTok then Err(ExpectedComma)
        else
          match ParseTerminated(rest[1..])
          case Err(err) => Err(err)
          case Ok(es) => Ok([e] + es)
  }

  /** `parse_macro_input!(input as Expr)`: one expression and nothing after it. */
  function ParseInput(ts: seq<Tok>): (r: Result<Expr, SyntaxError>)
    ensures r.Ok? <==> ParseExpr(ts).Ok? && ParseExpr(ts).value.1 == []
    ensures r.Ok? ==> r.value == ParseExpr(ts).value.0
    ensures ParseExpr(ts).Err? ==> r == Err(ParseExpr(ts).error)
    ensures ParseExpr(ts).Ok? && r.Err? ==> r.error == UnexpectedToken
  {
    match ParseExpr(ts)
    case Err(e) => Err(e)
    case Ok((e, rest)) => if rest == [] then Ok(e) else Err(UnexpectedToken)
  }

  /** Left fold of `Add` over the evaluated operands. */
  function FoldAdd(acc: Term, ts: seq<Term>): Term
    decreases |ts|
  {
    if ts == [] then acc else FoldAdd(AddTerm(acc, ts[0]), ts[1..])
  }

  /** Left fold of `Mul` over the evaluated operands. */
  function FoldMul(acc: Term, ts: seq<Term>): Term
    decreases |ts|
  {
    if ts == [] then acc else FoldMul(MulTerm(acc, ts[0]), ts[1..])
  }

  /**
   * `Eval`: a type is emitted as-is, `+` folds `Add` from `Zero`, `*`
   * folds `Mul` from `Succ<Zero>`, a parenthesis evaluates its contents.
   * Operand errors would propagate, but the only leaf case succeeds, so
   * evaluation never fails.
   */
  function Eval(e: Expr): (r: Result<Term, SyntaxError>)
    ensures r.Ok?
    decreases e, 1
  {
    match e
    case TypeExpr(name) => Ok(TypeTerm(name))
    case AddExpr(es) =>
      (match EvalAll(es)
       case Err(err) => Err(err)
       case Ok(ts) => Ok(FoldAdd(NatTerm(Zero), ts)))
    case MulExpr(es) =>
      (match EvalAll(es)
       case Err(err) => Err(err)
       case Ok(ts) => Ok(FoldMul(NatTerm(Succ(Zero)), ts)))
    case ParenExpr(inner) => Eval(inner)
  }

  /** `collect::<Result<Vec<_>, _>>()` over the evaluated operands: the first error, or all results in order. */
  function EvalAll(es: seq<Expr>): (r: Result<seq<Term>, SyntaxError>)
    ensures r.Ok? && |r.value| == |es|
    decreases es, 0
  {
    if es == [] then Ok([])
    else
      match Eval(es[0])
      case Err(err) => Err(err)
      case Ok(t) =>
        match EvalAll(es[1..])
        case Err(err) => Err(err)
        case Ok(ts) => Ok([t] + ts)
  }

  /** `expr!`: the evaluated expansion, or the syntax error as a compile error. */
  function ExprMacro(ts: seq<Tok>): (r: Result<Term, SyntaxError>)
    ensures r.Err? <==> ParseInput(ts).Err?
    ensures r.Err? ==> r.error == ParseInput(ts).error
  {
    match ParseInput(ts)
    case Err(e) => Err(e)
    case Ok(e) => Eval(e)
  }

  // ------------------------------------------------- meaning of the output

  /** The numeral the compiler resolves an emitted type to; `env` gives the numeral each bare type name stands for. */
  function Denote(t: Term, env: string -> Nat): Nat
  {
    match t
    case TypeTerm(name) => env(name)
    case NatTerm(n) => n
    case AddTerm(a, b) => Add(Denote(a, env), Denote(b, env))
    case MulTerm(a, b) => Mul(Denote(a, env), Denote(b, env))
  }

  /** The arithmetic meaning of an expression: the sum of `+` operands (0 for none), the product of `*` operands (1 for none). */
  function Meaning(e: Expr, env: string -> Nat): nat
    decreases e, 1
  {
    match e
    case TypeExpr(name) => Value(env(name))
    case AddExpr(es) => Sum(es, env)
    case MulExpr(es) => Product(es, env)
    case ParenExpr(inner) => Meaning(inner, env)
  }

  function Sum(es: seq<Expr>, env: string -> Nat): nat
    decreases es, 0
  {
    if es == [] then 0 else Meaning(es[0], env) + Sum(es[1..], env)
  }

  function Product(es: seq<Expr>, env: string -> Nat): nat
    decreases es, 0
  {
    if es == [] then 1 else Meaning(es[0], env) * Product(es[1..], env)
  }

  /** The expansion of every expression resolves to the numeral whose `VALUE` is the expression's meaning. */
  lemma {:induction false} EvalMeaning(e: Expr, env: string -> Nat)
    ensures Value(Denote(Eval(e).value, env)) == Meaning(e, env)
    decreases e, 1
  {
    match e
    case TypeExpr(name) =>
    case AddExpr(es) =>
      FoldAddMeaning(NatTerm(Zero), es, env);
    case MulExpr(es) =>
      FoldMulMeaning(NatTerm(Succ(Zero)), es, env);
    case ParenExpr(inner) =>
      EvalMeaning(inner, env);
  }

  lemma {:induction false} FoldAddMeaning(acc: Term, es: seq<Expr>, env: string -> Nat)
    ensures Value(Denote(FoldAdd(acc, EvalAll(es).value), env)) == Value(Denote(acc, env)) + Sum(es, env)
    decreases es, 0
  {
    if es != [] {
      var ts := EvalAll(es).value;
      assert ts == [Eval(es[0]).value] + EvalAll(es[1..]).value;
      assert ts[1..] == EvalAll(es[1..]).value;
      EvalMeaning(es[0], env);
      FoldAddMeaning(AddTerm(acc, ts[0]), es[1..], env);
    }
  }

  lemma {:induction false} FoldMulMeaning(acc: Term, es: seq<Expr>, env: string -> Nat)
    ensures Value(Denote(FoldMul(acc, EvalAll(es).value), env)) == Value(Denote(acc, env)) * Product(es, env)
    decreases es, 0
  {
    if es != [] {
      var ts := EvalAll(es).value;
      assert ts == [Eval(es[0]).value] + EvalAll(es[1..]).value;
      assert ts[1..] == EvalAll(es[1..]).value;
      EvalMeaning(es[0], env);
      FoldMulMeaning(MulTerm(acc, ts[0]), es[1..], env);
      var a, m, p := Value(Denote(acc, env)), Meaning(es[0], env), Product(es[1..], env);
      assert Value(Denote(MulTerm(acc, ts[0]), env)) == a * m;
      assert Product(es, env) == m * p;
      MulAssociative(a, m, p);
    }
  }

  /** Regrouping a product of three factors; kept apart so the solver sees it without the fold's context. */
  lemma MulAssociative(a: nat, b: nat, c: nat)
    ensures (a * b) * c == a * (b * c)
  {
  }

  /** Whatever parses, `expr!` expands to a type whose `VALUE` is the arithmetic meaning of the input. */
  lemma ExprMacroMeaning(ts: seq<Tok>, env: string -> Nat)
    requires ParseInput(ts).Ok?
    ensures ExprMacro(ts).Ok?
    ensures Value(Denote(ExprMacro(ts).value, env)) == Meaning(ParseInput(ts).value, env)
  {
    EvalMeaning(ParseInput(ts).value, env);
  }

  // ------------------------------------------------ printing and parsing

  /** Token stream of an expression: operands separated by commas, no trailing comma. */
  function Print(e: Expr): (ts: seq<Tok>)
    ensures ts != []
    decreases e, 1
  {
    match e
    case TypeExpr(name) => [TypeTok(name)]
    case AddExpr(es) => [PlusTok] + PrintList(es)
    case MulExpr(es) => [StarTok] + PrintList(es)
    case ParenExpr(inner) => [ParenGroup(Print(inner))]
  }

  function PrintList(es: seq<Expr>): (ts: seq<Tok>)
    ensures ts == [] <==> es == []
    decreases es, 0
  {
    if es == [] then []
    else if |es| == 1 then Print(es[0])
    else Print(es[0]) + [CommaTok] + PrintList(es[1..])
  }

  /** `+` and `*` forms take the rest of the stream as operands. */
  predicate IsFold(e: Expr)
  {
    e.AddExpr? || e.MulExpr?
  }

  /**
   * Expressions the printed form reproduces: an unparenthesised `+` or `*`
   * form may only be the last operand, since it would take the operands
   * after it as its own.
   */
  predicate Printable(e: Expr)
    decreases e, 1
  {
    match e
    case TypeExpr(_) => true
    case AddExpr(es) => OperandsPrintable(es)
    case MulExpr(es) => OperandsPrintable(es)
    case ParenExpr(inner) => Printable(inner)
  }

  predicate OperandsPrintable(es: seq<Expr>)
    decreases es, 0
  {
    es == [] || (Printable(es[0]) && (|es| == 1 || (!IsFold(es[0]) && OperandsPrintable(es[1..]))))
  }

  lemma {:induction false} ParsePrinted(e: Expr, rest: seq<Tok>)
    requires Printable(e)
    requires IsFold(e) ==> rest == []
    ensures ParseExpr(Print(e) + rest) == Ok((e, rest))
    decreases e, 1
  {
    var ts := Print(e) + rest;
    match e
    case TypeExpr(name) =>
      assert ts[0] == TypeTok(name) && ts[1..] == rest;
    case AddExpr(es) =>
      assert ts[0] == PlusTok && ts[1..] == PrintList(es);
      ParsePrintedList(es);
    case MulExpr(es) =>
      assert ts[0] == StarTok && ts[1..] == PrintList(es);
      ParsePrintedList(es);
    case ParenExpr(inner) =>
      assert ts[0] == ParenGroup(Print(inner)) && ts[1..] == rest;
      ParsePrinted(inner, []);
      assert Print(inner) + [] == Print(inner);
  }

  lemma {:induction false} ParsePrintedList(es: seq<Expr>)
    requires OperandsPrintable(es)
    ensures ParseTerminated(PrintList(es)) == Ok(es)
    decreases es, 0
  {
    if |es| == 1 {
      ParsePrinted(es[0], []);
      assert Print(es[0]) + [] == Print(es[0]) == PrintList(es);
      assert [es[0]] == es;
    } else if |es| > 1 {
      var tail := [CommaTok] + PrintList(es[1..]);
      assert PrintList(es) == Print(es[0]) + tail;
      ParsePrinted(es[0], tail);
      assert tail[1..] == PrintList(es[1..]);
      ParsePrintedList(es[1..]);
      assert [es[0]] + es[1..] == es;
    }
  }

  /** Parsing the printed form of an expression gives the expression back. */
  lemma ParseInputPrint(e: Expr)
    requires Printable(e)
    ensures ParseInput(Print(e)) == Ok(e)
  {
    ParsePrinted(e, []);
    assert Print(e) + [] == Print(e);
  }

  // ----------------------------------------------------- worked examples

  /** `One`, `Two` and `Three` as type aliases of the numerals 1, 2 and 3. */
  function Aliases(name: string): Nat
  {
    if name == "One" then FromValue(1) else if name == "Two" then FromValue(2) else FromValue(3)
  }

  /** `expr!(+ One, Two)` is 3. */
  lemma ExprOnePlusTwo()
    ensures ExprMacro([PlusTok, TypeTok("One"), CommaTok, TypeTok("Two")]).Ok?
    ensures Value(Denote(ExprMacro([PlusTok, TypeTok("One"), CommaTok, TypeTok("Two")]).value, Aliases)) == 3
  {
  }

  /** `expr!(* Two, Two)` is 4. */
  lemma ExprTwoTimesTwo()
    ensures ExprMacro([StarTok, TypeTok("Two"), CommaTok, TypeTok("Two")]).Ok?
    ensures Value(Denote(ExprMacro([StarTok, TypeTok("Two"), CommaTok, TypeTok("Two")]).value, Aliases)) == 4
  {
  }

  /** `expr!(+ One, Two, Three)` is 6. */
  lemma ExprOnePlusTwoPlusThree()
    ensures ExprMacro([PlusTok, TypeTok("One"), CommaTok, TypeTok("Two"), CommaTok, TypeTok("Three")]).Ok?
    ensures Value(Denote(ExprMacro([PlusTok, TypeTok("One"), CommaTok, TypeTok("Two"), CommaTok, TypeTok("Three")]).value, Aliases)) == 6
  {
  }

  /** `expr!(+ One, (* Two, Three))` is 7. */
  lemma ExprOnePlusTwoTimesThree()
    ensures ExprMacro([PlusTok, TypeTok("One"), CommaTok, ParenGroup([StarTok, TypeTok("Two"), CommaTok, TypeTok("Three")])]).Ok?
    ensures Value(Denote(ExprMacro([PlusTok, TypeTok("One"), CommaTok, ParenGroup([StarTok, TypeTok("Two"), CommaTok, TypeTok("Three")])]).value, Aliases)) == 7
  {
    var one, two, three := TypeExpr("One"), TypeExpr("Two"), TypeExpr("Three");
    var product := MulExpr([two, three]);
    var e := AddExpr([one, ParenExpr(product)]);
    assert [two, three][1..] == [three];
    assert [one, ParenExpr(product)][1..] == [ParenExpr(product)];
    assert PrintList([three]) == [TypeTok("Three")];
    assert PrintList([two, three]) == Print(two) + [CommaTok] + PrintList([three]);
    assert Print(product) == [StarTok, TypeTok("Two"), CommaTok, TypeTok("Three")];
    assert PrintList([ParenExpr(product)]) == [ParenGroup(Print(product))];
    assert PrintList([one, ParenExpr(product)]) == Print(one) + [CommaTok] + PrintList([ParenExpr(product)]);
    assert Print(e) == [PlusTok, TypeTok("One"), CommaTok, ParenGroup([StarTok, TypeTok("Two"), CommaTok, TypeTok("Three")])];
    assert OperandsPrintable([three]);
    assert Printable(product);
    assert OperandsPrintable([ParenExpr(product)]);
    assert Printable(e);
    ParseInputPrint(e);
    ExprMacroMeaning(Print(e), Aliases);
  }
}
