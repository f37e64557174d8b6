/**
 * Token sequences from the calculator's own test suite, replayed on the
 * model. The operand type stays abstract: each lemma names the operands the
 * parser yields for the literals it uses. Each replay is cut into short
 * phases, each stated for whatever tokens follow it.
 */
module Scenarios {
  import opened Wrappers
  import opened Commands
  import opened Registry
  import opened Engine
  import opened Stacks

  /** What the operator symbols of the examples resolve to, whatever the parser. */
  lemma TimesSymbol<E>(parse: string -> Option<E>)
    ensures Resolve(parse, "*") == Some(BinaryDefinition(Multiply))
  {
    ResolveCases(parse, "*");
  }

  lemma PlusSymbol<E>(parse: string -> Option<E>)
    ensures Resolve(parse, "+") == Some(BinaryDefinition(Add))
  {
    ResolveCases(parse, "+");
  }

  lemma MinusSymbol<E>(parse: string -> Option<E>)
    ensures Resolve(parse, "-") == Some(BinaryDefinition(Subtract))
  {
    ResolveCases(parse, "-");
  }

  lemma SqrtSymbol<E>(parse: string -> Option<E>)
    ensures Resolve(parse, "sqrt") == Some(UnaryDefinition(Sqrt))
  {
    ResolveCases(parse, "sqrt");
  }

  lemma UndoSymbol<E>(parse: string -> Option<E>)
    ensures Resolve(parse, "undo") == Some(UndoDefinition)
  {
    ResolveCases(parse, "undo");
  }

  /** No operator symbol starts with a digit, so a token that does is a literal or unknown. */
  lemma StartsWithDigit(token: string)
    requires |token| > 0 && '0' <= token[0] <= '9'
    ensures token !in OperatorSymbols
  {
  }

  /** A token that succeeds hands the rest of the batch its roots. */
  lemma Advance<E>(parse: string -> Option<E>, roots: seq<Command<E>>, token: string, next: seq<Command<E>>, rest: seq<string>)
    requires Step(parse, roots, token) == Outcome(None, next)
    ensures Run(parse, roots, [token] + rest) == Run(parse, next, rest)
  {
    assert ([token] + rest)[1..] == rest;
  }

  /** A literal token pushes one wrapped leaf. */
  lemma Literal<E>(parse: string -> Option<E>, roots: seq<Command<E>>, token: string, e: E, rest: seq<string>)
    requires token !in OperatorSymbols && parse(token) == Some(e)
    ensures Run(parse, roots, [token] + rest) == Run(parse, roots + [Cached(Element(e))], rest)
  {
    ResolveCases(parse, token);
    assert roots[..|roots| - 0] == roots;
    Advance(parse, roots, token, roots + [Cached(Element(e))], rest);
  }

  /** A binary operator combines the top two roots, the lower one on the left. */
  lemma BinaryToken<E>(parse: string -> Option<E>, below: seq<Command<E>>, left: Command<E>, right: Command<E>,
                       token: string, op: BinaryOperator, rest: seq<string>)
    requires Resolve(parse, token) == Some(BinaryDefinition(op))
    ensures Run(parse, below + [left, right], [token] + rest) == Run(parse, below + [Cached(Binary(op, left, right))], rest)
  {
    var roots := below + [left, right];
    assert roots[..|roots| - 2] == below;
    assert roots[|roots| - 2..] == [left, right];
    Advance(parse, roots, token, below + [Cached(Binary(op, left, right))], rest);
  }

  /** A unary operator replaces the top root by its image. */
  lemma UnaryToken<E>(parse: string -> Option<E>, below: seq<Command<E>>, arg: Command<E>,
                      token: string, op: UnaryOperator, rest: seq<string>)
    requires Resolve(parse, token) == Some(UnaryDefinition(op))
    ensures Run(parse, below + [arg], [token] + rest) == Run(parse, below + [Cached(Unary(op, arg))], rest)
  {
    var roots := below + [arg];
    assert roots[..|roots| - 1] == below;
    assert roots[|roots| - 1..] == [arg];
    Advance(parse, roots, token, below + [Cached(Unary(op, arg))], rest);
  }

  /** "undo" on a literal takes it away. */
  lemma UndoLiteral<E>(parse: string -> Option<E>, below: seq<Command<E>>, e: E, rest: seq<string>)
    ensures Run(parse, below + [Cached(Element(e))], ["undo"] + rest) == Run(parse, below, rest)
  {
    UndoSymbol(parse);
    var roots := below + [Cached(Element(e))];
    assert roots[..|roots| - 1] == below;
    assert roots[|roots| - 1..] == [Cached(Element(e))];
    assert Undo(Cached(Element(e))) == [];
    assert UndoDefinition.Transform([Cached(Element(e))]) == [];
    assert below + Wrap([]) == below;
    Advance(parse, roots, "undo", below, rest);
  }

  /** Three literals in a row. */
  lemma ThreeLiterals<E>(parse: string -> Option<E>, roots: seq<Command<E>>, t1: string, t2: string, t3: string,
                         e1: E, e2: E, e3: E, rest: seq<string>)
    requires t1 !in OperatorSymbols && parse(t1) == Some(e1)
    requires t2 !in OperatorSymbols && parse(t2) == Some(e2)
    requires t3 !in OperatorSymbols && parse(t3) == Some(e3)
    ensures Run(parse, roots, [t1] + ([t2] + ([t3] + rest))) ==
              Run(parse, roots + [Cached(Element(e1)), Cached(Element(e2)), Cached(Element(e3))], rest)
  {
    var c1, c2, c3 := Cached(Element(e1)), Cached(Element(e2)), Cached(Element(e3));
    Literal(parse, roots + [c1, c2], t3, e3, rest);
    Literal(parse, roots + [c1], t2, e2, [t3] + rest);
    Literal(parse, roots, t1, e1, [t2] + ([t3] + rest));
    assert roots + [c1] + [c2] == roots + [c1, c2];
    assert roots + [c1, c2] + [c3] == roots + [c1, c2, c3];
  }

  /** A literal and then a binary operator on a single root: the root becomes the left operand. */
  lemma LiteralThenOperator<E>(parse: string -> Option<E>, root: Command<E>, token: string, e: E,
                               operator: string, op: BinaryOperator, rest: seq<string>)
    requires token !in OperatorSymbols && parse(token) == Some(e)
    requires Resolve(parse, operator) == Some(BinaryDefinition(op))
    ensures Run(parse, [root], [token] + ([operator] + rest)) ==
              Run(parse, [Cached(Binary(op, root, Cached(Element(e))))], rest)
  {
    var c := Cached(Element(e));
    Literal(parse, [root], token, e, [operator] + rest);
    assert [root] + [c] == [root, c];
    BinaryOnTwo(parse, root, c, operator, op, rest);
  }

  /** Two binary operators on three roots: the top two combine, then the bottom root with that. */
  lemma BinaryOnThree<E>(parse: string -> Option<E>, bottom: Command<E>, middle: Command<E>, top: Command<E>,
                         t1: string, op1: BinaryOperator, t2: string, op2: BinaryOperator, rest: seq<string>)
    requires Resolve(parse, t1) == Some(BinaryDefinition(op1))
    requires Resolve(parse, t2) == Some(BinaryDefinition(op2))
    ensures Run(parse, [bottom, middle, top], [t1] + ([t2] + rest)) ==
              Run(parse, [Cached(Binary(op2, bottom, Cached(Binary(op1, middle, top))))], rest)
  {
    var inner := Cached(Binary(op1, middle, top));
    assert [bottom] + [middle, top] == [bottom, middle, top];
    BinaryToken(parse, [bottom], middle, top, t1, op1, [t2] + rest);
    assert [bottom] + [inner] == [bottom, inner];
    BinaryOnTwo(parse, bottom, inner, t2, op2, rest);
  }

  /** Two literals and then a binary operator: one new root, their combination. */
  lemma TwoLiteralsThenOperator<E>(parse: string -> Option<E>, roots: seq<Command<E>>, t1: string, e1: E,
                                   t2: string, e2: E, operator: string, op: BinaryOperator, rest: seq<string>)
    requires t1 !in OperatorSymbols && parse(t1) == Some(e1)
    requires t2 !in OperatorSymbols && parse(t2) == Some(e2)
    requires Resolve(parse, operator) == Some(BinaryDefinition(op))
    ensures Run(parse, roots, [t1] + ([t2] + ([operator] + rest))) ==
              Run(parse, roots + [Cached(Binary(op, Cached(Element(e1)), Cached(Element(e2))))], rest)
  {
    var c1, c2 := Cached(Element(e1)), Cached(Element(e2));
    Literal(parse, roots, t1, e1, [t2] + ([operator] + rest));
    Literal(parse, roots + [c1], t2, e2, [operator] + rest);
    assert roots + [c1] + [c2] == roots + [c1, c2];
    BinaryToken(parse, roots, c1, c2, operator, op, rest);
  }

  /** Three tokens, one at a time. */
  lemma ThreeTokens(t1: string, t2: string, t3: string)
    ensures [t1] + ([t2] + [t3]) == [t1, t2, t3]
  {
  }

  /** "undo" on an empty stack fails at position 1 and the tokens after it are not applied. */
  lemma UndoWithNothingToUndo<E>(parse: string -> Option<E>)
    ensures Run(parse, [], ["undo", "3", "4"]) == Outcome(Some(InsufficientParameter("undo", 1)), [])
  {
    UndoSymbol(parse);
  }

  /** A binary operator on a single root fails, reporting the root's size plus one. */
  lemma BinaryOnSingleRoot<E>(parse: string -> Option<E>, root: Command<E>, token: string, op: BinaryOperator,
                              rest: seq<string>)
    requires Resolve(parse, token) == Some(BinaryDefinition(op))
    ensures Run(parse, [root], [token] + rest) == Outcome(Some(InsufficientParameter(token, Size(root) + 1)), [root])
  {
    assert [root][..0] == [];
    assert Weight([root]) == Size(root) by {
      assert SumOf(Size, [root]) == SumOf(Size, [root][..0]) + Size(root);
    }
    assert Step(parse, [root], token) == Outcome(Some(InsufficientParameter(token, Size(root) + 1)), [root]);
    assert ([token] + rest)[0] == token;
  }

  /** A binary operator on exactly two roots leaves one, their combination. */
  lemma BinaryOnTwo<E>(parse: string -> Option<E>, left: Command<E>, right: Command<E>, token: string,
                       op: BinaryOperator, rest: seq<string>)
    requires Resolve(parse, token) == Some(BinaryDefinition(op))
    ensures Run(parse, [left, right], [token] + rest) == Run(parse, [Cached(Binary(op, left, right))], rest)
  {
    assert [] + [left, right] == [left, right];
    BinaryToken(parse, [], left, right, token, op, rest);
    assert [] + [Cached(Binary(op, left, right))] == [Cached(Binary(op, left, right))];
  }

  /** "*" with a single root fails, reporting the position one past the weight of that root. */
  lemma MultiplyOnSingleRoot<E>(parse: string -> Option<E>, root: Command<E>, rest: seq<string>)
    ensures Run(parse, [root], ["*"] + rest) == Outcome(Some(InsufficientParameter("*", Size(root) + 1)), [root])
  {
    TimesSymbol(parse);
    BinaryOnSingleRoot(parse, root, "*", Multiply, rest);
  }

  /** "* 5" in the position-8 example: the product of the top two, then a literal. */
  lemma MultiplyThenFive<E>(parse: string -> Option<E>, c1: Command<E>, c2: Command<E>, c3: Command<E>, five: E, rest: seq<string>)
    requires parse("5") == Some(five)
    ensures Run(parse, [c1, c2, c3], ["*"] + (["5"] + rest)) ==
              Run(parse, [c1, Cached(Binary(Multiply, c2, c3)), Cached(Element(five))], rest)
  {
    var m := Cached(Binary(Multiply, c2, c3));
    TimesSymbol(parse);
    Literal(parse, [c1, m], "5", five, rest);
    BinaryToken(parse, [c1], c2, c3, "*", Multiply, ["5"] + rest);
    assert [c1] + [c2, c3] == [c1, c2, c3] && [c1] + [m] == [c1, m];
    assert [c1, m] + [Cached(Element(five))] == [c1, m, Cached(Element(five))];
  }

  /** "+ *" in the position-8 example: a sum, then its product with the bottom root. */
  lemma AddThenMultiply<E>(parse: string -> Option<E>, c1: Command<E>, m: Command<E>, c5: Command<E>, rest: seq<string>)
    ensures Run(parse, [c1, m, c5], ["+"] + (["*"] + rest)) ==
              Run(parse, [Cached(Binary(Multiply, c1, Cached(Binary(Add, m, c5))))], rest)
  {
    TimesSymbol(parse);
    PlusSymbol(parse);
    BinaryOnThree(parse, c1, m, c5, "+", Add, "*", Multiply, rest);
  }

  /**
   * "1 2 3 * 5 + * * 6 5": the second-to-last "*" finds a single root of
   * weight 7 and fails at position 8; the root 1 * (2 * 3 + 5) is kept and
   * whatever follows ("6 5" in the example) is not pushed.
   */
  lemma InsufficientAtPositionEight<E>(parse: string -> Option<E>, one: E, two: E, three: E, five: E, rest: seq<string>)
    requires parse("1") == Some(one) && parse("2") == Some(two) && parse("3") == Some(three) && parse("5") == Some(five)
    ensures var c1, c2, c3, c5 := Cached(Element(one)), Cached(Element(two)), Cached(Element(three)), Cached(Element(five));
      Run(parse, [], ["1", "2", "3", "*", "5", "+", "*", "*"] + rest) ==
        Outcome(Some(InsufficientParameter("*", 8)),
                [Cached(Binary(Multiply, c1, Cached(Binary(Add, Cached(Binary(Multiply, c2, c3)), c5))))])
  {
    var c1, c2, c3, c5 := Cached(Element(one)), Cached(Element(two)), Cached(Element(three)), Cached(Element(five));
    var m := Cached(Binary(Multiply, c2, c3));
    var top := Cached(Binary(Multiply, c1, Cached(Binary(Add, m, c5))));
    assert Size(m) == 3 && Size(top) == 7;
    PositionEightTokens(rest);
    var r3 := ["*"] + rest;
    var r2 := ["+"] + (["*"] + r3);
    var r1 := ["*"] + (["5"] + r2);
    StartsWithDigit("1");
    StartsWithDigit("2");
    StartsWithDigit("3");
    MultiplyOnSingleRoot(parse, top, rest);
    AddThenMultiply(parse, c1, m, c5, r3);
    MultiplyThenFive(parse, c1, c2, c3, five, r2);
    ThreeLiterals(parse, [], "1", "2", "3", one, two, three, r1);
    assert [] + [c1, c2, c3] == [c1, c2, c3];
  }

  /** The tokens of the position-8 example, one at a time. */
  lemma PositionEightTokens(rest: seq<string>)
    ensures ["1"] + (["2"] + (["3"] + (["*"] + (["5"] + (["+"] + (["*"] + (["*"] + rest))))))) ==
              ["1", "2", "3", "*", "5", "+", "*", "*"] + rest
  {
  }

  /** "5 4 3 2" on an empty stack pushes the four literals, bottom first. */
  lemma FourLiterals<E>(parse: string -> Option<E>, two: E, three: E, four: E, five: E)
    requires parse("2") == Some(two) && parse("3") == Some(three)
    requires parse("4") == Some(four) && parse("5") == Some(five)
    ensures Run(parse, [], ["5", "4", "3", "2"]) ==
              Outcome(None, [Cached(Element(five)), Cached(Element(four)), Cached(Element(three)), Cached(Element(two))])
  {
    var c2, c3, c4, c5 := Cached(Element(two)), Cached(Element(three)), Cached(Element(four)), Cached(Element(five));
    StartsWithDigit("2");
    StartsWithDigit("3");
    StartsWithDigit("4");
    StartsWithDigit("5");
    Literal(parse, [c5, c4, c3], "2", two, []);
    ThreeLiterals(parse, [], "5", "4", "3", five, four, three, ["2"]);
    assert [] + [c5, c4, c3] == [c5, c4, c3] && [c5, c4, c3] + [c2] == [c5, c4, c3, c2];
    FourTokens("5", "4", "3", "2");
    assert ["2"] + [] == ["2"];
  }

  /** Two undos take back the two literals on top. */
  lemma UndoTwice<E>(parse: string -> Option<E>, below: seq<Command<E>>, two: E, three: E, rest: seq<string>)
    ensures Run(parse, below + [Cached(Element(three)), Cached(Element(two))], ["undo"] + (["undo"] + rest)) ==
              Run(parse, below, rest)
  {
    var c3 := Cached(Element(three));
    UndoLiteral(parse, below, three, rest);
    UndoLiteral(parse, below + [c3], two, ["undo"] + rest);
    assert below + [c3] + [Cached(Element(two))] == below + [c3, Cached(Element(two))];
  }

  /** Then "undo undo *": each undo takes a literal back, and "*" multiplies the two that are left. */
  lemma UndoTwiceThenMultiply<E>(parse: string -> Option<E>, two: E, three: E, c4: Command<E>, c5: Command<E>)
    ensures Run(parse, [c5, c4, Cached(Element(three)), Cached(Element(two))], ["undo", "undo", "*"]) ==
              Outcome(None, [Cached(Binary(Multiply, c5, c4))])
  {
    TimesSymbol(parse);
    ThreeTokens("undo", "undo", "*");
    UndoTwice(parse, [c5, c4], two, three, ["*"]);
    assert [c5, c4] + [Cached(Element(three)), Cached(Element(two))] == [c5, c4, Cached(Element(three)), Cached(Element(two))];
    BinaryToken(parse, [], c5, c4, "*", Multiply, []);
    assert [] + [c5, c4] == [c5, c4] && ["*"] + [] == ["*"];
    assert [] + [Cached(Binary(Multiply, c5, c4))] == [Cached(Binary(Multiply, c5, c4))];
  }

  /** Then "5 *": the product is multiplied by a new 5. */
  lemma MultiplyByFive<E>(parse: string -> Option<E>, five: E, product: Command<E>)
    requires parse("5") == Some(five)
    ensures Run(parse, [product], ["5", "*"]) == Outcome(None, [Cached(Binary(Multiply, product, Cached(Element(five))))])
  {
    TimesSymbol(parse);
    StartsWithDigit("5");
    LiteralThenOperator(parse, product, "5", five, "*", Multiply, []);
    assert ["5"] + (["*"] + []) == ["5", "*"];
  }

  /**
   * Then "undo": the last product gives back its two operands, each wrapped
   * once more; evaluating them yields the earlier product and the 5.
   */
  lemma UndoProduct<E>(parse: string -> Option<E>, arith: Arithmetic<E>, four: E, five: E)
    ensures var c4, c5 := Cached(Element(four)), Cached(Element(five));
      var product := Cached(Binary(Multiply, c5, c4));
      && Run(parse, [Cached(Binary(Multiply, product, c5))], ["undo"]) == Outcome(None, [Cached(product), Cached(c5)])
      && ApplyEach(arith, [Cached(product), Cached(c5)]) == [Apply(arith, Binary(Multiply, c5, c4)), Right(five)]
  {
    var c4, c5 := Cached(Element(four)), Cached(Element(five));
    var product := Cached(Binary(Multiply, c5, c4));
    var again := Cached(Binary(Multiply, product, c5));
    UndoSymbol(parse);
    assert Undo(again) == [product, c5];
    assert UndoDefinition.Transform([again]) == [product, c5];
    assert [again][..0] == [] && [again][0..] == [again];
    assert Wrap([product, c5]) == [Cached(product), Cached(c5)];
    assert Step(parse, [again], "undo") == Outcome(None, [Cached(product), Cached(c5)]);
    Advance(parse, [again], "undo", [Cached(product), Cached(c5)], []);
    assert ["undo"] + [] == ["undo"];
    var results := ApplyEach(arith, [Cached(product), Cached(c5)]);
    assert Apply(arith, Cached(product)) == Apply(arith, product) == Apply(arith, Binary(Multiply, c5, c4));
    assert Apply(arith, Cached(c5)) == Apply(arith, c5) == Right(five);
  }

  /** "+ -" on three roots: the sum of the top two, subtracted from the bottom one. */
  lemma AddThenSubtract<E>(parse: string -> Option<E>, c1: Command<E>, c2: Command<E>, c3: Command<E>, rest: seq<string>)
    ensures Run(parse, [c1, c2, c3], ["+"] + (["-"] + rest)) ==
              Run(parse, [Cached(Binary(Subtract, c1, Cached(Binary(Add, c2, c3))))], rest)
  {
    PlusSymbol(parse);
    MinusSymbol(parse);
    BinaryOnThree(parse, c1, c2, c3, "+", Add, "-", Subtract, rest);
  }

  /** "sqrt" on a single root. */
  lemma SqrtOfSingleRoot<E>(parse: string -> Option<E>, d: Command<E>, rest: seq<string>)
    ensures Run(parse, [d], ["sqrt"] + rest) == Run(parse, [Cached(Unary(Sqrt, d))], rest)
  {
    SqrtSymbol(parse);
    assert [] + [d] == [d];
    UnaryToken(parse, [], d, "sqrt", Sqrt, rest);
    assert [] + [Cached(Unary(Sqrt, d))] == [Cached(Unary(Sqrt, d))];
  }

  /** "sqrt 2 *" on one root: its square root, times a new 2. */
  lemma SqrtThenDouble<E>(parse: string -> Option<E>, d: Command<E>, two: E, rest: seq<string>)
    requires parse("2") == Some(two)
    ensures Run(parse, [d], ["sqrt"] + (["2"] + (["*"] + rest))) ==
              Run(parse, [Cached(Binary(Multiply, Cached(Unary(Sqrt, d)), Cached(Element(two))))], rest)
  {
    SqrtOfSingleRoot(parse, d, ["2"] + (["*"] + rest));
    TimesSymbol(parse);
    StartsWithDigit("2");
    LiteralThenOperator(parse, Cached(Unary(Sqrt, d)), "2", two, "*", Multiply, rest);
  }

  /** "6 5 *" on one root: a second root, the product of 6 and 5. */
  lemma SecondProduct<E>(parse: string -> Option<E>, p: Command<E>, six: E, five: E)
    requires parse("6") == Some(six) && parse("5") == Some(five)
    ensures Run(parse, [p], ["6"] + (["5"] + ["*"])) ==
              Outcome(None, [p, Cached(Binary(Multiply, Cached(Element(six)), Cached(Element(five))))])
  {
    var product := Cached(Binary(Multiply, Cached(Element(six)), Cached(Element(five))));
    TimesSymbol(parse);
    StartsWithDigit("6");
    StartsWithDigit("5");
    TwoLiteralsThenOperator(parse, [p], "6", six, "5", five, "*", Multiply, []);
    assert ["*"] + [] == ["*"];
    assert [p] + [product] == [p, product];
  }

  /** The tokens of the recovery example, one at a time. */
  lemma RecoveryTokens()
    ensures ["1"] + (["2"] + (["3"] + (["+"] + (["-"] + (["sqrt"] + (["2"] + (["*"] + (["6"] + (["5"] + ["*"]))))))))) ==
              ["1", "2", "3", "+", "-", "sqrt", "2", "*", "6", "5", "*"]
  {
  }

  /** "1 2 3 + - sqrt 2 * 6 5 *" builds two roots without an error. */
  lemma RecoveryBuild<E>(parse: string -> Option<E>, one: E, two: E, three: E, five: E, six: E)
    requires parse("1") == Some(one) && parse("2") == Some(two) && parse("3") == Some(three)
    requires parse("5") == Some(five) && parse("6") == Some(six)
    ensures var c1, c2, c3 := Cached(Element(one)), Cached(Element(two)), Cached(Element(three));
      var d := Cached(Binary(Subtract, c1, Cached(Binary(Add, c2, c3))));
      Run(parse, [], ["1", "2", "3", "+", "-", "sqrt", "2", "*", "6", "5", "*"]) ==
        Outcome(None, [Cached(Binary(Multiply, Cached(Unary(Sqrt, d)), c2)),
                       Cached(Binary(Multiply, Cached(Element(six)), Cached(Element(five))))])
  {
    var c1, c2, c3 := Cached(Element(one)), Cached(Element(two)), Cached(Element(three));
    var d := Cached(Binary(Subtract, c1, Cached(Binary(Add, c2, c3))));
    var p := Cached(Binary(Multiply, Cached(Unary(Sqrt, d)), c2));
    StartsWithDigit("1");
    StartsWithDigit("2");
    StartsWithDigit("3");
    var r2 := ["6"] + (["5"] + ["*"]);
    var r1 := ["sqrt"] + (["2"] + (["*"] + r2));
    var r0 := ["+"] + (["-"] + r1);
    ThreeLiterals(parse, [], "1", "2", "3", one, two, three, r0);
    assert [] + [c1, c2, c3] == [c1, c2, c3];
    AddThenSubtract(parse, c1, c2, c3, r1);
    SqrtThenDouble(parse, d, two, r2);
    SecondProduct(parse, p, six, five);
    RecoveryTokens();
  }

  /** A wrapped literal evaluates to its operand. */
  lemma LeafValue<E>(arith: Arithmetic<E>, e: E)
    ensures Apply(arith, Cached(Element(e))) == Right(e)
  {
  }

  /** Four tokens, one at a time. */
  lemma FourTokens(t1: string, t2: string, t3: string, t4: string)
    ensures [t1] + ([t2] + ([t3] + [t4])) == [t1, t2, t3, t4]
  {
  }

  /**
   * Evaluating those two roots: when the square root of 1 - (2 + 3) fails,
   * the first root reports that failure and the second is still 6 * 5.
   */
  lemma RecoveryEvaluate<E>(arith: Arithmetic<E>, one: E, two: E, three: E, five: E, six: E,
                            sum: E, difference: E, f: Failure)
    requires arith.add(two, three) == Right(sum)
    requires arith.subtract(one, sum) == Right(difference)
    requires arith.sqrt(difference) == Left(f)
    ensures var c1, c2, c3 := Cached(Element(one)), Cached(Element(two)), Cached(Element(three));
      var d := Cached(Binary(Subtract, c1, Cached(Binary(Add, c2, c3))));
      ApplyEach(arith, [Cached(Binary(Multiply, Cached(Unary(Sqrt, d)), c2)),
                        Cached(Binary(Multiply, Cached(Element(six)), Cached(Element(five))))]) ==
        [Left(f), arith.multiply(six, five)]
  {
    var c1, c2, c3 := Cached(Element(one)), Cached(Element(two)), Cached(Element(three));
    var d := Cached(Binary(Subtract, c1, Cached(Binary(Add, c2, c3))));
    var p := Cached(Binary(Multiply, Cached(Unary(Sqrt, d)), c2));
    var q := Cached(Binary(Multiply, Cached(Element(six)), Cached(Element(five))));
    LeafValue(arith, one);
    LeafValue(arith, two);
    LeafValue(arith, three);
    assert Apply(arith, Binary(Add, c2, c3)) == Right(sum);
    assert Apply(arith, Binary(Subtract, c1, Cached(Binary(Add, c2, c3)))) == Right(difference);
    assert Apply(arith, d) == Right(difference);
    assert Apply(arith, Unary(Sqrt, d)) == Left(f);
    assert Apply(arith, Binary(Multiply, Cached(Unary(Sqrt, d)), c2)) == Left(f);
    assert Apply(arith, p) == Left(f);
    LeafValue(arith, six);
    LeafValue(arith, five);
    assert Apply(arith, q) == arith.multiply(six, five);
    var results := ApplyEach(arith, [p, q]);
    assert results[0] == Left(f) && results[1] == arith.multiply(six, five);
  }
}
