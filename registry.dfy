/**
 * The operator registry: what each token means (a registered operator or a
 * literal operand), how many roots it consumes, and which nodes it builds
 * from them.
 */
module Registry {
  import opened Wrappers
  import opened Stacks
  import opened Commands

  /** How many roots a command consumes; `All` drains the whole stack. */
  datatype ArgSize = Zero | One | Two | All {
    function Value(): (n: int)
      ensures n == -1 <==> this == All
      ensures this != All ==> 0 <= n <= 2
    {
      match this
      case Zero => 0
      case One => 1
      case Two => 2
      case All => -1
    }
  }

  /**
   * A command definition: the profile of a token. The arity follows from
   * the kind of definition, so a definition cannot disagree with its own
   * transformer.
   */
  datatype CommandDefinition<E> =
    | BinaryDefinition(bop: BinaryOperator)
    | UnaryDefinition(uop: UnaryOperator)
    | ElementDefinition(elem: E)
    | ClearDefinition
    | UndoDefinition
  {
    function Arity(): ArgSize
    {
      match this
      case BinaryDefinition(_) => Two
      case UnaryDefinition(_) => One
      case ElementDefinition(_) => Zero
      case ClearDefinition => All
      case UndoDefinition => One
    }

    /** True of the definitions that build one new node out of their inputs. */
    predicate BuildsNode()
    {
      BinaryDefinition? || UnaryDefinition? || ElementDefinition?
    }

    /**
     * The transformer: turns the popped roots (bottom-to-top) into the
     * commands to push back. The source throws when a fixed-arity
     * transformer receives the wrong number of inputs, which the engine
     * never lets happen.
     */
    function Transform(commands: seq<Command<E>>): (result: seq<Command<E>>)
      requires Arity() != All ==> |commands| == Arity().Value()
      ensures BuildsNode() ==> |result| == 1 && Undo(result[0]) == commands
      ensures BuildsNode() ==> Size(result[0]) == 1 + SumOf(Size, commands)
      ensures ClearDefinition? ==> result == []
      ensures UndoDefinition? ==> result == Undo(commands[0])
    {
      match this
      case BinaryDefinition(op) =>
        assert SumOf(Size, commands[..1]) == Size(commands[0]);
        [Binary(op, commands[0], commands[1])]
      case UnaryDefinition(op) =>
        assert commands[..0] == [];
        [Unary(op, commands[0])]
      case ElementDefinition(e) => [Element(e)]
      case ClearDefinition => []
      case UndoDefinition => Undo(commands[0])
    }
  }

  /**
   * What the built node computes: a literal is its operand; a unary node
   * passes on its input's failure and otherwise applies its operator; a
   * binary node passes on the left input's failure, then the right one's,
   * and otherwise applies its operator to (first input, second input).
   */
  lemma TransformComputes<E>(definition: CommandDefinition<E>, arith: Arithmetic<E>, commands: seq<Command<E>>)
    requires definition.BuildsNode() && |commands| == definition.Arity().Value()
    ensures var node := definition.Transform(commands)[0];
      && (definition.ElementDefinition? ==> Apply(arith, node) == Right(definition.elem))
      && (definition.UnaryDefinition? ==>
            Apply(arith, node) ==
              if Apply(arith, commands[0]).Left? then Apply(arith, commands[0])
              else ApplyUnary(arith, definition.uop, Apply(arith, commands[0]).value))
      && (definition.BinaryDefinition? ==>
            Apply(arith, node) ==
              if Apply(arith, commands[0]).Left? then Apply(arith, commands[0])
              else if Apply(arith, commands[1]).Left? then Apply(arith, commands[1])
              else ApplyBinary(arith, definition.bop, Apply(arith, commands[0]).value, Apply(arith, commands[1]).value))
  {
  }

  /** The seven registered operator symbols. */
  const OperatorSymbols: set<string> := {"*", "+", "/", "-", "sqrt", "clear", "undo"}

  /** The registered operators and their definitions. */
  function OperatorTable<E>(): map<string, CommandDefinition<E>>
  {
    map[
      "*" := BinaryDefinition(Multiply),
      "+" := BinaryDefinition(Add),
      "/" := BinaryDefinition(Divide),
      "-" := BinaryDefinition(Subtract),
      "sqrt" := UnaryDefinition(Sqrt),
      "clear" := ClearDefinition,
      "undo" := UndoDefinition]
  }

  /**
   * Token resolution: a registered operator first; otherwise a literal if
   * the operand parser accepts the token; otherwise nothing.
   */
  function Resolve<E>(parse: string -> Option<E>, token: string): Option<CommandDefinition<E>>
  {
    if token in OperatorTable<E>() then Some(OperatorTable<E>()[token])
    else match parse(token)
      case None => None
      case Some(e) => Some(ElementDefinition(e))
  }

  /**
   * Exactly the seven symbols resolve to operators, whatever the parser
   * would make of them; every other token is a literal when it parses and
   * unknown when it does not.
   */
  lemma ResolveCases<E>(parse: string -> Option<E>, token: string)
    ensures token in OperatorSymbols ==> Resolve(parse, token).Some? && !Resolve(parse, token).value.ElementDefinition?
    ensures token == "*" ==> Resolve(parse, token) == Some(BinaryDefinition(Multiply))
    ensures token == "+" ==> Resolve(parse, token) == Some(BinaryDefinition(Add))
    ensures token == "/" ==> Resolve(parse, token) == Some(BinaryDefinition(Divide))
    ensures token == "-" ==> Resolve(parse, token) == Some(BinaryDefinition(Subtract))
    ensures token == "sqrt" ==> Resolve(parse, token) == Some(UnaryDefinition(Sqrt))
    ensures token == "clear" ==> Resolve(parse, token) == Some(ClearDefinition)
    ensures token == "undo" ==> Resolve(parse, token) == Some(UndoDefinition)
    ensures token !in OperatorSymbols ==>
              (Resolve(parse, token).None? <==> parse(token).None?) &&
              (parse(token).Some? ==> Resolve(parse, token) == Some(ElementDefinition(parse(token).value)))
  {
    assert OperatorTable<E>().Keys == OperatorSymbols;
  }

  /** The registry object: a table of operators filled in place, and the operand parser. */
  class CommandRegistry<E> {
    var operatorRegistry: map<string, CommandDefinition<E>>
    const operatableProvider: string -> Option<E>

    ghost predicate Valid()
      reads this
    {
      operatorRegistry == OperatorTable()
    }

    constructor (operatableProvider: string -> Option<E>)
      ensures Valid() && this.operatableProvider == operatableProvider
    {
      this.operatableProvider := operatableProvider;
      operatorRegistry := map[];
      new;
      Register();
    }

    /** Puts the seven operators into the (so far empty) table. */
    method Register()
      requires operatorRegistry == map[]
      modifies this
      ensures operatorRegistry == OperatorTable()
    {
      operatorRegistry := operatorRegistry["*" := BinaryDefinition(Multiply)];
      operatorRegistry := operatorRegistry["+" := BinaryDefinition(Add)];
      operatorRegistry := operatorRegistry["/" := BinaryDefinition(Divide)];
      operatorRegistry := operatorRegistry["-" := BinaryDefinition(Subtract)];
      operatorRegistry := operatorRegistry["sqrt" := UnaryDefinition(Sqrt)];
      operatorRegistry := operatorRegistry["clear" := ClearDefinition];
      operatorRegistry := operatorRegistry["undo" := UndoDefinition];
    }

    /** Looks a token up: the table first, then the operand parser. */
    function Get(token: string): (r: Option<CommandDefinition<E>>)
      reads this
      requires Valid()
      ensures r == Resolve(operatableProvider, token)
    {
      if token in operatorRegistry then Some(operatorRegistry[token])
      else match operatableProvider(token)
        case None => None
        case Some(e) => Some(ElementDefinition(e))
    }
  }
}
