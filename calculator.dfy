/**
 * The evaluation engine: tokens are resolved one at a time, operators pop
 * their operands off the stack of roots, the transformer's results are
 * wrapped and pushed back, and `Evaluate` forces every root.
 *
 * `Step` and `Run` say, as functions of the roots, what one token and a
 * batch of tokens do; the `Calculator` class is proved to follow them.
 */
module Engine {
  import opened Wrappers
  import opened Stacks
  import opened Commands
  import opened Registry

  /** The errors reported while building the tree. */
  datatype PushError =
    | UnknownElementOrOperator(token: string)
    | InsufficientParameter(operator: string, position: nat)

  /** The decimal form of `n`, as Java prints an int: digits only, no leading zero. */
  function Decimal(n: nat): (s: string)
    ensures |s| > 0 && forall i :: 0 <= i < |s| ==> '0' <= s[i] <= '9'
    ensures |s| > 1 ==> s[0] != '0'
  {
    var digit := [(('0' as int) + n % 10) as char];
    if n < 10 then digit else Decimal(n / 10) + digit
  }

  /** The number a string of decimal digits stands for. */
  function DigitsValue(s: string): nat
    requires forall i :: 0 <= i < |s| ==> '0' <= s[i] <= '9'
  {
    if s == [] then 0 else 10 * DigitsValue(s[..|s| - 1]) + (s[|s| - 1] as int - '0' as int)
  }

  /** Reading the decimal form back gives the number. */
  lemma {:induction false} DecimalRoundTrip(n: nat)
    ensures DigitsValue(Decimal(n)) == n
  {
    if n >= 10 {
      var prefix := Decimal(n / 10);
      var s := Decimal(n);
      assert s[..|s| - 1] == prefix;
      DecimalRoundTrip(n / 10);
    }
  }

  /** The text of the exception the source returns for each error. */
  function Message(error: PushError): string
  {
    match error
    case UnknownElementOrOperator(token) => "Unknown element or operator: " + token
    case InsufficientParameter(operator, position) =>
      "Operator '" + operator + "' (position " + Decimal(position) + "), insufficient parameter"
  }

  /** The insufficient-parameter message determines the position it reports. */
  lemma MessageDeterminesPosition(operator: string, p: nat, q: nat)
    requires Message(InsufficientParameter(operator, p)) == Message(InsufficientParameter(operator, q))
    ensures p == q
  {
    var head := "Operator '" + operator + "' (position ";
    var tail := "), insufficient parameter";
    var m := Message(InsufficientParameter(operator, p));
    assert m == head + Decimal(p) + tail;
    assert m == head + Decimal(q) + tail;
    assert Decimal(p) == m[|head|..|m| - |tail|];
    assert Decimal(q) == m[|head|..|m| - |tail|];
    DecimalRoundTrip(p);
    DecimalRoundTrip(q);
  }

  /** What a token (or batch) leaves behind: the error it reported, if any, and the roots. */
  datatype Outcome<E> = Outcome(failure: Option<PushError>, roots: seq<Command<E>>)

  /** Every command the engine pushes is wrapped in a fresh memo cell. */
  function Wrap<E>(commands: seq<Command<E>>): seq<Command<E>>
  {
    seq(|commands|, i requires 0 <= i < |commands| => Cached(commands[i]))
  }

  /** The weighted size of a sequence of roots. */
  function Weight<E>(roots: seq<Command<E>>): nat
  {
    SumOf(Size, roots)
  }

  /** The effect of one token on the roots (bottom first). */
  function Step<E>(parse: string -> Option<E>, roots: seq<Command<E>>, token: string): Outcome<E>
  {
    match Resolve(parse, token)
    case None => Outcome(Some(UnknownElementOrOperator(token)), roots)
    case Some(definition) =>
      if definition.Arity() == All then
        Outcome(None, Wrap(definition.Transform(roots)))
      else
        var k := definition.Arity().Value();
        if |roots| < k then
          Outcome(Some(InsufficientParameter(token, Weight(roots) + 1)), roots)
        else
          Outcome(None, roots[..|roots| - k] + Wrap(definition.Transform(roots[|roots| - k..])))
  }

  /** The effect of a batch: tokens in order, stopping at the first error. */
  function Run<E>(parse: string -> Option<E>, roots: seq<Command<E>>, tokens: seq<string>): Outcome<E>
    decreases |tokens|
  {
    if tokens == [] then Outcome(None, roots)
    else
      var o := Step(parse, roots, tokens[0]);
      if o.failure.Some? then o else Run(parse, o.roots, tokens[1..])
  }

  /** Forces each root on its own, keeping the bottom-to-top order. */
  function ApplyEach<E>(arith: Arithmetic<E>, roots: seq<Command<E>>): (results: seq<Either<E>>)
    ensures |results| == |roots|
    ensures forall i :: 0 <= i < |roots| ==> results[i] == Apply(arith, roots[i])
  {
    if roots == [] then []
    else ApplyEach(arith, roots[..|roots| - 1]) + [Apply(arith, roots[|roots| - 1])]
  }

  // ---------------------------------------------------------------------
  // Properties of one token

  /**
   * The two build-time errors and when they happen: a token that is neither
   * an operator nor a literal is unknown; a fixed-arity token with too few
   * roots reports the weighted size plus one. Either way nothing changes.
   */
  lemma StepErrors<E>(parse: string -> Option<E>, roots: seq<Command<E>>, token: string)
    ensures var o := Step(parse, roots, token);
      && (o.failure == Some(UnknownElementOrOperator(token)) <==> Resolve(parse, token).None?)
      && (o.failure.Some? && o.failure.value.InsufficientParameter? <==>
            Resolve(parse, token).Some? && Resolve(parse, token).value.Arity() != All &&
            |roots| < Resolve(parse, token).value.Arity().Value())
      && (o.failure.Some? && o.failure.value.InsufficientParameter? ==>
            o.failure.value == InsufficientParameter(token, Weight(roots) + 1))
      && (o.failure.Some? ==> o.roots == roots)
  {
  }

  /**
   * A successful fixed-arity token replaces the top `k` roots, where k is
   * its arity, by the wrapped output of its transformer; the roots below
   * are untouched.
   */
  lemma StepSuccess<E>(parse: string -> Option<E>, roots: seq<Command<E>>, token: string)
    requires Resolve(parse, token).Some?
    requires Resolve(parse, token).value.Arity() != All
    requires |roots| >= Resolve(parse, token).value.Arity().Value()
    ensures var definition := Resolve(parse, token).value;
      var k := definition.Arity().Value();
      var o := Step(parse, roots, token);
      && o.failure.None?
      && o.roots[..|roots| - k] == roots[..|roots| - k]
      && o.roots[|roots| - k..] == Wrap(definition.Transform(roots[|roots| - k..]))
  {
  }

  /** `clear` always succeeds and leaves no roots, even on an empty stack. */
  lemma ClearEmptiesTheStack<E>(parse: string -> Option<E>, roots: seq<Command<E>>)
    ensures Step(parse, roots, "clear") == Outcome(None, [])
  {
    ResolveCases(parse, "clear");
  }

  lemma {:induction false} WeightOfWrap<E>(commands: seq<Command<E>>)
    ensures Weight(Wrap(commands)) == Weight(commands)
  {
    if commands != [] {
      var n := |commands|;
      assert Wrap(commands)[..n - 1] == Wrap(commands[..n - 1]);
      WeightOfWrap(commands[..n - 1]);
    }
  }

  /**
   * The weighted size moves by one per token: a literal or an operator adds
   * one node, undo removes the node it reverts, and clear empties it.
   */
  lemma WeightAfterStep<E>(parse: string -> Option<E>, roots: seq<Command<E>>, token: string)
    requires Step(parse, roots, token).failure.None?
    ensures var definition := Resolve(parse, token).value;
      var w := Weight(Step(parse, roots, token).roots);
      && (definition.BuildsNode() ==> w == Weight(roots) + 1)
      && (definition.UndoDefinition? ==> w + 1 == Weight(roots))
      && (definition.ClearDefinition? ==> w == 0)
  {
    var definition := Resolve(parse, token).value;
    var after := Step(parse, roots, token).roots;
    if definition.Arity() == All {
      assert after == Wrap(definition.Transform(roots));
      assert after == [];
    } else {
      var k := definition.Arity().Value();
      var below, popped := roots[..|roots| - k], roots[|roots| - k..];
      assert after == below + Wrap(definition.Transform(popped));
      assert roots == below + popped;
      WeightOfReplacement(definition, below, popped);
    }
  }

  /** The fixed-arity half of `WeightAfterStep`: replacing the popped roots by the wrapped output. */
  lemma WeightOfReplacement<E>(definition: CommandDefinition<E>, below: seq<Command<E>>, popped: seq<Command<E>>)
    requires definition.Arity() != All && |popped| == definition.Arity().Value()
    ensures var w := Weight(below + Wrap(definition.Transform(popped)));
      && (definition.BuildsNode() ==> w == Weight(below + popped) + 1)
      && (definition.UndoDefinition? ==> w + 1 == Weight(below + popped))
  {
    var pushed := definition.Transform(popped);
    SumOfAppend(Size, below, popped);
    SumOfAppend(Size, below, Wrap(pushed));
    WeightOfWrap(pushed);
    if definition.BuildsNode() {
      assert pushed == [pushed[0]] && pushed[..0] == [];
      assert Weight(pushed) == Size(pushed[0]) == 1 + Weight(popped);
    } else {
      assert popped == [popped[0]] && popped[..0] == [];
      SizeIsOnePlusChildren(popped[0]);
      assert Weight(popped) == Size(popped[0]) == 1 + Weight(pushed);
    }
  }

  /**
   * Undo round trip: a literal or operator token followed by `undo` gives
   * back the roots it consumed, each inside one more memo cell, and leaves
   * the roots below untouched. (A literal consumes nothing, so the pair
   * leaves the stack as it was.)
   */
  lemma {:induction false} StepThenUndo<E>(parse: string -> Option<E>, roots: seq<Command<E>>, token: string)
    requires Resolve(parse, token).Some? && Resolve(parse, token).value.BuildsNode()
    requires |roots| >= Resolve(parse, token).value.Arity().Value()
    ensures var k := Resolve(parse, token).value.Arity().Value();
      Run(parse, roots, [token, "undo"]) ==
        Outcome(None, roots[..|roots| - k] + Wrap(roots[|roots| - k..]))
  {
    var definition := Resolve(parse, token).value;
    var k := definition.Arity().Value();
    var below, popped := roots[..|roots| - k], roots[|roots| - k..];
    var node := definition.Transform(popped)[0];
    assert Step(parse, roots, token) == Outcome(None, below + [Cached(node)]);
    UndoOfTop(parse, below, node);
    TwoSteps(parse, roots, token, "undo", below + [Cached(node)], below + Wrap(popped));
  }

  /** `undo` on a top root replaces it by its wrapped children. */
  lemma UndoOfTop<E>(parse: string -> Option<E>, below: seq<Command<E>>, node: Command<E>)
    ensures Step(parse, below + [Cached(node)], "undo") == Outcome(None, below + Wrap(Undo(node)))
  {
    var built := below + [Cached(node)];
    ResolveCases(parse, "undo");
    assert built[|built| - 1..] == [Cached(node)];
    assert built[..|built| - 1] == below;
  }

  /** Two tokens that both succeed. */
  lemma TwoSteps<E>(parse: string -> Option<E>, roots: seq<Command<E>>, first: string, second: string,
                    middle: seq<Command<E>>, after: seq<Command<E>>)
    requires Step(parse, roots, first) == Outcome(None, middle)
    requires Step(parse, middle, second) == Outcome(None, after)
    ensures Run(parse, roots, [first, second]) == Outcome(None, after)
  {
    assert [first, second][1..] == [second];
    assert [second][1..] == [];
    assert Run(parse, middle, [second]) == Run(parse, after, []) == Outcome(None, after);

  }

  /**
   * Hence the pair changes nothing that can be observed: evaluating the
   * roots afterwards gives, root by root, what it gave before, and the
   * weighted size is the same.
   */
  lemma UndoRestoresValues<E>(arith: Arithmetic<E>, parse: string -> Option<E>, roots: seq<Command<E>>, token: string)
    requires Resolve(parse, token).Some? && Resolve(parse, token).value.BuildsNode()
    requires |roots| >= Resolve(parse, token).value.Arity().Value()
    ensures var o := Run(parse, roots, [token, "undo"]);
      && o.failure.None?
      && ApplyEach(arith, o.roots) == ApplyEach(arith, roots)
      && Weight(o.roots) == Weight(roots)
  {
    StepThenUndo(parse, roots, token);
    var k := Resolve(parse, token).value.Arity().Value();
    var below, popped := roots[..|roots| - k], roots[|roots| - k..];
    assert roots == below + popped;
    RewrapIsUnobservable(arith, below, popped);
  }

  /** Wrapping the top roots once more changes neither their values nor the weighted size. */
  lemma RewrapIsUnobservable<E>(arith: Arithmetic<E>, below: seq<Command<E>>, top: seq<Command<E>>)
    ensures ApplyEach(arith, below + Wrap(top)) == ApplyEach(arith, below + top)
    ensures Weight(below + Wrap(top)) == Weight(below + top)
  {
    var after, roots := below + Wrap(top), below + top;
    var x, y := ApplyEach(arith, after), ApplyEach(arith, roots);
    forall i | 0 <= i < |roots|
      ensures x[i] == y[i]
    {
      if i < |below| {
        assert after[i] == below[i] == roots[i];
      } else {
        assert after[i] == Wrap(top)[i - |below|] == Cached(top[i - |below|]);
        assert roots[i] == top[i - |below|];
      }
    }
    assert x == y;
    SumOfAppend(Size, below, top);
    SumOfAppend(Size, below, Wrap(top));
    WeightOfWrap(top);
  }

  // ---------------------------------------------------------------------
  // Properties of a batch

  /**
   * A batch is the first part followed by the rest, unless the first part
   * already failed, in which case the rest is not applied at all.
   */
  lemma {:induction false} RunAppend<E>(parse: string -> Option<E>, roots: seq<Command<E>>, first: seq<string>, rest: seq<string>)
    ensures var o := Run(parse, roots, first);
      Run(parse, roots, first + rest) == if o.failure.Some? then o else Run(parse, o.roots, rest)
    decreases |first|
  {
    if first == [] {
      assert first + rest == rest;
    } else {
      assert (first + rest)[0] == first[0];
      assert (first + rest)[1..] == first[1..] + rest;
      var o := Step(parse, roots, first[0]);
      if o.failure.None? {
        RunAppend(parse, o.roots, first[1..], rest);
      }
    }
  }

  /**
   * A batch whose token at `i` fails after the tokens before it succeeded
   * reports that failure, and leaves the roots the earlier tokens built.
   */
  lemma StopsAtFirstFailure<E>(parse: string -> Option<E>, roots: seq<Command<E>>, tokens: seq<string>, i: nat)
    requires i < |tokens|
    requires Run(parse, roots, tokens[..i]).failure.None?
    requires Step(parse, Run(parse, roots, tokens[..i]).roots, tokens[i]).failure.Some?
    ensures Run(parse, roots, tokens) == Outcome(
              Step(parse, Run(parse, roots, tokens[..i]).roots, tokens[i]).failure,
              Run(parse, roots, tokens[..i]).roots)
  {
    var before := Run(parse, roots, tokens[..i]).roots;
    assert tokens == tokens[..i] + tokens[i..];
    RunAppend(parse, roots, tokens[..i], tokens[i..]);
    StepErrors(parse, before, tokens[i]);
  }

  // ---------------------------------------------------------------------
  // The engine

  class Calculator<E> {
    var storage: OperandStack<Command<E>>
    const commandRegistry: CommandRegistry<E>
    const arith: Arithmetic<E>

    ghost predicate Valid()
      reads this, storage, commandRegistry
    {
      commandRegistry.Valid() && storage.measure == Size
    }

    /** The roots on the stack, bottom first. */
    ghost function Roots(): seq<Command<E>>
      reads this, storage
    {
      storage.internal
    }

    ghost function Parse(): string -> Option<E>
    {
      commandRegistry.operatableProvider
    }

    constructor (arith: Arithmetic<E>, operatableProvider: string -> Option<E>)
      ensures Valid() && fresh(storage)
      ensures Roots() == []
      ensures this.arith == arith && Parse() == operatableProvider
    {
      storage := new OperandStack(Size);
      commandRegistry := new CommandRegistry(operatableProvider);
      this.arith := arith;
    }

    /** Applies one token to the stack (see `Step`). */
    method Push(token: string) returns (failure: Option<PushError>)
      requires Valid()
      modifies this, storage
      ensures Valid()
      ensures storage == old(storage) || fresh(storage)
      ensures Outcome(failure, Roots()) == Step(Parse(), old(Roots()), token)
    {
      var maybeDefinition := commandRegistry.Get(token);
      if maybeDefinition.None? {
        return Some(UnknownElementOrOperator(token));
      }
      var definition := maybeDefinition.value;
      var size := definition.Arity();
      var commands;
      if size == All {
        var all := storage.AllElements();
        storage := new OperandStack(Size);
        commands := definition.Transform(all);
      } else {
        if storage.Size() < size.Value() {
          return Some(InsufficientParameter(token, storage.AllSize() + 1));
        }
        var popped := storage.Pop(size.Value());
        commands := definition.Transform(popped);
      }
      storage.Push(Wrap(commands));
      failure := None;
    }

    /** Applies the tokens in order, stopping at the first error (see `Run`). */
    method PushAll(tokens: seq<string>) returns (failure: Option<PushError>)
      requires Valid()
      modifies this, storage
      ensures Valid()
      ensures Outcome(failure, Roots()) == Run(Parse(), old(Roots()), tokens)
    {
      var i := 0;
      failure := None;
      while i < |tokens| && failure.None?
        invariant 0 <= i <= |tokens|
        invariant Valid()
        invariant storage == old(storage) || fresh(storage)
        invariant failure.None? ==> Run(Parse(), old(Roots()), tokens) == Run(Parse(), Roots(), tokens[i..])
        invariant failure.Some? ==> Outcome(failure, Roots()) == Run(Parse(), old(Roots()), tokens)
      {
        failure := Push(tokens[i]);
        i := i + 1;
      }
      if failure.None? {
        assert tokens[i..] == [];
      }
    }

    /** Forces every root, bottom to top; each root's outcome is its own. */
    function Evaluate(): (results: seq<Either<E>>)
      reads this, storage
      ensures |results| == |storage.internal|
      ensures forall i :: 0 <= i < |results| ==> results[i] == Apply(arith, storage.internal[i])
    {
      ApplyEach(arith, storage.internal)
    }
  }
}
