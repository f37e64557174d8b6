/**
 * The memoizing decorator (CacheStrategy, and the identical cacheableCommand
 * of the calculator): a cell around one command whose result is computed on
 * the first apply and kept for good, failures included.
 */
module Caching {
  import opened Wrappers
  import opened Commands

  class CachedCommand<E> {
    /** The decorated command. */
    const uncached: Command<E>
    const arith: Arithmetic<E>
    /** Unset until the first apply; never changes afterwards. */
    var result: Option<Either<E>>
    /** How many times the decorated command has been applied. */
    ghost var invocations: nat

    ghost predicate Valid()
      reads this
    {
      match result
      case None => invocations == 0
      case Some(r) => invocations == 1 && r == Commands.Apply(arith, uncached)
    }

    constructor (arith: Arithmetic<E>, uncached: Command<E>)
      ensures Valid()
      ensures this.arith == arith && this.uncached == uncached
      ensures result == None && invocations == 0
    {
      this.arith := arith;
      this.uncached := uncached;
      result := None;
      invocations := 0;
    }

    /**
     * Forces the cell: the first call applies the decorated command and
     * stores its outcome, success or failure; every later call returns the
     * stored outcome without applying it again. The value is that of the
     * `Cached` node of the command tree.
     */
    method Apply() returns (r: Either<E>)
      requires Valid()
      modifies this
      ensures Valid()
      ensures r == Commands.Apply(arith, Cached(uncached))
      ensures result == Some(r) && invocations == 1
      ensures old(result).Some? ==> r == old(result).value && invocations == old(invocations)
    {
      if result.None? {
        // the lock is left out; the second test is the one made inside it
        if result.None? {
          var outcome := Commands.Apply(arith, uncached);
          invocations := invocations + 1;
          result := Some(outcome);
        }
      }
      r := result.value;
    }

    /** Undo goes to the decorated command, not through the cache. */
    function Undo(): (children: seq<Command<E>>)
      ensures children == Commands.Undo(Cached(uncached))
    {
      Commands.Undo(uncached)
    }

    /** Size goes to the decorated command, not through the cache. */
    function Size(): (n: nat)
      ensures n == Commands.Size(Cached(uncached))
    {
      Commands.Size(uncached)
    }
  }

  /**
   * Forcing a cell `n` times yields the same outcome every time, and the
   * decorated command runs at most once (exactly once when n > 0).
   */
  method ApplyRepeatedly<E>(cell: CachedCommand<E>, n: nat) returns (outcomes: seq<Either<E>>)
    requires cell.Valid()
    modifies cell
    ensures cell.Valid()
    ensures |outcomes| == n
    ensures forall i :: 0 <= i < n ==> outcomes[i] == Commands.Apply(cell.arith, cell.uncached)
    ensures cell.invocations <= 1
    ensures n > 0 ==> cell.invocations == 1
  {
    outcomes := [];
    while |outcomes| < n
      invariant cell.Valid()
      invariant |outcomes| <= n
      invariant forall i :: 0 <= i < |outcomes| ==> outcomes[i] == Commands.Apply(cell.arith, cell.uncached)
      invariant cell.invocations <= 1
      invariant |outcomes| > 0 ==> cell.invocations == 1
    {
      var r := cell.Apply();
      outcomes := outcomes + [r];
    }
  }
}
