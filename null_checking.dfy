/** `IterableNullChecker.checkNotContainsNull`: rejects a null iterable and an
    iterable holding null, and hands back the very same iterable otherwise. */
module NullChecking {
  import opened Common

  /** Whether some element of the iterable is `null`. */
  predicate ContainsNull<T>(s: seq<Option<T>>)
  {
    exists i :: 0 <= i < |s| && s[i].None?
  }

  /** The message `checkNotNull` uses for the iterable itself. */
  const NULL_ITERABLE_MESSAGE: string := "Argument 'iterable' cannot be null."

  /** Walks the iterable once, throwing with `errorMessage` at the first `null`. */
  method CheckNotContainsNull<T>(iterable: Option<seq<Option<T>>>, errorMessage: string)
    returns (r: Result<seq<Option<T>>>)
    ensures iterable.None? ==> r == Err(IllegalArgument(NULL_ITERABLE_MESSAGE))
    ensures iterable.Some? && ContainsNull(iterable.value) ==> r == Err(IllegalArgument(errorMessage))
    ensures iterable.Some? && !ContainsNull(iterable.value) ==> r == Ok(iterable.value)
  {
    if iterable.None? {
      return Err(IllegalArgument(NULL_ITERABLE_MESSAGE));
    }
    var s := iterable.value;
    var i := 0;
    while i < |s|
      invariant 0 <= i <= |s|
      invariant forall j :: 0 <= j < i ==> s[j].Some?
    {
      if s[i].None? {
        return Err(IllegalArgument(errorMessage));
      }
      i := i + 1;
    }
    return Ok(s);
  }

  /** The elements of an iterable known to hold no `null`. */
  function Unwrap<T>(s: seq<Option<T>>): (r: seq<T>)
    requires !ContainsNull(s)
    ensures |r| == |s|
    ensures forall i :: 0 <= i < |s| ==> s[i] == Some(r[i])
  {
    seq(|s|, i requires 0 <= i < |s| => s[i].value)
  }
}
