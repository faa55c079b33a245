/** Finding the hosting activity of an Android context (Helper.getActivity). */
module Helper {
  import opened Wrappers

  /**
   * A context as getActivity distinguishes them: a ComponentActivity, any other
   * ContextWrapper around a base context, or a context of some other kind.
   */
  datatype Context =
    | ComponentActivity(id: nat)
    | Wrapper(base: Context)
    | Other(id: nat)

  /** The contexts reached from `c` by following base contexts, starting with `c` itself. */
  function Chain(c: Context): (r: seq<Context>)
    ensures |r| >= 1 && r[0] == c
    ensures !r[|r| - 1].Wrapper?
  {
    match c
    case Wrapper(b) => [c] + Chain(b)
    case _ => [c]
  }

  /**
   * The hosting activity of `c`: an activity is recognised before the wrapper
   * test is made, a wrapper defers to its base context, and any other context
   * has none. The result is absent exactly when no activity occurs along the
   * wrapper chain; FoundIsFirstActivity says which activity is found otherwise.
   */
  function GetActivity(c: Context): (r: Option<Context>)
    ensures r.None? <==> forall x :: x in Chain(c) ==> !x.ComponentActivity?
    ensures r.Some? ==> r.value.ComponentActivity? && r.value in Chain(c)
  {
    match c
    case ComponentActivity(_) =>
      assert Chain(c)[0] == c;
      Some(c)
    case Wrapper(b) =>
      assert Chain(c) == [c] + Chain(b);
      GetActivity(b)
    case Other(_) => None
  }

  /** The activity found is the first one along the wrapper chain; `i` is its position. */
  lemma {:induction false} FoundIsFirstActivity(c: Context) returns (i: nat)
    requires GetActivity(c).Some?
    ensures i < |Chain(c)| && Chain(c)[i] == GetActivity(c).value
    ensures forall k :: 0 <= k < i ==> !Chain(c)[k].ComponentActivity?
  {
    match c
    case ComponentActivity(_) =>
      i := 0;
    case Wrapper(b) =>
      var j := FoundIsFirstActivity(b);
      assert Chain(c) == [c] + Chain(b);
      i := j + 1;
  }

  /** `c` wrapped in `n` layers of ContextWrapper. */
  function Wrapped(c: Context, n: nat): Context
  {
    if n == 0 then c else Wrapper(Wrapped(c, n - 1))
  }

  /** However deeply an activity is wrapped, getActivity finds it. */
  lemma {:induction false} WrappedActivityFound(id: nat, n: nat)
    ensures GetActivity(Wrapped(ComponentActivity(id), n)) == Some(ComponentActivity(id))
  {
    if n > 0 {
      WrappedActivityFound(id, n - 1);
    }
  }

  /** A context that is not an activity contributes nothing when wrapped around nothing else. */
  lemma {:induction false} WrappedOtherNotFound(id: nat, n: nat)
    ensures GetActivity(Wrapped(Other(id), n)) == None
  {
    if n > 0 {
      WrappedOtherNotFound(id, n - 1);
    }
  }
}
