/**
 * The fail-fast loop shared by both revisions of load, stated once for any
 * per-field outcomes: field i is given the value its handling produced, and
 * the first field whose handling produced an error ends the loop.
 */
module Walk {
  import opened Wrappers
  import opened Reflect

  /** A field's new value and the error its handling produced, if any. */
  datatype Outcome<E> = Outcome(v: Value, err: Option<E>)

  /** A struct's new field values and the error that stopped the walk, if any. */
  datatype Loaded<E> = Loaded(vs: seq<Value>, err: Option<E>)

  /** The loop from index i on, when field j's handling produces os[j]. */
  function Run<E>(os: seq<Outcome<E>>, vs: seq<Value>, i: nat): (r: Loaded<E>)
    requires |os| == |vs| && i <= |vs|
    ensures |r.vs| == |vs|
    decreases |vs| - i
  {
    if i == |vs| then Loaded(vs, None)
    else if os[i].err.Some? then Loaded(vs[i := os[i].v], os[i].err)
    else Run(os, vs[i := os[i].v], i + 1)
  }

  /** The first index from i on whose outcome is an error, or |os| when there is none. */
  function FirstFailure<E>(os: seq<Outcome<E>>, i: nat): (n: nat)
    requires i <= |os|
    ensures i <= n <= |os|
    ensures forall j :: i <= j < n ==> os[j].err.None?
    ensures n < |os| ==> os[n].err.Some?
    decreases |os| - i
  {
    if i == |os| then |os|
    else if os[i].err.Some? then i
    else FirstFailure(os, i + 1)
  }

  /**
   * Fail-fast: the fields from i up to and including the first failing one
   * get their outcome's value, all other fields keep theirs, and the loop's
   * error is the failing field's.
   */
  lemma {:induction false} RunFailFast<E>(os: seq<Outcome<E>>, vs: seq<Value>, i: nat)
    requires |os| == |vs| && i <= |vs|
    ensures var r := Run(os, vs, i);
      var n := FirstFailure(os, i);
      && (forall j :: 0 <= j < i ==> r.vs[j] == vs[j])
      && (forall j :: i <= j <= n && j < |vs| ==> r.vs[j] == os[j].v)
      && (forall j :: n < j < |vs| ==> r.vs[j] == vs[j])
      && r.err == (if n < |vs| then os[n].err else None)
    decreases |vs| - i
  {
    if i < |vs| && os[i].err.None? {
      RunFailFast(os, vs[i := os[i].v], i + 1);
    }
  }

  /** Running the loop again over the values it left, with the same outcomes, changes nothing. */
  lemma {:induction false} RunIdempotent<E>(os: seq<Outcome<E>>, vs: seq<Value>, i: nat)
    requires |os| == |vs| && i <= |vs|
    ensures Run(os, Run(os, vs, i).vs, i) == Run(os, vs, i)
    decreases |vs| - i
  {
    if i < |vs| {
      var vs1 := vs[i := os[i].v];
      if os[i].err.Some? {
        assert vs1[i := os[i].v] == vs1;
      } else {
        var r := Run(os, vs1, i + 1);
        RunFailFast(os, vs1, i + 1);
        assert r.vs[i := os[i].v] == r.vs;
        RunIdempotent(os, vs1, i + 1);
      }
    }
  }
}
