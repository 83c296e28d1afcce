/** Shared result types. */
module Basics {

  datatype Option<+T> = None | Some(value: T)

  /** How a step that may raise ended. */
  datatype Outcome = Done | Raised(detail: string) {
    predicate IsFailure() { Raised? }
    function PropagateFailure(): Outcome
      requires Raised?
    {
      this
    }
  }

  /** The error of the first check in a list that does not hold, if any. */
  function FirstFailure<E>(checks: seq<(bool, E)>): Option<E> {
    if checks == [] then None
    else if !checks[0].0 then Some(checks[0].1)
    else FirstFailure(checks[1..])
  }

  lemma {:induction false} FirstOfTwo<E>(a: seq<(bool, E)>, b: seq<(bool, E)>)
    ensures FirstFailure(a + b) == if FirstFailure(a).Some? then FirstFailure(a) else FirstFailure(b)
  {
    if a == [] {
      assert a + b == b;
    } else {
      assert (a + b)[1..] == a[1..] + b;
      FirstOfTwo(a[1..], b);
    }
  }

  lemma FirstOfOne<E>(a: (bool, E))
    ensures FirstFailure([a]) == if !a.0 then Some(a.1) else None
  {
    assert [a][1..] == [];
  }

  lemma FirstOfThree<E>(a: (bool, E), b: (bool, E), c: (bool, E))
    ensures FirstFailure([a, b, c])
         == if !a.0 then Some(a.1) else if !b.0 then Some(b.1) else if !c.0 then Some(c.1) else None
    ensures FirstFailure([a, b]) == if !a.0 then Some(a.1) else if !b.0 then Some(b.1) else None
  {
    FirstOfTwo([a], [b, c]);
    FirstOfTwo([b], [c]);
    FirstOfTwo([a], [b]);
    FirstOfOne(a);
    FirstOfOne(b);
    FirstOfOne(c);
    assert [a] + [b, c] == [a, b, c] && [b] + [c] == [b, c] && [a] + [b] == [a, b];
  }
}
