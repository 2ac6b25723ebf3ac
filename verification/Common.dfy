/** What every component of the model shares: results, mapping with a stop at the first error, and orders
    without repetition. */
module Common {
  datatype Option<+T> = None | Some(value: T)

  datatype Result<+T, +E> = Ok(value: T) | Err(error: E) {
    predicate IsFailure() {
      Err?
    }

    function PropagateFailure<U>(): Result<U, E>
      requires Err?
    {
      Err(error)
    }

    function Extract(): T
      requires Ok?
    {
      value
    }
  }

  function MapAll<T, U, E>(xs: seq<T>, f: T -> Result<U, E>): (r: Result<seq<U>, E>)
    ensures r.Ok? ==> |r.value| == |xs|
  {
    if xs == [] then Ok([])
    else
      var first :- f(xs[0]);
      var rest :- MapAll(xs[1..], f);
      Ok([first] + rest)
  }

  predicate Distinct<T(==)>(s: seq<T>) {
    forall i, j :: 0 <= i < j < |s| ==> s[i] != s[j]
  }

  function SetOf<T>(order: seq<T>): set<T> {
    set x | x in order
  }

  lemma OrderOneMore<T>(order: seq<T>, x: T)
    requires Distinct(order) && x !in SetOf(order)
    ensures Distinct(order + [x]) && SetOf(order + [x]) == SetOf(order) + {x}
  {
  }

  lemma {:induction false} DistinctCounts<T>(order: seq<T>)
    requires Distinct(order)
    ensures |SetOf(order)| == |order|
  {
    if order != [] {
      var (front, x) := (order[..|order| - 1], order[|order| - 1]);
      DistinctCounts(front);
      assert x !in SetOf(front);
      assert order == front + [x];
      OrderOneMore(front, x);
    }
  }

  lemma OrderOf<T>(s: set<T>) returns (order: seq<T>)
    ensures Distinct(order) && SetOf(order) == s
  {
    order := [];
    if s != {} {
      var x :| x in s;
      var front := OrderOf(s - {x});
      OrderOneMore(front, x);
      order := front + [x];
    }
  }
}
