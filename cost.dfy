/**
 * Weighted cost functions: a cumulative cost is a list of (weight, term) pairs whose
 * cost is the sum of the weighted terms. Each term is a Java supplier; the suppliers
 * of the engine read values that do not change between the moment a cost is built
 * and the moment it is summed, so a term is modelled by its value.
 */
module Cost {

  datatype Term = Term(weight: real, value: real)

  /** The sum of `weight * value` over the terms, in order. */
  function WeightedSum(terms: seq<Term>): real
  {
    if terms == [] then 0.0
    else WeightedSum(terms[..|terms| - 1]) + terms[|terms| - 1].weight * terms[|terms| - 1].value
  }

  /** The weighted sum of two lists of terms put together is the sum of their sums. */
  lemma {:induction false} WeightedSumAppend(xs: seq<Term>, ys: seq<Term>)
    ensures WeightedSum(xs + ys) == WeightedSum(xs) + WeightedSum(ys)
  {
    if ys == [] {
      assert xs + ys == xs;
    } else {
      assert (xs + ys)[..|xs + ys| - 1] == xs + ys[..|ys| - 1];
      WeightedSumAppend(xs, ys[..|ys| - 1]);
    }
  }

  /** The sum of a few terms written out. */
  lemma WeightedSumOfThree(a: Term, b: Term, c: Term)
    ensures WeightedSum([a, b, c]) == a.weight * a.value + b.weight * b.value + c.weight * c.value
  {
    assert [a, b, c][..2] == [a, b];
    WeightedSumOfTwo(a, b);
    assert WeightedSum([a, b, c]) == WeightedSum([a, b]) + c.weight * c.value;
  }

  lemma WeightedSumOfTwo(a: Term, b: Term)
    ensures WeightedSum([a, b]) == a.weight * a.value + b.weight * b.value
  {
    assert [a, b][..1] == [a];
    assert [a][..0] == [];
    assert WeightedSum([a]) == WeightedSum([]) + a.weight * a.value;
    assert WeightedSum([a, b]) == WeightedSum([a]) + b.weight * b.value;
  }

  /** `CumulativeCostFunction`: a list of weighted terms, appended to in place. */
  class CumulativeCostFunction {
    var terms: seq<Term>

    constructor ()
      ensures terms == []
    {
      terms := [];
    }

    /** `cost()`: the sum over all terms added so far. */
    function Cost(): real
      reads this
    {
      WeightedSum(terms)
    }

    /** `withCost`: appends one term and returns the same function. */
    method WithCost(weight: real, value: real) returns (r: CumulativeCostFunction)
      modifies this
      ensures r == this
      ensures terms == old(terms) + [Term(weight, value)]
      ensures Cost() == old(Cost()) + weight * value
    {
      WeightedSumAppend(terms, [Term(weight, value)]);
      terms := terms + [Term(weight, value)];
      r := this;
    }

    /** `with`: appends all the terms of the other function, itself included. */
    method With(other: CumulativeCostFunction) returns (r: CumulativeCostFunction)
      modifies this
      ensures r == this
      ensures terms == old(terms) + old(other.terms)
      ensures Cost() == old(Cost()) + old(other.Cost())
    {
      WeightedSumAppend(terms, other.terms);
      terms := terms + other.terms;
      r := this;
    }
  }
}
