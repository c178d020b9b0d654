/** Averages of an optional field over groups: which values are present, their mean, and the
    weights under which means add up to the total again. */
module Averages {
  import opened Collections
  import opened Grouping

  /** The values of one field that are present, in order. */
  function Present<T>(ps: seq<T>, field: T -> Option<real>): seq<real> {
    if ps == [] then []
    else if field(ps[|ps| - 1]).Some? then Present(ps[..|ps| - 1], field) + [field(ps[|ps| - 1]).value]
    else Present(ps[..|ps| - 1], field)
  }

  function OptionalMean(xs: seq<real>): Option<real> {
    if xs == [] then None else Some(Mean(xs))
  }

  /** The figure, times the factor it was divided by, is the mean of the values: there is one exactly
      when there are values, and times their number it is their sum. */
  ghost predicate IsMeanOf(figure: Option<real>, factor: real, values: seq<real>) {
    && (figure.Some? <==> values != [])
    && (values != [] ==> figure.value * factor * |values| as real == Sum(values))
  }

  lemma OptionalMeanIsMean(xs: seq<real>)
    ensures IsMeanOf(OptionalMean(xs), 1.0, xs)
  {
    if xs != [] {
      MeanTimesCount(xs);
    }
  }

  lemma {:induction false} PresentMember<T>(ps: seq<T>, field: T -> Option<real>, x: real)
    ensures x in Present(ps, field) <==> exists p :: p in ps && field(p) == Some(x)
  {
    if ps != [] {
      SnocCases(ps);
      PresentMember(ps[..|ps| - 1], field, x);
    }
  }

  /** The present values, by the positions of the elements that have one. */
  lemma {:induction false} PresentPositions<T>(ps: seq<T>, field: T -> Option<real>) returns (at: seq<nat>)
    ensures Increasing(at) && forall n: nat :: n in at <==> n < |ps| && field(ps[n]).Some?
    ensures |at| == |Present(ps, field)|
    ensures forall k :: 0 <= k < |at| ==> at[k] in at && field(ps[at[k]]) == Some(Present(ps, field)[k])
  {
    if ps == [] {
      at := [];
    } else {
      var last := |ps| - 1;
      at := PresentPositions(ps[..last], field);
      if field(ps[last]).Some? {
        at := at + [last];
      }
    }
  }

  function OrZero<T>(field: T -> Option<real>): T -> real {
    (p: T) => field(p).GetOr(0.0)
  }

  lemma {:induction false} SumOfPresent<T>(ps: seq<T>, field: T -> Option<real>)
    ensures Sum(Present(ps, field)) == Sum(Map(ps, OrZero(field)))
  {
    if ps != [] {
      var init, p := ps[..|ps| - 1], ps[|ps| - 1];
      SnocCases(ps);
      SumOfPresent(init, field);
      MapSnoc(init, p, OrZero(field));
      SumSnoc(Map(init, OrZero(field)), OrZero(field)(p));
      if field(p).Some? {
        SumSnoc(Present(init, field), field(p).value);
      }
    }
  }

  /** A mean times the number of terms it averages; a missing mean averages none. */
  function Weight(mean: Option<real>, count: nat): real {
    mean.GetOr(0.0) * count as real
  }

  lemma WeightOfMean(xs: seq<real>)
    ensures Weight(OptionalMean(xs), |xs|) == Sum(xs)
  {
    if xs != [] {
      MeanTimesCount(xs);
    }
  }
}
