/** The generator that holds a distribution function, proved against Cdf.dfy. */
module CustomRandom {
  import opened Outcomes
  import C = Cdf

  class CustomRandomNumberGenerator {
    var cdf: seq<C.Point>

    ghost predicate Valid()
      reads this
    {
      cdf == [] || C.Valid(cdf)
    }

    constructor ()
      ensures Valid() && cdf == []
    {
      cdf := [];
    }

    method IsValidCdf(inputCdf: seq<C.Point>) returns (r: Outcome<bool>)
      ensures r == C.IsValidCdf(inputCdf)
    {
      if inputCdf == [] {
        return Aborted;
      }
      if inputCdf[0].prob != 0.0 || inputCdf[|inputCdf| - 1].prob != C.FULL {
        return Ok(false);
      }
      var i := 1;
      while i < |inputCdf|
        invariant 1 <= i <= |inputCdf| && C.Rises(inputCdf, 1) == C.Rises(inputCdf, i)
      {
        var curr, prev := inputCdf[i], inputCdf[i - 1];
        if curr.prob <= prev.prob || curr.value <= prev.value {
          return Ok(false);
        }
        i := i + 1;
      }
      r := Ok(true);
    }

    method SetCdf(inputCdf: seq<C.Point>) returns (r: Outcome<bool>)
      requires Valid()
      modifies this
      ensures Valid() && r == C.IsValidCdf(inputCdf)
      ensures cdf == if r == Ok(true) then inputCdf else old(cdf)
    {
      r := IsValidCdf(inputCdf);
      if r == Ok(true) {
        cdf := inputCdf;
      }
    }

    /** The mean, if a distribution has been set. */
    method CalculateAverageValue() returns (r: Outcome<real>)
      requires Valid()
      ensures r == if cdf == [] then Aborted else Ok(C.Mean(cdf))
    {
      if cdf == [] {
        return Aborted;
      }
      var totalAverage := 0.0;
      var prev := cdf[0];
      var i := 1;
      while i < |cdf|
        invariant 1 <= i <= |cdf| && prev == cdf[i - 1] && totalAverage == C.Area(cdf[..i])
      {
        assert cdf[..i + 1] == cdf[..i] + [cdf[i]];
        C.AreaSnoc(cdf[..i], cdf[i]);
        var curr := cdf[i];
        totalAverage := totalAverage + (curr.value + prev.value) / 2.0 * (curr.prob - prev.prob);
        prev := curr;
        i := i + 1;
      }
      assert cdf[..i] == cdf;
      r := Ok(totalAverage / 100.0);
    }

    method GetValueFromPercentile(percentile: real) returns (r: C.Option<real>)
      requires Valid()
      ensures r == if cdf == [] then C.None else C.ValueFromPercentile(cdf, percentile)
    {
      if cdf != [] {
        C.ValidIff(cdf);
      }
      var i := 1;
      while i < |cdf|
        invariant 1 <= i && (cdf == [] || i <= |cdf|)
        invariant cdf != [] ==>
                    C.ValueFromPercentile(cdf, percentile) == C.At(C.Probs(cdf), C.Values(cdf), percentile, i)
      {
        if percentile <= cdf[i].prob {
          var lower, upper := cdf[i - 1], cdf[i];
          assert C.Probs(cdf)[i - 1] < C.Probs(cdf)[i];
          return C.Some(C.Line(lower.prob, lower.value, upper.prob, upper.value, percentile));
        }
        i := i + 1;
      }
      r := C.None;
    }

    /** The percentage, or -1; looking at the last point fails if there is none. */
    method GetPercentileFromValue(value: real) returns (r: Outcome<C.Option<real>>)
      requires Valid()
      ensures r == if cdf != [] then Ok(C.PercentileFromValue(cdf, value))
                   else if value < 0.0 then Ok(C.Some(-1.0)) else Aborted
    {
      if value < 0.0 {
        return Ok(C.Some(-1.0));
      }
      if cdf == [] {
        return Aborted;
      }
      if value > cdf[|cdf| - 1].value {
        return Ok(C.Some(-1.0));
      }
      C.ValidIff(cdf);
      var i := 1;
      while i < |cdf|
        invariant 1 <= i <= |cdf|
        invariant C.PercentileFromValue(cdf, value) == C.At(C.Values(cdf), C.Probs(cdf), value, i)
      {
        if value <= cdf[i].value {
          var lower, upper := cdf[i - 1], cdf[i];
          assert C.Values(cdf)[i - 1] < C.Values(cdf)[i];
          return Ok(C.Some(C.Line(lower.value, lower.prob, upper.value, upper.prob, value)));
        }
        i := i + 1;
      }
      r := Ok(C.None);
    }
  }
}
