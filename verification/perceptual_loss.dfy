/** `SAMPerpetualLoss.forward` (loss/sam_perceptural.py): the mean, over the
    zipped pairs of feature taps of the two images, of the per-tap mean
    squared error. A feature tap is a flattened tensor, a `seq<real>`. */
module PerceptualLoss {
  import opened Outcomes
  import opened Hooks

  type Feature = seq<real>

  function Sum(xs: seq<real>): real
    decreases |xs|
  {
    if xs == [] then 0.0 else Sum(xs[..|xs| - 1]) + xs[|xs| - 1]
  }

  function Square(x: real): real {
    x * x
  }

  /** Sum of the squared element differences. */
  function SumSquaredDiff(a: Feature, b: Feature): real
    requires |a| == |b|
    decreases |a|
  {
    if a == [] then 0.0
    else SumSquaredDiff(a[..|a| - 1], b[..|b| - 1]) + Square(a[|a| - 1] - b[|b| - 1])
  }

  /** A sum of non-negative terms is non-negative, and zero exactly when
      every term is zero. */
  lemma {:induction false} SumOfNonNegative(xs: seq<real>)
    requires forall i :: 0 <= i < |xs| ==> xs[i] >= 0.0
    ensures Sum(xs) >= 0.0
    ensures Sum(xs) == 0.0 <==> forall i :: 0 <= i < |xs| ==> xs[i] == 0.0
    decreases |xs|
  {
    if xs != [] {
      var init := xs[..|xs| - 1];
      SumOfNonNegative(init);
      if Sum(xs) == 0.0 {
        forall i | 0 <= i < |xs|
          ensures xs[i] == 0.0
        {
          if i < |xs| - 1 {
            assert xs[i] == init[i];
          }
        }
      }
    }
  }

  lemma PositiveProduct(x: real)
    requires x > 0.0
    ensures x * x > 0.0
  {
  }

  lemma SquareFacts(x: real)
    ensures Square(x) >= 0.0
    ensures Square(x) == 0.0 <==> x == 0.0
  {
    if x > 0.0 {
      calc { Square(x); == x * x; > { PositiveProduct(x); } 0.0; }
    } else if x < 0.0 {
      calc { Square(x); == (-x) * (-x); > { PositiveProduct(-x); } 0.0; }
    }
  }

  /** The squared distance is non-negative and zero exactly for equal
      vectors. */
  lemma {:induction false} SumSquaredDiffZero(a: Feature, b: Feature)
    requires |a| == |b|
    ensures SumSquaredDiff(a, b) >= 0.0
    ensures SumSquaredDiff(a, b) == 0.0 <==> a == b
    decreases |a|
  {
    if a != [] {
      var n := |a| - 1;
      SumSquaredDiffZero(a[..n], b[..n]);
      SquareFacts(a[n] - b[n]);
      assert a == a[..n] + [a[n]] && b == b[..n] + [b[n]];
      if a == b {
        assert a[..n] == b[..n];
      }
    }
  }

  /** `F.mse_loss(x, y)`: differently sized taps are a shape error (size-1
      broadcasting is not modelled) and the mean over an empty tap is NaN. */
  function Mse(a: Feature, b: Feature): (r: Result<real>)
    ensures r.Ok? <==> |a| == |b| && |a| > 0
    ensures |a| != |b| ==> r == Err(ShapeMismatch)
    ensures r.Ok? ==> r.value >= 0.0
    ensures r.Ok? ==> (r.value == 0.0 <==> a == b)
  {
    if |a| != |b| then Err(ShapeMismatch)
    else if |a| == 0 then Err(NotANumber)
    else
      SumSquaredDiffZero(a, b);
      Ok(SumSquaredDiff(a, b) / |a| as real)
  }

  /** Python's `zip`: pairs up to the shorter list. */
  function Zip(f1: seq<Feature>, f2: seq<Feature>): (z: seq<(Feature, Feature)>)
    ensures |z| == if |f1| < |f2| then |f1| else |f2|
    ensures forall i :: 0 <= i < |z| ==> z[i] == (f1[i], f2[i])
  {
    var n := if |f1| < |f2| then |f1| else |f2|;
    seq(n, i requires 0 <= i < n => (f1[i], f2[i]))
  }

  /** The `loss` list: one `mse_loss` per pair, in order; the first failing
      pair stops the loop. */
  function TapLosses(pairs: seq<(Feature, Feature)>): (r: Result<seq<real>>)
    ensures r.Ok? <==> forall i :: 0 <= i < |pairs| ==> Mse(pairs[i].0, pairs[i].1).Ok?
    ensures r.Ok? ==> |r.value| == |pairs|
    ensures r.Ok? ==> forall i :: 0 <= i < |pairs| ==> r.value[i] == Mse(pairs[i].0, pairs[i].1).value
    decreases |pairs|
  {
    if pairs == [] then Ok([])
    else
      var first :- Mse(pairs[0].0, pairs[0].1);
      var rest :- TapLosses(pairs[1..]);
      assert forall i :: 1 <= i < |pairs| ==> pairs[i] == pairs[1..][i - 1];
      Ok([first] + rest)
  }

  /** `sum(loss) / len(loss)` over the zipped taps: no pair at all is a
      ZeroDivisionError. */
  function Forward(f1: seq<Feature>, f2: seq<Feature>): (r: Result<real>)
    ensures (|f1| == 0 || |f2| == 0) ==> r == Err(ZeroDivisionError)
  {
    var losses :- TapLosses(Zip(f1, f2));
    if |losses| == 0 then Err(ZeroDivisionError) else Ok(Sum(losses) / |losses| as real)
  }

  /** Every zipped pair of taps has one size, and that size is not zero. */
  predicate Comparable(f1: seq<Feature>, f2: seq<Feature>) {
    forall i :: 0 <= i < |f1| && i < |f2| ==> |f1[i]| == |f2[i]| && |f1[i]| > 0
  }

  /** The per-tap losses exist exactly when the zipped taps are comparable. */
  lemma TapLossesDefined(f1: seq<Feature>, f2: seq<Feature>)
    ensures TapLosses(Zip(f1, f2)).Ok? <==> Comparable(f1, f2)
  {
    var z := Zip(f1, f2);
    if TapLosses(z).Ok? {
      forall i | 0 <= i < |f1| && i < |f2|
        ensures |f1[i]| == |f2[i]| && |f1[i]| > 0
      {
        assert Mse(z[i].0, z[i].1).Ok?;
      }
    }
  }

  /** The mean of non-negative losses is non-negative and zero exactly when
      every loss is zero. */
  lemma MeanOfNonNegative(losses: seq<real>)
    requires |losses| > 0
    requires forall i :: 0 <= i < |losses| ==> losses[i] >= 0.0
    ensures Sum(losses) / |losses| as real >= 0.0
    ensures Sum(losses) / |losses| as real == 0.0 <==> forall i :: 0 <= i < |losses| ==> losses[i] == 0.0
  {
    SumOfNonNegative(losses);
  }

  /** The loss is defined exactly when there is at least one pair and all
      pairs are comparable; it then averages min(|f1|, |f2|) tap losses. */
  lemma ForwardDefined(f1: seq<Feature>, f2: seq<Feature>)
    ensures Forward(f1, f2).Ok? <==> |f1| > 0 && |f2| > 0 && Comparable(f1, f2)
    ensures Forward(f1, f2).Ok? ==>
              |TapLosses(Zip(f1, f2)).value| == (if |f1| < |f2| then |f1| else |f2|)
  {
    TapLossesDefined(f1, f2);
  }

  /** A defined loss is non-negative, and zero exactly when the zipped taps
      agree. */
  lemma {:induction false} ForwardValue(f1: seq<Feature>, f2: seq<Feature>)
    ensures Forward(f1, f2).Ok? ==> Forward(f1, f2).value >= 0.0
    ensures Forward(f1, f2).Ok? ==>
              (Forward(f1, f2).value == 0.0 <==> forall i :: 0 <= i < |f1| && i < |f2| ==> f1[i] == f2[i])
  {
    var tl := TapLosses(Zip(f1, f2));
    if tl.Ok? && |tl.value| > 0 {
      var losses := tl.value;
      assert forall i :: 0 <= i < |losses| ==> losses[i] == Mse(f1[i], f2[i]).value;
      MeanOfNonNegative(losses);
    }
  }

  /** The loss of a tap list against itself is zero when there is at least
      one tap and no tap is empty. */
  lemma IdenticalFeaturesLoseNothing(f: seq<Feature>)
    requires |f| > 0
    requires forall i :: 0 <= i < |f| ==> |f[i]| > 0
    ensures Forward(f, f) == Ok(0.0)
  {
    ForwardDefined(f, f);
    ForwardValue(f, f);
  }

  /** `SAMPerpetualLoss.forward(low_light, gt)`: two feature extractions
      through the hook mechanism with the configured layer names, then the
      averaged loss. Each image is given by the trace of its forward pass
      and whether that pass raises. */
  method LossForward(reg: Registry, moduleCount: nat,
                     trace1: seq<string>, outs1: seq<Feature>, raises1: bool,
                     trace2: seq<string>, outs2: seq<Feature>, raises2: bool)
    returns (after: Registry, r: Result<real>)
    requires WellFormed(reg)
    requires |outs1| == |trace1| && |outs2| == |trace2|
    ensures WellFormed(after)
    ensures raises1 || raises2 ==> r == Err(ForwardRaised)
    ensures !raises1 && !raises2 ==> after.active == reg.active
    ensures !raises1 && !raises2 ==>
              r == Forward(Values(Recorded(trace1, outs1, LayerNameMapping)),
                           Values(Recorded(trace2, outs2, LayerNameMapping)))
  {
    var mid, low := GenerateFeatures(true, reg, moduleCount, trace1, outs1, LayerNameMapping, raises1);
    if low.Err? {
      return mid, Err(low.error);
    }
    var gt;
    after, gt := GenerateFeatures(true, mid, moduleCount, trace2, outs2, LayerNameMapping, raises2);
    if gt.Err? {
      return after, Err(gt.error);
    }
    r := Forward(low.value, gt.value);
  }

  /** Two images whose passes run the same modules and produce the same
      outputs lose nothing, as soon as some configured layer fires and every
      configured firing's (that is, every recorded) output is non-empty;
      other firings may be empty. */
  lemma {:induction false} SameImageZeroLoss(trace: seq<string>, outs: seq<Feature>)
    requires |outs| == |trace|
    requires |Recorded(trace, outs, LayerNameMapping)| > 0
    requires forall j :: 0 <= j < |Values(Recorded(trace, outs, LayerNameMapping))| ==>
               |Values(Recorded(trace, outs, LayerNameMapping))[j]| > 0
    ensures Forward(Values(Recorded(trace, outs, LayerNameMapping)),
                    Values(Recorded(trace, outs, LayerNameMapping))) == Ok(0.0)
  {
    IdenticalFeaturesLoseNothing(Values(Recorded(trace, outs, LayerNameMapping)));
  }

}
