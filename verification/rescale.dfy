/** `rescale` and `inverse_rescale` (loss/sam_perceptural.py): the map
    between the [0, 1] pixel range and [-1, 1], element by element. */
module Rescale {

  function Clamp(x: real, lo: real, hi: real): (r: real)
    requires lo <= hi
    ensures lo <= r <= hi
    ensures lo <= x <= hi ==> r == x
  {
    if x < lo then lo else if x > hi then hi else x
  }

  /** `2 * x - 1.0`. */
  function RescaleValue(x: real): real {
    2.0 * x - 1.0
  }

  /** `(x + 1.0) / 2.0`, clamped to [0, 1]. */
  function InverseRescaleValue(x: real): (r: real)
    ensures 0.0 <= r <= 1.0
  {
    Clamp((x + 1.0) / 2.0, 0.0, 1.0)
  }

  /** `rescale` maps [0, 1] onto [-1, 1]. */
  lemma RescaleRange(x: real)
    ensures 0.0 <= x <= 1.0 <==> -1.0 <= RescaleValue(x) <= 1.0
  {
  }

  /** `inverse_rescale` undoes `rescale` up to clamping: for every x the
      round trip is x clamped to [0, 1], hence x itself on [0, 1]. */
  lemma RoundTrip(x: real)
    ensures InverseRescaleValue(RescaleValue(x)) == Clamp(x, 0.0, 1.0)
    ensures 0.0 <= x <= 1.0 ==> InverseRescaleValue(RescaleValue(x)) == x
  {
    assert (RescaleValue(x) + 1.0) / 2.0 == x;
  }

  /** The tensor versions, element by element. */
  function Rescale(t: seq<real>): (r: seq<real>)
    ensures |r| == |t|
  {
    seq(|t|, i requires 0 <= i < |t| => RescaleValue(t[i]))
  }

  function InverseRescale(t: seq<real>): (r: seq<real>)
    ensures |r| == |t|
    ensures forall i :: 0 <= i < |r| ==> 0.0 <= r[i] <= 1.0
  {
    seq(|t|, i requires 0 <= i < |t| => InverseRescaleValue(t[i]))
  }

  /** A tensor with values in [0, 1] survives the round trip unchanged. */
  lemma {:induction false} TensorRoundTrip(t: seq<real>)
    requires forall i :: 0 <= i < |t| ==> 0.0 <= t[i] <= 1.0
    ensures InverseRescale(Rescale(t)) == t
  {
    forall i | 0 <= i < |t|
      ensures InverseRescale(Rescale(t))[i] == t[i]
    {
      RoundTrip(t[i]);
    }
  }
}
