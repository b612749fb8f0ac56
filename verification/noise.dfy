/** `AddGaussianNoise` (dataset_simple.py): additive noise on a tensor,
    flattened here to a sequence of reals. The standard-normal draws of
    `torch.randn(tensor.shape)` are the parameter `z`, one per element. */
module Noise {

  datatype AddGaussianNoise = AddGaussianNoise(mean: real, std: real, level: real)

  /** The instance `TrainUnlabeledwithNoise` uses: mean 0, std 1, level 5. */
  const DatasetNoise: AddGaussianNoise := AddGaussianNoise(0.0, 1.0, 5.0)

  /** The scaled noise `(z * std + mean) * level` for one draw. */
  function Scaled(n: AddGaussianNoise, z: real): real {
    (z * n.std + n.mean) * n.level
  }

  /** `tensor + noise`, element by element and without clamping. */
  function Apply(n: AddGaussianNoise, t: seq<real>, z: seq<real>): (r: seq<real>)
    requires |z| == |t|
    ensures |r| == |t|
  {
    seq(|t|, i requires 0 <= i < |t| => t[i] + Scaled(n, z[i]))
  }

  /** The noisy tensor minus the clean one is the generated noise scaled by
      the level; no element is clipped back into [0, 1]. */
  lemma NoiseIsAdditive(n: AddGaussianNoise, t: seq<real>, z: seq<real>, i: nat)
    requires |z| == |t| && i < |t|
    ensures Apply(n, t, z)[i] - t[i] == n.level * (z[i] * n.std + n.mean)
  {
  }

  /** With zero mean, adding the noise of the negated draws undoes the noise:
      the operation loses no information. */
  lemma {:induction false} NegatedDrawsUndoNoise(n: AddGaussianNoise, t: seq<real>, z: seq<real>)
    requires |z| == |t| && n.mean == 0.0
    ensures Apply(n, Apply(n, t, z), seq(|z|, i requires 0 <= i < |z| => -z[i])) == t
  {
    var neg := seq(|z|, i requires 0 <= i < |z| => -z[i]);
    var once := Apply(n, t, z);
    forall i | 0 <= i < |t|
      ensures Apply(n, once, neg)[i] == t[i]
    {
      calc {
        Apply(n, once, neg)[i];
        once[i] + Scaled(n, neg[i]);
        t[i] + (z[i] * n.std) * n.level + (-z[i] * n.std) * n.level;
        t[i];
      }
    }
  }

  /** The dataset's noise can push a value in [0, 1] out of that range: a
      white pixel with a draw of one becomes 6. */
  lemma DatasetNoiseLeavesUnitRange()
    ensures Apply(DatasetNoise, [1.0], [1.0]) == [6.0]
  {
    assert Apply(DatasetNoise, [1.0], [1.0])[0] == 6.0;
  }
}
