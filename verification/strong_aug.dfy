/** The strong photometric augmentation `data_aug` and its three ablations
    `data_aug_wo_grayscale`, `data_aug_wo_blur`, `data_aug_wo_colorjitter`
    (dataset_simple.py), and which of them each unlabelled dataset uses.
    The colour jitter, grayscale and blur operators are opaque; the model
    fixes which of them run, in which order and with which kernel size. */
module StrongAug {
  import opened Grids
  import opened Outcomes
  import Noise

  const JitterProbability: real := 0.8
  const GrayscaleProbability: real := 0.2
  const BlurProbability: real := 0.5
  const KernelScale: real := 4.95

  /** Values of `random.random()`: each in [0, 1). */
  predicate Uniform01(rs: seq<real>) {
    forall i :: 0 <= i < |rs| ==> 0.0 <= rs[i] < 1.0
  }

  /** `kernel_size = int(u * 4.95)`, then an even size is bumped by one. */
  function KernelSize(u: real): (k: int)
    requires 0.0 <= u < 1.0
  {
    var k0 := (u * KernelScale).Floor;
    if k0 % 2 == 0 then k0 + 1 else k0
  }

  /** The kernel is always a valid odd Gaussian kernel size, 1, 3 or 5: it is
      the truncated draw rounded down to even, plus one. */
  lemma KernelSizeIsOdd(u: real)
    requires 0.0 <= u < 1.0
    ensures var k0 := (u * KernelScale).Floor;
            0 <= k0 <= 4 && KernelSize(u) == 2 * (k0 / 2) + 1
    ensures KernelSize(u) in {1, 3, 5}
  {
    var k0 := (u * KernelScale).Floor;
    assert u * KernelScale < KernelScale;
    assert 0 <= k0 <= 4;
  }

  /** Each of the three sizes is drawn for some `random.random()` value. */
  lemma KernelSizesReachable()
    ensures KernelSize(0.0) == 1 && KernelSize(0.5) == 3 && KernelSize(0.9) == 5
  {
    assert (0.5 * KernelScale).Floor == 2;
    assert (0.9 * KernelScale).Floor == 4;
  }

  /** One photometric operator of the pipeline. */
  datatype Stage = ColorJitter | Grayscale | GaussianBlur(kernel: int)

  /** Position of a stage in the fixed order jitter, grayscale, blur. */
  function Rank(s: Stage): nat {
    match s
    case ColorJitter => 0
    case Grayscale => 1
    case GaussianBlur(_) => 2
  }

  predicate InPipelineOrder(stages: seq<Stage>) {
    forall i, j :: 0 <= i < j < |stages| ==> Rank(stages[i]) < Rank(stages[j])
  }

  predicate HasBlur(stages: seq<Stage>) {
    exists i :: 0 <= i < |stages| && stages[i].GaussianBlur?
  }

  /** The four augmentation functions. */
  datatype Policy = Full | WithoutGrayscale | WithoutBlur | WithoutColorJitter

  /** How many `random.random()` values the policy consumes, in call order:
      the kernel draw always, then the jitter draw unless jitter is disabled,
      then the blur draw unless blur is disabled. */
  function RandomCalls(p: Policy): nat {
    match p
    case Full => 3
    case WithoutGrayscale => 3
    case WithoutBlur => 2
    case WithoutColorJitter => 2
  }

  /** Position of the blur draw among the `random.random()` values. */
  function BlurDrawIndex(p: Policy): nat {
    if p.WithoutColorJitter? then 1 else 2
  }

  /** Opaque photometric operators: `ColorJitter(0.5, 0.5, 0.5, 0.25)`, the
      grayscale conversion of `RandomGrayscale`, and `GaussianBlur` with a
      given kernel size (their own internal draws are folded into them). */
  datatype Ops<!P> = Ops(jitter: Grid<P> -> Grid<P>, grayscale: Grid<P> -> Grid<P>, blur: (int, Grid<P>) -> Grid<P>)

  /** The operators change pixels, never the size of the image. */
  ghost predicate KeepsShape<P(!new)>(ops: Ops<P>) {
    && (forall g :: SameShape(ops.jitter(g), g))
    && (forall g :: SameShape(ops.grayscale(g), g))
    && (forall k, g :: SameShape(ops.blur(k, g), g))
  }

  /** The augmentation function of policy `p` on image `img`, written as the
      source runs it. `rs` are the successive `random.random()` values and
      `grayDraw` is the `torch.rand(1)` value `RandomGrayscale(p=0.2)` tests. */
  function Augment<P>(p: Policy, ops: Ops<P>, img: Grid<P>, rs: seq<real>, grayDraw: real): Grid<P>
    requires Uniform01(rs) && |rs| >= RandomCalls(p)
  {
    var kernel := KernelSize(rs[0]);
    var afterJitter :=
      if !p.WithoutColorJitter? && rs[1] < JitterProbability then ops.jitter(img) else img;
    var afterGray :=
      if !p.WithoutGrayscale? && grayDraw < GrayscaleProbability then ops.grayscale(afterJitter) else afterJitter;
    if !p.WithoutBlur? && rs[BlurDrawIndex(p)] < BlurProbability then ops.blur(kernel, afterGray) else afterGray
  }

  /** Reference description of the same draws as the list of stages that
      run. Stages always come in the order jitter, grayscale, blur; each
      ablation never runs its disabled stage; every blur kernel is 1, 3 or 5;
      and each stage runs exactly when its draw falls below its probability. */
  function Plan(p: Policy, rs: seq<real>, grayDraw: real): (stages: seq<Stage>)
    requires Uniform01(rs) && |rs| >= RandomCalls(p)
    ensures InPipelineOrder(stages)
    ensures ColorJitter in stages <==> !p.WithoutColorJitter? && rs[1] < JitterProbability
    ensures Grayscale in stages <==> !p.WithoutGrayscale? && grayDraw < GrayscaleProbability
    ensures HasBlur(stages) <==> !p.WithoutBlur? && rs[BlurDrawIndex(p)] < BlurProbability
    ensures forall i :: 0 <= i < |stages| && stages[i].GaussianBlur? ==> stages[i].kernel in {1, 3, 5}
  {
    KernelSizeIsOdd(rs[0]);
    var jitter := if !p.WithoutColorJitter? && rs[1] < JitterProbability then [ColorJitter] else [];
    var gray := if !p.WithoutGrayscale? && grayDraw < GrayscaleProbability then [Grayscale] else [];
    var blur := if !p.WithoutBlur? && rs[BlurDrawIndex(p)] < BlurProbability then [GaussianBlur(KernelSize(rs[0]))] else [];
    StageListFacts(jitter, gray, blur);
    jitter + gray + blur
  }

  /** At most one stage of each kind, concatenated in pipeline order. */
  lemma StageListFacts(jitter: seq<Stage>, gray: seq<Stage>, blur: seq<Stage>)
    requires jitter == [] || jitter == [ColorJitter]
    requires gray == [] || gray == [Grayscale]
    requires blur == [] || (|blur| == 1 && blur[0].GaussianBlur?)
    ensures InPipelineOrder(jitter + gray + blur)
    ensures ColorJitter in jitter + gray + blur <==> jitter != []
    ensures Grayscale in jitter + gray + blur <==> gray != []
    ensures HasBlur(jitter + gray + blur) <==> blur != []
    ensures forall i :: 0 <= i < |jitter + gray + blur| && (jitter + gray + blur)[i].GaussianBlur? ==>
              (jitter + gray + blur)[i] == blur[0]
  {
    var s := jitter + gray + blur;
    assert forall i :: 0 <= i < |jitter + gray| ==> !(jitter + gray)[i].GaussianBlur?;
    assert blur != [] ==> s[|jitter + gray|] == blur[0];
  }

  function ApplyStage<P>(ops: Ops<P>, s: Stage, img: Grid<P>): Grid<P> {
    match s
    case ColorJitter => ops.jitter(img)
    case Grayscale => ops.grayscale(img)
    case GaussianBlur(k) => ops.blur(k, img)
  }

  /** Runs the stages left to right. */
  function Run<P>(ops: Ops<P>, stages: seq<Stage>, img: Grid<P>): Grid<P>
    decreases |stages|
  {
    if stages == [] then img else Run(ops, stages[1..], ApplyStage(ops, stages[0], img))
  }

  lemma RunAppend<P>(ops: Ops<P>, s: seq<Stage>, t: seq<Stage>, img: Grid<P>)
    ensures Run(ops, s + t, img) == Run(ops, t, Run(ops, s, img))
    decreases |s|
  {
    if s == [] {
      assert s + t == t;
    } else {
      assert (s + t)[0] == s[0];
      assert (s + t)[1..] == s[1..] + t;
      RunAppend(ops, s[1..], t, ApplyStage(ops, s[0], img));
    }
  }

  /** The augmentation runs exactly the stages of the plan, in order. */
  lemma {:induction false} AugmentFollowsPlan<P>(p: Policy, ops: Ops<P>, img: Grid<P>, rs: seq<real>, grayDraw: real)
    requires Uniform01(rs) && |rs| >= RandomCalls(p)
    ensures Augment(p, ops, img, rs, grayDraw) == Run(ops, Plan(p, rs, grayDraw), img)
  {
    var j: seq<Stage> := if !p.WithoutColorJitter? && rs[1] < JitterProbability then [ColorJitter] else [];
    var g: seq<Stage> := if !p.WithoutGrayscale? && grayDraw < GrayscaleProbability then [Grayscale] else [];
    var b: seq<Stage> := if !p.WithoutBlur? && rs[BlurDrawIndex(p)] < BlurProbability then [GaussianBlur(KernelSize(rs[0]))] else [];
    RunAppend(ops, j + g, b, img);
    RunAppend(ops, j, g, img);
  }

  /** With shape-preserving operators any run of stages keeps the shape. */
  lemma {:induction false} RunKeepsShape<P(!new)>(ops: Ops<P>, stages: seq<Stage>, img: Grid<P>)
    requires KeepsShape(ops)
    ensures SameShape(Run(ops, stages, img), img)
    decreases |stages|
  {
    if stages != [] {
      var next := ApplyStage(ops, stages[0], img);
      RunKeepsShape(ops, stages[1..], next);
    }
  }

  /** The strong image has the size of the weak one. */
  lemma AugmentKeepsShape<P(!new)>(p: Policy, ops: Ops<P>, img: Grid<P>, rs: seq<real>, grayDraw: real)
    requires Uniform01(rs) && |rs| >= RandomCalls(p)
    ensures KeepsShape(ops) ==> SameShape(Augment(p, ops, img, rs, grayDraw), img)
  {
    if KeepsShape(ops) {
      AugmentFollowsPlan(p, ops, img, rs, grayDraw);
      RunKeepsShape(ops, Plan(p, rs, grayDraw), img);
    }
  }

  /** The unlabelled datasets built on these functions (`TrainUnlabeled`,
      whose strong view comes from an external NightAug module, is left out). */
  datatype UnlabeledDataset =
    | OrignAug
    | OrignAugBaseline
    | OrignAugWoGrayscale
    | OrignAugWoColorJitter
    | OrignAugWoBlur
    | WithBank
    | WithNoise

  /** The augmentation function each dataset's `__getitem__` calls, as
      written: the baseline calls none, and the "without colour jitter" and
      "without blur" datasets both call `data_aug_wo_grayscale`. */
  function PolicyOf(ds: UnlabeledDataset): Option<Policy> {
    match ds
    case OrignAug => Some(Full)
    case OrignAugBaseline => None
    case OrignAugWoGrayscale => Some(WithoutGrayscale)
    case OrignAugWoColorJitter => Some(WithoutGrayscale)
    case OrignAugWoBlur => Some(WithoutGrayscale)
    case WithBank => Some(Full)
    case WithNoise => Some(Full)
  }

  /** `(weak, strong)` of an unlabelled `__getitem__` on the resized image
      `img` (before `ToTensor`): the weak image is `img` itself, and the
      strong one is the dataset's augmentation of it, or `img` again for the
      baseline. */
  function UnlabeledPair<P(!new)>(ds: UnlabeledDataset, ops: Ops<P>, img: Grid<P>, rs: seq<real>, grayDraw: real): (pair: (Grid<P>, Grid<P>))
    requires Uniform01(rs) && |rs| >= 3
    ensures pair.0 == img
    ensures ds.OrignAugBaseline? ==> pair.1 == pair.0
    ensures KeepsShape(ops) ==> SameShape(pair.1, pair.0)
    ensures PolicyOf(ds).Some? ==> pair.1 == Run(ops, Plan(PolicyOf(ds).value, rs, grayDraw), img)
  {
    match PolicyOf(ds)
    case None => (img, img)
    case Some(p) =>
      AugmentFollowsPlan(p, ops, img, rs, grayDraw);
      AugmentKeepsShape(p, ops, img, rs, grayDraw);
      (img, Augment(p, ops, img, rs, grayDraw))
  }

  /** `TrainUnlabeledwithNoise.__getitem__` to the returned tensors:
      `toTensor` is `ToTensor` followed by flattening, and `z` are the draws
      of `torch.randn` for the strong tensor. The weak tensor is the resized
      input; the strong one is the full plan's result plus five times the
      standard-normal draw, element by element. */
  function NoisyUnlabeledPair<P(!new)>(ops: Ops<P>, toTensor: Grid<P> -> seq<real>, img: Grid<P>,
                                       rs: seq<real>, grayDraw: real, z: seq<real>): (pair: (seq<real>, seq<real>))
    requires Uniform01(rs) && |rs| >= 3
    requires |z| == |toTensor(UnlabeledPair(WithNoise, ops, img, rs, grayDraw).1)|
    ensures pair.0 == toTensor(img)
    ensures |pair.1| == |z|
    ensures forall i :: 0 <= i < |z| ==>
              pair.1[i] == toTensor(Run(ops, Plan(Full, rs, grayDraw), img))[i] + 5.0 * z[i]
  {
    var views := UnlabeledPair(WithNoise, ops, img, rs, grayDraw);
    (toTensor(views.0), Noise.Apply(Noise.DatasetNoise, toTensor(views.1), z))
  }

  /** The noise is the only difference from the noiseless strong tensor:
      adding the noise of the negated draws gives back the plan's result. */
  lemma NoisyPairDenoised<P(!new)>(ops: Ops<P>, toTensor: Grid<P> -> seq<real>, img: Grid<P>,
                                   rs: seq<real>, grayDraw: real, z: seq<real>)
    requires Uniform01(rs) && |rs| >= 3
    requires |z| == |toTensor(UnlabeledPair(WithNoise, ops, img, rs, grayDraw).1)|
    ensures Noise.Apply(Noise.DatasetNoise, NoisyUnlabeledPair(ops, toTensor, img, rs, grayDraw, z).1,
                        seq(|z|, i requires 0 <= i < |z| => -z[i]))
            == toTensor(Run(ops, Plan(Full, rs, grayDraw), img))
  {
    var strong := toTensor(UnlabeledPair(WithNoise, ops, img, rs, grayDraw).1);
    Noise.NegatedDrawsUndoNoise(Noise.DatasetNoise, strong, z);
  }

  /** What the dataset names promise against what runs: the dataset named
      "without colour jitter" does jitter for some draws, the one named
      "without blur" does blur, and neither ever converts to grayscale. */
  lemma AblationDatasetsAsWritten(rs: seq<real>, grayDraw: real)
    requires Uniform01(rs) && |rs| >= 3
    ensures Plan(PolicyOf(OrignAugWoColorJitter).value, [0.0, 0.0, 0.0], 0.0) == [ColorJitter, GaussianBlur(1)]
    ensures Plan(PolicyOf(OrignAugWoBlur).value, [0.0, 0.0, 0.0], 0.0) == [ColorJitter, GaussianBlur(1)]
    ensures Grayscale !in Plan(PolicyOf(OrignAugWoColorJitter).value, rs, grayDraw)
    ensures Grayscale !in Plan(PolicyOf(OrignAugWoBlur).value, rs, grayDraw)
  {
    assert KernelSize(0.0) == 1;
  }
}
