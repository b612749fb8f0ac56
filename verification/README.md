# Semi-supervised low-light enhancement: data pipeline and SAM perceptual loss

This project is a Dafny model of two files of a semi-supervised low-light
image-enhancement training repository.

`dataset_simple.py` turns image folders into training samples:
- the case-sensitive extension allow-list and the recursive collection of
  image paths (`is_image_file`, `make_dataset`);
- the eight dihedral variants of `rotate`;
- the labelled pair, where one crop origin and one rotation index are drawn
  once and applied to both the input and the ground truth
  (`TrainLabeled.__getitem__`);
- the strong photometric augmentation `data_aug`, its three ablations, and
  which of them each unlabelled dataset calls, including the baseline whose
  strong image is the weak one;
- the additive noise `AddGaussianNoise`.

`loss/sam_perceptural.py` computes a perceptual loss from intermediate
activations of a frozen SAM image encoder:
- `rescale` and `inverse_rescale`;
- the forward-hook mechanism that names every module firing
  `<ClassName>_<counter>` and records the configured ones;
- the averaged per-tap MSE of `SAMPerpetualLoss.forward`;
- the checkpoint selection in `SAMPerpetualLoss.__init__`;
- the file-name pairing and the mean of `calculate_l2_given_paths`.

The random draws, the directory listings, the existence test of the weight
file, and the encoder's forward pass are parameters. A forward pass is given as
its firing trace: the class name behind each hook firing and that firing's
output. Images are grids (`seq<seq<T>>`) over an arbitrary pixel type, and
tensors are flattened to `seq<real>`. Python exceptions are the `Err` cases of
`Outcomes.Result`.

Modules: `Outcomes`, `Strings`, `ImageFiles`, `Grids`, `Rotation`, `PairedCrop`,
`StrongAug`, `Noise`, `Rescale`, `TapNames`, `Hooks`, `PerceptualLoss`,
`Weights`, `L2Paths`.

Behaviours of the code worth noting:
- Hook removal has no `try`/`finally`. When the forward pass raises, every
  registered hook stays registered (`Hooks.GenerateFeatures`).
- The recorded features come out in firing order, not in the order of the
  configured name list (`Hooks.FiringOrderNotMappingOrder`).
- The counter in a tap name counts every firing of every module. It is not a
  per-class occurrence count.
- `forward` pairs the two feature lists with `zip`, which stops at the shorter
  list. It does not fail when the lengths differ.
- The datasets named "without colour jitter" (`TrainUnlabeledOrignAugwocolorjitt`)
  and "without blur" (`TrainUnlabeledOrignAugwoblur`) both call
  `data_aug_wo_grayscale`. They therefore jitter and blur, and never convert to
  grayscale (`StrongAug.AblationDatasetsAsWritten`).
- `make_dataset` only asserts that the directory exists. An empty directory
  gives an empty list, not an error.

## Model

| member | source | states |
|---|---|---|
| `ImageFiles.IsImageFileIffExtension` | dataset_simple.py:12-19 | A name is accepted exactly when the text after its last dot is one of the ten listed stems, compared case-sensitively. |
| `ImageFiles.MixedCaseRejected` | dataset_simple.py:12-19 | `x.Png` is rejected: a mixed-case extension is not in the list. |
| `ImageFiles.InnerExtensionIgnored` | dataset_simple.py:18-19 | `x.jpg.txt` is rejected: only the final suffix counts. |
| `ImageFiles.JoinKeepsImage` | dataset_simple.py:27-29 | Joining a directory in front of an accepted name keeps it accepted. |
| `ImageFiles.MakeDataset` | dataset_simple.py:22-32 | A missing directory fails the assertion. Otherwise the result is the walk-ordered list of joined image paths, all accepted, with no more entries than files walked. |
| `ImageFiles.ImagePathsComplete` | dataset_simple.py:26-30 | Every accepted file of every walked directory appears in the result, joined to its directory. |
| `ImageFiles.ImagePathsSound` | dataset_simple.py:26-30 | Every path in the result is an accepted file of some walked directory, joined to that directory. |
| `Rotation.Rotate` | dataset_simple.py:35-54 | Indices 0-7 give a square tile of the same side; any other index falls through to `None`. |
| `Rotation.RotateMovesPixels` | dataset_simple.py:35-54 | Each variant only moves pixels: output pixel (i, j) is the input pixel at the coordinates an independent coordinate map gives. |
| `Rotation.RotateInverse` | dataset_simple.py:35-54 | Every variant is a bijection: the inverse variant (1 and 3 swap, the rest are self-inverse) restores the tile. |
| `Rotation.IdentityAndInvolutions` | dataset_simple.py:38-48 | Index 0 is the identity; applying index 2 twice, or index 4 twice, restores the tile. |
| `Rotation.FlippedVariants` | dataset_simple.py:47-54 | Index k + 4 is index k followed by the top-bottom flip. |
| `Rotation.VariantsDistinct` | dataset_simple.py:35-54 | The eight variants are pairwise different on a tile with four distinct pixels. |
| `Rotation.TurnDirection` | dataset_simple.py:41-42 | Index 1 turns counter-clockwise, as PIL's `rotate(90)` does: the right column of the marker tile becomes its top row. |
| `Rotation.QuarterTurnsCompose` | dataset_simple.py:41-44 | Two quarter turns make the half turn of index 2. |
| `Rotation.RotateCommutesWithMap` | dataset_simple.py:88-92 | A per-pixel conversion such as `ToTensor` gives the same result before or after the rotation. |
| `Rotation.RotateCommutesWithZip` | dataset_simple.py:88-89 | Rotating the pixel-wise pair of two tiles with one index equals pairing the two rotated tiles. |
| `PairedCrop.RandRange` | dataset_simple.py:83 | `randrange(stop)` fails exactly on an empty range, stays below `stop`, and returns any in-range draw unchanged. |
| `PairedCrop.DrawTile` | dataset_simple.py:81-87 | The draw fails with ValueError exactly when the tile is larger than the image. Otherwise the crop window lies inside the image and the index is below 8. |
| `PairedCrop.EveryTileReachable` | dataset_simple.py:83-87 | Every crop origin inside the image and every one of the 8 indices is produced by some draw. |
| `PairedCrop.ApplyTileMovesPixels` | dataset_simple.py:84-89 | After crop and rotate, each tile pixel comes from one input coordinate that depends only on the drawn parameters. |
| `PairedCrop.TrainLabeledItem` | dataset_simple.py:74-94 | From two 280-by-280 images the result is two fineSize-square tiles when fineSize <= 280, and a ValueError otherwise. |
| `PairedCrop.LabeledPairAligned` | dataset_simple.py:83-89 | The two output tiles stay pixel-aligned: pixel (i, j) of each comes from the same input coordinate. |
| `PairedCrop.LabeledPairIsZipTransform` | dataset_simple.py:83-89 | Transforming the two images separately equals transforming their pixel-wise pair once. |
| `StrongAug.KernelSizeIsOdd` | dataset_simple.py:391-393 | The blur kernel is the truncated draw rounded down to even plus one, so it is always 1, 3 or 5. |
| `StrongAug.KernelSizesReachable` | dataset_simple.py:391-392 | Each of the kernel sizes 1, 3 and 5 is produced by some draw. |
| `StrongAug.Plan` | dataset_simple.py:390-441 | Stages appear in the order jitter, grayscale, blur. Each stage runs exactly when its draw is below 0.8, 0.2 or 0.5 and its function has not disabled it. Every kernel is odd. |
| `StrongAug.AugmentFollowsPlan` | dataset_simple.py:390-441 | The augmentation as written applies exactly the stages of the plan, in order. |
| `StrongAug.AugmentKeepsShape` | dataset_simple.py:390-441 | Size-preserving operators give a strong image of the input's size. |
| `StrongAug.UnlabeledPair` | dataset_simple.py:152-482 | Covers the `__getitem__` of every unlabeled dataset in this file (lines 152-164, 187-197, 220-231, 253-263, 285-295, 317-327, 472-482). The weak image is the resized input. The baseline's strong image equals the weak one, and every other dataset's strong image, before `ToTensor`, is its plan run on the input. |
| `StrongAug.NoisyUnlabeledPair` | dataset_simple.py:472-482 | `TrainUnlabeledwithNoise` returns the tensor of the input and the tensor of the full plan's result plus five times the standard-normal draw, element by element. |
| `StrongAug.NoisyPairDenoised` | dataset_simple.py:472-482 | The noise is the only difference from the noiseless strong tensor: the noise of the negated draws gives the plan's tensor back. |
| `StrongAug.AblationDatasetsAsWritten` | dataset_simple.py:285-327 | The "without colour jitter" and "without blur" datasets do jitter and blur for some draws, and never convert to grayscale. |
| `Noise.NoiseIsAdditive` | dataset_simple.py:449-452 | The noisy tensor minus the clean one is `level * (z * std + mean)`, element by element. |
| `Noise.NegatedDrawsUndoNoise` | dataset_simple.py:449-452 | With zero mean, adding the noise of the negated draws restores the tensor. |
| `Noise.DatasetNoiseLeavesUnitRange` | dataset_simple.py:470 | The dataset's noise (mean 0, std 1, level 5) is not clamped and can leave [0, 1]. |
| `Rescale.RescaleRange` | loss/sam_perceptural.py:21-23 | `rescale` maps exactly [0, 1] onto [-1, 1]. |
| `Rescale.RoundTrip` | loss/sam_perceptural.py:21-28 | `inverse_rescale(rescale(x))` is x clamped to [0, 1], and hence x itself on [0, 1]. |
| `Rescale.InverseRescale` | loss/sam_perceptural.py:26-28 | Every output value lies in [0, 1]. |
| `Rescale.TensorRoundTrip` | loss/sam_perceptural.py:21-28 | A tensor with values in [0, 1] survives the round trip unchanged. |
| `TapNames.NatToStringInjective` | loss/sam_perceptural.py:144 | Different counters print as different decimal strings. |
| `TapNames.TapNameInjective` | loss/sam_perceptural.py:144 | A tap name determines both the class name and the counter, even for class names with underscores. |
| `TapNames.ConfiguredNameExamples` | loss/sam_perceptural.py:316-319 | The configured names are firing 3 of a `GELU` and firings 33 and 57 of a `Conv2d_BN`. |
| `Hooks.ForwardWithHooks` | loss/sam_perceptural.py:139-165 | Feeding the firings through `hook_fn` with a counter starting at 0 yields the reference dict: the configured firings in firing order. |
| `Hooks.RecordedKeysDistinct` | loss/sam_perceptural.py:142-147 | Recorded names are distinct configured names, so there are at most as many features as configured names. |
| `Hooks.SameTraceSameTaps` | loss/sam_perceptural.py:142-147 | The recorded names depend on the firing trace only, so two passes through the same modules give feature lists of equal length. |
| `Hooks.FiringOrderNotMappingOrder` | loss/sam_perceptural.py:142-176 | With the names configured in the order `B_1`, `A_0`, the features still come out in firing order. |
| `Hooks.GenerateFeatures` | loss/sam_perceptural.py:125-176 | With no model, the local `model` is unbound. Otherwise one hook is registered per module. A completed pass returns the recorded features and removes every hook; a pass that raises leaves all of them registered. |
| `PerceptualLoss.SumSquaredDiffZero` | loss/sam_perceptural.py:331 | The squared distance is non-negative and zero exactly for equal vectors. |
| `PerceptualLoss.Mse` | loss/sam_perceptural.py:331 | On flattened taps, the mean squared error is defined exactly for equal, non-zero sizes. It is then non-negative, and zero exactly when the tensors are equal. |
| `PerceptualLoss.TapLosses` | loss/sam_perceptural.py:327-331 | One loss per zipped pair, in order, each the pair's MSE; defined exactly when every pair's MSE is defined. |
| `PerceptualLoss.ForwardDefined` | loss/sam_perceptural.py:326-333 | The loss is defined exactly when both lists are non-empty and every zipped pair is comparable, and it then averages as many tap losses as the shorter list has taps. |
| `PerceptualLoss.ForwardValue` | loss/sam_perceptural.py:326-333 | A defined loss is non-negative, and zero exactly when the zipped taps agree. |
| `PerceptualLoss.IdenticalFeaturesLoseNothing` | loss/sam_perceptural.py:326-333 | A non-empty list of non-empty taps compared with itself gives loss 0. |
| `PerceptualLoss.LossForward` | loss/sam_perceptural.py:326-333 | Two hooked extractions with the configured names, then the averaged loss. A raising pass propagates, and otherwise no hook is left behind. |
| `PerceptualLoss.SameImageZeroLoss` | loss/sam_perceptural.py:326-333 | Two passes with the same trace and outputs lose nothing once some configured layer fires and every configured firing's output is non-empty. Firings of other layers may be empty. |
| `Weights.CheckpointFor` | loss/sam_perceptural.py:273-292 | Only `vit_l`, `vit_b`, `vit_h` and `vit_t` are accepted, and any other type raises the ValueError. Only `vit_t` is fetched from the MobileSAM repository; the others use the Meta URL. |
| `Weights.CheckpointsDistinct` | loss/sam_perceptural.py:274-288 | Different accepted model types never share a weight file. |
| `Weights.SetUp` | loss/sam_perceptural.py:280-311 | The checkpoint path is `weights/<file>`. A download of base URL plus file happens exactly when the file is absent. The MobileSAM registry is used exactly for `vit_t`. |
| `Weights.ConfiguredSetup` | loss/sam_perceptural.py:269-311 | The hard-wired `vit_t` reads `weights/mobile_sam.pt` through the MobileSAM registry, fetching it from GitHub when absent. |
| `L2Paths.FakeNames` | loss/sam_perceptural.py:46-51 | The kept names are exactly the listed names containing `fake`, and there are no more of them than listed names. |
| `L2Paths.FakeNamesSingle` | loss/sam_perceptural.py:49-51 | A single name is kept exactly when it contains `fake`. |
| `L2Paths.FakeNamesAppend` | loss/sam_perceptural.py:46-51 | The filter of a concatenated listing is the filter of the first part followed by that of the second. With the single-name case this fixes the listing order and the count of kept names. |
| `L2Paths.NoFakeLeft` | loss/sam_perceptural.py:54 | After replacing `fake` with `real` no `fake` remains in the name. |
| `L2Paths.SourceNameFacts` | loss/sam_perceptural.py:54 | The replacement keeps the length, leaves a name without `fake` unchanged, and removes every `fake`. |
| `L2Paths.SourceNameInverse` | loss/sam_perceptural.py:54 | On a name without `real`, replacing `real` with `fake` in the renamed file gives the original name back, so each `real` marks a replaced `fake` and every other letter is unchanged. |
| `L2Paths.TargetNameFacts` | loss/sam_perceptural.py:55-56 | The target name starts with the text before the first dot, which is a prefix of the name, and ends with one `.png` and nothing more: it is exactly four letters longer. Renaming a target again changes nothing. |
| `L2Paths.NamingExample` | loss/sam_perceptural.py:53-57 | `fake.jpg` is compared with `real.jpg` in the first folder and with `fake.png` in the second. |
| `L2Paths.MeanDistance` | loss/sam_perceptural.py:47-60 | The accumulated total divided by the number of compared pairs; no pairs at all raises ZeroDivisionError, and non-negative distances give a non-negative mean. |
| `L2Paths.CalculateL2` | loss/sam_perceptural.py:45-60 | ZeroDivisionError exactly when no listed name contains `fake`. Otherwise the result is the mean distance over the renamed pairs of the kept names, non-negative for a non-negative distance. |
| `Strings.ReplaceAll` | loss/sam_perceptural.py:54 | `str.replace` keeps the length when the pattern and its replacement are equally long, and changes nothing when the pattern does not occur. |
| `Strings.ReplaceAllFirstOccurrence` | loss/sam_perceptural.py:54 | `str.replace` replaces the leftmost occurrence, keeps the text before it, and continues after it. Together with the no-occurrence case this fixes the result occurrence by occurrence. |
| `Strings.BeforeFirstDot` | loss/sam_perceptural.py:55 | `split('.')[0]` is a dot-free prefix that ends at the first dot or at the end of the string. |
| `Strings.PathJoin` | dataset_simple.py:29 | `os.path.join` ends with its last argument, and starts with its first unless the last is absolute. |

## Left out

- File and network I/O are left out: opening and converting images, `os.listdir`, `os.walk`, `os.path.exists`, `os.makedirs`, `download_model` and `print`. Listings, walks and the existence test are parameters; the download is represented by the URL it would fetch.
- The `sorted(...)` calls on walk entries and path lists are not modelled: the walk and the listing are taken in the order the caller supplies them.
- PIL `resize` with antialiasing and `ToTensor` are left out. The labelled pair starts from two 280-by-280 grids, and `ToTensor` appears only as an arbitrary per-pixel map (`Rotation.RotateCommutesWithMap`) or an arbitrary function to a flat tensor (`StrongAug.NoisyUnlabeledPair`).
- `Rotation.Rotate` models square tiles only. Every tile the code rotates is square, and PIL's `rotate` on a non-square canvas crops the picture.
- The colour-jitter, grayscale and Gaussian-blur operators are opaque functions with their own internal randomness, including the blur's sigma in [0.1, 2.0]. The model fixes which of them run, in what order, and with which kernel.
- Random generators are parameters: Python's `random`, `randrange` and `torch.rand`/`torch.randn` are represented by their outputs.
- `PairedCrop.DrawTile` takes `fineSize` as a natural number. A negative tile size is not modelled.
- `TrainUnlabeledWithBank` also loads a candidate image and returns its path; only its augmentation (`data_aug`) is modelled.
- `TrainUnlabeled` uses an external `NightAug` module; it, `ValLabeled` (resize only) and `TestData` (load only) are not part of this model.
- The SAM encoder itself is left out: `ResizeLongestSide`, `preprocess`, the input-shape assertion, the CUDA device, the registries' model construction and `model.eval()`. Its forward pass is represented by the firing trace.
- `sam_generate_features` (the NumPy-input twin of the torch version) is left out. Its hook logic is identical.
- The cosine-similarity score, `norm` and `torch.norm` are left out; the L2 distance between two image files is a parameter.
- `PerceptualLoss.Mse`: size-1 broadcasting of `mse_loss` is not modelled; any size difference is a shape error. Taps are flattened, so two taps of equal size but different shape (2-by-3 against 3-by-2), which `mse_loss` rejects, are compared element by element.
- `PerceptualLoss.Forward`: when both a NaN (empty tap) and a shape error occur, the error reported is the first failing pair's, which may not match the order in which torch reports them.
- Floating-point rounding is not modelled: pixel and feature values are mathematical reals.
