/** Checkpoint selection in `SAMPerpetualLoss.__init__`: the configured
    model type picks a weight file, the place it is fetched from when it is
    missing, and the registry that builds the encoder. */
module Weights {
  import opened Outcomes
  import opened Strings

  const MetaBaseUrl := "https://dl.fbaipublicfiles.com/segment_anything/"
  const MobileSamBaseUrl := "https://github.com/ChaoningZhang/MobileSAM/raw/master/weights/"
  const SaveDir := "weights"

  /** The model type the loss is built with; it is hard-wired. */
  const ConfiguredModelType := "vit_t"

  /** The message raised for an unknown model type. It names three types
      although a fourth, `vit_t`, is accepted. */
  const UnknownTypeMessage := "model_type must be one of 'vit_l','vit_b','vit_h'"

  /** Which registry constructs the encoder. */
  datatype ModelRegistry = MobileSamRegistry | SamRegistry

  /** A weight file and the base URL it is published under. */
  datatype Checkpoint = Checkpoint(fileName: string, baseUrl: string)

  /** The outcome of the constructor's weight handling: where the
      checkpoint is read from, what is downloaded first (if anything) and
      which registry builds the model. */
  datatype Setup = Setup(weightPath: string, download: Option<string>, registry: ModelRegistry)

  /** The if/elif chain over `model_type`. */
  function CheckpointFor(modelType: string): (r: Result<Checkpoint>)
    ensures r.Ok? <==> modelType in {"vit_l", "vit_b", "vit_h", "vit_t"}
    ensures r.Err? ==> r.error == ValueError(UnknownTypeMessage)
    ensures r.Ok? ==> (r.value.baseUrl == MobileSamBaseUrl <==> modelType == "vit_t")
    ensures r.Ok? && modelType != "vit_t" ==> r.value.baseUrl == MetaBaseUrl
  {
    if modelType == "vit_l" then Ok(Checkpoint("sam_vit_l_0b3195.pth", MetaBaseUrl))
    else if modelType == "vit_b" then Ok(Checkpoint("sam_vit_b_01ec64.pth", MetaBaseUrl))
    else if modelType == "vit_h" then Ok(Checkpoint("sam_vit_h_4b8939.pth", MetaBaseUrl))
    else if modelType == "vit_t" then Ok(Checkpoint("mobile_sam.pt", MobileSamBaseUrl))
    else Err(ValueError(UnknownTypeMessage))
  }

  /** Distinct accepted model types never share a weight file, so a file
      already under `weights/` is always the one the type asks for. */
  lemma CheckpointsDistinct(t1: string, t2: string)
    requires CheckpointFor(t1).Ok? && CheckpointFor(t2).Ok?
    ensures CheckpointFor(t1).value.fileName == CheckpointFor(t2).value.fileName <==> t1 == t2
  {
  }

  /** The constructor's weight handling. `weightsPresent` stands for
      `os.path.exists(destination_path)`. */
  function SetUp(modelType: string, weightsPresent: bool): (r: Result<Setup>)
    ensures r.Ok? <==> CheckpointFor(modelType).Ok?
    ensures r.Ok? ==> r.value.weightPath == PathJoin(SaveDir, CheckpointFor(modelType).value.fileName)
    ensures r.Ok? ==> EndsWith(r.value.weightPath, CheckpointFor(modelType).value.fileName)
    ensures r.Ok? ==> (r.value.download.Some? <==> !weightsPresent)
    ensures r.Ok? && r.value.download.Some? ==>
      var c := CheckpointFor(modelType).value;
      r.value.download.value == c.baseUrl + c.fileName
    ensures r.Ok? ==> (r.value.registry == MobileSamRegistry <==> modelType == "vit_t")
  {
    var c :- CheckpointFor(modelType);
    var path := PathJoin(SaveDir, c.fileName);
    var fetch := if weightsPresent then None else Some(c.baseUrl + c.fileName);
    var registry := if modelType == "vit_t" then MobileSamRegistry else SamRegistry;
    Ok(Setup(path, fetch, registry))
  }

  /** The configuration as built: MobileSAM weights read from
      `weights/mobile_sam.pt`, fetched from GitHub when absent. */
  lemma ConfiguredSetup(weightsPresent: bool)
    ensures SetUp(ConfiguredModelType, weightsPresent).Ok?
    ensures SetUp(ConfiguredModelType, weightsPresent).value.weightPath == "weights/mobile_sam.pt"
    ensures SetUp(ConfiguredModelType, weightsPresent).value.registry == MobileSamRegistry
    ensures !weightsPresent ==>
      SetUp(ConfiguredModelType, weightsPresent).value.download
      == Some("https://github.com/ChaoningZhang/MobileSAM/raw/master/weights/mobile_sam.pt")
  {
    assert CheckpointFor(ConfiguredModelType) == Ok(Checkpoint("mobile_sam.pt", MobileSamBaseUrl));
    MobileSamLocations();
  }

  /** Where `mobile_sam.pt` is stored and where it is fetched from. */
  lemma MobileSamLocations()
    ensures PathJoin(SaveDir, "mobile_sam.pt") == "weights/mobile_sam.pt"
    ensures MobileSamBaseUrl + "mobile_sam.pt"
      == "https://github.com/ChaoningZhang/MobileSAM/raw/master/weights/mobile_sam.pt"
  {
    var name := "mobile_sam.pt";
    assert name[..1][0] == 'm' && SaveDir[|SaveDir| - 1..][0] == 's';
    assert SaveDir + "/" + name == "weights/mobile_sam.pt";
  }
}
