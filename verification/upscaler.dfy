/** Construction of the upscaler (`RealESRGANer.__init__`): the configuration it keeps,
    the backend check, and for the torch backend the loading of the network weights
    from one checkpoint or from the interpolation of two.

    Reading a checkpoint (`torch.load`, after downloading an https url) is a parameter
    of the model; device selection, precision casts and the onnx, triton and
    huggingface sessions are outside it. */
module Upscaler {
  import opened Errors
  import opened Dni
  import Backend

  /** `model_path`: a single path, or a list of paths for interpolation. */
  datatype ModelPath = OnePath(path: string) | PathList(paths: seq<string>)

  /** The constructor arguments that the modelled behaviour depends on. */
  datatype Config = Config(
    scale: nat,
    modelPath: ModelPath,
    dniWeight: Option<seq<real>>,
    tile: nat,
    tilePad: nat,
    prePad: nat,
    backend: string,
    outscale: Option<real>)

  /** A constructed upscaler. The backend stays a name, as in the source, and every
      dispatch site branches on it again. `weights` is the parameter group handed to
      the torch network; the other backends carry their weights elsewhere. */
  datatype Upscaler = Upscaler(
    scale: nat,
    tileSize: nat,
    tilePad: nat,
    prePad: nat,
    backend: string,
    outscale: Option<real>,
    weights: Option<Params>)

  /** Reading a checkpoint from a path or url. */
  type Loader = string -> Checkpoint

  /** The torch backend's weights: for a list of paths, the length check against the
      weights, then the interpolation of the first two checkpoints into `params` followed
      by the usual group choice; for one path, the checkpoint's preferred parameter
      group. */
  function TorchWeights(modelPath: ModelPath, dniWeight: Option<seq<real>>, load: Loader): (r: Result<Params>)
    ensures modelPath.PathList? && dniWeight.None? ==> r == Err(MissingWeights)
    ensures modelPath.PathList? && dniWeight.Some? && |modelPath.paths| != |dniWeight.value| ==> r == Err(LengthMismatch)
    ensures modelPath.PathList? && dniWeight.Some? && |modelPath.paths| == |dniWeight.value| < 2 ==> r == Err(MissingIndex)
    ensures modelPath.PathList? && dniWeight.Some? && |modelPath.paths| == |dniWeight.value| >= 2 ==>
              r == LoadDniAsWritten(load(modelPath.paths[0]), load(modelPath.paths[1]), dniWeight.value)
    ensures modelPath.OnePath? ==> r == LoadStateDict(load(modelPath.path))
  {
    match modelPath
    case PathList(paths) =>
      if dniWeight.None? then Err(MissingWeights)
      else if |paths| != |dniWeight.value| then Err(LengthMismatch)
      else if |paths| < 2 then Err(MissingIndex)
      else LoadDniAsWritten(load(paths[0]), load(paths[1]), dniWeight.value)
    case OnePath(path) =>
      LoadStateDict(load(path))
  }

  /** `TorchWeights` with the interpolation written into the group that is loaded. */
  function TorchWeightsCorrected(modelPath: ModelPath, dniWeight: Option<seq<real>>, load: Loader): (r: Result<Params>)
    ensures modelPath.PathList? && dniWeight.Some? && |modelPath.paths| == |dniWeight.value| >= 2 ==>
              var a, b := load(modelPath.paths[0]), load(modelPath.paths[1]);
              var key := StateKey(a);
              r.Ok? <==> key in a && (|a[key]| == 0 || (key in b && a[key].Keys <= b[key].Keys))
    ensures modelPath.PathList? && dniWeight.Some? && |modelPath.paths| == |dniWeight.value| >= 2 && r.Ok? ==>
              var a, b := load(modelPath.paths[0]), load(modelPath.paths[1]);
              var key := StateKey(a);
              && key in a
              && r.value.Keys == a[key].Keys
              && forall k :: k in r.value ==> key in b && k in b[key] && r.value[k] == dniWeight.value[0] * a[key][k] + dniWeight.value[1] * b[key][k]
    ensures !(modelPath.PathList? && dniWeight.Some? && |modelPath.paths| == |dniWeight.value| >= 2) ==>
              r == TorchWeights(modelPath, dniWeight, load)
  {
    match modelPath
    case PathList(paths) =>
      if dniWeight.Some? && |paths| == |dniWeight.value| >= 2 then
        LoadDni(load(paths[0]), load(paths[1]), dniWeight.value)
      else TorchWeights(modelPath, dniWeight, load)
    case OnePath(_) =>
      TorchWeights(modelPath, dniWeight, load)
  }

  /** The correction matters only for a first checkpoint with `params_ema`: without it,
      the corrected and the as-written loading agree on every input. */
  lemma CorrectionOnlyForEma(paths: seq<string>, weights: seq<real>, load: Loader)
    requires |paths| == |weights| >= 2 && EmaKey !in load(paths[0])
    ensures TorchWeightsCorrected(PathList(paths), Some(weights), load) == TorchWeights(PathList(paths), Some(weights), load)
  {
    var a, b := load(paths[0]), load(paths[1]);
    var blended := Blend(a, b, weights, ParamsKey);
    if blended.Ok? {
      assert EmaKey !in blended.value;
    }
  }

  /** The upscaler is usable: its backend name is one the dispatch sites accept. */
  predicate Valid(u: Upscaler) {
    Backend.Parse(u.backend).Ok?
  }

  /** `RealESRGANer.__init__`. */
  function Construct(cfg: Config, load: Loader): (r: Result<Upscaler>)
    ensures Backend.Parse(cfg.backend).Err? ==> r == Err(UnknownBackend(cfg.backend))
    ensures cfg.backend == "torch" && TorchWeights(cfg.modelPath, cfg.dniWeight, load).Err? ==>
              r == Err(TorchWeights(cfg.modelPath, cfg.dniWeight, load).error)
    ensures r.Ok? <==>
              Backend.Parse(cfg.backend).Ok? &&
              (cfg.backend == "torch" ==> TorchWeights(cfg.modelPath, cfg.dniWeight, load).Ok?)
    ensures r.Ok? ==>
              && Valid(r.value)
              && r.value.backend == cfg.backend
              && r.value.scale == cfg.scale
              && r.value.tileSize == cfg.tile
              && r.value.tilePad == cfg.tilePad
              && r.value.prePad == cfg.prePad
              && r.value.outscale == cfg.outscale
              && (r.value.weights.Some? <==> cfg.backend == "torch")
    ensures r.Ok? && cfg.backend == "torch" ==>
              r.value.weights == Some(TorchWeights(cfg.modelPath, cfg.dniWeight, load).value)
  {
    var kind :- Backend.Parse(cfg.backend);
    var weights :-
      if kind == Backend.Torch then
        var w :- TorchWeights(cfg.modelPath, cfg.dniWeight, load);
        Ok(Some(w))
      else Ok(None);
    Ok(Upscaler(cfg.scale, cfg.tile, cfg.tilePad, cfg.prePad, cfg.backend, cfg.outscale, weights))
  }

  /** `process`: the direct-inference dispatch, which raises for an unknown backend. */
  function Process(u: Upscaler): (r: Result<Backend.Kind>)
    ensures r.Ok? <==> u.backend in Backend.KnownNames
    ensures r.Err? ==> r.error == UnknownBackend(u.backend)
    ensures r.Ok? ==> Backend.Name(r.value) == u.backend
  {
    Backend.Parse(u.backend)
  }

  /** A constructed upscaler never reaches the `ValueError` branch of a dispatch site. */
  lemma ConstructedDispatches(cfg: Config, load: Loader)
    requires Construct(cfg, load).Ok?
    ensures Process(Construct(cfg, load).value).Ok?
    ensures Backend.Name(Process(Construct(cfg, load).value).value) == cfg.backend
  {
  }
}
