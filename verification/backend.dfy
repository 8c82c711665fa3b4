/** The four inference backends of the upscaler and the dispatch on the backend name.

    The upscaler keeps its backend as a string and branches on it at construction and
    again at every dispatch site (pre-processing, direct inference, output conversion),
    each chain ending in a `ValueError` for an unknown name. `Parse` is that chain. */
module Backend {
  import opened Errors

  datatype Kind = Torch | Onnx | Triton | HuggingFace

  /** The name under which each backend is selected. */
  function Name(k: Kind): string {
    match k
    case Torch => "torch"
    case Onnx => "onnx"
    case Triton => "triton"
    case HuggingFace => "huggingface"
  }

  /** The names the upscaler accepts. */
  const KnownNames: set<string> := {"torch", "onnx", "triton", "huggingface"}

  /** The if/elif chain over the backend name; anything else is a `ValueError`. */
  function Parse(name: string): (r: Result<Kind>)
    ensures r.Ok? <==> name in KnownNames
    ensures r.Ok? ==> Name(r.value) == name
    ensures r.Err? ==> r.error == UnknownBackend(name)
  {
    if name == "torch" then Ok(Torch)
    else if name == "onnx" then Ok(Onnx)
    else if name == "triton" then Ok(Triton)
    else if name == "huggingface" then Ok(HuggingFace)
    else Err(UnknownBackend(name))
  }

  /** Naming a backend and parsing the name gives the backend back. */
  lemma ParseName(k: Kind)
    ensures Parse(Name(k)) == Ok(k)
  {
  }

  /** Tiled inference calls the local network directly, which only the torch and
      huggingface backends hold; the two that refuse it, onnx and triton, are also the
      two fed numpy arrays rather than torch tensors. */
  predicate SupportsTiling(k: Kind) {
    k == Torch || k == HuggingFace
  }

  /** The check at the head of `tile_process`: onnx and triton refuse tiling with a
      `NotImplementedError` before anything else happens. */
  function CheckTiling(k: Kind): (r: Result<Kind>)
    ensures r.Ok? <==> SupportsTiling(k)
    ensures r.Ok? ==> r.value == k
    ensures r.Err? ==> r.error == TilingUnsupported(Name(k))
  {
    if k == Onnx || k == Triton then Err(TilingUnsupported(Name(k))) else Ok(k)
  }
}
