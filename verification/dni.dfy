/** Checkpoint handling of the torch backend: deep network interpolation (`dni`), which
    blends the parameters of two checkpoints as w0 * a + w1 * b, and the choice of the
    parameter group to load, which prefers the exponential-moving-average group
    `params_ema` over `params`.

    A parameter tensor is reduced to one real: the blend acts on every element of a
    tensor by the same formula. */
module Dni {
  import opened Errors

  /** A parameter group: parameter name to value. */
  type Params = map<string, real>

  /** A loaded checkpoint: group name (`params`, `params_ema`, ...) to parameter group. */
  type Checkpoint = map<string, Params>

  const ParamsKey: string := "params"
  const EmaKey: string := "params_ema"

  /** `dni(net_a, net_b, dni_weight, key)`: every parameter `k` of group `key` of the first
      checkpoint becomes w0 * a[k] + w1 * b[k]; everything else of the first checkpoint is
      returned as it was. The loop evaluates `dni_weight[0]`, `dni_weight[1]`,
      `net_b[key]` and `net_b[key][k]` in that order, so the first of them to fail names
      the error, and an empty group reads none of them. */
  function Blend(netA: Checkpoint, netB: Checkpoint, weights: seq<real>, key: string): (r: Result<Checkpoint>)
    ensures r.Ok? <==>
              && key in netA
              && (|netA[key]| == 0 || (|weights| >= 2 && key in netB && netA[key].Keys <= netB[key].Keys))
    ensures key !in netA ==> r == Err(MissingKey(key))
    ensures key in netA && |netA[key]| > 0 && |weights| < 2 ==> r == Err(MissingIndex)
    ensures key in netA && |netA[key]| > 0 && |weights| >= 2 && key !in netB ==> r == Err(MissingKey(key))
    ensures key in netA && |netA[key]| > 0 && |weights| >= 2 && key in netB && !(netA[key].Keys <= netB[key].Keys) ==>
              r == Err(MissingParam)
    ensures r.Ok? ==> r.value.Keys == netA.Keys && r.value[key].Keys == netA[key].Keys
    ensures r.Ok? ==> forall g :: g in netA && g != key ==> r.value[g] == netA[g]
    ensures r.Ok? ==> forall k :: k in netA[key] ==>
              r.value[key][k] == weights[0] * netA[key][k] + weights[1] * netB[key][k]
  {
    if key !in netA then Err(MissingKey(key))
    else
      var group := netA[key];
      if |group| == 0 then Ok(netA)
      else if |weights| < 2 then Err(MissingIndex)
      else if key !in netB then Err(MissingKey(key))
      else if !(group.Keys <= netB[key].Keys) then Err(MissingParam)
      else
        var other := netB[key];
        Ok(netA[key := map k | k in group :: weights[0] * group[k] + weights[1] * other[k]])
  }

  /** The group `__init__` loads from a checkpoint: `params_ema` when present, else `params`. */
  function StateKey(loadnet: Checkpoint): (key: string)
    ensures key == EmaKey <==> EmaKey in loadnet
    ensures key == EmaKey || key == ParamsKey
  {
    if EmaKey in loadnet then EmaKey else ParamsKey
  }

  /** `loadnet[keyname]`: the parameter group handed to the network, or a `KeyError` when
      the checkpoint has neither group. */
  function LoadStateDict(loadnet: Checkpoint): (r: Result<Params>)
    ensures r.Ok? <==> EmaKey in loadnet || ParamsKey in loadnet
    ensures EmaKey in loadnet ==> r == Ok(loadnet[EmaKey])
    ensures EmaKey !in loadnet && ParamsKey in loadnet ==> r == Ok(loadnet[ParamsKey])
    ensures r.Err? ==> r.error == MissingKey(ParamsKey)
  {
    var key := StateKey(loadnet);
    if key in loadnet then Ok(loadnet[key]) else Err(MissingKey(key))
  }

  /** Weights 0.3 and 0.7 on a shared parameter of 1.0 and 2.0 give 1.7. */
  lemma BlendExample()
    ensures Blend(map[ParamsKey := map["w" := 1.0]], map[ParamsKey := map["w" := 2.0]], [0.3, 0.7], ParamsKey)
            == Ok(map[ParamsKey := map["w" := 1.7]])
  {
    var r := Blend(map[ParamsKey := map["w" := 1.0]], map[ParamsKey := map["w" := 2.0]], [0.3, 0.7], ParamsKey);
    assert r.Ok?;
    assert r.value.Keys == {ParamsKey};
    assert r.value[ParamsKey].Keys == {"w"};
    assert r.value[ParamsKey]["w"] == 0.3 * 1.0 + 0.7 * 2.0 == 1.7;
    assert r.value[ParamsKey] == map["w" := 1.7];
    assert r.value == map[ParamsKey := map["w" := 1.7]];
  }

  /** Weights (1, 0) select the first checkpoint unchanged. */
  lemma BlendFirstOnly(netA: Checkpoint, netB: Checkpoint, key: string)
    requires Blend(netA, netB, [1.0, 0.0], key).Ok?
    ensures Blend(netA, netB, [1.0, 0.0], key).value == netA
  {
    var r := Blend(netA, netB, [1.0, 0.0], key).value;
    assert r[key] == netA[key];
    assert forall g :: g in netA ==> r[g] == netA[g];
  }

  /** Swapping the checkpoints together with the weights blends the same values. */
  lemma BlendSymmetric(netA: Checkpoint, netB: Checkpoint, w0: real, w1: real, key: string)
    requires key in netA && key in netB && netA[key].Keys == netB[key].Keys
    ensures Blend(netA, netB, [w0, w1], key).Ok? && Blend(netB, netA, [w1, w0], key).Ok?
    ensures Blend(netA, netB, [w0, w1], key).value[key] == Blend(netB, netA, [w1, w0], key).value[key]
  {
    var r1 := Blend(netA, netB, [w0, w1], key);
    var r2 := Blend(netB, netA, [w1, w0], key);
    if |netA[key]| == 0 {
      assert netB[key].Keys == {};
      assert netA[key] == map[] && netB[key] == map[];
    }
    assert r1.value[key].Keys == r2.value[key].Keys;
    forall k | k in r1.value[key]
      ensures r1.value[key][k] == r2.value[key][k]
    {
    }
  }

  /** `dni` followed by the key choice of `__init__`, as the source does it: the blend is
      written into `params`, but `params_ema` is loaded whenever the first checkpoint has
      it. The first checkpoint needs a `params` group even then. */
  function LoadDniAsWritten(netA: Checkpoint, netB: Checkpoint, weights: seq<real>): (r: Result<Params>)
    ensures r.Ok? <==>
              && ParamsKey in netA
              && (|netA[ParamsKey]| == 0
                  || (|weights| >= 2 && ParamsKey in netB && netA[ParamsKey].Keys <= netB[ParamsKey].Keys))
    ensures ParamsKey !in netA ==> r == Err(MissingKey(ParamsKey))
    ensures r.Err? ==> Blend(netA, netB, weights, ParamsKey).Err? && r.error == Blend(netA, netB, weights, ParamsKey).error
    ensures r.Ok? && EmaKey in netA ==> r.value == netA[EmaKey]
    ensures r.Ok? && EmaKey !in netA ==>
              && r.value.Keys == netA[ParamsKey].Keys
              && forall k :: k in r.value ==>
                   r.value[k] == weights[0] * netA[ParamsKey][k] + weights[1] * netB[ParamsKey][k]
  {
    var loadnet :- Blend(netA, netB, weights, ParamsKey);
    LoadStateDict(loadnet)
  }

  /** As written, interpolating two checkpoints that carry `params_ema` loads the first
      checkpoint's averaged weights untouched: the weights 0.5 / 0.5 of parameters 1.0
      and 2.0 load 1.0 instead of 1.5. */
  lemma DniIgnoredWithEma()
    ensures var a := map[ParamsKey := map["w" := 1.0], EmaKey := map["w" := 1.0]];
            var b := map[ParamsKey := map["w" := 2.0], EmaKey := map["w" := 2.0]];
            && LoadDniAsWritten(a, b, [0.5, 0.5]) == Ok(map["w" := 1.0])
            && LoadDni(a, b, [0.5, 0.5]) == Ok(map["w" := 1.5])
  {
    var a := map[ParamsKey := map["w" := 1.0], EmaKey := map["w" := 1.0]];
    var b := map[ParamsKey := map["w" := 2.0], EmaKey := map["w" := 2.0]];
    assert EmaKey != ParamsKey;
    var blended := Blend(a, b, [0.5, 0.5], ParamsKey);
    assert blended.Ok?;
    var fixed := LoadDni(a, b, [0.5, 0.5]);
    assert fixed.Ok? && fixed.value["w"] == 1.5;
    assert fixed.value == map["w" := 1.5];
  }

  /** Interpolation with the blend written into the group that will be loaded: the loaded
      parameters are exactly w0 * a + w1 * b over that group, whichever group it is. */
  function LoadDni(netA: Checkpoint, netB: Checkpoint, weights: seq<real>): (r: Result<Params>)
    ensures var key := StateKey(netA);
            r.Ok? <==> key in netA && (|netA[key]| == 0 || (|weights| >= 2 && key in netB && netA[key].Keys <= netB[key].Keys))
    ensures var key := StateKey(netA);
            r.Ok? ==>
              && r.value.Keys == netA[key].Keys
              && forall k :: k in r.value ==> r.value[k] == weights[0] * netA[key][k] + weights[1] * netB[key][k]
  {
    var key := StateKey(netA);
    var loadnet :- Blend(netA, netB, weights, key);
    assert key in loadnet;
    LoadStateDict(loadnet)
  }
}
