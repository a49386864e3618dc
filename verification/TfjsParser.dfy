/** The manifest parser as the loops it runs, against the functions of module TfjsManifest. */
module TfjsParser {
  import opened Wrappers
  import opened TfjsManifest

  method ReadShape(h: Host, name: string, dims: seq<Option<nat>>) returns (r: Result<seq<nat>, Error>)
    ensures r == TryFold(DimStep(h, name), [], dims)
  {
    var shape: seq<nat> := [];
    for i := 0 to |dims|
      invariant TryFold(DimStep(h, name), [], dims) == TryFold(DimStep(h, name), shape, dims[i..])
    {
      assert dims[i..][0] == dims[i] && dims[i..][1..] == dims[i + 1..];
      if dims[i].None? {
        return Err(Parse("weight.shape[]"));
      }
      var n := dims[i].value;
      if n > h.usizeMax {
        return Err(ShapeOverflow(name, shape));
      }
      shape := shape + [n];
    }
    return Ok(shape);
  }

  method CountElements(h: Host, name: string, shape: seq<nat>) returns (r: Result<nat, Error>)
    ensures r == CheckedCount(h, name, shape)
  {
    hide Times;
    var count: nat := 1;
    for i := 0 to |shape|
      invariant CheckedCount(h, name, shape) == TryFold(FactorStep(h, shape, name), count, shape[i..])
    {
      assert shape[i..][0] == shape[i] && shape[i..][1..] == shape[i + 1..];
      if Times(count, shape[i]) > h.usizeMax {
        return Err(ShapeOverflow(name, shape));
      }
      count := Times(count, shape[i]);
    }
    return Ok(count);
  }

  method ReadPaths(h: Host, l: Limits, acc: Acc, paths: seq<Option<string>>) returns (r: Result<Acc, Error>)
    ensures r == TryFold(PathStep(h, l), acc, paths)
  {
    var shards := acc.shards;
    for i := 0 to |paths|
      invariant TryFold(PathStep(h, l), acc, paths) == TryFold(PathStep(h, l), acc.(shards := shards), paths[i..])
    {
      assert paths[i..][0] == paths[i] && paths[i..][1..] == paths[i + 1..];
      if paths[i].None? {
        return Err(Parse("weightsManifest[i].paths[j]"));
      }
      var s := paths[i].value;
      if !h.safePath(s) {
        return Err(UnsafePath(s));
      }
      if |shards| >= l.maxShards {
        return Err(LimitExceeded("shards", |shards| + 1, l.maxShards));
      }
      shards := shards + [s];
    }
    return Ok(acc.(shards := shards));
  }

  /**
    One weight of a group: the checks in the order the parser makes them.  It is taken exactly
    when it is acceptable on its own and the running offset stays in range.
  */
  method ReadWeight(h: Host, l: Limits, acc: Acc, w: Weight) returns (r: Result<Acc, Error>)
    requires HostOk(h)
    ensures r == TakeWeight(h, l, acc, w)
    ensures r.Ok? <==> WeightOk(h, l, w) && acc.offset + BytesOf(w) <= h.usizeMax
    ensures r.Ok? ==> r.value == Acc(
      acc.entries + [Entry(w.name.value, ShapeOf(w), acc.offset, BytesOf(w))], acc.shards, acc.offset + BytesOf(w))
  {
    WeightTaken(h, l, acc, w);
    hide TryFold, CheckedCount;
    if w.name.None? {
      return Err(Parse("weight.name"));
    }
    var name := w.name.value;
    if w.dtype.GetOr("float32") != "float32" {
      return Err(Dtype(name, w.dtype.value));
    }
    if w.shape.None? {
      return Err(Parse("weight.shape"));
    }
    var dims := ReadShape(h, name, w.shape.value);
    if dims.Err? {
      return Err(dims.error);
    }
    var shape := dims.value;
    if 0 in shape {
      return Err(ZeroDimension(name, shape));
    }
    var count := CountElements(h, name, shape);
    if count.Err? {
      return Err(count.error);
    }
    var len := count.value * F32_BYTES;
    if len > h.usizeMax {
      return Err(ShapeOverflow(name, shape));
    }
    var cap := CheckCaps(l, shape, len);
    if cap.Some? {
      return Err(cap.value);
    }
    if acc.offset + len > h.usizeMax {
      return Err(ShapeOverflow("<cumulative offset>", []));
    }
    return Ok(acc.(entries := acc.entries + [Entry(name, shape, acc.offset, len)], offset := acc.offset + len));
  }

  method ReadWeights(h: Host, l: Limits, acc: Acc, weights: seq<Weight>) returns (r: Result<Acc, Error>)
    requires HostOk(h)
    ensures r == TryFold(WeightStep(h, l), acc, weights)
  {
    hide TakeWeight;
    var state := acc;
    for i := 0 to |weights|
      invariant TryFold(WeightStep(h, l), acc, weights) == TryFold(WeightStep(h, l), state, weights[i..])
    {
      assert weights[i..][0] == weights[i] && weights[i..][1..] == weights[i + 1..];
      var taken := ReadWeight(h, l, state, weights[i]);
      if taken.Err? {
        return taken;
      }
      state := taken.value;
    }
    return Ok(state);
  }

  /** The whole parse: groups in order, each its paths and then its weights. */
  method ParseWeightsManifest(h: Host, l: Limits, size: nat, doc: Document) returns (r: Result<Manifest, Error>)
    requires HostOk(h)
    ensures r == ParseManifest(h, l, size, doc)
    ensures r.Ok? <==> Acceptable(h, l, size, doc)
    ensures r.Ok? ==> r.value == Described(doc)
  {
    hide Acceptable, Described;
    AcceptedExactly(h, l, size, doc);
    if size > l.maxManifestBytes {
      return Err(LimitExceeded("manifest_bytes", size, l.maxManifestBytes));
    }
    if doc.Malformed? {
      return Err(Parse("model.json"));
    }
    if doc.groups.None? || doc.groups.value == [] {
      return Err(Parse("weightsManifest"));
    }
    var groups, state := doc.groups.value, NOTHING;
    for i := 0 to |groups|
      invariant TryFold(GroupStep(h, l), NOTHING, groups) == TryFold(GroupStep(h, l), state, groups[i..])
    {
      assert groups[i..][0] == groups[i] && groups[i..][1..] == groups[i + 1..];
      if groups[i].paths.None? {
        return Err(Parse("weightsManifest[i].paths"));
      }
      var named := ReadPaths(h, l, state, groups[i].paths.value);
      if named.Err? {
        return Err(named.error);
      }
      if groups[i].weights.None? {
        return Err(Parse("weightsManifest[i].weights"));
      }
      var placed := ReadWeights(h, l, named.value, groups[i].weights.value);
      if placed.Err? {
        return Err(placed.error);
      }
      state := placed.value;
    }
    if state.entries == [] || state.shards == [] {
      return Err(Parse("weightsManifest"));
    }
    return Ok(Manifest(state.entries, state.shards));
  }
}
