/**
  Why the manifest parser refuses a document: the error it gives names the first fault in document
  order, and what it says of that place is so.
*/
module TfjsFaults {
  import opened Wrappers
  import opened Samples
  import opened TfjsManifest

  /** Where a fold stops: everything before is taken, and the next element is refused. */
  lemma {:induction false} FirstFailure<A, X, E>(step: (A, X) -> Result<A, E>, acc: A, xs: seq<X>)
    returns (i: nat, before: A)
    requires TryFold(step, acc, xs).Err?
    ensures i < |xs| && TryFold(step, acc, xs[..i]) == Ok(before)
    ensures step(before, xs[i]) == Err(TryFold(step, acc, xs).error)
    decreases |xs|
  {
    var first := step(acc, xs[0]);
    if first.Err? {
      i, before := 0, acc;
    } else {
      i, before := FirstFailure(step, first.value, xs[1..]);
      assert xs[..i + 1][1..] == xs[1..][..i];
      i := i + 1;
    }
  }

  predicate PathFault(h: Host, l: Limits, taken: nat, p: Option<string>, e: Error) {
    || (p.None? && e == Parse("weightsManifest[i].paths[j]"))
    || (p.Some? && !h.safePath(p.value) && e == UnsafePath(p.value))
    || (p.Some? && h.safePath(p.value) && taken == l.maxShards && e == LimitExceeded("shards", taken + 1, l.maxShards))
  }

  /** What is wrong with one tensor, seen on its own. */
  ghost predicate WeightFault(h: Host, l: Limits, w: Weight, e: Error) {
    match e
    case Parse(what) =>
      || (what == "weight.name" && w.name.None?)
      || (what == "weight.shape" && w.name.Some? && w.shape.None?)
      || (what == "weight.shape[]" && w.name.Some? && w.shape.Some? && !AllPresent(w.shape.value))
    case Dtype(name, dtype) => w.name == Some(name) && w.dtype == Some(dtype) && dtype != "float32"
    case ZeroDimension(name, shape) => w.name == Some(name) && Shaped(w) && ShapeOf(w) == shape && 0 in shape
    case ShapeOverflow(name, shape) => w.name == Some(name) && w.shape.Some? && TooLarge(h, w.shape.value, shape)
    case LimitExceeded(what, value, max) =>
      && Shaped(w) && value > max
      && if what == "n_classes" then max == l.maxClasses && (ShapeOf(w) == [value] || ShapeOf(w) == [2000, value])
         else what == "tensor_bytes" && max == l.maxKernelBytes && value == Product(ShapeOf(w)) * 4
    case _ => false
  }

  /** One dimension after `shape` is out of range, or all of them make a tensor that is. */
  ghost predicate TooLarge(h: Host, dims: seq<Option<nat>>, shape: seq<nat>) {
    || (|shape| < |dims| && dims[|shape|].Some? && dims[|shape|].value > h.usizeMax
        && AllPresent(dims[..|shape|]) && shape == Values(dims[..|shape|]))
    || (AllPresent(dims) && shape == Values(dims) && 0 !in shape && Product(shape) * 4 > h.usizeMax)
  }

  /** The tensors before number `j` are good, and `j` is faulty or is the one that runs out of range. */
  ghost predicate WeightsFault(h: Host, l: Limits, offset: nat, ws: seq<Weight>, j: nat, e: Error) {
    && j < |ws| && WeightsOk(h, l, ws[..j])
    && (|| WeightFault(h, l, ws[j], e)
        || (WeightOk(h, l, ws[j]) && offset + TotalBytes(ws[..j]) + BytesOf(ws[j]) > h.usizeMax
            && e == ShapeOverflow("<cumulative offset>", [])))
  }

  ghost predicate GroupFault(h: Host, l: Limits, acc: Acc, g: Group, e: Error) {
    || (g.paths.None? && e == Parse("weightsManifest[i].paths"))
    || (g.paths.Some? && exists j: nat ::
          j < |g.paths.value| && PathsOk(h, g.paths.value[..j]) && PathFault(h, l, |acc.shards| + j, g.paths.value[j], e))
    || (g.paths.Some? && PathsOk(h, g.paths.value)
        && (|| (g.weights.None? && e == Parse("weightsManifest[i].weights"))
            || (g.weights.Some? && exists j: nat :: WeightsFault(h, l, acc.offset, g.weights.value, j, e))))
  }

  lemma DimFault(h: Host, name: string, dims: seq<Option<nat>>)
    requires TryFold(DimStep(h, name), [], dims).Err?
    ensures var e := TryFold(DimStep(h, name), [], dims).error;
      || (e == Parse("weight.shape[]") && !AllPresent(dims))
      || (e.ShapeOverflow? && e.name == name && TooLarge(h, dims, e.shape))
  {
    var i, before := FirstFailure(DimStep(h, name), [], dims);
    DimsTaken(h, name, [], dims[..i]);
    assert [] + Values(dims[..i]) == Values(dims[..i]);
  }

  lemma TensorFault(h: Host, l: Limits, acc: Acc, name: string, shape: seq<nat>)
    requires HostOk(h) && PlaceTensor(h, l, acc, name, shape).Err?
    ensures var e := PlaceTensor(h, l, acc, name, shape).error;
      || (e == ZeroDimension(name, shape) && 0 in shape)
      || (e == ShapeOverflow(name, shape) && 0 !in shape && Product(shape) * 4 > h.usizeMax)
      || (e.LimitExceeded? && e.value > e.max
          && if e.what == "n_classes" then e.max == l.maxClasses && (shape == [e.value] || shape == [2000, e.value])
             else e.what == "tensor_bytes" && e.max == l.maxKernelBytes && e.value == Product(shape) * 4)
      || (e == ShapeOverflow("<cumulative offset>", []) && ShapeOk(h, l, shape)
          && acc.offset + Product(shape) * 4 > h.usizeMax)
  {
    hide Product, TryFold;
    if 0 !in shape {
      FactorsTaken(h, shape, name, 1, shape);
      TimesLaws(1, Product(shape), 0);
    }
  }

  lemma OneWeightFault(h: Host, l: Limits, acc: Acc, w: Weight)
    requires HostOk(h) && TakeWeight(h, l, acc, w).Err?
    ensures var e := TakeWeight(h, l, acc, w).error;
      || WeightFault(h, l, w, e)
      || (WeightOk(h, l, w) && acc.offset + BytesOf(w) > h.usizeMax && e == ShapeOverflow("<cumulative offset>", []))
  {
    hide Product, TryFold, PlaceTensor, ShapeOk;
    if w.name.Some? && w.dtype.GetOr("float32") == "float32" && w.shape.Some? {
      var name, dims := w.name.value, w.shape.value;
      var shape := TryFold(DimStep(h, name), [], dims);
      if shape.Err? {
        DimFault(h, name, dims);
      } else {
        ShapeTaken(h, l, acc, name, dims);
        TensorFault(h, l, acc, name, shape.value);
      }
    }
  }

  lemma WeightsRefused(h: Host, l: Limits, acc: Acc, ws: seq<Weight>) returns (j: nat)
    requires HostOk(h) && acc.offset <= h.usizeMax && TryFold(WeightStep(h, l), acc, ws).Err?
    ensures WeightsFault(h, l, acc.offset, ws, j, TryFold(WeightStep(h, l), acc, ws).error)
  {
    hide TakeWeight, WeightFault, WeightsOk, WeightOk, TotalBytes, Placed;
    var before;
    j, before := FirstFailure(WeightStep(h, l), acc, ws);
    WeightsTaken(h, l, acc, ws[..j]);
    OneWeightFault(h, l, before, ws[j]);
  }

  lemma PathsRefused(h: Host, l: Limits, acc: Acc, ps: seq<Option<string>>) returns (j: nat)
    requires |acc.shards| <= l.maxShards && TryFold(PathStep(h, l), acc, ps).Err?
    ensures j < |ps| && PathsOk(h, ps[..j])
    ensures PathFault(h, l, |acc.shards| + j, ps[j], TryFold(PathStep(h, l), acc, ps).error)
  {
    var before;
    j, before := FirstFailure(PathStep(h, l), acc, ps);
    PathsTaken(h, l, acc, ps[..j]);
  }

  lemma GroupRefused(h: Host, l: Limits, acc: Acc, g: Group)
    requires HostOk(h) && |acc.shards| <= l.maxShards && acc.offset <= h.usizeMax && TakeGroup(h, l, acc, g).Err?
    ensures GroupFault(h, l, acc, g, TakeGroup(h, l, acc, g).error)
  {
    hide TryFold, PathFault, WeightsFault, PathsOk;
    if g.paths.Some? {
      var named := TryFold(PathStep(h, l), acc, g.paths.value);
      if named.Err? {
        var j := PathsRefused(h, l, acc, g.paths.value);
      } else {
        PathsTaken(h, l, acc, g.paths.value);
        if g.weights.Some? {
          var j := WeightsRefused(h, l, named.value, g.weights.value);
        }
      }
    }
  }

  /** The groups before number `i` are good, and `i` is faulty. */
  ghost predicate GroupsFault(h: Host, l: Limits, gs: seq<Group>, i: nat, e: Error) {
    && i < |gs| && GroupsOk(h, l, NOTHING, gs[..i])
    && GroupFault(h, l, AfterGroups(NOTHING, gs[..i]), gs[i], e)
  }

  /** A refused document is refused for its first fault, which the error names truly. */
  lemma RefusedForFirstFault(h: Host, l: Limits, size: nat, doc: Document)
    requires HostOk(h) && ParseManifest(h, l, size, doc).Err?
    ensures var e := ParseManifest(h, l, size, doc).error;
      if size > l.maxManifestBytes then e == LimitExceeded("manifest_bytes", size, l.maxManifestBytes)
      else if doc.Malformed? then e == Parse("model.json")
      else if doc.groups.None? || doc.groups.value == [] then e == Parse("weightsManifest")
      else if GroupsOk(h, l, NOTHING, doc.groups.value) then
        && e == Parse("weightsManifest")
        && (AllPaths(doc.groups.value) == [] || AllWeights(doc.groups.value) == [])
      else exists i: nat :: GroupsFault(h, l, doc.groups.value, i, e)
  {
    hide TryFold, TakeGroup, GroupsOk, GroupFault, AfterGroups;
    if size <= l.maxManifestBytes && doc.Document? && doc.groups.Some? && doc.groups.value != [] {
      var gs := doc.groups.value;
      GroupsTaken(h, l, NOTHING, gs);
      if GroupsOk(h, l, NOTHING, gs) {
        NothingCollected(h, l, gs);
      } else {
        var i, before := FirstFailure(GroupStep(h, l), NOTHING, gs);
        GroupsTaken(h, l, NOTHING, gs[..i]);
        FitsAfter(h, l, gs[..i]);
        GroupRefused(h, l, before, gs[i]);
        assert GroupsFault(h, l, gs, i, ParseManifest(h, l, size, doc).error);
      }
    }
  }

  lemma FitsAfter(h: Host, l: Limits, gs: seq<Group>)
    requires GroupsOk(h, l, NOTHING, gs)
    ensures |AfterGroups(NOTHING, gs).shards| <= l.maxShards && AfterGroups(NOTHING, gs).offset <= h.usizeMax
  {
    hide TotalBytes, Placed;
  }

  lemma NothingCollected(h: Host, l: Limits, gs: seq<Group>)
    requires GroupsOk(h, l, NOTHING, gs)
    ensures Complete(gs) && AllPresent(AllPaths(gs)) && AllShaped(AllWeights(gs))
    ensures AfterGroups(NOTHING, gs).entries == [] ==> AllWeights(gs) == []
    ensures AfterGroups(NOTHING, gs).shards == [] ==> AllPaths(gs) == []
  {
    hide TotalBytes, Placed, AllPaths, AllWeights;
  }

  /** What the default limits let through, in numbers. */
  lemma DefaultCaps(h: Host, size: nat, doc: Document)
    requires HostOk(h) && doc.Document? && doc.groups.Some? && Complete(doc.groups.value)
    requires var ps, ws := AllPaths(doc.groups.value), AllWeights(doc.groups.value);
      PathsOk(h, ps) && AllShaped(ws) && TotalBytes(ws) <= h.usizeMax && ps != [] && ws != []
    ensures ParseManifest(h, DEFAULT_LIMITS, size, doc).Ok? <==>
      var ps, ws := AllPaths(doc.groups.value), AllWeights(doc.groups.value);
      && size <= 1_048_576 && |ps| <= 64
      && forall i :: 0 <= i < |ws| ==>
           var shape := ShapeOf(ws[i]);
           && 0 !in shape && BytesOf(ws[i]) <= 83_886_080
           && (|shape| == 1 ==> shape[0] <= 10_000)
           && (|shape| == 2 && shape[0] == 2000 ==> shape[1] <= 10_000)
  {
    hide ParseManifest, AllPaths, AllWeights, Product, TotalBytes, PathsOk;
    AcceptedExactly(h, DEFAULT_LIMITS, size, doc);
    var ws := AllWeights(doc.groups.value);
    assert forall i :: 0 <= i < |ws| ==>
      (WeightOk(h, DEFAULT_LIMITS, ws[i]) <==> ShapeOk(h, DEFAULT_LIMITS, ShapeOf(ws[i])));
    assert AllShaped(ws);
  }
}
