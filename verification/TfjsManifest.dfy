/**
  Parsing a TFJS weights manifest into tensor entries laid out in the concatenated shards.
  The JSON reader is not modelled: a document arrives as the fields the parser looks at, with
  `None` where a field is missing or of the wrong type.
*/
module TfjsManifest {
  import opened Wrappers
  import opened Samples

  const F32_BYTES: nat := 4
  const BACKBONE_FEATURE_DIM: nat := 2000

  datatype Limits = Limits(maxClasses: nat, maxKernelBytes: nat, maxBiasBytes: nat, maxManifestBytes: nat, maxShards: nat)

  const DEFAULT_LIMITS := Limits(10_000, 80 * 1024 * 1024, 1024 * 1024, 1024 * 1024, 64)

  /** The platform: the largest `usize`, at least that of 32 bits, and which shard paths stay inside the directory. */
  datatype Host = Host(usizeMax: nat, safePath: string -> bool)

  datatype Weight = Weight(name: Option<string>, dtype: Option<string>, shape: Option<seq<Option<nat>>>)
  datatype Group = Group(paths: Option<seq<Option<string>>>, weights: Option<seq<Weight>>)
  datatype Document = Malformed | Document(groups: Option<seq<Group>>)

  datatype Entry = Entry(name: string, shape: seq<nat>, offset: nat, len: nat)
  datatype Manifest = Manifest(entries: seq<Entry>, shards: seq<string>)

  datatype LocatorReason =
    | KernelCandidates(found: nat)
    | BiasCandidates(found: nat)
    | KernelShape(name: string, shape: seq<nat>)
    | BiasShape(name: string, shape: seq<nat>)

  datatype Error =
    | LimitExceeded(what: string, value: nat, max: nat)
    | Parse(what: string)
    | UnsafePath(path: string)
    | Dtype(name: string, dtype: string)
    | ShapeOverflow(name: string, shape: seq<nat>)
    | ZeroDimension(name: string, shape: seq<nat>)
    | Locator(reason: LocatorReason)
    | BlobLength(have: nat, declared: nat)
    | ShortRead(have: nat, need: nat)
    | BadClassCount(got: nat, max: nat)
    | NonFiniteWeight(tensor: string, index: nat, weight: Sample)

  /** What the parser has collected so far. */
  datatype Acc = Acc(entries: seq<Entry>, shards: seq<string>, offset: nat)

  // ---- One element at a time ----

  function TakePath(h: Host, l: Limits, acc: Acc, p: Option<string>): Result<Acc, Error> {
    match p
    case None => Err(Parse("weightsManifest[i].paths[j]"))
    case Some(s) =>
      if !h.safePath(s) then Err(UnsafePath(s))
      else if |acc.shards| >= l.maxShards then Err(LimitExceeded("shards", |acc.shards| + 1, l.maxShards))
      else Ok(acc.(shards := acc.shards + [s]))
  }

  function TakeDim(h: Host, name: string, shape: seq<nat>, d: Option<nat>): Result<seq<nat>, Error> {
    match d
    case None => Err(Parse("weight.shape[]"))
    case Some(n) => if n > h.usizeMax then Err(ShapeOverflow(name, shape)) else Ok(shape + [n])
  }

  /** One overflow-checked multiplication. */
  function TakeFactor(h: Host, whole: seq<nat>, name: string, count: nat, d: nat): Result<nat, Error> {
    if Times(count, d) > h.usizeMax then Err(ShapeOverflow(name, whole)) else Ok(Times(count, d))
  }

  function Times(a: nat, b: nat): nat {
    ProductIsNat(a, b);
    a * b
  }

  lemma ProductIsNat(a: nat, b: nat)
    ensures a * b >= 0
  {
  }

  function CheckedCount(h: Host, name: string, shape: seq<nat>): Result<nat, Error> {
    TryFold(FactorStep(h, shape, name), 1, shape)
  }

  /** The caps on a tensor's declared shape and size, the class count first. */
  function CheckCaps(l: Limits, shape: seq<nat>, len: nat): Option<Error> {
    if |shape| == 2 && shape[0] == BACKBONE_FEATURE_DIM && shape[1] > l.maxClasses then
      Some(LimitExceeded("n_classes", shape[1], l.maxClasses))
    else if |shape| == 1 && shape[0] > l.maxClasses then
      Some(LimitExceeded("n_classes", shape[0], l.maxClasses))
    else if len > l.maxKernelBytes then Some(LimitExceeded("tensor_bytes", len, l.maxKernelBytes))
    else None
  }

  /** A tensor of a given name and shape, laid at the running offset. */
  function PlaceTensor(h: Host, l: Limits, acc: Acc, name: string, shape: seq<nat>): Result<Acc, Error> {
    if 0 in shape then Err(ZeroDimension(name, shape))
    else match CheckedCount(h, name, shape)
      case Err(e) => Err(e)
      case Ok(count) =>
        var len := count * F32_BYTES;
        if len > h.usizeMax then Err(ShapeOverflow(name, shape))
        else match CheckCaps(l, shape, len)
          case Some(e) => Err(e)
          case None =>
            if acc.offset + len > h.usizeMax then Err(ShapeOverflow("<cumulative offset>", []))
            else Ok(acc.(entries := acc.entries + [Entry(name, shape, acc.offset, len)], offset := acc.offset + len))
  }

  function TakeWeight(h: Host, l: Limits, acc: Acc, w: Weight): Result<Acc, Error> {
    match w.name
    case None => Err(Parse("weight.name"))
    case Some(name) =>
      if w.dtype.GetOr("float32") != "float32" then Err(Dtype(name, w.dtype.value))
      else match w.shape
        case None => Err(Parse("weight.shape"))
        case Some(dims) =>
          match TryFold(DimStep(h, name), [], dims)
          case Err(e) => Err(e)
          case Ok(shape) => PlaceTensor(h, l, acc, name, shape)
  }

  function TakeGroup(h: Host, l: Limits, acc: Acc, g: Group): Result<Acc, Error> {
    match g.paths
    case None => Err(Parse("weightsManifest[i].paths"))
    case Some(paths) =>
      match TryFold(PathStep(h, l), acc, paths)
      case Err(e) => Err(e)
      case Ok(acc1) =>
        match g.weights
        case None => Err(Parse("weightsManifest[i].weights"))
        case Some(weights) => TryFold(WeightStep(h, l), acc1, weights)
  }

  const NOTHING := Acc([], [], 0)

  function ParseManifest(h: Host, l: Limits, size: nat, doc: Document): Result<Manifest, Error> {
    if size > l.maxManifestBytes then Err(LimitExceeded("manifest_bytes", size, l.maxManifestBytes))
    else if doc.Malformed? then Err(Parse("model.json"))
    else if doc.groups.None? || doc.groups.value == [] then Err(Parse("weightsManifest"))
    else match TryFold(GroupStep(h, l), NOTHING, doc.groups.value)
      case Err(e) => Err(e)
      case Ok(acc) =>
        if acc.entries == [] || acc.shards == [] then Err(Parse("weightsManifest"))
        else Ok(Manifest(acc.entries, acc.shards))
  }

  // The steps above with their surroundings fixed.

  function FactorStep(h: Host, whole: seq<nat>, name: string): (nat, nat) -> Result<nat, Error> {
    (count, d) => TakeFactor(h, whole, name, count, d)
  }

  function DimStep(h: Host, name: string): (seq<nat>, Option<nat>) -> Result<seq<nat>, Error> {
    (shape, d) => TakeDim(h, name, shape, d)
  }

  function PathStep(h: Host, l: Limits): (Acc, Option<string>) -> Result<Acc, Error> {
    (acc, p) => TakePath(h, l, acc, p)
  }

  function WeightStep(h: Host, l: Limits): (Acc, Weight) -> Result<Acc, Error> {
    (acc, w) => TakeWeight(h, l, acc, w)
  }

  function GroupStep(h: Host, l: Limits): (Acc, Group) -> Result<Acc, Error> {
    (acc, g) => TakeGroup(h, l, acc, g)
  }

  // ---- What is accepted ----

  function Product(shape: seq<nat>): nat {
    if shape == [] then 1 else Times(shape[0], Product(shape[1..]))
  }

  function Concat<T>(parts: seq<seq<T>>): seq<T> {
    if parts == [] then [] else parts[0] + Concat(parts[1..])
  }

  predicate AllPresent<T>(xs: seq<Option<T>>) {
    forall i :: 0 <= i < |xs| ==> xs[i].Some?
  }

  function Values<T>(xs: seq<Option<T>>): (r: seq<T>)
    requires AllPresent(xs)
    ensures |r| == |xs|
  {
    seq(|xs|, i requires 0 <= i < |xs| => xs[i].value)
  }

  predicate ShapeOk(h: Host, l: Limits, shape: seq<nat>) {
    && 0 !in shape
    && Product(shape) * F32_BYTES <= l.maxKernelBytes && Product(shape) * F32_BYTES <= h.usizeMax
    && (|shape| == 1 ==> shape[0] <= l.maxClasses)
    && (|shape| == 2 && shape[0] == BACKBONE_FEATURE_DIM ==> shape[1] <= l.maxClasses)
  }

  /** A named float tensor whose shape is a list of numbers. */
  predicate Shaped(w: Weight) {
    && w.name.Some? && w.dtype.GetOr("float32") == "float32"
    && w.shape.Some? && AllPresent(w.shape.value)
  }

  function ShapeOf(w: Weight): seq<nat>
    requires Shaped(w)
  {
    Values(w.shape.value)
  }

  function BytesOf(w: Weight): nat
    requires Shaped(w)
  {
    Product(ShapeOf(w)) * F32_BYTES
  }

  predicate AllShaped(ws: seq<Weight>) {
    forall i :: 0 <= i < |ws| ==> Shaped(ws[i])
  }

  function TotalBytes(ws: seq<Weight>): nat
    requires AllShaped(ws)
  {
    if ws == [] then 0 else BytesOf(ws[0]) + TotalBytes(ws[1..])
  }

  /** The entries of a list of tensors, placed one after the other from `start`. */
  function Placed(ws: seq<Weight>, start: nat): (es: seq<Entry>)
    requires AllShaped(ws)
    ensures |es| == |ws|
  {
    if ws == [] then []
    else [Entry(ws[0].name.value, ShapeOf(ws[0]), start, BytesOf(ws[0]))] + Placed(ws[1..], start + BytesOf(ws[0]))
  }

  predicate WeightOk(h: Host, l: Limits, w: Weight) {
    Shaped(w) && ShapeOk(h, l, ShapeOf(w))
  }

  predicate WeightsOk(h: Host, l: Limits, ws: seq<Weight>) {
    AllShaped(ws) && forall i :: 0 <= i < |ws| ==> WeightOk(h, l, ws[i])
  }

  predicate PathsOk(h: Host, ps: seq<Option<string>>) {
    AllPresent(ps) && forall i :: 0 <= i < |ps| ==> h.safePath(ps[i].value)
  }

  predicate Complete(gs: seq<Group>) {
    forall i :: 0 <= i < |gs| ==> gs[i].paths.Some? && gs[i].weights.Some?
  }

  /** All paths, and all weights, of a list of groups in document order. */
  function AllPaths(gs: seq<Group>): seq<Option<string>>
    requires Complete(gs)
  {
    if gs == [] then [] else gs[0].paths.value + AllPaths(gs[1..])
  }

  function AllWeights(gs: seq<Group>): seq<Weight>
    requires Complete(gs)
  {
    if gs == [] then [] else gs[0].weights.value + AllWeights(gs[1..])
  }

  /** The documents the parser accepts, said without an order of checks. */
  predicate Acceptable(h: Host, l: Limits, size: nat, doc: Document) {
    && size <= l.maxManifestBytes
    && doc.Document? && doc.groups.Some? && Complete(doc.groups.value)
    && var ps, ws := AllPaths(doc.groups.value), AllWeights(doc.groups.value);
    && PathsOk(h, ps) && 0 < |ps| <= l.maxShards
    && WeightsOk(h, l, ws) && 0 < |ws| && TotalBytes(ws) <= h.usizeMax
  }

  predicate HostOk(h: Host) { h.usizeMax >= 0xFFFF_FFFF }

  // ---- The folds, step by step ----

  lemma TimesLaws(a: nat, b: nat, c: nat)
    ensures Times(Times(a, b), c) == Times(a, Times(b, c)) && Times(1, a) == a
    ensures b >= 1 ==> a <= Times(a, b)
    ensures a >= 1 && b >= 1 ==> Times(a, b) >= 1
  {
    assert (a * b) * c == a * (b * c);
    if b >= 1 {
      ProductIsNat(a, b - 1);
      assert a * b == a + a * (b - 1);
    }
  }

  lemma {:induction false} ProductIsPositive(shape: seq<nat>)
    requires 0 !in shape
    ensures Product(shape) >= 1
    ensures forall i :: 0 <= i < |shape| ==> shape[i] <= Product(shape)
  {
    if shape != [] {
      ProductIsPositive(shape[1..]);
      TimesLaws(shape[0], Product(shape[1..]), 0);
      TimesLaws(Product(shape[1..]), shape[0], 0);
      assert Times(shape[0], Product(shape[1..])) == Times(Product(shape[1..]), shape[0]);
    }
  }

  /** Checking every partial product is checking the product, as long as no factor is zero. */
  lemma {:induction false} FactorsTaken(h: Host, whole: seq<nat>, name: string, count: nat, rest: seq<nat>)
    requires 0 !in rest && 1 <= count <= h.usizeMax
    ensures var total := Times(count, Product(rest));
      TryFold(FactorStep(h, whole, name), count, rest) ==
        if total > h.usizeMax then Err(ShapeOverflow(name, whole)) else Ok(total)
    decreases |rest|
  {
    hide Times;
    ProductIsPositive(rest);
    if rest == [] {
      TimesLaws(count, 1, 1);
      assert Times(count, 1) == count by { TimesOne(count); }
    } else {
      var next := Times(count, rest[0]);
      ProductIsPositive(rest[1..]);
      TimesLaws(count, rest[0], Product(rest[1..]));
      TimesLaws(next, Product(rest[1..]), 0);
      if next <= h.usizeMax {
        FactorsTaken(h, whole, name, next, rest[1..]);
      }
    }
  }

  lemma TimesOne(a: nat)
    ensures Times(a, 1) == a
  {
  }

  lemma {:induction false} DimsTaken(h: Host, name: string, before: seq<nat>, dims: seq<Option<nat>>)
    ensures var r := TryFold(DimStep(h, name), before, dims);
      && (r.Ok? <==> AllPresent(dims) && forall i :: 0 <= i < |dims| ==> dims[i].value <= h.usizeMax)
      && (r.Ok? ==> r.value == before + Values(dims))
    decreases |dims|
  {
    if dims == [] {
      assert before + [] == before;
    } else {
      var first := TakeDim(h, name, before, dims[0]);
      if first.Ok? {
        DimsTaken(h, name, first.value, dims[1..]);
        assert AllPresent(dims) <==> AllPresent(dims[1..]);
        if AllPresent(dims) {
          assert Values(dims) == [dims[0].value] + Values(dims[1..]);
          assert forall i :: 1 <= i < |dims| ==> dims[i] == dims[1..][i - 1];
          assert before + Values(dims) == before + [dims[0].value] + Values(dims[1..]);
        }
      }
    }
  }

  /** A tensor is taken exactly when its shape is acceptable and the running offset still fits. */
  lemma TensorPlaced(h: Host, l: Limits, acc: Acc, name: string, shape: seq<nat>)
    requires HostOk(h)
    ensures var len := Product(shape) * F32_BYTES;
      PlaceTensor(h, l, acc, name, shape).Ok? <==> ShapeOk(h, l, shape) && acc.offset + len <= h.usizeMax
    ensures PlaceTensor(h, l, acc, name, shape).Ok? ==>
      PlaceTensor(h, l, acc, name, shape).value ==
        Acc(acc.entries + [Entry(name, shape, acc.offset, Product(shape) * F32_BYTES)], acc.shards,
            acc.offset + Product(shape) * F32_BYTES)
  {
    hide Product, TryFold;
    if 0 !in shape {
      FactorsTaken(h, shape, name, 1, shape);
      TimesLaws(1, Product(shape), 0);
      TimesLaws(Product(shape), 1, 0);
    }
  }

  /** Taking the dimensions and placing the tensor, for an entry with a name and a shape. */
  lemma ShapeTaken(h: Host, l: Limits, acc: Acc, name: string, dims: seq<Option<nat>>)
    requires HostOk(h)
    ensures var shape := TryFold(DimStep(h, name), [], dims);
      (shape.Ok? && PlaceTensor(h, l, acc, name, shape.value).Ok?) <==>
        AllPresent(dims) && ShapeOk(h, l, Values(dims)) && acc.offset + Product(Values(dims)) * F32_BYTES <= h.usizeMax
    ensures TryFold(DimStep(h, name), [], dims).Ok? ==>
      AllPresent(dims) && TryFold(DimStep(h, name), [], dims).value == Values(dims)
  {
    hide Product, TryFold, PlaceTensor;
    DimsTaken(h, name, [], dims);
    if AllPresent(dims) {
      var shape := Values(dims);
      assert [] + shape == shape;
      TensorPlaced(h, l, acc, name, shape);
      if ShapeOk(h, l, shape) {
        ProductIsPositive(shape);
        assert forall i :: 0 <= i < |shape| ==> dims[i].value == shape[i] <= Product(shape);
      }
    }
  }

  lemma WeightTaken(h: Host, l: Limits, acc: Acc, w: Weight)
    requires HostOk(h)
    ensures var r := TakeWeight(h, l, acc, w);
      && (r.Ok? <==> WeightOk(h, l, w) && acc.offset + BytesOf(w) <= h.usizeMax)
      && (r.Ok? ==> r.value == Acc(acc.entries + [Entry(w.name.value, ShapeOf(w), acc.offset, BytesOf(w))],
                                   acc.shards, acc.offset + BytesOf(w)))
  {
    hide Product, TryFold, PlaceTensor, Values, AllPresent, ShapeOk;
    if w.name.Some? && w.shape.Some? {
      ShapeTaken(h, l, acc, w.name.value, w.shape.value);
      if AllPresent(w.shape.value) {
        TensorPlaced(h, l, acc, w.name.value, Values(w.shape.value));
      }
    }
  }

  lemma {:induction false} WeightsTaken(h: Host, l: Limits, acc: Acc, ws: seq<Weight>)
    requires HostOk(h) && acc.offset <= h.usizeMax
    ensures var r := TryFold(WeightStep(h, l), acc, ws);
      && (r.Ok? <==> WeightsOk(h, l, ws) && acc.offset + TotalBytes(ws) <= h.usizeMax)
      && (r.Ok? ==> r.value == Acc(acc.entries + Placed(ws, acc.offset), acc.shards, acc.offset + TotalBytes(ws)))
    decreases |ws|
  {
    hide TakeWeight, Product, ShapeOk;
    if ws != [] {
      WeightTaken(h, l, acc, ws[0]);
      var first := TakeWeight(h, l, acc, ws[0]);
      WeightsOkSplit(h, l, ws[..1], ws[1..]);
      assert ws == ws[..1] + ws[1..] && ws[..1] == [ws[0]];
      OneWeight(h, l, ws[0]);
      if first.Ok? {
        WeightsTaken(h, l, first.value, ws[1..]);
      }
    }
  }

  lemma OneWeight(h: Host, l: Limits, w: Weight)
    ensures WeightsOk(h, l, [w]) <==> WeightOk(h, l, w)
  {
    assert [w][0] == w;
  }

  lemma WeightsOkSplit(h: Host, l: Limits, a: seq<Weight>, b: seq<Weight>)
    ensures AllShaped(a + b) <==> AllShaped(a) && AllShaped(b)
    ensures WeightsOk(h, l, a + b) <==> WeightsOk(h, l, a) && WeightsOk(h, l, b)
  {
    assert forall i :: 0 <= i < |b| ==> (a + b)[|a| + i] == b[i];
    assert forall i :: 0 <= i < |a| ==> (a + b)[i] == a[i];
  }

  lemma {:induction false} PlacedAppend(a: seq<Weight>, b: seq<Weight>, start: nat)
    requires AllShaped(a) && AllShaped(b)
    ensures AllShaped(a + b) && TotalBytes(a + b) == TotalBytes(a) + TotalBytes(b)
    ensures Placed(a + b, start) == Placed(a, start) + Placed(b, start + TotalBytes(a))
    decreases |a|
  {
    hide BytesOf, ShapeOf, Placed, TotalBytes;
    AppendIsShaped(a, b);
    if a == [] {
      NothingPlaced(start);
      assert a + b == b;
    } else {
      FirstPlaced(a, start);
      FirstPlaced(a + b, start);
      PlacedAppend(a[1..], b, start + BytesOf(a[0]));
      assert (a + b)[1..] == a[1..] + b;
    }
  }

  lemma AppendIsShaped(a: seq<Weight>, b: seq<Weight>)
    requires AllShaped(a) && AllShaped(b)
    ensures AllShaped(a + b)
  {
    hide Shaped;
  }

  lemma NothingPlaced(start: nat)
    ensures Placed([], start) == [] && TotalBytes([]) == 0
  {
  }

  lemma FirstPlaced(ws: seq<Weight>, start: nat)
    requires AllShaped(ws) && ws != []
    ensures TotalBytes(ws) == BytesOf(ws[0]) + TotalBytes(ws[1..])
    ensures Placed(ws, start) ==
      [Entry(ws[0].name.value, ShapeOf(ws[0]), start, BytesOf(ws[0]))] + Placed(ws[1..], start + BytesOf(ws[0]))
  {
  }

  lemma {:induction false} PathsTaken(h: Host, l: Limits, acc: Acc, ps: seq<Option<string>>)
    requires |acc.shards| <= l.maxShards
    ensures var r := TryFold(PathStep(h, l), acc, ps);
      && (r.Ok? <==> PathsOk(h, ps) && |acc.shards| + |ps| <= l.maxShards)
      && (r.Ok? ==> r.value == acc.(shards := acc.shards + Values(ps)))
    decreases |ps|
  {
    if ps == [] {
      assert acc.shards + [] == acc.shards;
    } else {
      var first := TakePath(h, l, acc, ps[0]);
      PathsOkSplit(h, ps[..1], ps[1..]);
      assert ps == ps[..1] + ps[1..];
      if first.Ok? {
        PathsTaken(h, l, first.value, ps[1..]);
        if PathsOk(h, ps) {
          assert Values(ps) == [ps[0].value] + Values(ps[1..]);
          assert acc.shards + Values(ps) == acc.shards + [ps[0].value] + Values(ps[1..]);
        }
      }
    }
  }

  lemma PathsOkSplit(h: Host, a: seq<Option<string>>, b: seq<Option<string>>)
    ensures AllPresent(a + b) <==> AllPresent(a) && AllPresent(b)
    ensures PathsOk(h, a + b) <==> PathsOk(h, a) && PathsOk(h, b)
    ensures PathsOk(h, a + b) ==> Values(a + b) == Values(a) + Values(b)
  {
    assert forall i :: 0 <= i < |b| ==> (a + b)[|a| + i] == b[i];
    assert forall i :: 0 <= i < |a| ==> (a + b)[i] == a[i];
  }

  predicate GroupsOk(h: Host, l: Limits, acc: Acc, gs: seq<Group>) {
    && Complete(gs)
    && PathsOk(h, AllPaths(gs)) && |acc.shards| + |AllPaths(gs)| <= l.maxShards
    && WeightsOk(h, l, AllWeights(gs)) && acc.offset + TotalBytes(AllWeights(gs)) <= h.usizeMax
  }

  function AfterGroups(acc: Acc, gs: seq<Group>): Acc
    requires Complete(gs) && AllPresent(AllPaths(gs)) && AllShaped(AllWeights(gs))
  {
    Acc(acc.entries + Placed(AllWeights(gs), acc.offset), acc.shards + Values(AllPaths(gs)),
        acc.offset + TotalBytes(AllWeights(gs)))
  }

  lemma GroupTaken(h: Host, l: Limits, acc: Acc, g: Group)
    requires HostOk(h) && |acc.shards| <= l.maxShards && acc.offset <= h.usizeMax
    ensures var r := TakeGroup(h, l, acc, g);
      && (r.Ok? <==> GroupsOk(h, l, acc, [g]))
      && (r.Ok? ==> r.value == AfterGroups(acc, [g]))
  {
    hide TryFold, Placed, TotalBytes, Values;
    if g.paths.Some? {
      OneGroup(g);
      PathsTaken(h, l, acc, g.paths.value);
      if g.weights.Some? {
        WeightsTaken(h, l, acc.(shards := acc.shards + (if PathsOk(h, g.paths.value) then Values(g.paths.value) else [])),
                     g.weights.value);
      }
    }
    assert [g][0] == g;
  }

  lemma OneGroup(g: Group)
    ensures Complete([g]) <==> g.paths.Some? && g.weights.Some?
    ensures Complete([g]) ==> AllPaths([g]) == g.paths.value && AllWeights([g]) == g.weights.value
  {
    assert [g][0] == g;
  }

  lemma {:induction false} GroupsTaken(h: Host, l: Limits, acc: Acc, gs: seq<Group>)
    requires HostOk(h) && |acc.shards| <= l.maxShards && acc.offset <= h.usizeMax
    ensures var r := TryFold(GroupStep(h, l), acc, gs);
      && (r.Ok? <==> GroupsOk(h, l, acc, gs))
      && (r.Ok? ==> r.value == AfterGroups(acc, gs))
    decreases |gs|
  {
    hide TakeGroup, Placed, TotalBytes, Values, WeightsOk, PathsOk, GroupsOk, AfterGroups;
    if gs == [] {
      NoGroups(h, l, acc);
    } else {
      GroupTaken(h, l, acc, gs[0]);
      var first := TakeGroup(h, l, acc, gs[0]);
      GroupsSplit(h, l, acc, gs);
      if first.Ok? {
        GroupFits(h, l, acc, gs[0]);
        GroupsTaken(h, l, first.value, gs[1..]);
      }
    }
  }

  lemma NoGroups(h: Host, l: Limits, acc: Acc)
    requires |acc.shards| <= l.maxShards && acc.offset <= h.usizeMax
    ensures GroupsOk(h, l, acc, []) && AfterGroups(acc, []) == acc
  {
    assert acc.entries + [] == acc.entries && acc.shards + [] == acc.shards;
  }

  lemma GroupFits(h: Host, l: Limits, acc: Acc, g: Group)
    requires GroupsOk(h, l, acc, [g])
    ensures |AfterGroups(acc, [g]).shards| <= l.maxShards && AfterGroups(acc, [g]).offset <= h.usizeMax
  {
  }

  /** Taking the first group and then the rest is taking them all. */
  lemma GroupsSplit(h: Host, l: Limits, acc: Acc, gs: seq<Group>)
    requires gs != []
    ensures GroupsOk(h, l, acc, gs) ==> GroupsOk(h, l, acc, gs[..1])
    ensures [gs[0]] == gs[..1]
    ensures GroupsOk(h, l, acc, gs[..1]) ==>
      var mid := AfterGroups(acc, gs[..1]);
      && (GroupsOk(h, l, acc, gs) <==> GroupsOk(h, l, mid, gs[1..]))
      && (GroupsOk(h, l, acc, gs) ==> AfterGroups(acc, gs) == AfterGroups(mid, gs[1..]))
  {
    hide TotalBytes, Placed, WeightsOk, PathsOk, Values;
    assert gs[..1] == [gs[0]];
    assert Complete(gs) <==> Complete(gs[..1]) && Complete(gs[1..]) by {
      assert forall i :: 1 <= i < |gs| ==> gs[i] == gs[1..][i - 1];
    }
    OneGroup(gs[0]);
    if Complete(gs) {
      var p, q, v, w := AllPaths(gs[..1]), AllPaths(gs[1..]), AllWeights(gs[..1]), AllWeights(gs[1..]);
      assert AllPaths(gs) == p + q;
      assert AllWeights(gs) == v + w;
      PathsOkSplit(h, p, q);
      WeightsOkSplit(h, l, v, w);
      if WeightsOk(h, l, v + w) {
        WeightsAreShaped(h, l, v);
        WeightsAreShaped(h, l, w);
        PlacedAppend(v, w, acc.offset);
      }
    }
  }

  lemma WeightsAreShaped(h: Host, l: Limits, ws: seq<Weight>)
    requires WeightsOk(h, l, ws)
    ensures AllShaped(ws)
  {
  }

  /** The manifest an acceptable document describes. */
  function Described(doc: Document): Manifest
    requires doc.Document? && doc.groups.Some? && Complete(doc.groups.value)
    requires AllPresent(AllPaths(doc.groups.value)) && AllShaped(AllWeights(doc.groups.value))
  {
    Manifest(Placed(AllWeights(doc.groups.value), 0), Values(AllPaths(doc.groups.value)))
  }

  /** The parser accepts exactly the acceptable documents, and returns what they describe. */
  lemma AcceptedExactly(h: Host, l: Limits, size: nat, doc: Document)
    requires HostOk(h)
    ensures ParseManifest(h, l, size, doc).Ok? <==> Acceptable(h, l, size, doc)
    ensures Acceptable(h, l, size, doc) ==> ParseManifest(h, l, size, doc) == Ok(Described(doc))
  {
    hide TryFold, Placed, TotalBytes, Values, AllPaths, AllWeights;
    if size <= l.maxManifestBytes && doc.Document? && doc.groups.Some? {
      var gs := doc.groups.value;
      GroupsTaken(h, l, NOTHING, gs);
      if gs == [] {
        NoGroupsNoPaths();
      } else if GroupsOk(h, l, NOTHING, gs) {
        assert [] + Placed(AllWeights(gs), 0) == Placed(AllWeights(gs), 0);
        assert [] + Values(AllPaths(gs)) == Values(AllPaths(gs));
      }
    }
  }

  lemma NoGroupsNoPaths()
    ensures AllPaths([]) == []
  {
  }

  // ---- The layout of an accepted manifest ----

  function End(e: Entry): nat { e.offset + e.len }

  /** The declared payload: where the last entry ends. */
  function Declared(m: Manifest): nat {
    if m.entries == [] then 0 else End(m.entries[|m.entries| - 1])
  }

  /** Each entry starts where the one before it ends; the first starts at `start`. */
  predicate Tiles(es: seq<Entry>, start: nat) {
    forall i :: 0 <= i < |es| ==> Follows(es, start, i)
  }

  predicate Follows(es: seq<Entry>, start: nat, i: nat)
    requires i < |es|
  {
    es[i].offset == if i == 0 then start else End(es[i - 1])
  }

  predicate EntryOk(e: Entry) {
    0 !in e.shape && e.len == Product(e.shape) * F32_BYTES
  }

  predicate Laid(m: Manifest) {
    && m.entries != [] && m.shards != []
    && Tiles(m.entries, 0)
    && forall i :: 0 <= i < |m.entries| ==> EntryOk(m.entries[i])
  }

  lemma {:induction false} PlacedTiles(h: Host, l: Limits, ws: seq<Weight>, start: nat)
    requires WeightsOk(h, l, ws)
    ensures Tiles(Placed(ws, start), start)
    ensures forall i :: 0 <= i < |ws| ==> EntryOk(Placed(ws, start)[i])
    ensures ws != [] ==> End(Placed(ws, start)[|ws| - 1]) == start + TotalBytes(ws)
    decreases |ws|
  {
    hide Product;
    if ws != [] {
      assert WeightsOk(h, l, ws[1..]);
      PlacedTiles(h, l, ws[1..], start + BytesOf(ws[0]));
      assert WeightOk(h, l, ws[0]);
      var es, rest := Placed(ws, start), Placed(ws[1..], start + BytesOf(ws[0]));
      forall i | 0 <= i < |es| ensures Follows(es, start, i) {
        assert i > 0 ==> Follows(rest, start + BytesOf(ws[0]), i - 1);
      }
    }
  }

  /** An accepted manifest tiles its declared payload, which fits the address range. */
  lemma AcceptedIsLaid(h: Host, l: Limits, size: nat, doc: Document)
    requires HostOk(h) && ParseManifest(h, l, size, doc).Ok?
    ensures var m := ParseManifest(h, l, size, doc).value;
      && Laid(m) && Declared(m) <= h.usizeMax
      && |m.shards| <= l.maxShards && (forall i :: 0 <= i < |m.shards| ==> h.safePath(m.shards[i]))
  {
    hide ParseManifest, Placed, TotalBytes, AllPaths, AllWeights, WeightsOk, EntryOk;
    AcceptedExactly(h, l, size, doc);
    PlacedTiles(h, l, AllWeights(doc.groups.value), 0);
  }

  lemma {:induction false} EntriesInOrder(es: seq<Entry>, start: nat, i: nat, j: nat)
    requires Tiles(es, start) && i < j < |es|
    ensures End(es[i]) <= es[j].offset
    decreases j
  {
    assert Follows(es, start, j);
    if i < j - 1 {
      EntriesInOrder(es, start, i, j - 1);
    }
  }

  /** Any entry's bytes lie inside the declared payload. */
  lemma EntryInBounds(m: Manifest, i: nat)
    requires Laid(m) && i < |m.entries|
    ensures End(m.entries[i]) <= Declared(m)
  {
    if i < |m.entries| - 1 {
      EntriesInOrder(m.entries, 0, i, |m.entries| - 1);
    }
  }

  predicate Inside(e: Entry, p: nat) { e.offset <= p < End(e) }

  /** Every byte of the declared payload belongs to exactly one entry: no gap, no overlap. */
  lemma EveryByteHasOneEntry(m: Manifest, p: nat)
    requires Laid(m) && p < Declared(m)
    ensures exists i :: 0 <= i < |m.entries| && Inside(m.entries[i], p)
    ensures forall i, j :: 0 <= i < j < |m.entries| ==> !Inside(m.entries[i], p) || !Inside(m.entries[j], p)
  {
    var i := Covering(m.entries, p);
    assert Inside(m.entries[i], p);
    forall i, j | 0 <= i < j < |m.entries|
      ensures !Inside(m.entries[i], p) || !Inside(m.entries[j], p)
    {
      EntriesInOrder(m.entries, 0, i, j);
    }
  }

  lemma {:induction false} Covering(es: seq<Entry>, p: nat) returns (i: nat)
    requires es != [] && Tiles(es, 0) && p < End(es[|es| - 1])
    ensures i < |es| && Inside(es[i], p)
    decreases |es|
  {
    if es[|es| - 1].offset <= p {
      i := |es| - 1;
    } else {
      assert Follows(es, 0, |es| - 1);
      var front := es[..|es| - 1];
      forall k | 0 <= k < |front| ensures Follows(front, 0, k) {
        assert Follows(es, 0, k);
      }
      i := Covering(front, p);
    }
  }
}
