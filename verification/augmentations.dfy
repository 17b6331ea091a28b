/**
 * The multi-crop augmentation of dino/data/augmentations.py: the probability
 * gates of Gaussian blur and solarization, the three crop pipelines of the
 * patch variant, the patch-grid crops of the region variant, and the
 * assembly of the crop lists.
 *
 * The torchvision and PIL operations are foreign: an image is a symbolic
 * term recording which operations were applied to the input, with which
 * sizes, scales and parameters. Every random draw a crop consumes is an input
 * of that crop (`CropDraws`), and each call receives the draws of all its
 * crops as a function of the crop index.
 */
module Augmentations {
  import opened Wrappers

  /** A draw of `random.random()`, in [0, 1). */
  predicate IsDraw(u: real) {
    0.0 <= u < 1.0
  }

  /** An image as the operations applied to the input of `__call__`. */
  datatype Image =
    | Input(id: nat)
    | ResizedCrop(src: Image, size: nat, scale: (real, real), cropDraw: nat)  // RandomResizedCrop, bicubic
    | FlipJitter(src: Image, jitterDraw: nat)                                 // flip_and_color_jitter
    | Blurred(src: Image, radius: real)                                       // ImageFilter.GaussianBlur
    | Solarized(src: Image)                                                   // ImageOps.solarize
    | Normalized(src: Image)                                                  // ToTensor + Normalize

  /** The random draws one crop consumes. */
  datatype CropDraws = CropDraws(
    cropDraw: nat,      // the draws of RandomResizedCrop (opaque)
    jitterDraw: nat,    // the draws of the flip, colour jitter and grayscale (opaque)
    blurDraw: real,     // random.random() in GaussianBlur
    radiusDraw: real,   // random.random() behind random.uniform in GaussianBlur
    solarizeDraw: real) // random.random() in Solarization

  predicate ValidDraws(d: CropDraws) {
    IsDraw(d.blurDraw) && IsDraw(d.radiusDraw) && IsDraw(d.solarizeDraw)
  }

  /** The output side of the outermost resized crop of an image, if any. */
  function CropSize(img: Image): Option<nat> {
    match img
    case Input(_) => None
    case ResizedCrop(_, size, _, _) => Some(size)
    case FlipJitter(src, _) => CropSize(src)
    case Blurred(src, _) => CropSize(src)
    case Solarized(src) => CropSize(src)
    case Normalized(src) => CropSize(src)
  }

  /** Whether solarization was applied anywhere in an image's history. */
  predicate HasSolarization(img: Image) {
    match img
    case Input(_) => false
    case ResizedCrop(src, _, _, _) => HasSolarization(src)
    case FlipJitter(src, _) => HasSolarization(src)
    case Blurred(src, _) => HasSolarization(src)
    case Solarized(_) => true
    case Normalized(src) => HasSolarization(src)
  }

  /** Whether a Gaussian blur was applied anywhere in an image's history. */
  predicate HasBlur(img: Image) {
    match img
    case Input(_) => false
    case ResizedCrop(src, _, _, _) => HasBlur(src)
    case FlipJitter(src, _) => HasBlur(src)
    case Blurred(_, _) => true
    case Solarized(src) => HasBlur(src)
    case Normalized(src) => HasBlur(src)
  }

  // ------------------------------------------------------------ the gates

  /** `random.uniform(a, b)`: `a + (b - a) * random.random()`. */
  function Uniform(a: real, b: real, u: real): real {
    a + (b - a) * u
  }

  /** A uniform draw lies between its bounds. */
  lemma UniformBounds(a: real, b: real, u: real)
    requires a <= b && IsDraw(u)
    ensures a <= Uniform(a, b, u) <= b
  {
    var width, rest := b - a, 1.0 - u;
    assert 0.0 <= width * u;
    assert 0.0 <= width * rest;
  }

  /** The parameters of `GaussianBlur`. */
  datatype GaussianBlur = GaussianBlur(prob: real, radiusMin: real, radiusMax: real)

  /** `GaussianBlur(p)` with its default radius range [0.1, 2.0]. */
  function DefaultBlur(p: real): GaussianBlur {
    GaussianBlur(p, 0.1, 2.0)
  }

  /** `GaussianBlur.__call__`: blur when the draw is at most `prob`, with a radius drawn uniformly. */
  function ApplyBlur(g: GaussianBlur, img: Image, blurDraw: real, radiusDraw: real): Image {
    if blurDraw <= g.prob then Blurred(img, Uniform(g.radiusMin, g.radiusMax, radiusDraw)) else img
  }

  /**
   * The blur leaves its input unchanged exactly when the draw exceeds
   * `prob`; otherwise it blurs the input once, with a radius in the range.
   */
  lemma BlurGate(g: GaussianBlur, img: Image, blurDraw: real, radiusDraw: real)
    requires g.radiusMin <= g.radiusMax && IsDraw(radiusDraw)
    ensures ApplyBlur(g, img, blurDraw, radiusDraw) == img <==> g.prob < blurDraw
    ensures blurDraw <= g.prob ==>
      && ApplyBlur(g, img, blurDraw, radiusDraw).Blurred?
      && ApplyBlur(g, img, blurDraw, radiusDraw).src == img
      && g.radiusMin <= ApplyBlur(g, img, blurDraw, radiusDraw).radius <= g.radiusMax
  {
    UniformBounds(g.radiusMin, g.radiusMax, radiusDraw);
    if blurDraw <= g.prob {
      assert img < ApplyBlur(g, img, blurDraw, radiusDraw);
    }
  }

  /** Blurring keeps the crop size and adds no solarization. */
  lemma BlurKeeps(g: GaussianBlur, img: Image, blurDraw: real, radiusDraw: real)
    ensures CropSize(ApplyBlur(g, img, blurDraw, radiusDraw)) == CropSize(img)
    ensures HasSolarization(ApplyBlur(g, img, blurDraw, radiusDraw)) == HasSolarization(img)
  {
  }

  /** The parameter of `Solarization`. */
  datatype Solarization = Solarization(p: real)

  /** `Solarization.__call__`: solarize when the draw is strictly below `p`. */
  function ApplySolarization(s: Solarization, img: Image, solarizeDraw: real): Image {
    if solarizeDraw < s.p then Solarized(img) else img
  }

  /** Solarization transforms its input exactly when the draw is strictly below `p`. */
  lemma SolarizationGate(s: Solarization, img: Image, solarizeDraw: real)
    ensures ApplySolarization(s, img, solarizeDraw) == Solarized(img) <==> solarizeDraw < s.p
    ensures ApplySolarization(s, img, solarizeDraw) == img <==> s.p <= solarizeDraw
  {
    assert img != Solarized(img) by {
      assert img < Solarized(img);
    }
  }

  /** Solarizing keeps the crop size and adds no blur. */
  lemma SolarizationKeeps(s: Solarization, img: Image, solarizeDraw: real)
    ensures CropSize(ApplySolarization(s, img, solarizeDraw)) == CropSize(img)
    ensures HasBlur(ApplySolarization(s, img, solarizeDraw)) == HasBlur(img)
  {
  }

  // ------------------------------------------------------- patch variant

  const GlobalCropSize: nat := 224
  const LocalCropSize: nat := 96

  /** The configuration of `PatchDataAugmentationDINO`. */
  datatype PatchAugmentation = PatchAugmentation(
    globalCropsScale: (real, real),
    localCropsScale: (real, real),
    localCropsNumber: int)

  /** `global_transfo1`: resized crop to 224, flip and jitter, blur with probability 1, normalize. */
  function GlobalTransfo1(a: PatchAugmentation, x: Image, d: CropDraws): Image {
    var cropped := FlipJitter(ResizedCrop(x, GlobalCropSize, a.globalCropsScale, d.cropDraw), d.jitterDraw);
    Normalized(ApplyBlur(DefaultBlur(1.0), cropped, d.blurDraw, d.radiusDraw))
  }

  /** `global_transfo2`: as the first, but blur with probability 0.1, then solarize with probability 0.2. */
  function GlobalTransfo2(a: PatchAugmentation, x: Image, d: CropDraws): Image {
    var cropped := FlipJitter(ResizedCrop(x, GlobalCropSize, a.globalCropsScale, d.cropDraw), d.jitterDraw);
    var blurred := ApplyBlur(DefaultBlur(0.1), cropped, d.blurDraw, d.radiusDraw);
    Normalized(ApplySolarization(Solarization(0.2), blurred, d.solarizeDraw))
  }

  /** `local_transfo`: resized crop to 96 at the local scale, flip and jitter, blur with probability 0.5, normalize. */
  function LocalTransfo(a: PatchAugmentation, x: Image, d: CropDraws): Image {
    var cropped := FlipJitter(ResizedCrop(x, LocalCropSize, a.localCropsScale, d.cropDraw), d.jitterDraw);
    Normalized(ApplyBlur(DefaultBlur(0.5), cropped, d.blurDraw, d.radiusDraw))
  }

  /** The number of iterations of `range(n)`: none when `n` is not positive. */
  function RangeLength(n: int): nat {
    if n < 0 then 0 else n
  }

  /** The crop list: the two global crops, then one local crop per iteration of `range(local_crops_number)`. */
  function PatchCrops(a: PatchAugmentation, x: Image, draws: nat -> CropDraws): seq<Image> {
    [GlobalTransfo1(a, x, draws(0)), GlobalTransfo2(a, x, draws(1))]
    + seq(RangeLength(a.localCropsNumber), i requires 0 <= i => LocalTransfo(a, x, draws(2 + i)))
  }

  /** `PatchDataAugmentationDINO.__call__`: appends the crops one after the other. */
  method PatchCall(a: PatchAugmentation, x: Image, draws: nat -> CropDraws) returns (crops: seq<Image>)
    ensures crops == PatchCrops(a, x, draws)
  {
    crops := [];
    crops := crops + [GlobalTransfo1(a, x, draws(0))];
    crops := crops + [GlobalTransfo2(a, x, draws(1))];
    var i := 0;
    while i < a.localCropsNumber
      invariant 0 <= i <= RangeLength(a.localCropsNumber)
      invariant |crops| == 2 + i
      invariant crops[..2] == PatchCrops(a, x, draws)[..2]
      invariant forall k :: 2 <= k < |crops| ==> crops[k] == LocalTransfo(a, x, draws(k))
    {
      crops := crops + [LocalTransfo(a, x, draws(2 + i))];
      i := i + 1;
    }
  }

  /**
   * The crop list holds `2 + local_crops_number` crops (two when the number
   * is not positive): the first from `global_transfo1`, the second from
   * `global_transfo2`, the others from `local_transfo`, each with the draws
   * of its own position; the global crops are 224 pixels wide and the local
   * ones 96.
   */
  lemma PatchCropsShape(a: PatchAugmentation, x: Image, draws: nat -> CropDraws)
    ensures var crops := PatchCrops(a, x, draws);
      && |crops| == 2 + RangeLength(a.localCropsNumber)
      && (a.localCropsNumber >= 0 ==> |crops| == 2 + a.localCropsNumber)
      && crops[0] == GlobalTransfo1(a, x, draws(0))
      && crops[1] == GlobalTransfo2(a, x, draws(1))
      && (forall i :: 2 <= i < |crops| ==> crops[i] == LocalTransfo(a, x, draws(i)))
      && (forall i :: 0 <= i < |crops| ==>
            CropSize(crops[i]) == Some(if i < 2 then GlobalCropSize else LocalCropSize))
  {
    var crops := PatchCrops(a, x, draws);
    var locals := seq(RangeLength(a.localCropsNumber), i requires 0 <= i => LocalTransfo(a, x, draws(2 + i)));
    assert crops == [GlobalTransfo1(a, x, draws(0)), GlobalTransfo2(a, x, draws(1))] + locals;
    forall i | 2 <= i < |crops|
      ensures crops[i] == LocalTransfo(a, x, draws(i))
    {
      assert crops[i] == locals[i - 2];
    }
    forall i | 0 <= i < |crops|
      ensures CropSize(crops[i]) == Some(if i < 2 then GlobalCropSize else LocalCropSize)
    {
      TransfoSizes(a, x, draws(i));
    }
  }

  /** The global pipelines produce 224-pixel crops, the local one 96-pixel crops. */
  lemma TransfoSizes(a: PatchAugmentation, x: Image, d: CropDraws)
    ensures CropSize(GlobalTransfo1(a, x, d)) == Some(GlobalCropSize)
    ensures CropSize(GlobalTransfo2(a, x, d)) == Some(GlobalCropSize)
    ensures CropSize(LocalTransfo(a, x, d)) == Some(LocalCropSize)
  {
    var global := FlipJitter(ResizedCrop(x, GlobalCropSize, a.globalCropsScale, d.cropDraw), d.jitterDraw);
    var local := FlipJitter(ResizedCrop(x, LocalCropSize, a.localCropsScale, d.cropDraw), d.jitterDraw);
    assert CropSize(global) == Some(GlobalCropSize);
    assert CropSize(local) == Some(LocalCropSize);
    BlurKeeps(DefaultBlur(1.0), global, d.blurDraw, d.radiusDraw);
    BlurKeeps(DefaultBlur(0.1), global, d.blurDraw, d.radiusDraw);
    SolarizationKeeps(Solarization(0.2), ApplyBlur(DefaultBlur(0.1), global, d.blurDraw, d.radiusDraw), d.solarizeDraw);
    BlurKeeps(DefaultBlur(0.5), local, d.blurDraw, d.radiusDraw);
  }

  /**
   * The first global crop is always blurred, once, with a radius in
   * [0.1, 2.0]; the second is blurred exactly when its draw is at most 0.1,
   * and each local crop exactly when its draw is at most 0.5.
   */
  lemma PatchCropsBlur(a: PatchAugmentation, x: Image, draws: nat -> CropDraws, i: nat)
    requires !HasBlur(x)
    requires i < |PatchCrops(a, x, draws)| && ValidDraws(draws(i))
    ensures var c := PatchCrops(a, x, draws)[i];
      HasBlur(c) <==> draws(i).blurDraw <= (if i == 0 then 1.0 else if i == 1 then 0.1 else 0.5)
    ensures i == 0 ==>
      var c := PatchCrops(a, x, draws)[0];
      && c.src.Blurred?
      && c.src.src == FlipJitter(ResizedCrop(x, GlobalCropSize, a.globalCropsScale, draws(0).cropDraw), draws(0).jitterDraw)
      && 0.1 <= c.src.radius <= 2.0
  {
    var d := draws(i);
    var p := if i == 0 then 1.0 else if i == 1 then 0.1 else 0.5;
    var size := if i < 2 then GlobalCropSize else LocalCropSize;
    var scale := if i < 2 then a.globalCropsScale else a.localCropsScale;
    var cropped := FlipJitter(ResizedCrop(x, size, scale, d.cropDraw), d.jitterDraw);
    var blurred := ApplyBlur(DefaultBlur(p), cropped, d.blurDraw, d.radiusDraw);
    BlurGate(DefaultBlur(p), cropped, d.blurDraw, d.radiusDraw);
    assert HasBlur(blurred) <==> d.blurDraw <= p;
    PatchCropsShape(a, x, draws);
    if i == 1 {
      SolarizationKeeps(Solarization(0.2), blurred, d.solarizeDraw);
    }
  }

  /**
   * Solarization appears only in the second global crop, exactly when its
   * draw is strictly below 0.2.
   */
  lemma PatchCropsSolarization(a: PatchAugmentation, x: Image, draws: nat -> CropDraws, i: nat)
    requires !HasSolarization(x)
    requires i < |PatchCrops(a, x, draws)|
    ensures HasSolarization(PatchCrops(a, x, draws)[i]) <==> i == 1 && draws(1).solarizeDraw < 0.2
  {
    var d := draws(i);
    var p := if i == 0 then 1.0 else if i == 1 then 0.1 else 0.5;
    var size := if i < 2 then GlobalCropSize else LocalCropSize;
    var scale := if i < 2 then a.globalCropsScale else a.localCropsScale;
    var cropped := FlipJitter(ResizedCrop(x, size, scale, d.cropDraw), d.jitterDraw);
    var blurred := ApplyBlur(DefaultBlur(p), cropped, d.blurDraw, d.radiusDraw);
    assert !HasSolarization(cropped);
    BlurKeeps(DefaultBlur(p), cropped, d.blurDraw, d.radiusDraw);
    PatchCropsShape(a, x, draws);
  }

  // ------------------------------------------------------ region variant

  /** `q` is Python's `n // d`: the floor of the exact quotient, for either sign of `d`. */
  ghost predicate IsFloorQuotient(q: int, n: int, d: int) {
    && (0 < d ==> d * q <= n < d * q + d)
    && (d < 0 ==> d * q + d < n <= d * q)
  }

  /** `r` is Python's `int(x)`: `x` truncated toward zero. */
  ghost predicate IsTruncation(r: int, x: real) {
    && (0.0 <= x ==> 0 <= r && r as real <= x < r as real + 1.0)
    && (x < 0.0 ==> r <= 0 && r as real - 1.0 < x <= r as real)
  }

  /** Python's `//` on integers: the floor of the quotient (Dafny's `/` is Euclidean). */
  function FloorDiv(n: int, d: int): (q: int)
    requires d != 0
    ensures IsFloorQuotient(q, n, d)
  {
    if 0 < d then n / d else (-n) / (-d)
  }

  /** Python's `int()` of a float: truncation toward zero. */
  function Trunc(x: real): (r: int)
    ensures IsTruncation(r, x)
  {
    if 0.0 <= x then x.Floor else -((-x).Floor)
  }

  /** The patch features of one region and the operations applied to them. */
  datatype Features =
    | Tokens(id: nat)                                        // the [m, 384] features of the region's patches
    | Grid(src: Features, npatch: int)                       // unfold(0, npatch, npatch).transpose(0, 1)
    | RandomCrop(src: Features, size: int, cropDraw: nat)    // transforms.RandomCrop
    | RandomFlip(src: Features, flipDraw: nat)               // transforms.RandomHorizontalFlip(p=0.5)

  /** The random draws of one region crop. */
  datatype RegionDraws = RegionDraws(cropDraw: nat, flipDraw: nat)

  /** The configuration `RegionDataAugmentationDINO.__init__` computes. */
  datatype RegionAugmentation = RegionAugmentation(
    npatch: int,
    globalCropSize: int,
    localCropSize: int,
    localCropsNumber: int)

  /**
   * `RegionDataAugmentationDINO.__init__`: the side of the patch grid and
   * the crop sides in patches; a zero patch size raises ZeroDivisionError.
   */
  function NewRegionAugmentation(globalCropsScale: real, localCropsNumber: int, localCropsScale: real,
                                 regionSize: int, patchSize: int): Result<RegionAugmentation>
  {
    if patchSize == 0 then Failure("ZeroDivisionError")
    else
      var npatch := FloorDiv(regionSize, patchSize);
      Success(RegionAugmentation(npatch, Trunc(globalCropsScale * npatch as real),
                                 Trunc(localCropsScale * npatch as real), localCropsNumber))
  }

  /**
   * The construction fails exactly on a zero patch size; otherwise, for
   * either sign of the patch size, the grid side is the floor of region size
   * over patch size, each crop side is its scale times that side truncated
   * toward zero, and the crop count is kept.
   */
  lemma NewRegionAugmentationSpec(globalCropsScale: real, localCropsNumber: int, localCropsScale: real,
                                  regionSize: int, patchSize: int)
    ensures NewRegionAugmentation(globalCropsScale, localCropsNumber, localCropsScale, regionSize, patchSize).Failure?
            <==> patchSize == 0
    ensures patchSize != 0 ==>
      var a := NewRegionAugmentation(globalCropsScale, localCropsNumber, localCropsScale, regionSize, patchSize).value;
      && IsFloorQuotient(a.npatch, regionSize, patchSize)
      && IsTruncation(a.globalCropSize, globalCropsScale * a.npatch as real)
      && IsTruncation(a.localCropSize, localCropsScale * a.npatch as real)
      && a.localCropsNumber == localCropsNumber
  {
  }

  /** With the default region size 4096 and patch size 256 the grid is 16 patches wide. */
  lemma DefaultRegionGrid(globalCropsScale: real, localCropsNumber: int, localCropsScale: real)
    ensures NewRegionAugmentation(globalCropsScale, localCropsNumber, localCropsScale, 4096, 256).Success?
    ensures NewRegionAugmentation(globalCropsScale, localCropsNumber, localCropsScale, 4096, 256).value.npatch == 16
  {
  }

  /** A negative patch size is accepted: the grid side is then negative too, 4096 // -256 == -16. */
  lemma NegativePatchSizeGrid(globalCropsScale: real, localCropsNumber: int, localCropsScale: real)
    ensures NewRegionAugmentation(globalCropsScale, localCropsNumber, localCropsScale, 4096, -256).Success?
    ensures NewRegionAugmentation(globalCropsScale, localCropsNumber, localCropsScale, 4096, -256).value.npatch == -16
  {
  }

  /** `global_transfo1` and `global_transfo2`: random crop of the global side, random flip. */
  function RegionGlobalTransfo(a: RegionAugmentation, grid: Features, d: RegionDraws): Features {
    RandomFlip(RandomCrop(grid, a.globalCropSize, d.cropDraw), d.flipDraw)
  }

  /** `local_transfo`: random crop of the local side, random flip. */
  function RegionLocalTransfo(a: RegionAugmentation, grid: Features, d: RegionDraws): Features {
    RandomFlip(RandomCrop(grid, a.localCropSize, d.cropDraw), d.flipDraw)
  }

  /** The crop list of the region variant, all cut from the same patch grid. */
  function RegionCrops(a: RegionAugmentation, x: Features, draws: nat -> RegionDraws): seq<Features> {
    var grid := Grid(x, a.npatch);
    [RegionGlobalTransfo(a, grid, draws(0)), RegionGlobalTransfo(a, grid, draws(1))]
    + seq(RangeLength(a.localCropsNumber), i requires 0 <= i => RegionLocalTransfo(a, grid, draws(2 + i)))
  }

  /** `RegionDataAugmentationDINO.__call__`: reshapes the features into the grid, then appends the crops. */
  method RegionCall(a: RegionAugmentation, x: Features, draws: nat -> RegionDraws) returns (crops: seq<Features>)
    ensures crops == RegionCrops(a, x, draws)
  {
    crops := [];
    var grid := Grid(x, a.npatch);
    crops := crops + [RegionGlobalTransfo(a, grid, draws(0))];
    crops := crops + [RegionGlobalTransfo(a, grid, draws(1))];
    var i := 0;
    while i < a.localCropsNumber
      invariant 0 <= i <= RangeLength(a.localCropsNumber)
      invariant |crops| == 2 + i
      invariant crops[..2] == RegionCrops(a, x, draws)[..2]
      invariant forall k :: 2 <= k < |crops| ==> crops[k] == RegionLocalTransfo(a, grid, draws(k))
    {
      crops := crops + [RegionLocalTransfo(a, grid, draws(2 + i))];
      i := i + 1;
    }
  }

  /**
   * The region variant also returns `2 + local_crops_number` crops (two when
   * the number is not positive), in the order global, global, locals, each a
   * flipped random crop of the one patch grid of side `npatch`, of the global
   * side for the first two and of the local side for the others.
   */
  lemma RegionCropsShape(a: RegionAugmentation, x: Features, draws: nat -> RegionDraws)
    ensures var crops := RegionCrops(a, x, draws);
      && |crops| == 2 + RangeLength(a.localCropsNumber)
      && (forall i :: 0 <= i < |crops| ==>
            crops[i] == RandomFlip(RandomCrop(Grid(x, a.npatch),
                                              if i < 2 then a.globalCropSize else a.localCropSize,
                                              draws(i).cropDraw),
                                   draws(i).flipDraw))
  {
  }
}
