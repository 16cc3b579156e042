/**
 Turning a stored photograph upright (internal/fileview/orientation.go), by
 the Orientation field of section 8 of TIFF 6.0.
 */
module Orientation {
  import opened Options

  // ----- Where the upright picture's pixels are stored

  type Turning = o: int | 2 <= o <= 8 witness 2

  predicate Swaps(o: Turning) { o >= 5 }

  /** Where the upright picture's pixel at x, y is stored in a picture of this size. */
  function Stored(o: Turning, width: int, height: int, x: int, y: int): (int, int) {
    match o
    case 2 => (width - 1 - x, y)
    case 3 => (width - 1 - x, height - 1 - y)
    case 4 => (x, height - 1 - y)
    case 5 => (y, x)
    case 6 => (y, height - 1 - x)
    case 7 => (width - 1 - y, height - 1 - x)
    case _ => (width - 1 - y, x)
  }

  /** The upright picture's size. */
  function Upright(o: Turning, width: nat, height: nat): (size: (nat, nat)) {
    if Swaps(o) then (height, width) else (width, height)
  }

  function Inverse(o: Turning): Turning {
    if o == 6 then 8 else if o == 8 then 6 else o
  }

  predicate Inside(at: (int, int), size: (nat, nat)) {
    0 <= at.0 < size.0 && 0 <= at.1 < size.1
  }

  /** Turning by an orientation and then by its inverse leads every place back to itself. */
  lemma StoredBack(o: Turning, width: nat, height: nat, x: int, y: int)
    requires Inside((x, y), (width, height))
    ensures var (w, h) := Upright(o, width, height);
      var there := Stored(Inverse(o), w, h, x, y);
      Inside(there, (w, h)) && Stored(o, width, height, there.0, there.1) == (x, y)
  {
  }

  lemma StoredInside(o: Turning, width: nat, height: nat, x: int, y: int)
    ensures Inside((x, y), Upright(o, width, height)) <==> Inside(Stored(o, width, height, x, y), (width, height))
  {
  }

  lemma StoredOnce(o: Turning, width: nat, height: nat, x: int, y: int, u: int, v: int)
    requires Stored(o, width, height, x, y) == Stored(o, width, height, u, v)
    ensures x == u && y == v
  {
  }

  /** The places stored for the upright ones. */
  function Places(o: Turning, width: nat, height: nat): set<(int, int)> {
    var (w, h) := Upright(o, width, height);
    set x, y | 0 <= x < w && 0 <= y < h :: Stored(o, width, height, x, y)
  }

  function All(width: nat, height: nat): set<(int, int)> {
    set x, y | 0 <= x < width && 0 <= y < height :: (x, y)
  }

  /**
   The mapping takes the upright rectangle onto the stored one, and different
   places to different ones, so turning neither loses nor repeats a pixel.
   */
  lemma StoredIsBijection(o: Turning, width: nat, height: nat)
    ensures Places(o, width, height) == All(width, height)
    ensures forall x, y, u, v :: Stored(o, width, height, x, y) == Stored(o, width, height, u, v) ==> x == u && y == v
  {
    forall at ensures at in Places(o, width, height) <==> at in All(width, height) {
      if at in All(width, height) {
        IsAPlace(o, width, height, at.0, at.1);
      } else if at in Places(o, width, height) {
        var (w, h) := Upright(o, width, height);
        var x, y :| 0 <= x < w && 0 <= y < h && at == Stored(o, width, height, x, y);
        StoredInside(o, width, height, x, y);
        assert false;
      }
    }
    forall x, y, u, v | Stored(o, width, height, x, y) == Stored(o, width, height, u, v) ensures x == u && y == v {
      StoredOnce(o, width, height, x, y, u, v);
    }
  }

  lemma IsAPlace(o: Turning, width: nat, height: nat, x: int, y: int)
    requires Inside((x, y), (width, height))
    ensures (x, y) in Places(o, width, height)
  {
    StoredBack(o, width, height, x, y);
    var (w, h) := Upright(o, width, height);
    var (u, v) := Stored(Inverse(o), w, h, x, y);
    assert 0 <= u < w && 0 <= v < h && Stored(o, width, height, u, v) == (x, y);
  }

  // ----- Turning pixels

  /** The upright picture's pixel, read from where it is stored. */
  ghost function PixelAt<T>(stored: array2<T>, o: Turning, x: int, y: int): T
    requires Inside((x, y), Upright(o, stored.Length0, stored.Length1))
    reads stored
  {
    StoredInside(o, stored.Length0, stored.Length1, x, y);
    var (u, v) := Stored(o, stored.Length0, stored.Length1, x, y);
    stored[u, v]
  }

  ghost predicate IsTurned<T>(stored: array2<T>, o: Turning, upright: array2<T>)
    reads stored, upright
  {
    && (upright.Length0, upright.Length1) == Upright(o, stored.Length0, stored.Length1)
    && IsTurnedSoFar(stored, o, upright)
  }

  /** Every pixel there is of the upright picture is the one stored for it, though some may be missing at its ends. */
  ghost predicate IsTurnedSoFar<T>(stored: array2<T>, o: Turning, upright: array2<T>)
    reads stored, upright
  {
    && Within(upright, Upright(o, stored.Length0, stored.Length1))
    && forall x, y :: 0 <= x < upright.Length0 && 0 <= y < upright.Length1 ==> upright[x, y] == PixelAt(stored, o, x, y)
  }

  predicate Within<T>(picture: array2<T>, size: (nat, nat)) {
    picture.Length0 <= size.0 && picture.Length1 <= size.1
  }

  method TurnPixels<T(0)>(stored: array2<T>, o: Turning) returns (upright: array2<T>)
    ensures fresh(upright) && IsTurned(stored, o, upright)
  {
    var (w, h) := Upright(o, stored.Length0, stored.Length1);
    upright := new T[w, h];
    Turn(stored, o, upright);
  }

  /** Puts every upright pixel in its place. */
  method Turn<T>(stored: array2<T>, o: Turning, upright: array2<T>)
    requires upright != stored
    requires (upright.Length0, upright.Length1) == Upright(o, stored.Length0, stored.Length1)
    modifies upright
    ensures IsTurned(stored, o, upright)
  {
    var y := 0;
    while y < upright.Length1
      invariant 0 <= y <= upright.Length1
      invariant forall u, v :: 0 <= u < upright.Length0 && 0 <= v < y ==> upright[u, v] == PixelAt(stored, o, u, v)
    {
      var x := 0;
      while x < upright.Length0
        invariant 0 <= x <= upright.Length0
        invariant forall u, v :: 0 <= u < upright.Length0 && 0 <= v < y ==> upright[u, v] == PixelAt(stored, o, u, v)
        invariant forall u :: 0 <= u < x ==> upright[u, y] == PixelAt(stored, o, u, y)
      {
        StoredInside(o, stored.Length0, stored.Length1, x, y);
        var at := Stored(o, stored.Length0, stored.Length1, x, y);
        upright[x, y] := stored[at.0, at.1];
        x := x + 1;
      }
      y := y + 1;
    }
  }

  ghost predicate Same<T>(a: array2<T>, b: array2<T>)
    reads a, b
  {
    && a.Length0 == b.Length0 && a.Length1 == b.Length1
    && forall x, y | Inside((x, y), (a.Length0, a.Length1)) :: a[x, y] == b[x, y]
  }

  /** Turning by an orientation and then by its inverse gives the picture back. */
  lemma TurnsBack<T>(stored: array2<T>, o: Turning, upright: array2<T>, again: array2<T>)
    requires IsTurned(stored, o, upright) && IsTurned(upright, Inverse(o), again)
    ensures Same(stored, again)
  {
    forall x, y | Inside((x, y), (stored.Length0, stored.Length1))
      ensures Inside((x, y), (again.Length0, again.Length1)) && stored[x, y] == again[x, y]
    {
      StoredBack(o, stored.Length0, stored.Length1, x, y);
      var (u, v) := Stored(Inverse(o), upright.Length0, upright.Length1, x, y);
      assert again[x, y] == PixelAt(upright, Inverse(o), x, y) == upright[u, v] == PixelAt(stored, o, u, v);
    }
  }

  // ----- Turning planes

  /** How many pixels share a chroma sample, one way. */
  datatype Share = One | Two | Four

  function Times(i: int, share: Share): int {
    match share case One => i case Two => 2 * i case Four => 4 * i
  }

  function Per(at: int, share: Share): int {
    match share case One => at case Two => at / 2 case Four => at / 4
  }

  /** The samples a number of pixels takes, the last one not always whole. */
  function Samples(pixels: nat, share: Share): nat {
    match share case One => pixels case Two => (pixels + 1) / 2 case Four => (pixels + 3) / 4
  }

  datatype Ratio = R444 | R422 | R420 | R440 | R411 | R410

  function Across(ratio: Ratio): Share {
    match ratio case R444 => One case R440 => One case R422 => Two case R420 => Two case R411 => Four case R410 => Four
  }

  function Down(ratio: Ratio): Share {
    match ratio case R444 => One case R422 => One case R411 => One case _ => Two
  }

  /**
   The ratio a turned picture keeps. The two 4:1 ratios have no swapped
   counterpart, and are not turned by planes at all.
   */
  function TurnedRatio(ratio: Ratio, o: Turning): (turned: Option<Ratio>)
    ensures turned.Some? <==> !ratio.R411? && !ratio.R410?
    ensures turned.Some? && Swaps(o) ==> (Across(turned.value), Down(turned.value)) == (Down(ratio), Across(ratio))
    ensures turned.Some? && !Swaps(o) ==> turned.value == ratio
  {
    match ratio
    case R411 => None
    case R410 => None
    case R422 => Some(if Swaps(o) then R440 else R422)
    case R440 => Some(if Swaps(o) then R422 else R440)
    case _ => Some(ratio)
  }

  /** The chroma column or row of a pixel at a coordinate, in a picture that starts at another. */
  function ChromaIndex(start: nat, at: nat, share: Share): int {
    Per(at, share) - Per(start, share)
  }

  /** The chroma columns or rows of a picture that starts at a coordinate. */
  function ChromaLength(start: nat, length: nat, share: Share): nat {
    Samples(start + length, share) - Per(start, share)
  }

  class YCbCr {
    const left: nat
    const top: nat
    const ratio: Ratio
    const luma: array2<int>
    const blue: array2<int>
    const red: array2<int>

    constructor (left: nat, top: nat, width: nat, height: nat, ratio: Ratio)
      ensures this.left == left && this.top == top && this.ratio == ratio
      ensures fresh(luma) && fresh(blue) && fresh(red) && blue != red && luma != blue && luma != red
      ensures luma.Length0 == width && luma.Length1 == height && Valid()
    {
      this.left, this.top, this.ratio := left, top, ratio;
      luma := new int[width, height];
      blue := new int[ChromaLength(left, width, Across(ratio)), ChromaLength(top, height, Down(ratio))];
      red := new int[ChromaLength(left, width, Across(ratio)), ChromaLength(top, height, Down(ratio))];
    }

    /** The planes have the sizes the picture's own gives them. */
    predicate Valid() {
      && (blue.Length0, blue.Length1) == (red.Length0, red.Length1)
      && (blue.Length0, blue.Length1)
         == (ChromaLength(left, luma.Length0, Across(ratio)), ChromaLength(top, luma.Length1, Down(ratio)))
    }
  }

  /** The picture starts where a chroma sample does, or has an odd number of pixels to spread over its samples. */
  predicate Fits(start: nat, length: nat, share: Share) {
    match share case One => true case Two => start % 2 == 0 || length % 2 == 1 case Four => start % 4 == 0
  }

  /** A plane is as long as one of a picture that starts at zero exactly when its picture fits. */
  lemma PlaneFits(start: nat, length: nat, share: Share)
    requires !share.Four?
    ensures ChromaLength(start, length, share) == Samples(length, share) <==> Fits(start, length, share)
  {
    if share.Two? {
      HalfLength(start, length);
    }
  }

  lemma HalfLength(start: nat, length: nat)
    ensures (start + length + 1) / 2 - start / 2 == if start % 2 == 0 then (length + 1) / 2 else length / 2 + 1
  {
  }

  /** A picture that starts elsewhere has no fewer samples. */
  lemma PlaneCovers(start: nat, length: nat, share: Share)
    requires !share.Four?
    ensures Samples(length, share) <= ChromaLength(start, length, share)
  {
    if share.Two? {
      HalfLength(start, length);
    }
  }

  /** A chroma sample has a first pixel in the picture when it is in the plane. */
  lemma FirstPixelInside(length: nat, i: nat, share: Share)
    ensures Times(i, share) < length <==> i < Samples(length, share)
    ensures Per(Times(i, share), share) == i
  {
  }

  /** One coordinate, counted from the far end or not. */
  function Mirror(mirrored: bool, length: int, k: int): int { if mirrored then length - 1 - k else k }

  predicate MirrorsAcross(o: Turning) { o == 2 || o == 3 || o >= 7 }

  predicate MirrorsDown(o: Turning) { o == 3 || o == 4 || o == 6 || o == 7 }

  /** Turning is mirroring each coordinate or not, after swapping them or not. */
  lemma StoredByAxes(o: Turning, width: int, height: int, x: int, y: int)
    ensures Stored(o, width, height, x, y)
      == (Mirror(MirrorsAcross(o), width, if Swaps(o) then y else x),
          Mirror(MirrorsDown(o), height, if Swaps(o) then x else y))
  {
  }

  /** One way, the sample read for an upright one is the one mirrored in the plane, if samples are at most two wide. */
  lemma ReadsMirrored(mirrored: bool, start: nat, length: nat, k: nat, share: Share)
    requires !share.Four? && Times(k, share) < length
    ensures Mirror(mirrored, length, Times(k, share)) >= 0
    ensures ChromaIndex(start, start + Mirror(mirrored, length, Times(k, share)), share)
      == Mirror(mirrored, ChromaLength(start, length, share), k)
  {
    if share.Two? {
      HalfIndex(start, Mirror(mirrored, length, 2 * k));
      HalfLength(start, length);
    }
  }

  lemma HalfIndex(start: nat, x: nat)
    ensures (start + x) / 2 - start / 2 == if start % 2 == 0 then x / 2 else (x + 1) / 2
  {
  }

  /** Where the turn reads the chroma of an upright pixel: the sample of the pixel stored for it. */
  function ReadFrom(left: nat, top: nat, o: Turning, ratio: Ratio, width: nat, height: nat, x: int, y: int): (int, int)
    requires Inside((x, y), Upright(o, width, height))
  {
    StoredInside(o, width, height, x, y);
    var at := Stored(o, width, height, x, y);
    (ChromaIndex(left, left + at.0, Across(ratio)), ChromaIndex(top, top + at.1, Down(ratio)))
  }

  /**
   The stored chroma sample an upright one is read from is the one the
   orientation says of the chroma plane itself, wherever the picture starts.
   */
  lemma ReadsAt(left: nat, top: nat, o: Turning, ratio: Ratio, width: nat, height: nat, i: nat, j: nat)
    requires TurnedRatio(ratio, o).Some?
    requires var turned := TurnedRatio(ratio, o).value;
      Inside((Times(i, Across(turned)), Times(j, Down(turned))), Upright(o, width, height))
    ensures var turned := TurnedRatio(ratio, o).value;
      ReadFrom(left, top, o, ratio, width, height, Times(i, Across(turned)), Times(j, Down(turned)))
      == Stored(o, ChromaLength(left, width, Across(ratio)), ChromaLength(top, height, Down(ratio)), i, j)
  {
    var turned := TurnedRatio(ratio, o).value;
    StoredByAxes(o, width, height, Times(i, Across(turned)), Times(j, Down(turned)));
    StoredByAxes(o, ChromaLength(left, width, Across(ratio)), ChromaLength(top, height, Down(ratio)), i, j);
    ReadsMirrored(MirrorsAcross(o), left, width, if Swaps(o) then j else i, Across(ratio));
    ReadsMirrored(MirrorsDown(o), top, height, if Swaps(o) then i else j, Down(ratio));
  }

  /** A picture whose planes have as many samples as those of the turned one. */
  predicate FitsChroma(source: YCbCr) {
    && Fits(source.left, source.luma.Length0, Across(source.ratio))
    && Fits(source.top, source.luma.Length1, Down(source.ratio))
  }

  /** The turned picture, before its chroma is turned: it starts at zero, and has its pixels' size and its ratio. */
  predicate IsTarget(source: YCbCr, o: Turning, target: YCbCr) {
    && source.Valid() && target.Valid() && target.left == 0 && target.top == 0
    && TurnedRatio(source.ratio, o) == Some(target.ratio)
    && (target.luma.Length0, target.luma.Length1) == Upright(o, source.luma.Length0, source.luma.Length1)
  }

  /**
   The turned picture's chroma planes have a sample for each block of its pixels,
   and no more than the stored ones.
   */
  lemma ChromaSizes(source: YCbCr, o: Turning, target: YCbCr)
    requires IsTarget(source, o, target)
    ensures target.blue.Length0 == Samples(target.luma.Length0, Across(target.ratio))
    ensures target.blue.Length1 == Samples(target.luma.Length1, Down(target.ratio))
    ensures Within(target.blue, Upright(o, source.blue.Length0, source.blue.Length1))
  {
    PlaneFits(0, target.luma.Length0, Across(target.ratio));
    PlaneFits(0, target.luma.Length1, Down(target.ratio));
    PlaneCovers(source.left, source.luma.Length0, Across(source.ratio));
    PlaneCovers(source.top, source.luma.Length1, Down(source.ratio));
  }

  /** Turning keeps every chroma sample exactly when the picture fits its samples. */
  lemma TurningNeedsFit(source: YCbCr, o: Turning, target: YCbCr)
    requires IsTarget(source, o, target)
    ensures (target.blue.Length0, target.blue.Length1) == Upright(o, source.blue.Length0, source.blue.Length1)
      <==> FitsChroma(source)
  {
    ChromaSizes(source, o, target);
    PlaneFits(source.left, source.luma.Length0, Across(source.ratio));
    PlaneFits(source.top, source.luma.Length1, Down(source.ratio));
  }

  /**
   Turns a picture plane by plane, each chroma sample read from where the
   first of its pixels is stored: every pixel and every sample of the turned
   picture is the one the orientation says, and no sample is left over
   exactly when the picture fits its samples.
   */
  method TurnPlanes(source: YCbCr, o: Turning, ratio: Ratio) returns (target: YCbCr)
    requires source.Valid() && TurnedRatio(source.ratio, o) == Some(ratio)
    ensures fresh(target) && target.Valid() && target.left == 0 && target.top == 0 && target.ratio == ratio
    ensures IsTurned(source.luma, o, target.luma)
    ensures IsTurnedSoFar(source.blue, o, target.blue) && IsTurnedSoFar(source.red, o, target.red)
    ensures IsTurned(source.blue, o, target.blue) && IsTurned(source.red, o, target.red) <==> FitsChroma(source)
  {
    var (w, h) := Upright(o, source.luma.Length0, source.luma.Length1);
    target := new YCbCr(0, 0, w, h, ratio);
    Turn(source.luma, o, target.luma);
    TurnChroma(source, o, target);
    TurningNeedsFit(source, o, target);
  }

  method TurnChroma(source: YCbCr, o: Turning, target: YCbCr)
    requires IsTarget(source, o, target)
    requires {target.blue, target.red} !! {source.blue, source.red} && target.blue != target.red
    modifies target.blue, target.red
    ensures IsTurnedSoFar(source.blue, o, target.blue) && IsTurnedSoFar(source.red, o, target.red)
  {
    var w, h, across, down := target.luma.Length0, target.luma.Length1, Across(target.ratio), Down(target.ratio);
    ChromaSizes(source, o, target);
    ghost var j := 0;
    var y := 0;
    while y < h
      invariant 0 <= j <= target.blue.Length1 && y == Times(j, down)
      invariant Rows(source.blue, o, target.blue, j) && Rows(source.red, o, target.red, j)
      decreases h - y
    {
      FirstPixelInside(h, j, down);
      TurnChromaRow(source, o, target, y, j);
      j := j + 1;
      y := y + Times(1, down);
    }
    FirstPixelInside(h, j, down);
  }

  /** The rows turned so far. */
  ghost predicate Rows(stored: array2<int>, o: Turning, upright: array2<int>, rows: int)
    requires Within(upright, Upright(o, stored.Length0, stored.Length1))
    reads stored, upright
  {
    forall u, v :: 0 <= u < upright.Length0 && 0 <= v < rows && v < upright.Length1 ==>
      upright[u, v] == PixelAt(stored, o, u, v)
  }

  ghost predicate Row(stored: array2<int>, o: Turning, upright: array2<int>, row: int, columns: int)
    requires Within(upright, Upright(o, stored.Length0, stored.Length1))
    requires 0 <= row < upright.Length1
    reads stored, upright
  {
    forall u :: 0 <= u < columns && u < upright.Length0 ==> upright[u, row] == PixelAt(stored, o, u, row)
  }

  /** Where in its plane a chroma sample is read from. */
  method ChromaOffset(source: YCbCr, o: Turning, x: int, y: int) returns (fromX: int, fromY: int)
    requires Inside((x, y), Upright(o, source.luma.Length0, source.luma.Length1))
    ensures (fromX, fromY)
      == ReadFrom(source.left, source.top, o, source.ratio, source.luma.Length0, source.luma.Length1, x, y)
  {
    StoredInside(o, source.luma.Length0, source.luma.Length1, x, y);
    var at := Stored(o, source.luma.Length0, source.luma.Length1, x, y);
    fromX := ChromaIndex(source.left, source.left + at.0, Across(source.ratio));
    fromY := ChromaIndex(source.top, source.top + at.1, Down(source.ratio));
  }

  /** A sample of the turned picture is read from where the orientation says of the plane. */
  lemma OffsetIsStored(source: YCbCr, o: Turning, target: YCbCr, i: nat, j: nat)
    requires IsTarget(source, o, target) && i < target.blue.Length0 && j < target.blue.Length1
    ensures var x, y := Times(i, Across(target.ratio)), Times(j, Down(target.ratio));
      && Inside((x, y), Upright(o, source.luma.Length0, source.luma.Length1))
      && ReadFrom(source.left, source.top, o, source.ratio, source.luma.Length0, source.luma.Length1, x, y)
         == Stored(o, source.blue.Length0, source.blue.Length1, i, j)
  {
    ChromaSizes(source, o, target);
    FirstPixelInside(target.luma.Length0, i, Across(target.ratio));
    FirstPixelInside(target.luma.Length1, j, Down(target.ratio));
    ReadsAt(source.left, source.top, o, source.ratio, source.luma.Length0, source.luma.Length1, i, j);
  }

  /** Puts the next sample of a row of a plane in its place. */
  method PutSample(
    stored: array2<int>, o: Turning, upright: array2<int>, fromX: int, fromY: int, toX: int, toY: int)
    requires stored != upright && Within(upright, Upright(o, stored.Length0, stored.Length1))
    requires Inside((toX, toY), (upright.Length0, upright.Length1))
    requires (fromX, fromY) == Stored(o, stored.Length0, stored.Length1, toX, toY)
    requires Rows(stored, o, upright, toY) && Row(stored, o, upright, toY, toX)
    modifies upright
    ensures Rows(stored, o, upright, toY) && Row(stored, o, upright, toY, toX + 1)
  {
    StoredInside(o, stored.Length0, stored.Length1, toX, toY);
    upright[toX, toY] := stored[fromX, fromY];
  }

  method TurnChromaRow(source: YCbCr, o: Turning, target: YCbCr, y: int, ghost j: nat)
    requires IsTarget(source, o, target) && Within(target.blue, Upright(o, source.blue.Length0, source.blue.Length1))
    requires {target.blue, target.red} !! {source.blue, source.red} && target.blue != target.red
    requires j < target.blue.Length1 && y == Times(j, Down(target.ratio))
    requires Rows(source.blue, o, target.blue, j) && Rows(source.red, o, target.red, j)
    modifies target.blue, target.red
    ensures Rows(source.blue, o, target.blue, j + 1) && Rows(source.red, o, target.red, j + 1)
  {
    var w, across, down := target.luma.Length0, Across(target.ratio), Down(target.ratio);
    ChromaSizes(source, o, target);
    FirstPixelInside(target.luma.Length1, j, down);
    ghost var i := 0;
    var x := 0;
    while x < w
      invariant 0 <= i <= target.blue.Length0 && x == Times(i, across)
      invariant Rows(source.blue, o, target.blue, j) && Rows(source.red, o, target.red, j)
      invariant Row(source.blue, o, target.blue, j, i) && Row(source.red, o, target.red, j, i)
      decreases w - x
    {
      FirstPixelInside(w, i, across);
      OffsetIsStored(source, o, target, i, j);
      var fromX, fromY := ChromaOffset(source, o, x, y);
      var toX, toY := ChromaIndex(0, x, across), ChromaIndex(0, y, down);
      PutSample(source.blue, o, target.blue, fromX, fromY, toX, toY);
      PutSample(source.red, o, target.red, fromX, fromY, toX, toY);
      i := i + 1;
      x := x + Times(1, across);
    }
    FirstPixelInside(w, i, across);
  }

  /**
   A picture that starts at an odd column and is an even number of pixels
   wide, two to a sample, has one sample more across than the picture turned
   by half has room for: two pixels from column one on share two samples.
   */
  lemma OddStartLosesSample(source: YCbCr, target: YCbCr)
    requires source.Valid() && target.Valid() && target.left == 0 && target.ratio == source.ratio
    requires source.left % 2 == 1 && source.luma.Length0 % 2 == 0 && Across(source.ratio).Two?
    requires target.luma.Length0 == source.luma.Length0
    ensures source.blue.Length0 == target.blue.Length0 + 1
    ensures !IsTurned(source.blue, 3, target.blue)
  {
    OddSamples(source.left, source.luma.Length0);
    PlaneFits(target.left, target.luma.Length0, Across(target.ratio));
  }

  lemma OddSamples(start: nat, length: nat)
    requires start % 2 == 1 && length % 2 == 0
    ensures ChromaLength(start, length, Two) == Samples(length, Two) + 1
  {
    HalfLength(start, length);
  }

  // ----- Which orientation is which

  /**
   The corner of the stored picture that its upright top left corner is in, and the one the
   top right is in, by the table of section 8 of TIFF 6.0.
   */
  lemma CornersAreStored(o: Turning, width: nat, height: nat)
    requires width > 0 && height > 0
    ensures var right, bottom := width - 1, height - 1;
      var (w, _) := Upright(o, width, height);
      (Stored(o, width, height, 0, 0), Stored(o, width, height, w - 1, 0)) ==
        match o
        case 2 => ((right, 0), (0, 0))
        case 3 => ((right, bottom), (0, bottom))
        case 4 => ((0, bottom), (right, bottom))
        case 5 => ((0, 0), (0, bottom))
        case 6 => ((0, bottom), (0, 0))
        case 7 => ((right, bottom), (right, 0))
        case _ => ((right, 0), (right, bottom))
    ensures Upright(o, width, height) == if o in {5, 6, 7, 8} then (height, width) else (width, height)
  {
  }

  predicate OneStep(a: (int, int), b: (int, int)) {
    || (a.0 == b.0 && a.1 - b.1 in {-1, 1})
    || (a.1 == b.1 && a.0 - b.0 in {-1, 1})
  }

  /** Neighbours stay neighbours: one step right or down in the upright picture is one step in the stored one. */
  lemma NeighboursStay(o: Turning, width: int, height: int, x: int, y: int)
    ensures var at, right, down :=
        Stored(o, width, height, x, y), Stored(o, width, height, x + 1, y), Stored(o, width, height, x, y + 1);
      && (if Swaps(o) then right.0 == at.0 else right.1 == at.1) && OneStep(at, right)
      && (if Swaps(o) then down.1 == at.1 else down.0 == at.0) && OneStep(at, down)
  {
  }
}
