/**
 * The pixel sampler `getRGBAs`: which pixels of the decoded RGBA8 buffer it
 * visits, which it keeps, and the particle it makes of each kept pixel.
 */
module Sampler {
  import opened Wrappers
  import opened Particles

  /**
   * A decoded image: width, height and the premultiplied RGBA8 buffer,
   * row after row, four bytes per pixel.
   */
  datatype Image = Image(width: nat, height: nat, data: seq<Byte>)

  /** The buffer holds `H` rows of `bytesPerRow = 4 * W` bytes, as allocated for the bitmap context. */
  predicate WellFormed(img: Image)
  {
    |img.data| == RowStart(img.width, img.height)
  }

  /** The offset of row `y` in the buffer: `y` rows of `4 * w` bytes. */
  function RowStart(w: nat, y: nat): nat
  {
    if y == 0 then 0 else RowStart(w, y - 1) + 4 * w
  }

  /** The buffer is `H * W * 4` bytes long, and row `y` starts at byte `4 * W * y`. */
  lemma {:induction false} RowStartIs(w: nat, y: nat)
    ensures RowStart(w, y) == 4 * w * y
  {
    if y > 0 {
      RowStartIs(w, y - 1);
      assert 4 * w * y == 4 * w * (y - 1) + 4 * w;
    }
  }

  /** Rows further down start further on. */
  lemma {:induction false} RowStartMonotone(w: nat, y: nat, z: nat)
    requires y <= z
    ensures RowStart(w, y) <= RowStart(w, z)
    decreases z
  {
    if y < z {
      RowStartMonotone(w, y, z - 1);
    }
  }

  /** The layer's settings that `getRGBAs` reads. */
  datatype Config = Config(
    maxParticleCount: nat,
    ignoredWhite: bool,
    ignoredBlack: bool,
    customColor: Option<Color>,
    randomPointRange: real)

  /** The layer's settings are usable: `maxParticleCount` is a UInt32, and `UInt32(range) * 2` does not overflow. */
  predicate ConfigOk(cfg: Config)
  {
    cfg.maxParticleCount < 0x1_0000_0000 && cfg.randomPointRange < 2147483648.0
  }

  /** Horizontal step: 1 without a maximum, otherwise `W / maxParticleCount`. */
  function StepX(cfg: Config, img: Image): nat
  {
    if cfg.maxParticleCount == 0 then 1 else img.width / cfg.maxParticleCount
  }

  /** Vertical step: 1 without a maximum, otherwise `H / maxParticleCount`. */
  function StepY(cfg: Config, img: Image): nat
  {
    if cfg.maxParticleCount == 0 then 1 else img.height / cfg.maxParticleCount
  }

  /** Both steps are positive; `stride(from:to:by:)` traps on a step of 0. */
  predicate CanStride(cfg: Config, img: Image)
  {
    StepX(cfg, img) >= 1 && StepY(cfg, img) >= 1
  }

  /** A pixel position (x, y). */
  datatype Cell = Cell(x: nat, y: nat)

  /** Index of the red byte of pixel `c`: `bytesPerRow * y + bytesPerPixel * x`. */
  function ByteIndex(img: Image, c: Cell): nat
  {
    RowStart(img.width, c.y) + 4 * c.x
  }

  /** The four bytes of a pixel inside the image lie inside the buffer. */
  lemma ByteIndexInBounds(img: Image, c: Cell)
    requires WellFormed(img)
    requires c.x < img.width && c.y < img.height
    ensures ByteIndex(img, c) + 3 < |img.data|
  {
    RowStartMonotone(img.width, c.y + 1, img.height);
  }

  /** The sampled colour of pixel `c`: each byte divided by 255. */
  function PixelColor(img: Image, c: Cell): Color
    requires WellFormed(img)
    requires c.x < img.width && c.y < img.height
  {
    ByteIndexInBounds(img, c);
    var i := ByteIndex(img, c);
    Color(img.data[i] as real / 255.0, img.data[i + 1] as real / 255.0,
          img.data[i + 2] as real / 255.0, img.data[i + 3] as real / 255.0)
  }

  /**
   * The filter, on the sampled colour: transparent, or (with `ignoredWhite`)
   * components summing to 3, or (with `ignoredBlack`) summing to 0.
   */
  predicate Skipped(cfg: Config, color: Color)
  {
    color.alpha == 0.0
    || (cfg.ignoredWhite && color.red + color.green + color.blue == 3.0)
    || (cfg.ignoredBlack && color.red + color.green + color.blue == 0.0)
  }

  /** The filter restated on the pixel's bytes. */
  predicate SkippedBytes(cfg: Config, img: Image, c: Cell)
    requires WellFormed(img)
    requires c.x < img.width && c.y < img.height
  {
    ByteIndexInBounds(img, c);
    var i := ByteIndex(img, c);
    var r, g, b, a := img.data[i], img.data[i + 1], img.data[i + 2], img.data[i + 3];
    a == 0
    || (cfg.ignoredWhite && r == 255 && g == 255 && b == 255)
    || (cfg.ignoredBlack && r == 0 && g == 0 && b == 0)
  }

  /**
   * On byte-valued components, "sum is 3" is "all three bytes are 255" and
   * "sum is 0" is "all three bytes are 0".
   */
  lemma SkippedIffBytes(cfg: Config, img: Image, c: Cell)
    requires WellFormed(img)
    requires c.x < img.width && c.y < img.height
    ensures Skipped(cfg, PixelColor(img, c)) <==> SkippedBytes(cfg, img, c)
  {
    ByteIndexInBounds(img, c);
    var i := ByteIndex(img, c);
    var r, g, b: int := img.data[i], img.data[i + 1], img.data[i + 2];
    var color := PixelColor(img, c);
    assert color.red + color.green + color.blue == (r + g + b) as real / 255.0;
  }

  /** The random draws all fit their bounds: delays from 0..29 and 0..9, jitter for the configured range. */
  ghost predicate DrawsFit(cfg: Config, draws: nat -> Draws)
    requires ConfigOk(cfg)
  {
    forall k: nat :: DrawFits(cfg, draws(k))
  }

  predicate DrawFits(cfg: Config, d: Draws)
    requires ConfigOk(cfg)
  {
    UniformDraw(d.delayTime, DelayTimeBound)
    && UniformDraw(d.delayDuration, DelayDurationBound)
    && (cfg.randomPointRange > 0.0 ==> JitterFits(cfg.randomPointRange, d.jitterX, d.jitterY))
  }

  /**
   * The particle made of a kept pixel: the sampled colour unless the layer
   * has a custom colour, the pixel position jittered when the layer's range
   * is positive, and the delays drawn at creation.
   */
  function NewParticle(cfg: Config, c: Cell, color: Color, d: Draws): (q: Particle)
    requires ConfigOk(cfg)
    requires DrawFits(cfg, d)
    ensures q.color == if cfg.customColor.Some? then cfg.customColor.value else color
    ensures q.delayTime == d.delayTime < DelayTimeBound
    ensures q.delayDuration == d.delayDuration < DelayDurationBound
    ensures cfg.randomPointRange <= 0.0 ==> q.point == Point(c.x as real, c.y as real)
    ensures cfg.randomPointRange > 0.0 ==>
      q.point == Point(c.x as real - cfg.randomPointRange + d.jitterX as real,
                       c.y as real - cfg.randomPointRange + d.jitterY as real)
  {
    var particle := Particle(color, Point(c.x as real, c.y as real), d.delayTime, d.delayDuration);
    var particle := if cfg.customColor.Some? then SetCustomColor(particle, cfg.customColor) else particle;
    if cfg.randomPointRange > 0.0 then
      SetRandomPointRange(particle, Some(cfg.randomPointRange), d.jitterX, d.jitterY)
    else
      particle
  }

  /**
   * The filter as a test on positions: the pixel lies inside the image and
   * its sampled colour is not skipped.
   */
  function Keep(cfg: Config, img: Image): Cell -> bool
    requires WellFormed(img)
  {
    (c: Cell) => c.x < img.width && c.y < img.height && !Skipped(cfg, PixelColor(img, c))
  }

  /**
   * The particle made of the pixel at `c` with draw number `k`; positions
   * outside the image are never visited and get a transparent placeholder.
   */
  function Make(cfg: Config, img: Image, draws: nat -> Draws): (Cell, nat) -> Particle
    requires WellFormed(img) && ConfigOk(cfg) && DrawsFit(cfg, draws)
  {
    (c: Cell, k: nat) =>
      if c.x < img.width && c.y < img.height then NewParticle(cfg, c, PixelColor(img, c), draws(k))
      else Particle(Color(0.0, 0.0, 0.0, 0.0), Point(c.x as real, c.y as real), 0, 0)
  }

  // ---------------------------------------------------------------------
  // The two stride loops, for any pixel test `keep` and particle maker `make`

  /**
   * The particles the inner loop appends for row `y` of a `w`-wide image,
   * from column `x` on, every `step` columns; the first kept pixel uses
   * draw `k`, the next `k + 1`, and so on.
   */
  function RowFrom(keep: Cell -> bool, make: (Cell, nat) -> Particle, w: nat, y: nat, x: nat, step: nat, k: nat): seq<Particle>
    requires step >= 1
    decreases w - x
  {
    if x >= w then []
    else if keep(Cell(x, y)) then [make(Cell(x, y), k)] + RowFrom(keep, make, w, y, x + step, step, k + 1)
    else RowFrom(keep, make, w, y, x + step, step, k)
  }

  /** The particles the outer loop appends from row `y` on, every `stepY` rows and `stepX` columns. */
  function ScanFrom(keep: Cell -> bool, make: (Cell, nat) -> Particle, w: nat, h: nat, y: nat, stepX: nat, stepY: nat, k: nat): seq<Particle>
    requires stepX >= 1 && stepY >= 1
    decreases h - y
  {
    if y >= h then []
    else
      var r := RowFrom(keep, make, w, y, 0, stepX, k);
      r + ScanFrom(keep, make, w, h, y + stepY, stepX, stepY, k + |r|)
  }

  /** The pixels of row `y` that `keep` accepts, from column `x` on, every `step` columns. */
  function KeptRowFrom(keep: Cell -> bool, w: nat, y: nat, x: nat, step: nat): seq<Cell>
    requires step >= 1
    decreases w - x
  {
    if x >= w then []
    else if keep(Cell(x, y)) then [Cell(x, y)] + KeptRowFrom(keep, w, y, x + step, step)
    else KeptRowFrom(keep, w, y, x + step, step)
  }

  /** The visited pixels that `keep` accepts, from row `y` on, every `stepY` rows and `stepX` columns. */
  function KeptFrom(keep: Cell -> bool, w: nat, h: nat, y: nat, stepX: nat, stepY: nat): seq<Cell>
    requires stepX >= 1 && stepY >= 1
    decreases h - y
  {
    if y >= h then []
    else KeptRowFrom(keep, w, y, 0, stepX) + KeptFrom(keep, w, h, y + stepY, stepX, stepY)
  }

  /** What `getRGBAs` returns: the particles of every visited row, draws numbered from 0. */
  function Sample(cfg: Config, img: Image, draws: nat -> Draws): seq<Particle>
    requires WellFormed(img) && CanStride(cfg, img)
    requires ConfigOk(cfg) && DrawsFit(cfg, draws)
  {
    ScanFrom(Keep(cfg, img), Make(cfg, img, draws), img.width, img.height, 0, StepX(cfg, img), StepY(cfg, img), 0)
  }

  /** Every visited pixel that passes the filter, in visiting order. */
  function Kept(cfg: Config, img: Image): seq<Cell>
    requires WellFormed(img) && CanStride(cfg, img)
  {
    KeptFrom(Keep(cfg, img), img.width, img.height, 0, StepX(cfg, img), StepY(cfg, img))
  }

  /** `a` comes before `b` in row-major order. */
  predicate Before(a: Cell, b: Cell)
  {
    a.y < b.y || (a.y == b.y && a.x < b.x)
  }

  /** Strictly increasing in row-major order, so no position occurs twice. */
  predicate RowMajor(cells: seq<Cell>)
  {
    forall i, j :: 0 <= i < j < |cells| ==> Before(cells[i], cells[j])
  }

  // ---------------------------------------------------------------------
  // Which pixels are kept, and in which order

  /**
   * Row `y` keeps exactly the columns `x, x + step, ...` below `w` that
   * `keep` accepts.
   */
  lemma {:induction false} KeptRowMembers(keep: Cell -> bool, w: nat, y: nat, x: nat, step: nat, c: Cell)
    requires step >= 1
    ensures c in KeptRowFrom(keep, w, y, x, step) <==>
      c.y == y && x <= c.x < w && (c.x - x) % step == 0 && keep(c)
    decreases w - x
  {
    if x < w {
      KeptRowMembers(keep, w, y, x + step, step, c);
      ModStep(c.x, x, step);
    }
  }

  /**
   * A pixel is kept iff its row is `y` plus a multiple of `stepY` below
   * `h`, its column a multiple of `stepX` below `w`, and `keep` accepts it.
   */
  lemma {:induction false} KeptMembers(keep: Cell -> bool, w: nat, h: nat, y: nat, stepX: nat, stepY: nat, c: Cell)
    requires stepX >= 1 && stepY >= 1
    ensures c in KeptFrom(keep, w, h, y, stepX, stepY) <==>
      y <= c.y < h && (c.y - y) % stepY == 0 && c.x < w && c.x % stepX == 0 && keep(c)
    decreases h - y
  {
    if y < h {
      KeptRowMembers(keep, w, y, 0, stepX, c);
      KeptMembers(keep, w, h, y + stepY, stepX, stepY, c);
      ModStep(c.y, y, stepY);
      assert c.x - 0 == c.x;
    }
  }

  /** A row's kept pixels lie in that row, between column `x` and `w`, left to right. */
  lemma {:induction false} KeptRowOrder(keep: Cell -> bool, w: nat, y: nat, x: nat, step: nat)
    requires step >= 1
    ensures var kept := KeptRowFrom(keep, w, y, x, step);
      (forall i :: 0 <= i < |kept| ==> kept[i].y == y && x <= kept[i].x < w) && RowMajor(kept)
    decreases w - x
  {
    if x < w {
      KeptRowOrder(keep, w, y, x + step, step);
      var kept, rest := KeptRowFrom(keep, w, y, x, step), KeptRowFrom(keep, w, y, x + step, step);
      if keep(Cell(x, y)) {
        assert kept == [Cell(x, y)] + rest;
        forall i, j | 0 <= i < j < |kept|
          ensures Before(kept[i], kept[j])
        {
          assert kept[j] == rest[j - 1];
          if i > 0 {
            assert kept[i] == rest[i - 1];
          }
        }
      }
    }
  }

  /** The kept pixels from row `y` on lie between row `y` and `h`, left of `w`, in strict row-major order. */
  lemma {:induction false} KeptOrder(keep: Cell -> bool, w: nat, h: nat, y: nat, stepX: nat, stepY: nat)
    requires stepX >= 1 && stepY >= 1
    ensures var kept := KeptFrom(keep, w, h, y, stepX, stepY);
      (forall i :: 0 <= i < |kept| ==> y <= kept[i].y < h && kept[i].x < w) && RowMajor(kept)
    decreases h - y
  {
    if y < h {
      var row, rest := KeptRowFrom(keep, w, y, 0, stepX), KeptFrom(keep, w, h, y + stepY, stepX, stepY);
      KeptRowOrder(keep, w, y, 0, stepX);
      KeptOrder(keep, w, h, y + stepY, stepX, stepY);
      var kept := row + rest;
      assert KeptFrom(keep, w, h, y, stepX, stepY) == kept;
      forall i | 0 <= i < |kept|
        ensures y <= kept[i].y < h && kept[i].x < w
      {
        if i >= |row| {
          assert kept[i] == rest[i - |row|];
        } else {
          assert kept[i] == row[i];
        }
      }
      forall i, j | 0 <= i < j < |kept|
        ensures Before(kept[i], kept[j])
      {
        if j < |row| {
          assert kept[i] == row[i] && kept[j] == row[j];
        } else if i >= |row| {
          assert kept[i] == rest[i - |row|] && kept[j] == rest[j - |row|];
        } else {
          assert kept[i] == row[i] && kept[j] == rest[j - |row|];
        }
      }
    }
  }

  // ---------------------------------------------------------------------
  // How many particles

  /** `ceil(n / d)`. */
  function CeilDiv(n: nat, d: nat): nat
    requires d >= 1
  {
    (n + d - 1) / d
  }

  /** Row `y` keeps at most one pixel per visited column: `ceil((w - x) / step)`. */
  lemma {:induction false} KeptRowCount(keep: Cell -> bool, w: nat, y: nat, x: nat, step: nat)
    requires step >= 1
    ensures |KeptRowFrom(keep, w, y, x, step)| <= if x < w then CeilDiv(w - x, step) else 0
    decreases w - x
  {
    if x < w {
      KeptRowCount(keep, w, y, x + step, step);
      DivShift(w - x - 1, step);
    }
  }

  /** From row `y` on, at most `ceil((h - y) / stepY) * ceil(w / stepX)` pixels are kept. */
  lemma {:induction false} KeptCount(keep: Cell -> bool, w: nat, h: nat, y: nat, stepX: nat, stepY: nat)
    requires stepX >= 1 && stepY >= 1
    ensures |KeptFrom(keep, w, h, y, stepX, stepY)| <=
      if y < h then CeilDiv(h - y, stepY) * CeilDiv(w, stepX) else 0
    decreases h - y
  {
    if y < h {
      KeptRowCount(keep, w, y, 0, stepX);
      KeptCount(keep, w, h, y + stepY, stepX, stepY);
      CeilDivStep(h - y, stepY, CeilDiv(w, stepX));
    }
  }

  // ---------------------------------------------------------------------
  // The particles

  /**
   * The particles of a row are, one for one and in order, the row's kept
   * pixels: the i-th is made of the i-th kept pixel with draw `k + i`.
   */
  lemma {:induction false} RowMatchesKept(keep: Cell -> bool, make: (Cell, nat) -> Particle, w: nat, y: nat, x: nat, step: nat, k: nat)
    requires step >= 1
    ensures var ps, kept := RowFrom(keep, make, w, y, x, step, k), KeptRowFrom(keep, w, y, x, step);
      |ps| == |kept| && forall i :: 0 <= i < |ps| ==> ps[i] == make(kept[i], k + i)
    decreases w - x
  {
    if x < w {
      if !keep(Cell(x, y)) {
        RowMatchesKept(keep, make, w, y, x + step, step, k);
      } else {
        var ps, kept := RowFrom(keep, make, w, y, x, step, k), KeptRowFrom(keep, w, y, x, step);
        var ps', kept' := RowFrom(keep, make, w, y, x + step, step, k + 1), KeptRowFrom(keep, w, y, x + step, step);
        RowMatchesKept(keep, make, w, y, x + step, step, k + 1);
        assert ps == [make(Cell(x, y), k)] + ps';
        assert kept == [Cell(x, y)] + kept';
        forall i | 0 <= i < |ps|
          ensures ps[i] == make(kept[i], k + i)
        {
          if i > 0 {
            assert ps[i] == ps'[i - 1] && kept[i] == kept'[i - 1];
            assert k + 1 + (i - 1) == k + i;
          }
        }
      }
    }
  }

  /** The same, one for one, for all rows from `y` on. */
  lemma {:induction false} ScanMatchesKept(keep: Cell -> bool, make: (Cell, nat) -> Particle, w: nat, h: nat, y: nat, stepX: nat, stepY: nat, k: nat)
    requires stepX >= 1 && stepY >= 1
    ensures var ps, kept := ScanFrom(keep, make, w, h, y, stepX, stepY, k), KeptFrom(keep, w, h, y, stepX, stepY);
      |ps| == |kept| && forall i :: 0 <= i < |ps| ==> ps[i] == make(kept[i], k + i)
    decreases h - y
  {
    if y < h {
      var r, kr := RowFrom(keep, make, w, y, 0, stepX, k), KeptRowFrom(keep, w, y, 0, stepX);
      var rest := ScanFrom(keep, make, w, h, y + stepY, stepX, stepY, k + |r|);
      var krest := KeptFrom(keep, w, h, y + stepY, stepX, stepY);
      RowMatchesKept(keep, make, w, y, 0, stepX, k);
      ScanMatchesKept(keep, make, w, h, y + stepY, stepX, stepY, k + |r|);
      MatchesAppend(make, r, kr, rest, krest, k);
    }
  }

  /** Two one-for-one matches side by side, the second numbered on from the first, make one. */
  lemma MatchesAppend(make: (Cell, nat) -> Particle, ps: seq<Particle>, kept: seq<Cell>, ps': seq<Particle>, kept': seq<Cell>, k: nat)
    requires |ps| == |kept| && forall i :: 0 <= i < |ps| ==> ps[i] == make(kept[i], k + i)
    requires |ps'| == |kept'| && forall i :: 0 <= i < |ps'| ==> ps'[i] == make(kept'[i], k + |ps| + i)
    ensures var all, allKept := ps + ps', kept + kept';
      |all| == |allKept| && forall i :: 0 <= i < |all| ==> all[i] == make(allKept[i], k + i)
  {
    var all, allKept := ps + ps', kept + kept';
    forall i | 0 <= i < |all|
      ensures all[i] == make(allKept[i], k + i)
    {
      if i < |ps| {
        assert all[i] == ps[i] && allKept[i] == kept[i];
      } else {
        assert all[i] == ps'[i - |ps|] && allKept[i] == kept'[i - |ps|];
        assert k + |ps| + (i - |ps|) == k + i;
      }
    }
  }

  // ---------------------------------------------------------------------
  // What `getRGBAs` promises

  /**
   * The kept pixels are exactly the image's pixels on the stride grid
   * (columns multiple of `StepX`, rows multiple of `StepY`) whose bytes
   * pass the filter, each once, in row-major order.
   */
  lemma KeptPixels(cfg: Config, img: Image)
    requires WellFormed(img) && CanStride(cfg, img)
    ensures var kept := Kept(cfg, img);
      RowMajor(kept) &&
      forall c: Cell :: c in kept <==>
        c.x < img.width && c.y < img.height &&
        c.x % StepX(cfg, img) == 0 && c.y % StepY(cfg, img) == 0 && !SkippedBytes(cfg, img, c)
  {
    var keep, stepX, stepY := Keep(cfg, img), StepX(cfg, img), StepY(cfg, img);
    KeptOrder(keep, img.width, img.height, 0, stepX, stepY);
    forall c: Cell
      ensures c in Kept(cfg, img) <==>
        c.x < img.width && c.y < img.height && c.x % stepX == 0 && c.y % stepY == 0 && !SkippedBytes(cfg, img, c)
    {
      KeptMembers(keep, img.width, img.height, 0, stepX, stepY, c);
      assert c.y - 0 == c.y;
      if c.x < img.width && c.y < img.height {
        SkippedIffBytes(cfg, img, c);
      }
    }
  }

  /**
   * Every particle `getRGBAs` returns: made of the i-th kept pixel, with the
   * custom colour if one is set, otherwise the pixel's colour; with delays
   * below 30 and 10; at the pixel position, or within the jitter range of it.
   */
  lemma SampleParticles(cfg: Config, img: Image, draws: nat -> Draws)
    requires WellFormed(img) && CanStride(cfg, img)
    requires ConfigOk(cfg) && DrawsFit(cfg, draws)
    ensures var ps, kept := Sample(cfg, img, draws), Kept(cfg, img);
      |ps| == |kept| &&
      forall i :: 0 <= i < |ps| ==>
        var c := kept[i];
        c.x < img.width && c.y < img.height &&
        ps[i] == NewParticle(cfg, c, PixelColor(img, c), draws(i)) &&
        ps[i].color == (if cfg.customColor.Some? then cfg.customColor.value else PixelColor(img, c)) &&
        ps[i].delayTime < DelayTimeBound && ps[i].delayDuration < DelayDurationBound &&
        (cfg.randomPointRange <= 0.0 ==> ps[i].point == Point(c.x as real, c.y as real)) &&
        (cfg.randomPointRange > 0.0 ==>
          c.x as real - cfg.randomPointRange <= ps[i].point.x < c.x as real + cfg.randomPointRange &&
          c.y as real - cfg.randomPointRange <= ps[i].point.y < c.y as real + cfg.randomPointRange)
  {
    var keep, make, stepX, stepY := Keep(cfg, img), Make(cfg, img, draws), StepX(cfg, img), StepY(cfg, img);
    var ps, kept := Sample(cfg, img, draws), Kept(cfg, img);
    ScanMatchesKept(keep, make, img.width, img.height, 0, stepX, stepY, 0);
    KeptOrder(keep, img.width, img.height, 0, stepX, stepY);
    forall i | 0 <= i < |ps|
      ensures ps[i] == NewParticle(cfg, kept[i], PixelColor(img, kept[i]), draws(i))
    {
      assert ps[i] == make(kept[i], 0 + i);
    }
    forall i | 0 <= i < |ps| && cfg.randomPointRange > 0.0
      ensures kept[i].x as real - cfg.randomPointRange <= ps[i].point.x < kept[i].x as real + cfg.randomPointRange
      ensures kept[i].y as real - cfg.randomPointRange <= ps[i].point.y < kept[i].y as real + cfg.randomPointRange
    {
      var c, d := kept[i], draws(i);
      var p := Particle(PixelColor(img, c), Point(c.x as real, c.y as real), d.delayTime, d.delayDuration);
      assert DrawFits(cfg, d);
      JitterWithinRange(p, cfg.randomPointRange, d.jitterX, d.jitterY);
    }
  }

  /**
   * At most `ceil(H / StepY) * ceil(W / StepX)` particles: one per visited
   * pixel at most.
   */
  lemma SampleCount(cfg: Config, img: Image, draws: nat -> Draws)
    requires WellFormed(img) && CanStride(cfg, img)
    requires ConfigOk(cfg) && DrawsFit(cfg, draws)
    ensures |Sample(cfg, img, draws)| <= CeilDiv(img.height, StepY(cfg, img)) * CeilDiv(img.width, StepX(cfg, img))
  {
    var keep, stepX, stepY := Keep(cfg, img), StepX(cfg, img), StepY(cfg, img);
    ScanMatchesKept(keep, Make(cfg, img, draws), img.width, img.height, 0, stepX, stepY, 0);
    KeptCount(keep, img.width, img.height, 0, stepX, stepY);
  }

  /**
   * With no maximum both steps are 1: the kept pixels are exactly the
   * image's pixels that pass the filter, each once, in row-major order.
   */
  lemma SampleEveryPixel(cfg: Config, img: Image)
    requires WellFormed(img) && cfg.maxParticleCount == 0
    ensures CanStride(cfg, img)
    ensures var kept := Kept(cfg, img);
      RowMajor(kept) &&
      forall c: Cell :: c in kept <==>
        c.x < img.width && c.y < img.height && !SkippedBytes(cfg, img, c)
  {
    KeptPixels(cfg, img);
  }

  // ---------------------------------------------------------------------
  // What a nonzero `maxParticleCount` bounds

  /**
   * A nonzero maximum `m` is not a cap of `m` per row: the step `n / m`
   * rounds down, and the `ceil(n / (n / m))` visited positions per axis
   * can reach `2 * m - 1`, never more.
   */
  lemma StrideBound(n: nat, m: nat)
    requires 1 <= m <= n
    ensures n / m >= 1 && CeilDiv(n, n / m) <= 2 * m - 1
  {
    var s, r := n / m, n % m;
    StrideKey(n, m, s, r);
    DivBelow(n + s - 1, s, 2 * m);
  }

  /** `n = s * m + r` with `r < m` and `s >= 1` gives `n + s - 1 < 2 * m * s`. */
  lemma StrideKey(n: int, m: int, s: int, r: int)
    requires m >= 1 && s >= 1 && 0 <= r < m && n == s * m + r
    ensures n + s - 1 < (2 * m) * s
  {
    MulNonNeg(m - 1, s - 1);
    assert (m - 1) * (s - 1) == s * m - m - s + 1;
    assert (2 * m) * s == 2 * (s * m);
  }

  /** `a < b * s` gives `a / s < b`. */
  lemma DivBelow(a: nat, s: nat, b: nat)
    requires s >= 1 && a < b * s
    ensures a / s < b
  {
    var q := a / s;
    assert a == q * s + a % s;
    if q >= b {
      MulMonotone(b, q, s);
    }
  }

  /** With a nonzero maximum `m`, a row keeps at most `2 * m - 1` pixels. */
  lemma RowParticleBound(keep: Cell -> bool, w: nat, y: nat, m: nat)
    requires 1 <= m <= w
    ensures w / m >= 1 && |KeptRowFrom(keep, w, y, 0, w / m)| <= 2 * m - 1
  {
    StrideBound(w, m);
    KeptRowCount(keep, w, y, 0, w / m);
  }

  /**
   * With a nonzero maximum `m`, `getRGBAs` returns at most
   * `(2 * m - 1) * (2 * m - 1)` particles.
   */
  lemma SampleCountMax(cfg: Config, img: Image, draws: nat -> Draws)
    requires WellFormed(img) && CanStride(cfg, img) && cfg.maxParticleCount >= 1
    requires ConfigOk(cfg) && DrawsFit(cfg, draws)
    ensures |Sample(cfg, img, draws)| <= (2 * cfg.maxParticleCount - 1) * (2 * cfg.maxParticleCount - 1)
  {
    var m := cfg.maxParticleCount;
    CanStrideIff(cfg, img);
    SampleCount(cfg, img, draws);
    StrideBound(img.width, m);
    StrideBound(img.height, m);
    var rows, cols := CeilDiv(img.height, StepY(cfg, img)), CeilDiv(img.width, StepX(cfg, img));
    MulMonotone(rows, 2 * m - 1, cols);
    MulMonotone(cols, 2 * m - 1, 2 * m - 1);
    assert cols * (2 * m - 1) == (2 * m - 1) * cols;
  }

  /**
   * The bound is reached: with `maxParticleCount == 2` and a 3-pixel-wide
   * image the step is 1, and a row whose pixels all pass keeps 3 pixels.
   */
  lemma RowCapExceeded(cfg: Config, img: Image, keep: Cell -> bool, y: nat)
    requires cfg.maxParticleCount == 2 && img.width == 3
    requires forall x: nat :: x < 3 ==> keep(Cell(x, y))
    ensures StepX(cfg, img) == 1
    ensures |KeptRowFrom(keep, img.width, y, 0, StepX(cfg, img))| == 3 > cfg.maxParticleCount
  {
    assert keep(Cell(0, y)) && keep(Cell(1, y)) && keep(Cell(2, y));
    assert KeptRowFrom(keep, 3, y, 3, 1) == [];
    assert KeptRowFrom(keep, 3, y, 2, 1) == [Cell(2, y)];
    assert KeptRowFrom(keep, 3, y, 1, 1) == [Cell(1, y), Cell(2, y)];
  }

  // ---------------------------------------------------------------------
  // Arithmetic

  /**
   * Whether `v` is `start` plus a multiple of `step`, when `v` lies past
   * `start`: the same as for `start + step`, and never short of it.
   */
  lemma ModStep(v: nat, start: nat, step: nat)
    requires step >= 1
    ensures v >= start + step ==> (v - start) % step == (v - (start + step)) % step
    ensures start < v < start + step ==> (v - start) % step != 0
  {
    if v >= start + step {
      DivShift(v - (start + step), step);
    } else if start < v {
      DivUnique(v - start, step, 0, v - start);
    }
  }

  /** One more row of `cols` pixels: `ceil(n / step)` rows take one more than `ceil((n - step) / step)`. */
  lemma CeilDivStep(n: nat, step: nat, cols: nat)
    requires n >= 1 && step >= 1
    ensures CeilDiv(n, step) * cols >= cols
    ensures n > step ==> CeilDiv(n - step, step) * cols + cols == CeilDiv(n, step) * cols
  {
    DivShift(n - 1, step);
    var a := (n - 1) / step;
    assert CeilDiv(n, step) == a + 1;
    assert (a + 1) * cols == a * cols + cols;
    if n > step {
      assert CeilDiv(n - step, step) == a;
    }
  }

  lemma DivShift(n: nat, step: nat)
    requires step >= 1
    ensures (n + step) / step == n / step + 1
  {
    DivUnique(n + step, step, n / step + 1, n % step);
  }

  /** Euclidean division is determined by quotient and remainder. */
  lemma DivUnique(n: int, d: int, q: int, r: int)
    requires d > 0 && 0 <= r < d && n == q * d + r
    ensures n / d == q && n % d == r
  {
    var q', r' := n / d, n % d;
    assert n == q' * d + r';
    assert (q - q') * d == q * d - q' * d;
    if q > q' {
      MulAtLeast(q - q', d);
    } else if q < q' {
      MulAtLeast(q' - q, d);
    }
  }

  lemma MulNonNeg(a: int, b: int)
    requires a >= 0 && b >= 0
    ensures a * b >= 0
  {
  }

  lemma MulMonotone(a: int, b: int, c: int)
    requires 0 <= a <= b && c >= 0
    ensures a * c <= b * c
  {
    MulNonNeg(b - a, c);
    assert (b - a) * c == b * c - a * c;
  }

  lemma MulAtLeast(m: int, d: int)
    requires m >= 1 && d > 0
    ensures m * d >= d
  {
  }

  /** A nonzero maximum can be strided iff it exceeds neither dimension. */
  lemma CanStrideIff(cfg: Config, img: Image)
    ensures CanStride(cfg, img) <==>
      cfg.maxParticleCount == 0 ||
      (cfg.maxParticleCount <= img.width && cfg.maxParticleCount <= img.height)
  {
    var m := cfg.maxParticleCount;
    if m > 0 {
      if m <= img.width {
        assert img.width / m >= m / m;
      }
      if m <= img.height {
        assert img.height / m >= m / m;
      }
    }
  }
}
