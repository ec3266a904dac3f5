/**
 * The layer `BZEmitterLayer`: its settings, its particles, its animation
 * clock and its display link, and the operations that change them.
 */
module Emitter {
  import opened Wrappers
  import opened Particles
  import opened Sampler
  import opened Easing
  import opened DrawPass

  /** An existing CADisplayLink; only its `isPaused` flag is modelled. */
  datatype DisplayLink = DisplayLink(isPaused: bool)

  /** The three states the optional display link gives the animation. */
  datatype LinkState = Stopped | Paused | Running

  /** Seconds added to the clock per display-link callback: 0.6, exactly 3/5. */
  const TimeStep: real := 0.6

  /** The base animation duration the layer starts with. */
  const InitialDuration: real := 2.0

  /**
   * The inner loop of `getRGBAs(from:)` over row `y` of a `w`-wide image:
   * visits the columns `stride(from: 0, to: w, by: step)` and appends, in
   * order, `make(c, k)` for each pixel `c` that `keep` accepts, numbering
   * the draws from `k`.
   */
  method ScanRow(keep: Cell -> bool, make: (Cell, nat) -> Particle, w: nat, y: nat, step: nat, k: nat)
    returns (row: seq<Particle>)
    requires step >= 1
    ensures row == RowFrom(keep, make, w, y, 0, step, k)
  {
    row := [];
    var x: nat := 0;
    while x < w
      invariant row + RowFrom(keep, make, w, y, x, step, k + |row|) == RowFrom(keep, make, w, y, 0, step, k)
      decreases w - x
    {
      var cell := Cell(x, y);
      if keep(cell) {
        var particle := make(cell, k + |row|);
        assert row + ([particle] + RowFrom(keep, make, w, y, x + step, step, k + |row| + 1)) ==
          (row + [particle]) + RowFrom(keep, make, w, y, x + step, step, k + |row| + 1);
        row := row + [particle];
      }
      x := x + step;
    }
  }

  /**
   * The two loops of `getRGBAs(from:)`: the rows
   * `stride(from: 0, to: h, by: stepY)`, each scanned by `ScanRow`, the
   * particles appended in order and the draws numbered from 0.
   */
  method ScanImage(keep: Cell -> bool, make: (Cell, nat) -> Particle, w: nat, h: nat, stepX: nat, stepY: nat)
    returns (result: seq<Particle>)
    requires stepX >= 1 && stepY >= 1
    ensures result == ScanFrom(keep, make, w, h, 0, stepX, stepY, 0)
  {
    result := [];
    var y: nat := 0;
    while y < h
      invariant result + ScanFrom(keep, make, w, h, y, stepX, stepY, |result|) == ScanFrom(keep, make, w, h, 0, stepX, stepY, 0)
      decreases h - y
    {
      var row := ScanRow(keep, make, w, y, stepX, |result|);
      assert result + (row + ScanFrom(keep, make, w, h, y + stepY, stepX, stepY, |result| + |row|)) ==
        (result + row) + ScanFrom(keep, make, w, h, y + stepY, stepX, stepY, |result| + |row|);
      result := result + row;
      y := y + stepY;
    }
  }

  class EmitterLayer {
    // public settings
    var beginPoint: Point
    var ignoredBlack: bool
    var ignoredWhite: bool
    var customColor: Option<Color>
    var randomPointRange: real
    var maxParticleCount: nat
    var image: Option<Image>
    /** Whether `emitterDelegate` is set. */
    var hasDelegate: bool
    /** The CALayer's bounds size, which centres the image. */
    var bounds: Size

    // private state
    var animationTime: real
    var animationDuration: real
    var displayLink: Option<DisplayLink>
    var particleArray: seq<Particle>

    /** The invariant: a positive duration, and every particle's delays within their draw bounds. */
    ghost predicate Valid()
      reads this
    {
      animationDuration > 0.0 &&
      forall i :: 0 <= i < |particleArray| ==>
        particleArray[i].delayTime < DelayTimeBound && particleArray[i].delayDuration < DelayDurationBound
    }

    /** The lifecycle state: no link is Stopped, otherwise the link's flag decides. */
    ghost function State(): LinkState
      reads this
    {
      match displayLink
      case None => Stopped
      case Some(link) => if link.isPaused then Paused else Running
    }

    /** The settings the sampler reads. */
    function Settings(): Config
      reads this
    {
      Config(maxParticleCount, ignoredWhite, ignoredBlack, customColor, randomPointRange)
    }

    /** What a draw pass reads; without an image there is no image size to read. */
    function CurrentScene(): Scene
      reads this
    {
      Scene(animationTime, animationDuration, beginPoint, bounds,
            if image.Some? then image.value.width else 0,
            if image.Some? then image.value.height else 0)
    }

    /**
     * `init()`: default settings, no image and no particles, the clock at 0,
     * and a running display link.
     */
    constructor ()
      ensures Valid() && State() == Running
      ensures animationTime == 0.0 && animationDuration == InitialDuration
      ensures image == None && particleArray == [] && !hasDelegate
      ensures beginPoint == Point(0.0, 0.0) && !ignoredBlack && !ignoredWhite
      ensures customColor == None && randomPointRange == 0.0 && maxParticleCount == 0
      ensures bounds == Size(0.0, 0.0)
    {
      beginPoint := Point(0.0, 0.0);
      ignoredBlack := false;
      ignoredWhite := false;
      customColor := None;
      randomPointRange := 0.0;
      maxParticleCount := 0;
      image := None;
      hasDelegate := false;
      bounds := Size(0.0, 0.0);
      animationTime := 0.0;
      animationDuration := InitialDuration;
      displayLink := Some(DisplayLink(false));
      particleArray := [];
    }

    /**
     * `getRGBAs(from:)`: walks the pixels row by row with the two strides
     * and returns one particle per pixel that passes the filter; the k-th
     * particle uses the random draws `draws(k)`.
     */
    method GetRGBAs(img: Image, draws: nat -> Draws) returns (result: seq<Particle>)
      requires WellFormed(img) && CanStride(Settings(), img)
      requires ConfigOk(Settings()) && DrawsFit(Settings(), draws)
      ensures result == Sample(Settings(), img, draws)
    {
      var cfg := Settings();
      var addY := StepY(cfg, img);
      var addX := StepX(cfg, img);
      result := ScanImage(Keep(cfg, img), Make(cfg, img, draws), img.width, img.height, addX, addY);
    }

    /**
     * Assigning `image`: a non-nil image is sampled with the settings of the
     * moment and replaces the particles; nil keeps the old particles.
     */
    method SetImage(newImage: Option<Image>, draws: nat -> Draws)
      requires Valid()
      requires newImage.Some? ==>
        WellFormed(newImage.value) && CanStride(Settings(), newImage.value) &&
        ConfigOk(Settings()) && DrawsFit(Settings(), draws)
      modifies this`image, this`particleArray
      ensures Valid() && image == newImage
      ensures newImage.Some? ==> particleArray == Sample(Settings(), newImage.value, draws)
      ensures newImage.None? ==> particleArray == old(particleArray)
    {
      image := newImage;
      if newImage.Some? {
        SampleParticles(Settings(), newImage.value, draws);
        particleArray := GetRGBAs(newImage.value, draws);
      }
    }

    /** `emitterAnimation`, the display link's callback: advances the clock by 0.6. */
    method EmitterAnimation()
      requires Valid()
      modifies this`animationTime
      ensures Valid() && animationTime == old(animationTime) + TimeStep
    {
      animationTime := animationTime + TimeStep;
    }

    /**
     * The loop of `draw(in:)`: the rectangles drawn and the number of
     * particles counted as arrived.  `image!` traps when a particle is
     * drawn without an image.
     */
    method DrawParticles() returns (frame: seq<Dot>, count: nat)
      requires Valid()
      requires image.None? ==> forall i :: 0 <= i < |particleArray| ==> Waiting(particleArray[i], CurrentScene())
      ensures frame == Frame(particleArray, CurrentScene())
      ensures count == ArrivedCount(particleArray, CurrentScene())
    {
      frame, count := [], 0;
      var i := 0;
      while i < |particleArray|
        invariant 0 <= i <= |particleArray|
        invariant frame == Frame(particleArray[..i], CurrentScene())
        invariant count == ArrivedCount(particleArray[..i], CurrentScene())
      {
        var particle := particleArray[i];
        assert particleArray[..i + 1][..i] == particleArray[..i];
        if !(particle.delayTime as real > animationTime) {
          var duration := animationDuration + particle.delayDuration as real;
          var curTime := animationTime - particle.delayTime as real;
          if curTime > duration {
            curTime := duration;
            count := count + 1;
          }
          var img := image.value;
          var curX := EaseInOutQuad(curTime, beginPoint.x, particle.point.x + bounds.width / 2.0 - (img.width / 2) as real, duration);
          var curY := EaseInOutQuad(curTime, beginPoint.y, particle.point.y + bounds.height / 2.0 - (img.height / 2) as real, duration);
          frame := frame + [Dot(particle.color, curX, curY)];
        }
        i := i + 1;
      }
      assert particleArray[..i] == particleArray;
    }

    /**
     * `draw(in:)`: draws every particle whose delay has elapsed; when every
     * particle has arrived it calls `reset()`, which stops the link and
     * zeroes the clock, and tells the delegate.
     */
    method Draw() returns (frame: seq<Dot>, delegateNotified: bool)
      requires Valid()
      requires image.None? ==> forall i :: 0 <= i < |particleArray| ==> Waiting(particleArray[i], CurrentScene())
      modifies this`animationTime, this`displayLink
      ensures Valid()
      ensures frame == Frame(particleArray, old(CurrentScene()))
      ensures var completed := ArrivedCount(particleArray, old(CurrentScene())) == |particleArray|;
        delegateNotified == (completed && hasDelegate) &&
        (completed ==> State() == Stopped && animationTime == 0.0) &&
        (!completed ==> displayLink == old(displayLink) && animationTime == old(animationTime))
    {
      var count;
      frame, count := DrawParticles();
      if count == |particleArray| {
        Reset();
        delegateNotified := hasDelegate;
      } else {
        delegateNotified := false;
      }
    }

    /** `pause()`: sets the link's `isPaused`; without a link nothing happens. */
    method Pause()
      requires Valid()
      modifies this`displayLink
      ensures Valid()
      ensures old(displayLink).Some? ==> displayLink == Some(DisplayLink(true)) && State() == Paused
      ensures old(displayLink).None? ==> displayLink == None
    {
      if displayLink.Some? {
        displayLink := Some(displayLink.value.(isPaused := true));
      }
    }

    /** `resume()`: clears the link's `isPaused`; without a link nothing happens. */
    method Resume()
      requires Valid()
      modifies this`displayLink
      ensures Valid()
      ensures old(displayLink).Some? ==> displayLink == Some(DisplayLink(false)) && State() == Running
      ensures old(displayLink).None? ==> displayLink == None
    {
      if displayLink.Some? {
        displayLink := Some(displayLink.value.(isPaused := false));
      }
    }

    /** `reset()`: invalidates and drops the link, and zeroes the clock. */
    method Reset()
      requires Valid()
      modifies this`animationTime, this`displayLink
      ensures Valid() && State() == Stopped && displayLink == None && animationTime == 0.0
    {
      displayLink := None;
      animationTime := 0.0;
    }

    /** `restart()`: a reset followed by a fresh, running link. */
    method Restart()
      requires Valid()
      modifies this`animationTime, this`displayLink
      ensures Valid() && State() == Running && displayLink == Some(DisplayLink(false)) && animationTime == 0.0
    {
      Reset();
      displayLink := Some(DisplayLink(false));
    }
  }
}
