/**
 * One pass of `draw(in:)`, as values: for each particle, whether it is
 * drawn, where, and whether it has arrived.
 */
module DrawPass {
  import opened Particles
  import opened Easing

  /** A CGSize. */
  datatype Size = Size(width: real, height: real)

  /**
   * What a draw pass reads from the layer: the animation clock, the base
   * duration, the start point, the layer's bounds and the current image's
   * pixel size.
   */
  datatype Scene = Scene(time: real, duration: real, begin: Point, bounds: Size, imageWidth: nat, imageHeight: nat)

  /** The base duration is positive (the layer's is 2), so every particle's duration is too. */
  predicate ValidScene(s: Scene)
  {
    s.duration > 0.0
  }

  /** One filled 1x1 rectangle: the colour and the eased position of one particle. */
  datatype Dot = Dot(color: Color, x: real, y: real)

  /** The particle's delay has not yet elapsed: the pass skips it. */
  predicate Waiting(p: Particle, s: Scene)
  {
    p.delayTime as real > s.time
  }

  /** The particle's own duration: the base duration plus its extra delay. */
  function TotalDuration(p: Particle, s: Scene): real
  {
    s.duration + p.delayDuration as real
  }

  /** The particle counts as arrived: its unclamped local time is strictly past its duration. */
  predicate Arrived(p: Particle, s: Scene)
  {
    !Waiting(p, s) && s.time - p.delayTime as real > TotalDuration(p, s)
  }

  /** The particle's local time, clamped to its duration. */
  function LocalTime(p: Particle, s: Scene): (t: real)
    requires ValidScene(s) && !Waiting(p, s)
    ensures 0.0 <= t <= TotalDuration(p, s)
    ensures Arrived(p, s) ==> t == TotalDuration(p, s)
    ensures !Arrived(p, s) ==> t == s.time - p.delayTime as real
  {
    var curTime := s.time - p.delayTime as real;
    if curTime > TotalDuration(p, s) then TotalDuration(p, s) else curTime
  }

  /**
   * Where the particle ends: its point moved by half the layer's size, less
   * half the image's size in whole pixels, which centres the image.
   */
  function EndPoint(p: Particle, s: Scene): Point
  {
    Point(p.point.x + s.bounds.width / 2.0 - (s.imageWidth / 2) as real,
          p.point.y + s.bounds.height / 2.0 - (s.imageHeight / 2) as real)
  }

  /** The rectangle drawn for a particle whose delay has elapsed. */
  function DotOf(p: Particle, s: Scene): Dot
    requires ValidScene(s) && !Waiting(p, s)
  {
    var t, d, target := LocalTime(p, s), TotalDuration(p, s), EndPoint(p, s);
    Dot(p.color, EaseInOutQuad(t, s.begin.x, target.x, d), EaseInOutQuad(t, s.begin.y, target.y, d))
  }

  /** The rectangles one pass draws, in particle order. */
  function Frame(ps: seq<Particle>, s: Scene): seq<Dot>
    requires ValidScene(s)
  {
    if ps == [] then []
    else
      var p := ps[|ps| - 1];
      Frame(ps[..|ps| - 1], s) + (if Waiting(p, s) then [] else [DotOf(p, s)])
  }

  /** The value of `count` at the end of a pass. */
  function ArrivedCount(ps: seq<Particle>, s: Scene): nat
  {
    if ps == [] then 0
    else ArrivedCount(ps[..|ps| - 1], s) + (if Arrived(ps[|ps| - 1], s) then 1 else 0)
  }

  /** The particles whose delay has elapsed, in order. */
  function Visible(ps: seq<Particle>, s: Scene): seq<Particle>
  {
    if ps == [] then []
    else (if Waiting(ps[0], s) then [] else [ps[0]]) + Visible(ps[1..], s)
  }

  // ---------------------------------------------------------------------
  // A whole pass

  lemma {:induction false} VisibleAppend(ps: seq<Particle>, p: Particle, s: Scene)
    ensures Visible(ps + [p], s) == Visible(ps, s) + (if Waiting(p, s) then [] else [p])
  {
    if ps != [] {
      VisibleAppend(ps[1..], p, s);
      assert (ps + [p])[1..] == ps[1..] + [p];
    }
  }

  /**
   * A pass draws one rectangle per particle whose delay has elapsed, in
   * order, and none for the others.
   */
  lemma {:induction false} FrameMatchesVisible(ps: seq<Particle>, s: Scene)
    requires ValidScene(s)
    ensures var frame, shown := Frame(ps, s), Visible(ps, s);
      |frame| == |shown| && forall i :: 0 <= i < |frame| ==> !Waiting(shown[i], s) && frame[i] == DotOf(shown[i], s)
  {
    if ps != [] {
      var init, p := ps[..|ps| - 1], ps[|ps| - 1];
      FrameMatchesVisible(init, s);
      VisibleAppend(init, p, s);
      assert init + [p] == ps;
      assert forall i :: 0 <= i < |Visible(init, s)| ==> !Waiting(Visible(init, s)[i], s);
    } else {
      assert Visible(ps, s) == [];
    }
  }

  /**
   * The count never exceeds the number of particles, and equals it exactly
   * when every particle has arrived: the completion test means "all
   * arrived".
   */
  lemma {:induction false} CompleteIffAllArrived(ps: seq<Particle>, s: Scene)
    ensures ArrivedCount(ps, s) <= |ps|
    ensures ArrivedCount(ps, s) == |ps| <==> forall i :: 0 <= i < |ps| ==> Arrived(ps[i], s)
  {
    if ps != [] {
      var init := ps[..|ps| - 1];
      CompleteIffAllArrived(init, s);
      if ArrivedCount(ps, s) == |ps| {
        assert ArrivedCount(init, s) == |init|;
        forall i | 0 <= i < |ps|
          ensures Arrived(ps[i], s)
        {
          if i < |init| {
            assert ps[i] == init[i];
          }
        }
      }
      if forall i :: 0 <= i < |ps| ==> Arrived(ps[i], s) {
        assert forall i :: 0 <= i < |init| ==> Arrived(init[i], s) by {
          forall i | 0 <= i < |init|
            ensures Arrived(init[i], s)
          {
            assert init[i] == ps[i];
          }
        }
      }
    }
  }

  // ---------------------------------------------------------------------
  // One particle

  /**
   * Once its local time reaches its duration a particle is drawn exactly at
   * its end point; this includes the pass where the time equals the
   * duration, which is drawn there but not yet counted as arrived.
   */
  lemma ArrivedAtEndPoint(p: Particle, s: Scene)
    requires ValidScene(s) && s.time - p.delayTime as real >= TotalDuration(p, s)
    ensures !Waiting(p, s)
    ensures DotOf(p, s).x == EndPoint(p, s).x && DotOf(p, s).y == EndPoint(p, s).y
  {
    var d, target := TotalDuration(p, s), EndPoint(p, s);
    EaseEnd(s.begin.x, target.x, d);
    EaseEnd(s.begin.y, target.y, d);
  }

  /** When its delay has just elapsed, a particle is drawn at the start point. */
  lemma StartsAtBeginPoint(p: Particle, s: Scene)
    requires ValidScene(s) && s.time == p.delayTime as real
    ensures !Waiting(p, s) && DotOf(p, s).x == s.begin.x && DotOf(p, s).y == s.begin.y
  {
    var d, target := TotalDuration(p, s), EndPoint(p, s);
    assert LocalTime(p, s) == 0.0;
    EaseStart(s.begin.x, target.x, d);
    EaseStart(s.begin.y, target.y, d);
  }

  /** A drawn particle is never outside the box spanned by the start point and its end point. */
  lemma DotBetween(p: Particle, s: Scene)
    requires ValidScene(s) && !Waiting(p, s)
    ensures var dot, a, b := DotOf(p, s), s.begin, EndPoint(p, s);
      (a.x <= b.x ==> a.x <= dot.x <= b.x) && (b.x <= a.x ==> b.x <= dot.x <= a.x) &&
      (a.y <= b.y ==> a.y <= dot.y <= b.y) && (b.y <= a.y ==> b.y <= dot.y <= a.y)
  {
    var t, d, target := LocalTime(p, s), TotalDuration(p, s), EndPoint(p, s);
    EaseBetween(t, s.begin.x, target.x, d);
    EaseBetween(t, s.begin.y, target.y, d);
  }

  // ---------------------------------------------------------------------
  // Completion over time

  /**
   * At time 0 no particle has arrived: a pass right after a reset completes
   * only if there are no particles at all.
   */
  lemma {:induction false} NoneArrivedAtStart(ps: seq<Particle>, s: Scene)
    requires ValidScene(s) && s.time == 0.0
    ensures ArrivedCount(ps, s) == 0
    ensures ArrivedCount(ps, s) == |ps| <==> ps == []
  {
    if ps != [] {
      NoneArrivedAtStart(ps[..|ps| - 1], s);
    }
  }

  /**
   * With delays below 30 and 10, every particle has arrived once the clock
   * passes `29 + duration + 9`, so the pass completes.
   */
  lemma AllArrivedLate(ps: seq<Particle>, s: Scene)
    requires ValidScene(s)
    requires forall i :: 0 <= i < |ps| ==> ps[i].delayTime < DelayTimeBound && ps[i].delayDuration < DelayDurationBound
    requires s.time > s.duration + (DelayTimeBound - 1) as real + (DelayDurationBound - 1) as real
    ensures ArrivedCount(ps, s) == |ps|
  {
    forall i | 0 <= i < |ps|
      ensures Arrived(ps[i], s)
    {
      assert ps[i].delayTime as real <= (DelayTimeBound - 1) as real;
      assert ps[i].delayDuration as real <= (DelayDurationBound - 1) as real;
    }
    CompleteIffAllArrived(ps, s);
  }

  /** Arrival is permanent while the clock runs forward. */
  lemma ArrivalPersists(p: Particle, s: Scene, later: real)
    requires Arrived(p, s) && s.time <= later
    ensures Arrived(p, s.(time := later))
  {
  }
}
