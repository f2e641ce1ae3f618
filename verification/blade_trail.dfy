/** The blade trail of `useBladeTrail`: a buffer of recent pointer positions, capped at 20
    points and faded out over 200 ms, plus the `isSlashing` flag. A point's alpha is not
    stored; it is derived from the point's age whenever it is needed, which is what the source
    recomputes on every update. */
module BladeTrail {
  import opened Common

  datatype TrailPoint = TrailPoint(x: real, y: real, timestamp: int)

  const MaxTrailPoints: nat := 20
  const TrailMaxAgeMs: nat := 200

  /** `max(0, 1 - (now - timestamp) / maxAge)`: the point's opacity; positive exactly while the
      point is younger than `maxAge`, and 1 when it is brand new. */
  function Alpha(p: TrailPoint, now: int, maxAge: nat): (a: real)
    requires maxAge > 0
    ensures a >= 0.0
    ensures a > 0.0 <==> now - p.timestamp < maxAge
    ensures now == p.timestamp ==> a == 1.0
  {
    var age := (now - p.timestamp) as real;
    var m := maxAge as real;
    var raw := 1.0 - age / m;
    BelowOne(age, m);
    if raw > 0.0 then raw else 0.0
  }

  lemma BelowOne(a: real, m: real)
    requires m > 0.0
    ensures 1.0 - a / m > 0.0 <==> a < m
  {
    var q := a / m;
    assert q * m == a;
    if q < 1.0 {
      assert q * m < 1.0 * m;
    } else {
      assert q * m >= 1.0 * m;
    }
  }

  /** The points whose alpha is still positive, in their original order. */
  function Fade(points: seq<TrailPoint>, now: int, maxAge: nat): (r: seq<TrailPoint>)
    requires maxAge > 0
    ensures |r| <= |points|
  {
    Filter(points, p => Alpha(p, now, maxAge) > 0.0)
  }

  /** Fading keeps exactly the points younger than `maxAge`, adds none, and keeps each kept
      point as often as it occurred. */
  lemma FadeKeepsYoung(points: seq<TrailPoint>, now: int, maxAge: nat)
    requires maxAge > 0
    ensures forall p :: p in Fade(points, now, maxAge) ==> p in points && now - p.timestamp < maxAge
    ensures forall p :: p in points && now - p.timestamp < maxAge ==> p in Fade(points, now, maxAge)
    ensures forall p :: p in points && now - p.timestamp < maxAge ==>
              multiset(Fade(points, now, maxAge))[p] == multiset(points)[p]
  {
  }

  /** Fading twice at the same instant is fading once. */
  lemma FadeIdempotent(points: seq<TrailPoint>, now: int, maxAge: nat)
    requires maxAge > 0
    ensures Fade(Fade(points, now, maxAge), now, maxAge) == Fade(points, now, maxAge)
  {
    FilterIdempotent(points, p => Alpha(p, now, maxAge) > 0.0);
  }

  /** Fading the trail after appending to it is fading the two parts separately: the order of
      the surviving points never changes. */
  lemma FadeAppend(a: seq<TrailPoint>, b: seq<TrailPoint>, now: int, maxAge: nat)
    requires maxAge > 0
    ensures Fade(a + b, now, maxAge) == Fade(a, now, maxAge) + Fade(b, now, maxAge)
  {
    FilterAppend(a, b, p => Alpha(p, now, maxAge) > 0.0);
  }

  /** `push` followed by one `shift` when the buffer went over `cap`. */
  function PushBounded(trail: seq<TrailPoint>, p: TrailPoint, cap: nat): (r: seq<TrailPoint>)
    requires cap > 0
    ensures |trail| <= cap ==> |r| <= cap
    ensures 0 < |r| <= |trail| + 1 && r[|r| - 1] == p
    ensures |trail| < cap ==> r == trail + [p]
    ensures |trail| == cap ==> r == trail[1..] + [p]
    ensures forall i :: 0 <= i < |r| - 1 ==> r[i] == trail[|trail| - (|r| - 1) + i]
  {
    var pushed := trail + [p];
    if |pushed| > cap then pushed[1..] else pushed
  }

  /** The trail as `useBladeTrail` keeps it: the buffer behind `trailRef` and the slashing flag. */
  class Trail {
    var points: seq<TrailPoint>
    var isSlashing: bool

    ghost predicate Valid()
      reads this
    {
      |points| <= MaxTrailPoints
    }

    constructor ()
      ensures Valid() && points == [] && !isSlashing
    {
      points := [];
      isSlashing := false;
    }

    /** `addTrailPoint(x, y, timestamp)`: appends a new point (alpha 1) and drops the oldest
        when the trail goes over 20 points. */
    method AddTrailPoint(x: real, y: real, timestamp: int)
      requires Valid()
      modifies this
      ensures Valid()
      ensures points == PushBounded(old(points), TrailPoint(x, y, timestamp), MaxTrailPoints)
      ensures Alpha(points[|points| - 1], timestamp, TrailMaxAgeMs) == 1.0
      ensures isSlashing == old(isSlashing)
    {
      points := points + [TrailPoint(x, y, timestamp)];
      if |points| > MaxTrailPoints {
        points := points[1..];
      }
    }

    /** `updateTrail()` at time `now`: drops every point 200 ms old or older. */
    method UpdateTrail(now: int)
      requires Valid()
      modifies this
      ensures Valid()
      ensures points == Fade(old(points), now, TrailMaxAgeMs)
      ensures isSlashing == old(isSlashing)
    {
      points := Fade(points, now, TrailMaxAgeMs);
    }

    /** `clearTrail()`. */
    method ClearTrail()
      modifies this
      ensures Valid() && points == [] && isSlashing == old(isSlashing)
    {
      points := [];
    }

    /** `startSlashing()`: a new gesture starts with an empty trail. */
    method StartSlashing()
      modifies this
      ensures Valid() && isSlashing && points == []
    {
      isSlashing := true;
      ClearTrail();
    }

    /** `stopSlashing()`: the trail is left to fade out on its own. */
    method StopSlashing()
      modifies this
      ensures !isSlashing && points == old(points)
    {
      isSlashing := false;
    }
  }
}
