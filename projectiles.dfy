/**
 * The cats in flight (script.js:137-175): how one is spawned, how one update moves it,
 * scores its hit once, and removes it a second after the hit.
 */
module Projectiles {

  datatype Option<T> = None | Some(value: T)

  /** Added to a projectile's progress on every update (script.js:151). */
  const Step: real := 0.05

  /** Milliseconds a hit projectile stays on screen before it is removed (script.js:171). */
  const Linger: int := 1000

  /**
   * A cat in flight. `steps` counts the updates it has had, so its progress is
   * `Progress(steps)`; `x`, `y` is where it was last placed. The origin is not stored:
   * each update recomputes it from the current frame's size (script.js:153-154).
   */
  datatype Projectile = Projectile(
    x: real, y: real,
    targetX: real, targetY: real,
    steps: nat,
    hitTime: Option<int>)

  /** The value of `progress` after `steps` additions of Step. */
  function Progress(steps: nat): real {
    steps as real * Step
  }

  /** The hit test `p.progress >= 1` (script.js:164). */
  predicate Reached(steps: nat) {
    Progress(steps) >= 1.0
  }

  /** Once a projectile has reached its target it stays there: more steps never undo it. */
  lemma ReachedMonotone(j: nat, k: nat)
    requires j <= k && Reached(j)
    ensures Reached(k)
  {
    assert Progress(k) == Progress(j) + (k - j) as real * Step;
  }

  /**
   * `p.hitTime` read as a JavaScript condition (script.js:164, 171): an absent hit time
   * and a hit time of 0 are both false.
   */
  predicate HasHit(p: Projectile) {
    p.hitTime.Some? && p.hitTime.value != 0
  }

  /** `(1 - t) * a + t * b`, the interpolation of script.js:153-154. */
  function Lerp(a: real, b: real, t: real): real {
    (1.0 - t) * a + t * b
  }

  /** Sign of a product; with it LerpBetween avoids a nonlinear step that is fragile across solver seeds. */
  lemma ProductNonNegative(u: real, v: real)
    requires u >= 0.0 && v >= 0.0
    ensures u * v >= 0.0
  {
  }

  /** For 0 <= t <= 1 the interpolated point lies between the two ends. */
  lemma LerpBetween(a: real, b: real, t: real)
    requires 0.0 <= t <= 1.0
    ensures a <= b ==> a <= Lerp(a, b, t) <= b
    ensures b <= a ==> b <= Lerp(a, b, t) <= a
  {
    // Written out in linear steps: a shorter proof of this lemma is not stable across solver seeds.
    var d := b - a;
    assert Lerp(a, b, t) == a + t * d;
    assert t * d + (1.0 - t) * d == d;
    if a <= b {
      ProductNonNegative(t, d);
      ProductNonNegative(1.0 - t, d);
    } else {
      ProductNonNegative(t, -d);
      ProductNonNegative(1.0 - t, -d);
      assert t * (-d) == -(t * d);
      assert (1.0 - t) * (-d) == -((1.0 - t) * d);
    }
  }

  /** The object shootCat pushes: at the bottom centre of the frame, aimed at the target (script.js:138-144). */
  function Spawn(targetX: real, targetY: real, width: real, height: real): Projectile {
    Projectile(width / 2.0, height, targetX, targetY, 0, None)
  }

  /** A spawned projectile starts where the interpolation of its first update starts, unhit. */
  lemma SpawnAtOrigin(targetX: real, targetY: real, width: real, height: real)
    ensures var p := Spawn(targetX, targetY, width, height);
            Progress(p.steps) == 0.0 && !HasHit(p) &&
            p.x == Lerp(width / 2.0, targetX, Progress(p.steps)) &&
            p.y == Lerp(height, targetY, Progress(p.steps))
  {
  }

  /** Whether the update of p scores a hit: progress reaches 1 and no hit is recorded (script.js:164). */
  predicate ScoresOnUpdate(p: Projectile) {
    Reached(p.steps + 1) && !HasHit(p)
  }

  /** What one loop iteration does to p before its removal test (script.js:150-169). */
  function Advance(p: Projectile, now: int, width: real, height: real): Projectile {
    var steps := p.steps + 1;
    var t := Progress(steps);
    Projectile(
      Lerp(width / 2.0, p.targetX, t), Lerp(height, p.targetY, t),
      p.targetX, p.targetY,
      steps,
      if Reached(steps) && !HasHit(p) then Some(now) else p.hitTime)
  }

  /**
   * An update raises progress by exactly Step, also after the hit; it places the cat on
   * the line from the frame's bottom centre to its target, which it never changes.
   */
  lemma AdvanceMoves(p: Projectile, now: int, width: real, height: real)
    ensures var q := Advance(p, now, width, height);
            Progress(q.steps) == Progress(p.steps) + Step &&
            q.targetX == p.targetX && q.targetY == p.targetY &&
            q.x == Lerp(width / 2.0, p.targetX, Progress(q.steps)) &&
            q.y == Lerp(height, p.targetY, Progress(q.steps)) &&
            (Progress(q.steps) == 1.0 ==> q.x == p.targetX && q.y == p.targetY) &&
            (Progress(q.steps) <= 1.0 ==>
               (width / 2.0 <= p.targetX ==> width / 2.0 <= q.x <= p.targetX) &&
               (p.targetX <= width / 2.0 ==> p.targetX <= q.x <= width / 2.0) &&
               (height <= p.targetY ==> height <= q.y <= p.targetY) &&
               (p.targetY <= height ==> p.targetY <= q.y <= height))
  {
    var q := Advance(p, now, width, height);
    if Progress(q.steps) <= 1.0 {
      LerpBetween(width / 2.0, p.targetX, Progress(q.steps));
      LerpBetween(height, p.targetY, Progress(q.steps));
    }
  }

  /**
   * Hits are edge-triggered: a projectile already hit is never scored again and keeps
   * its hit time; one that scores now records `now` as its hit time.
   */
  lemma HitIsEdgeTriggered(p: Projectile, now: int, width: real, height: real)
    ensures var q := Advance(p, now, width, height);
            (HasHit(p) ==> !ScoresOnUpdate(p) && q.hitTime == p.hitTime) &&
            (ScoresOnUpdate(p) ==> q.hitTime == Some(now)) &&
            (ScoresOnUpdate(p) && now != 0 ==> HasHit(q)) &&
            (!ScoresOnUpdate(p) ==> q.hitTime == p.hitTime)
  {
  }

  /** The removal test of script.js:171, made after the projectile has been advanced. */
  predicate Expired(q: Projectile, now: int) {
    HasHit(q) && now - q.hitTime.value > Linger
  }

  /** A recorded hit implies the projectile has reached its target. */
  predicate HitAfterReach(p: Projectile) {
    HasHit(p) ==> Reached(p.steps)
  }

  /**
   * Updates keep `HitAfterReach`, so a projectile is only ever removed after its
   * progress reached 1 and more than Linger milliseconds passed since its hit.
   */
  lemma RemovedOnlyAfterReachAndLinger(p: Projectile, now: int, width: real, height: real)
    requires HitAfterReach(p)
    ensures HitAfterReach(Advance(p, now, width, height))
    ensures Expired(Advance(p, now, width, height), now) ==>
              Reached(Advance(p, now, width, height).steps) &&
              now - Advance(p, now, width, height).hitTime.value > Linger
  {
    if HasHit(p) {
      ReachedMonotone(p.steps, p.steps + 1);
    }
  }

  /** The list one call of updateProjectiles leaves behind (script.js:148-175). */
  function Update(ps: seq<Projectile>, now: int, width: real, height: real): seq<Projectile> {
    if ps == [] then []
    else
      var q := Advance(ps[0], now, width, height);
      (if Expired(q, now) then [] else [q]) + Update(ps[1..], now, width, height)
  }

  /** The number of hits one call of updateProjectiles scores (script.js:164-166). */
  function NewHits(ps: seq<Projectile>): (n: nat)
    ensures n <= |ps|
  {
    if ps == [] then 0
    else (if ScoresOnUpdate(ps[0]) then 1 else 0) + NewHits(ps[1..])
  }

  /** Every projectile advanced once, in place. */
  function AdvanceAll(ps: seq<Projectile>, now: int, width: real, height: real): seq<Projectile> {
    seq(|ps|, i requires 0 <= i < |ps| => Advance(ps[i], now, width, height))
  }

  /** The projectiles that are not expired, in their original order. */
  function RemoveExpired(qs: seq<Projectile>, now: int): (r: seq<Projectile>)
    ensures |r| <= |qs|
    ensures forall q :: q in r <==> q in qs && !Expired(q, now)
  {
    if qs == [] then []
    else (if Expired(qs[0], now) then [] else [qs[0]]) + RemoveExpired(qs[1..], now)
  }

  /** Removal keeps the survivors' relative order: it distributes over concatenation. */
  lemma {:induction false} RemoveExpiredAppend(a: seq<Projectile>, b: seq<Projectile>, now: int)
    ensures RemoveExpired(a + b, now) == RemoveExpired(a, now) + RemoveExpired(b, now)
  {
    if a == [] {
      assert a + b == b;
    } else {
      assert (a + b)[0] == a[0];
      assert (a + b)[1..] == a[1..] + b;
      RemoveExpiredAppend(a[1..], b, now);
    }
  }

  /** When nothing has expired, nothing is removed. */
  lemma {:induction false} NothingExpiredKeepsAll(qs: seq<Projectile>, now: int)
    requires forall i :: 0 <= i < |qs| ==> !Expired(qs[i], now)
    ensures RemoveExpired(qs, now) == qs
  {
    if qs != [] {
      NothingExpiredKeepsAll(qs[1..], now);
    }
  }

  /**
   * One update advances every projectile and then drops exactly the expired ones, the
   * others keeping their relative order: the reverse loop with `splice` skips nobody.
   */
  lemma {:induction false} UpdateIsAdvanceThenRemove(ps: seq<Projectile>, now: int, width: real, height: real)
    ensures Update(ps, now, width, height) == RemoveExpired(AdvanceAll(ps, now, width, height), now)
  {
    if ps != [] {
      var all := AdvanceAll(ps, now, width, height);
      assert all[1..] == AdvanceAll(ps[1..], now, width, height);
      UpdateIsAdvanceThenRemove(ps[1..], now, width, height);
    }
  }

  /** Projectiles are updated independently of one another. */
  lemma {:induction false} UpdateAppend(a: seq<Projectile>, b: seq<Projectile>, now: int, width: real, height: real)
    ensures Update(a + b, now, width, height) == Update(a, now, width, height) + Update(b, now, width, height)
  {
    if a == [] {
      assert a + b == b;
    } else {
      assert (a + b)[0] == a[0];
      assert (a + b)[1..] == a[1..] + b;
      UpdateAppend(a[1..], b, now, width, height);
      var q := Advance(a[0], now, width, height);
      var head := if Expired(q, now) then [] else [q];
      assert Update(a + b, now, width, height) == head + Update(a[1..] + b, now, width, height);
      assert Update(a, now, width, height) == head + Update(a[1..], now, width, height);
    }
  }

  /** The hits of one update add up over the projectiles. */
  lemma {:induction false} NewHitsAppend(a: seq<Projectile>, b: seq<Projectile>)
    ensures NewHits(a + b) == NewHits(a) + NewHits(b)
  {
    if a == [] {
      assert a + b == b;
    } else {
      assert (a + b)[0] == a[0];
      assert (a + b)[1..] == a[1..] + b;
      NewHitsAppend(a[1..], b);
    }
  }

  /** A projectile spawned this frame survives its first update and does not score in it. */
  lemma FirstUpdateOfSpawn(targetX: real, targetY: real, width: real, height: real, now: int)
    ensures var p := Spawn(targetX, targetY, width, height);
            Update([p], now, width, height) == [Advance(p, now, width, height)] &&
            NewHits([p]) == 0
  {
    var p := Spawn(targetX, targetY, width, height);
    assert !Reached(1);
    assert [p][1..] == [];
  }

  /** The hits a single projectile scores over a run of updates at the given times (ignoring its removal). */
  function HitsAlong(p: Projectile, nows: seq<int>, width: real, height: real): nat
    decreases |nows|
  {
    if nows == [] then 0
    else (if ScoresOnUpdate(p) then 1 else 0) + HitsAlong(Advance(p, nows[0], width, height), nows[1..], width, height)
  }

  /** A projectile whose hit is recorded never scores again. */
  lemma {:induction false} NoHitAfterHit(p: Projectile, nows: seq<int>, width: real, height: real)
    requires HasHit(p)
    ensures HitsAlong(p, nows, width, height) == 0
    decreases |nows|
  {
    if nows != [] {
      NoHitAfterHit(Advance(p, nows[0], width, height), nows[1..], width, height);
    }
  }

  /** With a clock that never reads 0, no projectile scores more than once. */
  lemma {:induction false} AtMostOneHit(p: Projectile, nows: seq<int>, width: real, height: real)
    requires forall i :: 0 <= i < |nows| ==> nows[i] != 0
    ensures HitsAlong(p, nows, width, height) <= 1
    decreases |nows|
  {
    if nows != [] {
      var q := Advance(p, nows[0], width, height);
      if ScoresOnUpdate(p) {
        NoHitAfterHit(q, nows[1..], width, height);
      } else {
        AtMostOneHit(q, nows[1..], width, height);
      }
    }
  }

  /**
   * A projectile that has not reached its target yet (a fresh spawn, say) scores exactly
   * one hit over a run of updates if its progress reaches 1 during the run, and none otherwise.
   */
  lemma {:induction false} ExactlyOneHitOnReach(p: Projectile, nows: seq<int>, width: real, height: real)
    requires forall i :: 0 <= i < |nows| ==> nows[i] != 0
    requires HasHit(p) || !Reached(p.steps)
    ensures HitsAlong(p, nows, width, height) ==
              if !HasHit(p) && Reached(p.steps + |nows|) then 1 else 0
    decreases |nows|
  {
    if nows == [] {
    } else {
      var q := Advance(p, nows[0], width, height);
      if HasHit(p) {
        NoHitAfterHit(q, nows[1..], width, height);
      } else if ScoresOnUpdate(p) {
        NoHitAfterHit(q, nows[1..], width, height);
        ReachedMonotone(p.steps + 1, p.steps + |nows|);
      } else {
        ExactlyOneHitOnReach(q, nows[1..], width, height);
      }
    }
  }
}
