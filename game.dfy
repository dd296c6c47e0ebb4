/**
 * The game's module-level state and everything that changes it (script.js:9-16,
 * 49-98, 101-175, 184-196, 238-245): the per-frame detection step with its global fire
 * gate, the countdown, the session timer, and the start, end and restart transitions.
 * Every firing of a browser timer and every animation frame is one method call; the
 * clock reading `Date.now()` and the frame's size are parameters.
 */
module Game {
  import opened Anchor
  import opened Projectiles

  /** Minimum milliseconds between two shots, over all people in view (script.js:14). */
  const Cooldown: int := 2000

  /** The countdown starts at this number (script.js:54). */
  const CountdownStart: int := 3

  /** Seconds of play (script.js:88). */
  const SessionLength: int := 30

  /** Shots aim this far above the anchor (script.js:126). */
  const AimAbove: real := 80.0

  /** The fire gate of script.js:125: strictly more than Cooldown since the last shot. */
  predicate CanFire(now: int, lastShotTime: int) {
    now - lastShotTime > Cooldown
  }

  /**
   * The times at which the gate fires over a run of frames that each reach it (a
   * running game and a confident anchor), starting from `last` as the last shot time.
   */
  function ShotTimes(last: int, nows: seq<int>): seq<int>
    decreases |nows|
  {
    if nows == [] then []
    else if CanFire(nows[0], last) then [nows[0]] + ShotTimes(nows[0], nows[1..])
    else ShotTimes(last, nows[1..])
  }

  /**
   * The cooldown is strict: the first shot comes more than Cooldown after `last`, and
   * each later one more than Cooldown after the shot before it. Shots are frames of the run.
   */
  lemma {:induction false} ShotsAreSpaced(last: int, nows: seq<int>)
    ensures var shots := ShotTimes(last, nows);
            |shots| <= |nows| &&
            (forall t :: t in shots ==> t in nows) &&
            (shots != [] ==> shots[0] - last > Cooldown) &&
            (forall i :: 0 < i < |shots| ==> shots[i] - shots[i - 1] > Cooldown)
    decreases |nows|
  {
    if nows != [] {
      if CanFire(nows[0], last) {
        ShotsAreSpaced(nows[0], nows[1..]);
      } else {
        ShotsAreSpaced(last, nows[1..]);
      }
    }
  }

  /** The last shot time after the given shots, starting from `last`. */
  function LastShot(last: int, shots: seq<int>): int {
    if shots == [] then last else shots[|shots| - 1]
  }

  /**
   * Frame by frame, the gate fires exactly when the frame comes more than Cooldown after
   * the last shot so far: the single `lastShotTime` of script.js:125-127, for every
   * person in view alike.
   */
  lemma {:induction false} GateFollowsLastShot(last: int, nows: seq<int>, t: int)
    ensures ShotTimes(last, nows + [t]) ==
              ShotTimes(last, nows) +
              (if CanFire(t, LastShot(last, ShotTimes(last, nows))) then [t] else [])
    decreases |nows|
  {
    if nows == [] {
      assert [] + [t] == [t];
      assert [t][1..] == [];
    } else {
      assert (nows + [t])[0] == nows[0];
      assert (nows + [t])[1..] == nows[1..] + [t];
      if CanFire(nows[0], last) {
        GateFollowsLastShot(nows[0], nows[1..], t);
        var rest := ShotTimes(nows[0], nows[1..]);
        assert LastShot(last, [nows[0]] + rest) == LastShot(nows[0], rest);
      } else {
        GateFollowsLastShot(last, nows[1..], t);
      }
    }
  }

  /** Frames 0, 500 and 1000 ms after a first shot are refused; 2500 ms after it a second shot fires. */
  lemma CooldownScenario(last: int, t: int)
    requires t - last > Cooldown
    ensures ShotTimes(last, [t, t + 500, t + 1000, t + 2500]) == [t, t + 2500]
  {
    assert [t, t + 500, t + 1000, t + 2500][1..] == [t + 500, t + 1000, t + 2500];
    assert [t + 500, t + 1000, t + 2500][1..] == [t + 1000, t + 2500];
    assert [t + 1000, t + 2500][1..] == [t + 2500];
    assert [t + 2500][1..] == [];
    assert ShotTimes(t + 2500, []) == [];
    assert ShotTimes(t, [t + 2500]) == [t + 2500];
    assert ShotTimes(t, [t + 1000, t + 2500]) == [t + 2500];
    assert ShotTimes(t, [t + 500, t + 1000, t + 2500]) == [t + 2500];
  }

  /** The timeout the countdown is waiting for, if any (script.js:65, 73-80). */
  datatype CountdownTimer =
    | NoTimer
    | TickDue     // `setTimeout(doCountdown, 1000)` is pending
    | FinishDue   // the 1200 ms timeout that starts the game is pending

  /** The session's phase, read off the state. */
  datatype Phase = Idle | Countdown | Running | Ended

  class Game {
    var score: nat
    var projectiles: seq<Projectile>
    var lastShotTime: int
    var gameRunning: bool
    var countdownActive: bool
    /** The countdown's `count` (script.js:54). */
    var count: int
    /** The session timer's `timeLeft` (script.js:88). */
    var timeLeft: int
    /** The interval of startTimer is installed and not yet cleared. */
    var timerRunning: bool
    var countdownTimer: CountdownTimer
    /** The start button is shown and not disabled, so a click on it reaches startCountdown. */
    var startEnabled: bool
    /** The end screen with its restart button is shown. */
    var restartShown: bool
    /** Timer ticks since the game started. */
    ghost var timerTicks: nat

    ghost function Phase(): Phase
      reads this
    {
      if countdownActive then Countdown
      else if gameRunning then Running
      else if restartShown then Ended
      else Idle
    }

    /**
     * Exactly one of the four phases holds, each with its own controls: the start button
     * in Idle, the countdown's timeout in Countdown, the interval in Running, the restart
     * button in Ended.
     */
    ghost predicate Valid()
      reads this
    {
      && (startEnabled <==> Phase() == Idle)
      && (countdownActive ==> !gameRunning && !restartShown)
      && (gameRunning ==> !restartShown)
      && (countdownActive <==> countdownTimer != NoTimer)
      && (countdownTimer == TickDue ==> 0 <= count < CountdownStart)
      && (countdownTimer == FinishDue ==> count == 0)
      && (timerRunning <==> gameRunning)
      && (gameRunning ==> 1 <= timeLeft <= SessionLength && timeLeft == SessionLength - timerTicks)
    }

    /** The state when the page has loaded (script.js:10-15). */
    constructor ()
      ensures Valid() && Phase() == Idle
      ensures score == 0 && projectiles == [] && lastShotTime == 0
    {
      score := 0;
      projectiles := [];
      lastShotTime := 0;
      gameRunning := false;
      countdownActive := false;
      count := 0;
      timeLeft := 0;
      timerRunning := false;
      countdownTimer := NoTimer;
      startEnabled := true;
      restartShown := false;
      timerTicks := 0;
    }

    /**
     * A click on the start button (script.js:256), which runs startCountdown
     * (script.js:50-58, 83). A click while the button is hidden or disabled does nothing,
     * and neither does a request while a countdown is active.
     */
    method PressStart()
      requires Valid()
      modifies this
      ensures Valid()
      ensures !old(startEnabled) || old(countdownActive) ==> unchanged(this)
      ensures old(startEnabled) && !old(countdownActive) ==>
                Phase() == Countdown && !startEnabled &&
                count == CountdownStart - 1 && countdownTimer == TickDue &&
                score == old(score) && projectiles == old(projectiles) &&
                lastShotTime == old(lastShotTime) && timeLeft == old(timeLeft)
    {
      if !startEnabled || countdownActive {
        return;
      }
      countdownActive := true;
      count := CountdownStart;
      startEnabled := false;
      DoCountdown();
    }

    /**
     * doCountdown (script.js:59-82): while `count` is positive, decrement it and wait a
     * second for the next call; at 0, wait for the timeout that starts the game.
     */
    method DoCountdown()
      requires countdownActive && 0 <= count <= CountdownStart
      modifies this`count, this`countdownTimer
      ensures old(count) > 0 ==> count == old(count) - 1 && countdownTimer == TickDue
      ensures old(count) == 0 ==> count == 0 && countdownTimer == FinishDue
    {
      if count > 0 {
        count := count - 1;
        countdownTimer := TickDue;
      } else {
        countdownTimer := FinishDue;
      }
    }

    /** The pending `setTimeout(doCountdown, 1000)` fires (script.js:65). */
    method CountdownTimeout()
      requires Valid() && countdownTimer == TickDue
      modifies this
      ensures Valid() && Phase() == Countdown
      ensures old(count) > 0 ==> count == old(count) - 1 && countdownTimer == TickDue
      ensures old(count) == 0 ==> count == 0 && countdownTimer == FinishDue
      ensures score == old(score) && projectiles == old(projectiles)
      ensures lastShotTime == old(lastShotTime) && timeLeft == old(timeLeft)
    {
      DoCountdown();
    }

    /**
     * The countdown's last timeout fires (script.js:73-80): the countdown is over and the
     * game starts.
     */
    method CountdownFinish()
      requires Valid() && countdownTimer == FinishDue
      modifies this
      ensures Valid() && Phase() == Running
      ensures !countdownActive && countdownTimer == NoTimer
      ensures score == 0 && projectiles == [] && gameRunning
      ensures timeLeft == SessionLength && timerTicks == 0
      ensures lastShotTime == old(lastShotTime)
    {
      countdownActive := false;
      countdownTimer := NoTimer;
      StartGame();
    }

    /**
     * startGame with startTimer (script.js:185-192, 87-89): the score and the projectiles
     * are reset, the game runs and the timer starts at SessionLength. The time of the last
     * shot is kept.
     */
    method StartGame()
      requires !startEnabled && !countdownActive && !restartShown
      requires countdownTimer == NoTimer && !timerRunning
      modifies this
      ensures Valid() && Phase() == Running
      ensures score == 0 && projectiles == [] && gameRunning && timerRunning
      ensures timeLeft == SessionLength && timerTicks == 0
      ensures lastShotTime == old(lastShotTime)
      ensures countdownActive == old(countdownActive) && count == old(count)
      ensures startEnabled == old(startEnabled) && restartShown == old(restartShown)
      ensures countdownTimer == old(countdownTimer)
    {
      score := 0;
      projectiles := [];
      gameRunning := true;
      timeLeft := SessionLength;
      timerRunning := true;
      timerTicks := 0;
    }

    /**
     * One firing of the session timer's interval (script.js:90-97): a second less; the
     * tick that brings it to 0 clears the interval and ends the game. So the game ends on
     * exactly the SessionLength-th tick after it started.
     */
    method TimerTick()
      requires Valid() && timerRunning
      modifies this
      ensures Valid()
      ensures timeLeft == old(timeLeft) - 1 && timerTicks == old(timerTicks) + 1
      ensures gameRunning <==> timerTicks < SessionLength
      ensures Phase() == if gameRunning then Running else Ended
      ensures score == old(score) && projectiles == old(projectiles)
      ensures lastShotTime == old(lastShotTime)
    {
      timeLeft := timeLeft - 1;
      timerTicks := timerTicks + 1;
      if timeLeft <= 0 {
        timerRunning := false;
        EndGame();
      }
    }

    /**
     * endGame (script.js:194-196, 237-238): the game stops and the restart button is
     * shown. The projectiles in flight are kept, and frames still update them.
     */
    method EndGame()
      requires !startEnabled && !countdownActive && countdownTimer == NoTimer
      modifies this`gameRunning, this`timerRunning, this`restartShown
      ensures Valid() && Phase() == Ended
      ensures !gameRunning && !timerRunning && restartShown
    {
      gameRunning := false;
      timerRunning := false;
      restartShown := true;
    }

    /**
     * A click on the restart button (script.js:239-244): back to Idle with a zero score, no
     * projectiles and the start button enabled.
     */
    method Restart()
      requires Valid() && restartShown
      modifies this
      ensures Valid() && Phase() == Idle
      ensures score == 0 && projectiles == [] && startEnabled && !restartShown
      ensures lastShotTime == old(lastShotTime) && timeLeft == old(timeLeft)
    {
      restartShown := false;
      score := 0;
      projectiles := [];
      startEnabled := true;
    }

    /** shootCat (script.js:137-145): one projectile appended; the others stay as they were. */
    method ShootCat(targetX: real, targetY: real, width: real, height: real)
      modifies this`projectiles
      ensures projectiles == old(projectiles) + [Spawn(targetX, targetY, width, height)]
    {
      projectiles := projectiles + [Spawn(targetX, targetY, width, height)];
    }

    /**
     * updateProjectiles (script.js:148-175): walking the list from the back, advance each
     * projectile in place, score its hit once, and splice it out when it has lingered
     * long enough.
     */
    method UpdateProjectiles(now: int, width: real, height: real)
      modifies this`projectiles, this`score
      ensures projectiles == Update(old(projectiles), now, width, height)
      ensures score == old(score) + NewHits(old(projectiles))
    {
      ghost var ps := projectiles;
      var i := |projectiles| - 1;
      while i >= 0
        invariant -1 <= i < |ps|
        invariant projectiles == ps[..i + 1] + Update(ps[i + 1..], now, width, height)
        invariant score == old(score) + NewHits(ps[i + 1..])
        decreases i
      {
        assert projectiles[i] == ps[i];
        var p := projectiles[i];
        p := p.(steps := p.steps + 1);
        p := p.(x := Lerp(width / 2.0, p.targetX, Progress(p.steps)),
                y := Lerp(height, p.targetY, Progress(p.steps)));
        if Reached(p.steps) && !HasHit(p) {
          p := p.(hitTime := Some(now));
          score := score + 1;
        }
        assert p == Advance(ps[i], now, width, height);
        projectiles := projectiles[i := p];
        if HasHit(p) && now - p.hitTime.value > Linger {
          projectiles := projectiles[..i] + projectiles[i + 1..];
        }
        assert ps[i..][0] == ps[i] && ps[i..][1..] == ps[i + 1..];
        assert ps[..i + 1][..i] == ps[..i];
        i := i - 1;
      }
      assert ps[0..] == ps;
    }

    /**
     * One pass of detectLoop (script.js:101-134). The anchor of the first pose is aimed
     * at; a running game whose cooldown has passed shoots at 80 units above it. A frame
     * whose first pose has no confident keypoint stops there and advances nothing;
     * otherwise the projectiles are updated, whether or not the game is running.
     */
    method Frame(poses: seq<Pose>, now: int, width: real, height: real) returns (fired: bool)
      requires Valid()
      modifies this`projectiles, this`score, this`lastShotTime
      ensures Valid()
      ensures var aim := FrameAim(poses);
              fired == (aim.Centre? && gameRunning && CanFire(now, old(lastShotTime)))
      ensures lastShotTime == if fired then now else old(lastShotTime)
      ensures FrameAim(poses).NoConfidentKeypoint? ==>
                projectiles == old(projectiles) && score == old(score)
      ensures !FrameAim(poses).NoConfidentKeypoint? ==>
                var aim := FrameAim(poses);
                projectiles ==
                  Update(old(projectiles), now, width, height) +
                  (if fired then [Advance(Spawn(aim.x, aim.y - AimAbove, width, height), now, width, height)]
                   else []) &&
                score == old(score) + NewHits(old(projectiles))
    {
      fired := false;
      var aim := FrameAim(poses);
      if aim.NoConfidentKeypoint? {
        return;
      }
      if aim.Centre? && gameRunning {
        if now - lastShotTime > Cooldown {
          ShootCat(aim.x, aim.y - AimAbove, width, height);
          lastShotTime := now;
          fired := true;
        }
      }
      ghost var before := projectiles;
      UpdateProjectiles(now, width, height);
      if fired {
        var s := Spawn(aim.x, aim.y - AimAbove, width, height);
        UpdateAppend(old(projectiles), [s], now, width, height);
        NewHitsAppend(old(projectiles), [s]);
        FirstUpdateOfSpawn(aim.x, aim.y - AimAbove, width, height, now);
      }
    }
  }

  /**
   * A whole session from a fresh page: start, three countdown timeouts and the final
   * one, SessionLength timer ticks, restart.
   */
  method SessionLifecycle()
  {
    var g := new Game();
    g.PressStart();
    assert g.Phase() == Countdown && g.count == 2;
    g.PressStart();
    assert g.count == 2;
    g.CountdownTimeout();
    g.CountdownTimeout();
    assert g.count == 0 && g.countdownTimer == TickDue;
    g.CountdownTimeout();
    g.CountdownFinish();
    assert g.Phase() == Running && g.score == 0 && g.timeLeft == SessionLength;
    var tick := 1;
    while tick < SessionLength
      invariant g.Valid() && 1 <= tick <= SessionLength
      invariant g.gameRunning && g.timerTicks == tick - 1
      decreases SessionLength - tick
    {
      g.TimerTick();
      tick := tick + 1;
    }
    assert g.timeLeft == 1;
    g.TimerTick();
    assert g.Phase() == Ended;
    g.Restart();
    assert g.Phase() == Idle && g.score == 0 && g.projectiles == [];
  }
}
