/** The marketplace metadata sync loop: a failure streak drives a capped, jittered back-off. */
module SyncBackoff {

  datatype Outcome = Succeeded | Skipped | Failed | Crashed {
    /** Only `success` and `skipped` results reset the streak. */
    predicate Resets() {
      Succeeded? || Skipped?
    }
  }

  /** One pass of the loop before the stop event is set: the settings it reads, how the sync
      ends, and the point the random jitter falls on between 0 and its bound. */
  datatype Pass = Pass(interval: real, enabled: bool, outcome: Outcome, jitter: real)

  function Min(a: real, b: real): real {
    if a <= b then a else b
  }

  function Pow2(n: nat): real {
    if n == 0 then 1.0 else 2.0 * Pow2(n - 1)
  }

  /** `min(interval * 2 ** min(streak, 4), interval * 8)` after a failure, else the interval. */
  function BaseDelay(interval: real, streak: nat): real {
    if streak == 0 then interval
    else Min(interval * Pow2(if streak < 4 then streak else 4), interval * 8.0)
  }

  function TotalDelay(interval: real, streak: nat, jitter: real): real {
    var delay := BaseDelay(interval, streak);
    if streak == 0 then delay else delay + jitter * Min(30.0, delay * 0.1)
  }

  /** The sync attempts among the passes: true for those that reset the streak. */
  function Attempts(passes: seq<Pass>): seq<bool> {
    if passes == [] then []
    else
      var init, p := Attempts(passes[..|passes| - 1]), passes[|passes| - 1];
      if p.enabled then init + [p.outcome.Resets()] else init
  }

  /** The last `n` attempts failed, and the one before them, if any, did not. */
  ghost predicate IsStreak(attempts: seq<bool>, n: nat) {
    && n <= |attempts|
    && (forall k :: |attempts| - n <= k < |attempts| ==> !attempts[k])
    && (n < |attempts| ==> attempts[|attempts| - n - 1])
  }

  /** The streak of a list of attempts. */
  function Streak(attempts: seq<bool>): nat {
    if attempts == [] || attempts[|attempts| - 1] then 0 else Streak(attempts[..|attempts| - 1]) + 1
  }

  /** Every list of attempts has exactly one streak. */
  lemma {:induction false} StreakIsUnique(attempts: seq<bool>, n: nat)
    ensures IsStreak(attempts, n) <==> n == Streak(attempts)
  {
    if attempts != [] && !attempts[|attempts| - 1] {
      var init := attempts[..|attempts| - 1];
      if n > 0 {
        StreakIsUnique(init, n - 1);
        assert IsStreak(attempts, n) <==> IsStreak(init, n - 1) by {
          assert forall k :: 0 <= k < |init| ==> attempts[k] == init[k];
        }
      }
    }
  }

  /** What a pass does to the streak: with the feature off nothing, a success or a skip ends it, and
      anything else makes it longer by one. */
  lemma StreakStep(passes: seq<Pass>, p: Pass)
    ensures Streak(Attempts([])) == 0
    ensures Streak(Attempts(passes + [p]))
         == if !p.enabled then Streak(Attempts(passes))
            else if p.outcome == Succeeded || p.outcome == Skipped then 0
            else Streak(Attempts(passes)) + 1
  {
    AttemptsSnoc(passes, p);
    StreakSnoc(Attempts(passes), p.outcome.Resets());
  }

  lemma AttemptsSnoc(passes: seq<Pass>, p: Pass)
    ensures Attempts(passes + [p]) == Attempts(passes) + if p.enabled then [p.outcome.Resets()] else []
  {
    assert (passes + [p])[..|passes|] == passes;
  }

  lemma StreakSnoc(attempts: seq<bool>, reset: bool)
    ensures Streak(attempts + [reset]) == if reset then 0 else Streak(attempts) + 1
  {
    assert (attempts + [reset])[..|attempts|] == attempts;
  }

  /** The loop. Every wait is the back-off for the number of attempts since the last success or
      skip; passes with the feature switched off neither count nor reset. */
  method SyncLoop(passes: seq<Pass>) returns (delays: seq<real>)
    ensures |delays| == |passes|
    ensures forall i :: 0 <= i < |passes| ==>
              delays[i] == TotalDelay(passes[i].interval, Streak(Attempts(passes[..i + 1])), passes[i].jitter)
  {
    delays := [];
    var streak: nat := 0;
    for i := 0 to |passes|
      invariant streak == Streak(Attempts(passes[..i]))
      invariant |delays| == i
      invariant forall j :: 0 <= j < i ==>
                  delays[j] == TotalDelay(passes[j].interval, Streak(Attempts(passes[..j + 1])), passes[j].jitter)
    {
      var p := passes[i];
      streak := NextStreak(passes, i, streak);
      var delay := Wait(p, streak);
      delays := delays + [delay];
    }
  }

  /** The delay computed at the end of a pass. */
  method Wait(p: Pass, streak: nat) returns (delay: real)
    ensures delay == TotalDelay(p.interval, streak, p.jitter)
  {
    delay := p.interval;
    if streak != 0 {
      delay := Min(p.interval * Pow2(if streak < 4 then streak else 4), p.interval * 8.0);
      delay := delay + p.jitter * Min(30.0, delay * 0.1);
    }
  }

  /** The sync attempt of one pass, if the feature is on. */
  method NextStreak(passes: seq<Pass>, i: nat, before: nat) returns (streak: nat)
    requires i < |passes| && before == Streak(Attempts(passes[..i]))
    ensures streak == Streak(Attempts(passes[..i + 1]))
  {
    streak := before;
    assert passes[..i + 1][..i] == passes[..i];
    if passes[i].enabled {
      ghost var attempts := Attempts(passes[..i + 1]);
      assert attempts[..|attempts| - 1] == Attempts(passes[..i]);
      if passes[i].outcome.Resets() {
        streak := 0;
      } else {
        streak := streak + 1;
      }
    }
  }

  lemma Pow2Values()
    ensures Pow2(0) == 1.0 && Pow2(1) == 2.0 && Pow2(2) == 4.0 && Pow2(3) == 8.0 && Pow2(4) == 16.0
  {
    assert Pow2(2) == 2.0 * Pow2(1);
    assert Pow2(3) == 2.0 * Pow2(2);
    assert Pow2(4) == 2.0 * Pow2(3);
  }

  /** The back-off doubles up to eight intervals. For a failing streak this closed form is right
      exactly when the interval is not negative (or the cap is met exactly). */
  lemma BackoffClosedForm(interval: real, streak: nat)
    ensures (BaseDelay(interval, streak) == interval * Pow2(if streak < 3 then streak else 3))
       <==> (interval >= 0.0 || streak == 0 || streak == 3)
  {
    Pow2Values();
  }

  lemma BaseBounds(interval: real, streak: nat, longer: nat)
    requires interval > 0.0 && streak <= longer
    ensures interval <= BaseDelay(interval, streak) <= BaseDelay(interval, longer) <= 8.0 * interval
  {
    Pow2Values();
  }

  lemma JitterBounds(jitter: real, bound: real)
    requires 0.0 <= jitter <= 1.0 && 0.0 <= bound
    ensures 0.0 <= jitter * bound <= bound
  {
    assert (1.0 - jitter) * bound >= 0.0;
  }

  lemma JitteredBounds(interval: real, delay: real, jitter: real)
    requires 0.0 < interval <= delay <= 8.0 * interval && 0.0 <= jitter <= 1.0
    ensures interval <= delay + jitter * Min(30.0, delay * 0.1) <= 8.0 * interval + Min(30.0, 0.8 * interval)
  {
    var bound := Min(30.0, delay * 0.1);
    BoundGrows(interval, delay);
    JitterBounds(jitter, bound);
    WaitBounds(interval, delay, jitter * bound, Min(30.0, 0.8 * interval));
  }

  lemma WaitBounds(interval: real, delay: real, extra: real, most: real)
    requires interval <= delay <= 8.0 * interval && 0.0 <= extra <= most
    ensures interval <= delay + extra <= 8.0 * interval + most
  {
  }

  lemma BoundGrows(interval: real, delay: real)
    requires 0.0 < delay <= 8.0 * interval
    ensures 0.0 <= Min(30.0, delay * 0.1) <= Min(30.0, 0.8 * interval)
  {
  }

  /** The delay never shrinks as the streak grows, is the interval again after a success, and the
      jittered wait lies between the interval and eight intervals plus the jitter bound. */
  lemma BackoffBounds(interval: real, streak: nat, longer: nat, jitter: real)
    requires interval > 0.0 && 0.0 <= jitter <= 1.0 && streak <= longer
    ensures BaseDelay(interval, streak) <= BaseDelay(interval, longer)
    ensures TotalDelay(interval, 0, jitter) == interval
    ensures interval <= TotalDelay(interval, streak, jitter) <= 8.0 * interval + Min(30.0, 0.8 * interval)
  {
    BaseBounds(interval, streak, longer);
    JitteredBounds(interval, BaseDelay(interval, streak), jitter);
  }

  /** A wait is the base delay and, in a failing streak, the jitter's share of a tenth of it, or of 30 s if
      that is less. */
  lemma JitterShare(interval: real, streak: nat, jitter: real)
    ensures streak == 0 ==> TotalDelay(interval, streak, jitter) == interval
    ensures streak > 0 ==>
              var base := BaseDelay(interval, streak);
              TotalDelay(interval, streak, jitter) - base == jitter * (if base <= 300.0 then base / 10.0 else 30.0)
  {
  }
}
