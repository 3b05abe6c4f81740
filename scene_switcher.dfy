/** The timed scene transition of the menu scene: a system that accumulates
    frame time and, once more than its wait time has passed, asks the engine
    to switch to the playable scene. */
module Scene {

  /** A Go `time.Duration`: a whole number of nanoseconds. */
  type Duration = int

  const Second: Duration := 1_000_000_000

  /** `Duration.Seconds()`: the duration as a number of seconds (exact here,
      where Go rounds to a float64). */
  function Seconds(d: Duration): (r: real)
    ensures r * 1_000_000_000.0 == d as real
    ensures 0.0 <= r <==> 0 <= d
  {
    d as real / 1_000_000_000.0
  }

  /** An entity identity, as passed to a system's `Remove`. */
  datatype BasicEntity = BasicEntity(id: nat)

  /** One call of the engine's `SetScene(scene, forceNewWorld)`. */
  datatype SceneRequest = SceneRequest(target: string, forceNewWorld: bool)

  /** The only request the switcher ever issues: the default scene, keeping
      the current world. */
  const SwitchToDefault := SceneRequest("DefaultScene", false)

  /** The menu scene's timer configuration. */
  const MenuNextScene := "DefaultScene"
  const MenuWaitTime: Duration := 3 * Second

  /** What one switcher has done so far: its accumulator and every scene
      request it has issued, oldest first. */
  datatype TimerState = TimerState(secondsWaited: real, requests: seq<SceneRequest>)

  /** A freshly built switcher: nothing waited, nothing requested. */
  const Idle := TimerState(0.0, [])

  /** The frame of length `dt` pushes the accumulator past the wait time. */
  predicate Fires(secondsWaited: real, dt: real, waitTime: Duration) {
    secondsWaited + dt > Seconds(waitTime)
  }

  /** One `Update(dt)`, on values. */
  function Step(s: TimerState, dt: real, waitTime: Duration): (t: TimerState)
    // at most one request per frame, and it is always the default scene
    ensures t.requests == s.requests || t.requests == s.requests + [SwitchToDefault]
    // a request is issued exactly when the accumulated time strictly exceeds the wait
    ensures t.requests != s.requests <==> Fires(s.secondsWaited, dt, waitTime)
    ensures t.requests != s.requests ==> t.secondsWaited == 0.0
    ensures t.requests == s.requests ==> t.secondsWaited == s.secondsWaited + dt
    // whatever the accumulator held before, it never exceeds the wait afterwards
    ensures 0 <= waitTime ==> t.secondsWaited <= Seconds(waitTime)
  {
    var waited := s.secondsWaited + dt;
    if waited > Seconds(waitTime) then
      TimerState(0.0, s.requests + [SwitchToDefault])
    else
      TimerState(waited, s.requests)
  }

  /** Successive `Update` calls with the frame times `dts`, in order. */
  function Run(s: TimerState, dts: seq<real>, waitTime: Duration): (t: TimerState)
    ensures |s.requests| <= |t.requests| <= |s.requests| + |dts|
    ensures t.requests[..|s.requests|] == s.requests
    ensures forall i | |s.requests| <= i < |t.requests| :: t.requests[i] == SwitchToDefault
    ensures (0 <= waitTime && (dts != [] || s.secondsWaited <= Seconds(waitTime)))
            ==> t.secondsWaited <= Seconds(waitTime)
    decreases |dts|
  {
    if dts == [] then s
    else Step(Run(s, dts[..|dts| - 1], waitTime), dts[|dts| - 1], waitTime)
  }

  /** The sum of the frame times. */
  function Total(dts: seq<real>): real
    decreases |dts|
  {
    if dts == [] then 0.0 else Total(dts[..|dts| - 1]) + dts[|dts| - 1]
  }

  /** With no negative frame time, running totals only grow. */
  lemma {:induction false} TotalMonotone(dts: seq<real>, i: nat, k: nat)
    requires i <= k <= |dts|
    requires forall j | 0 <= j < |dts| :: 0.0 <= dts[j]
    ensures Total(dts[..i]) <= Total(dts[..k])
    decreases k
  {
    if i < k {
      TotalMonotone(dts, i, k - 1);
      assert dts[..k][..k - 1] == dts[..k - 1];
    }
  }

  /** Every running total of the first `k` frames, added to `start`, stays
      within the wait. */
  predicate StaysWithin(start: real, dts: seq<real>, k: nat, waitTime: Duration)
    requires k <= |dts|
  {
    forall j | 1 <= j <= k :: start + Total(dts[..j]) <= Seconds(waitTime)
  }

  lemma StaysWithinPrefix(start: real, dts: seq<real>, k: nat, waitTime: Duration)
    requires k <= |dts|
    ensures StaysWithin(start, dts[..k], k, waitTime) <==> StaysWithin(start, dts, k, waitTime)
  {
    assert forall j | 1 <= j <= k :: dts[..k][..j] == dts[..j];
  }

  /** No request is issued over a run of frames exactly when no running total
      (added to the starting accumulator) exceeds the wait; the accumulator
      then holds the starting value plus every frame time. */
  lemma {:induction false} QuietRun(s: TimerState, dts: seq<real>, waitTime: Duration)
    ensures Run(s, dts, waitTime).requests == s.requests
            <==> StaysWithin(s.secondsWaited, dts, |dts|, waitTime)
    ensures Run(s, dts, waitTime).requests == s.requests
            ==> Run(s, dts, waitTime).secondsWaited == s.secondsWaited + Total(dts)
    decreases |dts|
  {
    if dts != [] {
      var n := |dts|;
      var p := dts[..n - 1];
      QuietRun(s, p, waitTime);
      StaysWithinPrefix(s.secondsWaited, dts, n - 1, waitTime);
      assert dts[..n] == dts;
      var mid := Run(s, p, waitTime);
      if mid.requests != s.requests {
        assert |mid.requests| > |s.requests|;
      }
    }
  }

  /** The last frame of `dts` is the one that issues the first request exactly
      when every earlier running total stays within the wait and the full
      total exceeds it; that frame leaves the accumulator at 0 with one more
      request, to the default scene. */
  lemma FirstSwitch(s: TimerState, dts: seq<real>, waitTime: Duration)
    requires dts != []
    ensures (Run(s, dts[..|dts| - 1], waitTime).requests == s.requests
             && Run(s, dts, waitTime).requests != s.requests)
            <==> (StaysWithin(s.secondsWaited, dts, |dts| - 1, waitTime)
                  && s.secondsWaited + Total(dts) > Seconds(waitTime))
    ensures Run(s, dts[..|dts| - 1], waitTime).requests == s.requests
            && Run(s, dts, waitTime).requests != s.requests
            ==> Run(s, dts, waitTime) == TimerState(0.0, s.requests + [SwitchToDefault])
  {
    var n := |dts|;
    var p := dts[..n - 1];
    QuietRun(s, p, waitTime);
    StaysWithinPrefix(s.secondsWaited, dts, n - 1, waitTime);
    assert dts[..n] == dts;
  }

  /** With the menu's configuration and no negative frame time, a fresh
      switcher issues its first request on exactly the frame whose running
      total first exceeds three seconds; that frame issues a single request
      and resets the accumulator. */
  lemma MenuFirstSwitch(dts: seq<real>)
    requires dts != []
    requires forall i | 0 <= i < |dts| :: 0.0 <= dts[i]
    ensures (Run(Idle, dts[..|dts| - 1], MenuWaitTime).requests == []
             && Run(Idle, dts, MenuWaitTime).requests != [])
            <==> Total(dts[..|dts| - 1]) <= 3.0 < Total(dts)
    ensures Total(dts[..|dts| - 1]) <= 3.0 < Total(dts)
            ==> Run(Idle, dts, MenuWaitTime) == TimerState(0.0, [SwitchToDefault])
  {
    var n := |dts|;
    assert Seconds(MenuWaitTime) == 3.0;
    FirstSwitch(Idle, dts, MenuWaitTime);
    assert dts[..n] == dts;
    forall j | 1 <= j <= n - 1 ensures Total(dts[..j]) <= Total(dts[..n - 1]) {
      TotalMonotone(dts, j, n - 1);
    }
    assert StaysWithin(0.0, dts, n - 1, MenuWaitTime) <==> Total(dts[..n - 1]) <= 3.0;
  }

  /** `SceneSwitcherSystem`: the configuration `nextScene` and `waitTime`, and
      the accumulator `secondsWaited`, which only `Update` changes. Scene
      requests the engine receives are recorded in `switches`. */
  class SceneSwitcherSystem {
    var nextScene: string
    var waitTime: Duration
    var secondsWaited: real
    ghost var switches: seq<SceneRequest>

    ghost function State(): TimerState
      reads this
    {
      TimerState(secondsWaited, switches)
    }

    /** The accumulator is within the wait, whenever the wait is not negative. */
    ghost predicate WithinWait()
      reads this
    {
      0 <= waitTime ==> secondsWaited <= Seconds(waitTime)
    }

    /** A struct literal: the accumulator starts at its zero value. */
    constructor (nextScene: string, waitTime: Duration)
      ensures this.nextScene == nextScene && this.waitTime == waitTime
      ensures State() == Idle
      ensures 0 <= waitTime ==> WithinWait()
    {
      this.nextScene := nextScene;
      this.waitTime := waitTime;
      secondsWaited := 0.0;
      switches := [];
    }

    /** Systems with higher priority run first; this one has priority 1. */
    method Priority() returns (p: int)
      ensures p == 1
    {
      p := 1;
    }

    /** The switcher tracks no entities, so removing one changes nothing. */
    method Remove(e: BasicEntity)
      ensures unchanged(this)
    {
    }

    method Update(dt: real)
      modifies this`secondsWaited, this`switches
      ensures State() == Step(old(State()), dt, waitTime)
      ensures nextScene == old(nextScene) && waitTime == old(waitTime)
      ensures Fires(old(secondsWaited), dt, waitTime) ==>
                secondsWaited == 0.0 && switches == old(switches) + [SwitchToDefault]
      ensures !Fires(old(secondsWaited), dt, waitTime) ==>
                secondsWaited == old(secondsWaited) + dt && switches == old(switches)
      ensures WithinWait()
    {
      secondsWaited := secondsWaited + dt;
      if secondsWaited > Seconds(waitTime) {
        secondsWaited := 0.0;
        switches := switches + [SwitchToDefault];
      }
    }
  }

  /** The switcher that `MenuScene.Setup` registers with the world. */
  method NewMenuSwitcher() returns (s: SceneSwitcherSystem)
    ensures fresh(s)
    ensures s.nextScene == MenuNextScene && s.waitTime == MenuWaitTime
    ensures s.State() == Idle && s.WithinWait()
  {
    s := new SceneSwitcherSystem(MenuNextScene, MenuWaitTime);
  }

  /** A client of the contracts above: frames of 1 s, 2 s, 0.01 s and 1 s
      after the menu starts. Reaching exactly 3 s does not switch; the frame
      that passes it switches once and restarts the count. */
  method MenuTimeline() {
    var s := NewMenuSwitcher();
    s.Update(1.0);
    s.Update(2.0);
    assert s.secondsWaited == 3.0 && s.switches == [];
    s.Update(0.01);
    assert s.secondsWaited == 0.0 && s.switches == [SwitchToDefault];
    s.Update(1.0);
    assert s.switches == [SwitchToDefault];
  }
}
