# Scene switch timer of the engo character demo

The demo opens on a menu scene. That scene registers a `SceneSwitcherSystem`
with its world. The system waits three seconds and then moves the game to
the playable `DefaultScene`. This project models that timer in Dafny and
proves what it does:

- On every `Update(dt)` the system adds the frame time `dt` to its
  accumulator `secondsWaited`.
- When the accumulator is strictly greater than `WaitTime` in seconds, the
  system resets it to 0 and calls `engo.SetScene(&DefaultScene{}, false)`.

`scene_switcher.dfy` holds one module, `Scene`, named after the Go package.
It has three layers:

- `SceneSwitcherSystem` is a class with the source's fields. Its `Update`
  method changes `secondsWaited` in place. Each `engo.SetScene` call is
  appended to a ghost log, `switches`, as a `SceneRequest(target,
  forceNewWorld)`.
- `Step` and `Run` state the same behaviour on values. `Step` is one
  update. `Run` is a sequence of updates over a list of frame times.
  `Update`'s postcondition is `State() == Step(old(State()), dt, waitTime)`,
  so what is proved about `Run` holds for successive `Update` calls.
- Lemmas about `Run` cover the frames before the first switch and the
  frame that switches, for any configuration. `MenuFirstSwitch` covers the
  menu's own configuration.

`time.Duration` is an integer number of nanoseconds, as in Go, and
`Seconds` converts it exactly. Frame times and the accumulator are `real`.

## Model

| member | source | states |
|---|---|---|
| `Scene.Seconds` | scene/menu.go:89 | `Duration.Seconds()`: the result times 10^9 is the nanosecond count, and it is non-negative exactly when the duration is |
| `Scene.Step` | scene/menu.go:87-97 | one update: a request is added iff `secondsWaited + dt > WaitTime` (so reaching exactly `WaitTime` does not fire); it is then the only request added, it targets `DefaultScene` without forcing a new world, and the accumulator becomes 0; otherwise the accumulator becomes `secondsWaited + dt` and nothing is requested; with a non-negative wait the accumulator never exceeds it afterwards |
| `Scene.Run` | scene/menu.go:87-97 | successive updates: earlier requests are kept, at most one request per frame is added, every added request targets `DefaultScene`, and the accumulator stays within a non-negative wait |
| `Scene.TotalMonotone` | scene/menu.go:88 | with no negative frame time, the running total of frame times only grows |
| `Scene.QuietRun` | scene/menu.go:88-90 | no request over a run of frames iff every running total, added to the starting accumulator, stays within the wait; the accumulator then holds the start plus every frame time |
| `Scene.FirstSwitch` | scene/menu.go:87-97 | the last frame issues the first request iff every earlier running total stays within the wait and the full total exceeds it; that frame adds exactly one request, to `DefaultScene`, and leaves the accumulator at 0 |
| `Scene.MenuFirstSwitch` | scene/menu.go:33-36 | for the menu's switcher (3 s, fresh) and non-negative frame times, the first request comes on exactly the frame whose running total first exceeds 3 s; that frame leaves one request in total and the accumulator at 0 |
| `Scene.SceneSwitcherSystem.constructor` | scene/menu.go:78-82 | the struct literal: the given `NextScene` and `WaitTime`, the accumulator at its zero value, no request yet |
| `Scene.SceneSwitcherSystem.Priority` | scene/menu.go:84 | the system's priority is 1 |
| `Scene.SceneSwitcherSystem.Remove` | scene/menu.go:85 | removing an entity changes nothing |
| `Scene.SceneSwitcherSystem.Update` | scene/menu.go:87-97 | the new accumulator and switch log are `Step` of the old ones; `NextScene` and `WaitTime` are unchanged; fire and no-fire cases spelled out; the accumulator is within a non-negative wait afterwards |
| `Scene.NewMenuSwitcher` | scene/menu.go:33-36 | the menu registers a fresh switcher with `NextScene` "DefaultScene", a 3-second `WaitTime` and an empty accumulator |

`Scene.MenuTimeline` is a client of these contracts. It checks that reaching
exactly 3 s does not switch, that the frame passing 3 s switches once, and
that the next frame does not switch again.

## Left out

- `MenuScene.Preload` and the asset, texture, background and render-system
  wiring in `MenuScene.Setup` (scene/menu.go:22-65). These are calls into the
  engine whose code is not part of this model. Only the timer configuration
  of `Setup` is modelled, by `NewMenuSwitcher`.
- `Hide`, `Show`, `Type` and the `log.Println` calls (scene/menu.go:67-75, 95).
  They only log or return a name.
- `main.go`. It only fills in the window options and calls `engo.Run`.
- `engo.SetScene` itself, meaning scene teardown and world replacement. Each
  call is only recorded in the ghost log `switches`. So the model does not
  show the switcher being discarded with the menu scene after it fires. A
  later update, had it happened, would start counting again from 0.
- `Scene.SceneSwitcherSystem.Update`: does not model the `float32`
  accumulator and the `float64` comparison. Time is exact `real`
  arithmetic, so rounding of frame times is not captured.
- `Scene.Seconds`: rounding of `Duration.Seconds()` to a `float64` is not
  modelled. The conversion is exact.
- The engine's frame loop, which calls `Update` once per frame, is not part of
  this model. `Run` stands for it.
- `NextScene` is stored but takes no part in the switch: the source only
  prints it. The request always targets `DefaultScene`, whatever
  `NextScene` holds. `Update` has no parameter through which it could
  matter.
