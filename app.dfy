/**
 * The control logic of `App` (`src/app.cpp`, `src/app.h`): the reward-based
 * initialisation, the early exit of `exec`, the frame counter behind the
 * FPS display, the enum-to-string lookup used for debug messages, and the
 * lookup of the `App` that owns a window.
 *
 * The GLFW and OpenGL initialisation stages, the clock and the window are
 * outside the model: a stage is represented by whether it succeeds, the
 * clock by the millisecond reading passed to `ShowFps`, a window by an
 * object compared by identity.
 */
module Application {
  import opened StringView

  // ---------------------------------------------------------------------
  // init / exec
  // ---------------------------------------------------------------------

  /** What `initGLFW` and `initOpenGL` return: 1 on success, -1 on failure. */
  function StageResult(ok: bool): int { if ok then 1 else -1 }

  datatype Stage = GLFW | OpenGL

  /**
   * One run of `init(currentReward)`: its result, the stages it called in
   * order, and how many invocations of `init` the run took.
   */
  datatype InitRun = InitRun(result: int, calls: seq<Stage>, depth: nat)

  /**
   * `init(currentReward)`: a reward above 1 means done (3), a reward of 1
   * runs the OpenGL stage worth 2, a reward of 0 runs the GLFW stage worth
   * 1, and a negative reward means failure (0).
   */
  function Init(currentReward: int, glfwOk: bool, openGLOk: bool): InitRun
    decreases if currentReward == 0 then 2 else if currentReward == 1 then 1 else 0
  {
    if 1 < currentReward then InitRun(3, [], 1)
    else if 0 < currentReward then
      var rest := Init(currentReward + 2 * StageResult(openGLOk), glfwOk, openGLOk);
      InitRun(rest.result, [OpenGL] + rest.calls, rest.depth + 1)
    else if -1 < currentReward then
      var rest := Init(currentReward + StageResult(glfwOk), glfwOk, openGLOk);
      InitRun(rest.result, [GLFW] + rest.calls, rest.depth + 1)
    else InitRun(0, [], 1)
  }

  /** A reward above 1 returns 3 and one at or below -1 returns 0, without calling a stage. */
  lemma InitBoundaries(currentReward: int, glfwOk: bool, openGLOk: bool)
    ensures 1 < currentReward ==> Init(currentReward, glfwOk, openGLOk) == InitRun(3, [], 1)
    ensures currentReward <= -1 ==> Init(currentReward, glfwOk, openGLOk) == InitRun(0, [], 1)
  {
  }

  /**
   * From `init(0)`: the result is 3 exactly when both stages succeed and 0
   * otherwise; GLFW is initialised first, OpenGL only after GLFW succeeded;
   * and there are at most three invocations of `init`.
   */
  lemma InitFromZero(glfwOk: bool, openGLOk: bool)
    ensures var r := Init(0, glfwOk, openGLOk);
      (r.result == 3 <==> glfwOk && openGLOk) && (r.result == 0 <==> !(glfwOk && openGLOk)) &&
      r.calls == (if glfwOk then [GLFW, OpenGL] else [GLFW]) && r.depth <= 3
  {
    var r := Init(0, glfwOk, openGLOk);
    if glfwOk {
      var r1 := Init(1, glfwOk, openGLOk);
      assert r1.calls == [OpenGL];
      assert r.calls == [GLFW] + r1.calls;
    } else {
      assert r.calls == [GLFW] + [];
    }
  }

  /**
   * The early exit of `exec`: -1 when `init()` yields 0; otherwise the
   * render loop runs (not modelled) and `exec` returns 0.
   */
  function Exec(glfwOk: bool, openGLOk: bool): (r: int)
  {
    if Init(0, glfwOk, openGLOk).result == 0 then -1 else 0
  }

  /** `exec` fails exactly when one of the two stages fails. */
  lemma ExecFailsIffInitFails(glfwOk: bool, openGLOk: bool)
    ensures Exec(glfwOk, openGLOk) == -1 <==> !(glfwOk && openGLOk)
    ensures Exec(glfwOk, openGLOk) == 0 <==> glfwOk && openGLOk
  {
    InitFromZero(glfwOk, openGLOk);
  }

  // ---------------------------------------------------------------------
  // showFPS
  // ---------------------------------------------------------------------

  /** 2^32: `frameCount` is an `unsigned int`. */
  const UINT_MOD: int := 0x1_0000_0000

  /**
   * The static state of `showFPS`: the frame counter and the instant, in
   * milliseconds, its timer was last reset.
   */
  class FpsCounter {
    var frameCount: int
    var timerStart: int

    predicate Valid()
      reads this
    {
      0 <= frameCount < UINT_MOD
    }

    /** The statics as first initialised: the timer started at `now`, no frames counted. */
    constructor (now: int)
      ensures Valid() && frameCount == 0 && timerStart == now
    {
      frameCount := 0;
      timerStart := now;
    }

    /**
     * One call of `showFPS` at time `now`: once at least 1000 ms have passed
     * since the timer was reset, the frame rate is shown and the counter and
     * timer restart; in every case the frame is then counted, wrapping
     * around at 2^32.
     */
    method ShowFps(now: int) returns (shown: Option<real>)
      requires Valid()
      modifies this
      ensures Valid()
      ensures now - old(timerStart) >= 1000 ==>
        shown == Some((old(frameCount) as real) * 1000.0 / ((now - old(timerStart)) as real)) &&
        frameCount == 1 && timerStart == now
      ensures now - old(timerStart) < 1000 ==>
        shown == None && frameCount == (old(frameCount) + 1) % UINT_MOD && timerStart == old(timerStart)
    {
      var elapsed := now - timerStart;
      shown := None;
      if elapsed >= 1000 {
        shown := Some((frameCount as real) * 1000.0 / (elapsed as real));
        frameCount := 0;
        timerStart := now;
      }
      frameCount := (frameCount + 1) % UINT_MOD;
    }
  }

  // ---------------------------------------------------------------------
  // enumToString
  // ---------------------------------------------------------------------

  /** An OpenGL enumeration value (`GLenum`, an unsigned 32-bit integer). */
  type GLenum = x: int | 0 <= x < UINT_MOD

  /** `std::pair<GLenum, std::string>`. */
  type ESPair = (GLenum, string)

  /** The name of the first pair whose key is `arg`, or `"UNDEFINED"` when there is none. */
  function Lookup(arg: GLenum, params: seq<ESPair>): string
  {
    if |params| == 0 then "UNDEFINED"
    else if params[0].0 == arg then params[0].1
    else Lookup(arg, params[1..])
  }

  /**
   * `Lookup` returns the name of the lowest-index pair whose key is `arg`,
   * and `"UNDEFINED"` when no key is `arg`.
   */
  lemma {:induction false} LookupFirstMatch(arg: GLenum, params: seq<ESPair>)
    ensures (forall i :: 0 <= i < |params| ==> params[i].0 != arg) ==> Lookup(arg, params) == "UNDEFINED"
    ensures forall i :: (0 <= i < |params| && params[i].0 == arg &&
      (forall j :: 0 <= j < i ==> params[j].0 != arg)) ==> Lookup(arg, params) == params[i].1
  {
    if |params| > 0 {
      LookupFirstMatch(arg, params[1..]);
      forall i | 0 <= i < |params| && params[i].0 == arg && (forall j :: 0 <= j < i ==> params[j].0 != arg)
        ensures Lookup(arg, params) == params[i].1
      {
        if i > 0 {
          assert params[1..][i - 1] == params[i];
          forall j | 0 <= j < i - 1 ensures params[1..][j].0 != arg {
            assert params[1..][j] == params[j + 1];
          }
        }
      }
      if forall i :: 0 <= i < |params| ==> params[i].0 != arg {
        forall i | 0 <= i < |params| - 1 ensures params[1..][i].0 != arg {
          assert params[1..][i] == params[i + 1];
        }
      }
    }
  }

  /**
   * `"UNDEFINED"` signals a missing key exactly when no pair itself carries
   * the name `"UNDEFINED"`; otherwise the two cases look alike.
   */
  lemma {:induction false} UndefinedIffAbsent(arg: GLenum, params: seq<ESPair>)
    requires forall i :: 0 <= i < |params| ==> params[i].1 != "UNDEFINED"
    ensures Lookup(arg, params) == "UNDEFINED" <==> forall i :: 0 <= i < |params| ==> params[i].0 != arg
  {
    if |params| > 0 {
      UndefinedIffAbsent(arg, params[1..]);
      assert forall i :: 0 <= i < |params| - 1 ==> params[1..][i] == params[i + 1];
    }
  }

  /** The array overload: scans the pairs in order and returns at the first key equal to `arg`. */
  method EnumToString(arg: GLenum, params: seq<ESPair>) returns (name: string)
    ensures name == Lookup(arg, params)
  {
    var i := 0;
    while i < |params|
      invariant 0 <= i <= |params|
      invariant Lookup(arg, params) == Lookup(arg, params[i..])
    {
      assert params[i..][1..] == params[i + 1..];
      if params[i].0 == arg {
        return params[i].1;
      }
      i := i + 1;
    }
    return "UNDEFINED";
  }

  /** The variadic overload: packs its arguments into an array and calls the array overload. */
  method EnumToStringPacked(arg: GLenum, params: seq<ESPair>) returns (name: string)
    ensures name == Lookup(arg, params)
  {
    name := EnumToString(arg, params);
  }

  // ---------------------------------------------------------------------
  // AppSingleton
  // ---------------------------------------------------------------------

  /** A GLFW window, known only by its identity. */
  class Window {
    constructor () {}
  }

  /** The part of `App` the lookup reads: the handle of its window. */
  class App {
    var wp: Window?

    constructor (wp: Window?)
      ensures this.wp == wp
    {
      this.wp := wp;
    }
  }

  /** Whether `inst` is an instance owning window `wp`. */
  predicate Owns(inst: App?, wp: Window?)
    reads inst
  {
    inst != null && inst.wp != null && inst.wp == wp
  }

  /** The registry of `App` instances. */
  class AppSingleton {
    var instances: seq<App?>

    constructor ()
      ensures instances == []
    {
      instances := [];
    }

    /**
     * `find(wp)`: the first instance, in order, that is non-null and whose
     * non-null window is `wp`; `null` when there is none, in particular
     * when `wp` is null.
     */
    method Find(wp: Window?) returns (r: App?)
      ensures r == null <==> forall i :: 0 <= i < |instances| ==> !Owns(instances[i], wp)
      ensures r != null ==> exists i :: (0 <= i < |instances| && instances[i] == r && Owns(r, wp) &&
        forall j :: 0 <= j < i ==> !Owns(instances[j], wp))
      ensures wp == null ==> r == null
    {
      for i := 0 to |instances|
        invariant forall j :: 0 <= j < i ==> !Owns(instances[j], wp)
      {
        var inst := instances[i];
        if inst != null && inst.wp != null && inst.wp == wp {
          return inst;
        }
      }
      return null;
    }

    /** `getInstances()`: a copy of the registered instances; nothing changes. */
    method GetInstances() returns (r: seq<App?>)
      ensures r == instances
    {
      r := instances;
    }
  }
}
