/** The frame-stepping animator of shared/display/MatrixR4Display.h. The frames
    an animation runs through come from `animateTo`, which is not part of this
    model, so every operation that starts an animation takes them as input. */
module LedMatrixDisplay {
  import opened LedMatrix

  /** The animator's state: the stored picture, the picture on the LEDs, the
      frame buffer with its count and cursor, whether an animation runs,
      whether the animation task is enabled, and the frames loaded onto the
      LED matrix so far. */
  datatype Animator = Animator(
    current: Value,
    showing: Value,
    frames: seq<Value>,
    frameCount: int,
    frameIndex: int,
    animating: bool,
    taskEnabled: bool,
    loaded: seq<Value>)

  /** The invariant every public operation keeps. */
  predicate Good(a: Animator)
  {
    && 0 <= a.frameIndex <= a.frameCount <= |a.frames|
    && a.animating == a.taskEnabled
    && (a.animating ==> a.frameIndex < a.frameCount)
    && (!a.animating ==> a.showing == a.current)
  }

  /** The state startAnimation leaves: restart the cursor; without frames show the stored
      picture at once, otherwise enable the animation task. */
  function Started(a: Animator, animate: bool, animation: seq<Value>): (b: Animator)
    ensures b.frameIndex == 0 && b.current == a.current
    ensures b.frameCount == if animate then |animation| else 0
    ensures b.frameCount == 0 ==>
      !b.animating && !b.taskEnabled && b.showing == a.current && b.loaded == a.loaded + [a.current]
    ensures b.frameCount > 0 ==>
      b.animating && b.taskEnabled && b.frames == animation && b.showing == a.showing && b.loaded == a.loaded
    ensures Good(b)
  {
    var frames := if animate then animation else a.frames;
    var count := if animate then |animation| else 0;
    if count == 0 then
      a.(frames := frames, frameCount := 0, frameIndex := 0, showing := a.current,
         animating := false, taskEnabled := false, loaded := a.loaded + [a.current])
    else
      a.(frames := frames, frameCount := count, frameIndex := 0, animating := true, taskEnabled := true)
  }

  /** One tick of the animation task. */
  function LoopStep(a: Animator): (b: Animator)
    requires Good(a)
    ensures Good(b)
  {
    if !a.animating then a
    else
      var c := if a.frameIndex < a.frameCount
        then a.(showing := a.frames[a.frameIndex], frameIndex := a.frameIndex + 1,
                loaded := a.loaded + [a.frames[a.frameIndex]])
        else a;
      if c.frameIndex >= c.frameCount
      then c.(showing := c.current, animating := false, taskEnabled := false)
      else c
  }

  /** A tick changes nothing while no animation runs. */
  lemma LoopIdle(a: Animator)
    requires Good(a) && !a.animating
    ensures LoopStep(a) == a
  {
  }

  /** A tick of a running animation moves the cursor by exactly one frame, shows
      and loads that frame or, after the last one, the stored picture, and keeps
      the invariant. */
  lemma LoopAdvances(a: Animator)
    requires Good(a) && a.animating
    ensures Good(LoopStep(a))
    ensures LoopStep(a).frameIndex == a.frameIndex + 1 <= a.frameCount
    ensures LoopStep(a).loaded == a.loaded + [a.frames[a.frameIndex]]
    ensures LoopStep(a).current == a.current && LoopStep(a).frames == a.frames
    ensures LoopStep(a).frameCount == a.frameCount
    ensures LoopStep(a).animating <==> LoopStep(a).frameIndex < a.frameCount
    ensures LoopStep(a).animating ==> LoopStep(a).showing == a.frames[a.frameIndex]
  {
  }

  /** The state after n ticks. */
  function Ticks(a: Animator, n: nat): (b: Animator)
    requires Good(a)
    ensures Good(b)
    decreases n
  {
    if n == 0 then a
    else
      Ticks(LoopStep(a), n - 1)
  }

  /** A running animation ends after exactly as many ticks as frames remain:
      every remaining frame has been loaded in order, the stored picture is
      shown, and the animation task is disabled. */
  lemma {:induction false} AnimationCompletes(a: Animator)
    requires Good(a) && a.animating
    ensures var b := Ticks(a, a.frameCount - a.frameIndex);
      && !b.animating && !b.taskEnabled && b.showing == a.current
      && b.frameIndex == a.frameCount
      && b.loaded == a.loaded + a.frames[a.frameIndex..a.frameCount]
    decreases a.frameCount - a.frameIndex
  {
    var n := a.frameCount - a.frameIndex;
    LoopAdvances(a);
    var c := LoopStep(a);
    if c.animating {
      AnimationCompletes(c);
      assert a.frames[a.frameIndex..a.frameCount] == [a.frames[a.frameIndex]] + a.frames[c.frameIndex..a.frameCount];
    } else {
      assert n == 1;
      assert Ticks(c, 0) == c;
      assert a.frames[a.frameIndex..a.frameCount] == [a.frames[a.frameIndex]];
    }
  }

  /** Before the animation finishes it is still running. */
  lemma {:induction false} AnimationRunsUntilLastFrame(a: Animator, n: nat)
    requires Good(a) && a.animating && n < a.frameCount - a.frameIndex
    ensures Ticks(a, n).animating && Ticks(a, n).frameIndex == a.frameIndex + n
    decreases n
  {
    if n > 0 {
      LoopAdvances(a);
      AnimationRunsUntilLastFrame(LoopStep(a), n - 1);
    }
  }

  class MatrixR4Display {
    const flipY: bool
    const flipX: bool
    const invert: bool
    const animate: bool
    const current: MatrixR4Value
    var showing: Value
    var frames: seq<Value>
    var frameCount: int
    var frameIndex: int
    var animating: bool
    /** Whether the 100 ms animation task is enabled. */
    var taskEnabled: bool
    /** Every picture handed to the LED matrix, in order. */
    var loaded: seq<Value>
    /** Every value written to the display characteristic, in order. */
    var bleWrites: seq<Value>

    ghost function State(): Animator
      reads this, current
    {
      Animator(current.value, showing, frames, frameCount, frameIndex, animating, taskEnabled, loaded)
    }

    ghost predicate Valid()
      reads this, current
    {
      Good(State())
    }

    constructor (flipY: bool, flipX: bool, invert: bool)
      ensures Valid() && fresh(current)
      ensures this.flipY == flipY && this.flipX == flipX && this.invert == invert && animate
      ensures current.value == ALL_OFF && showing == ALL_OFF
      ensures frames == [] && frameCount == 0 && frameIndex == 0
      ensures !animating && !taskEnabled && loaded == []
      // the characteristic is created with _current as its value, which it writes once
      ensures bleWrites == [ALL_OFF]
    {
      this.flipY := flipY;
      this.flipX := flipX;
      this.invert := invert;
      animate := true;
      current := new MatrixR4Value();
      showing := ALL_OFF;
      frames := [];
      frameCount := 0;
      frameIndex := 0;
      animating := false;
      taskEnabled := false;
      loaded := [];
      bleWrites := [ALL_OFF];
    }

    method Begin()
      requires Valid()
      modifies this
      ensures Valid()
      ensures State() == old(State()).(showing := current.value, loaded := old(loaded) + [current.value])
      ensures bleWrites == old(bleWrites)
    {
      showing := current.value;
      loaded := loaded + [showing];
    }

    /** Stores `value` (flipped and inverted as configured); only a change of the
        stored picture writes the characteristic and restarts the animation. */
    method Update(value: Value, writeBLE: bool, animation: seq<Value>)
      requires Valid()
      modifies this, current
      ensures Valid()
      ensures Shows(current.value, value, flipY, flipX, invert)
      ensures current.value == old(current.value) ==> State() == old(State()) && bleWrites == old(bleWrites)
      ensures current.value != old(current.value) ==>
        && State() == Started(old(State()).(current := current.value), animate, animation)
        && bleWrites == old(bleWrites) + if writeBLE then [current.value] else []
    {
      var changed := current.Update(value, flipY, flipX, invert);
      if changed {
        if writeBLE {
          bleWrites := bleWrites + [current.value];
        }
        StartAnimation(animation);
      }
    }

    /** A write to the characteristic from a central: applied without echoing it back. */
    method BleUpdate(value: Value, animation: seq<Value>)
      requires Valid()
      modifies this, current
      ensures Valid()
      ensures Shows(current.value, value, flipY, flipX, invert)
      ensures bleWrites == old(bleWrites)
      ensures current.value == old(current.value) ==> State() == old(State())
      ensures current.value != old(current.value) ==>
        State() == Started(old(State()).(current := current.value), animate, animation)
    {
      Update(value, false, animation);
    }

    method StartAnimation(animation: seq<Value>)
      modifies this
      ensures State() == Started(old(State()), animate, animation)
      ensures bleWrites == old(bleWrites)
    {
      frameCount := 0;
      frameIndex := 0;
      if animate {
        frames := animation;
        frameCount := |animation|;
      }
      if frameCount == 0 {
        showing := current.value;
        animating := false;
        taskEnabled := false;
        loaded := loaded + [showing];
      } else {
        animating := true;
        taskEnabled := true;
      }
    }

    /** The animation task's tick. */
    method Loop()
      requires Valid()
      modifies this
      ensures Valid()
      ensures State() == LoopStep(old(State()))
      ensures bleWrites == old(bleWrites)
    {
      if !animating {
        return;
      }
      if frameIndex < frameCount {
        loaded := loaded + [frames[frameIndex]];
        showing := frames[frameIndex];
        frameIndex := frameIndex + 1;
      }
      if frameIndex >= frameCount {
        showing := current.value;
        animating := false;
        taskEnabled := false;
      }
    }
  }
}
