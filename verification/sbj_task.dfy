/** The periodic task of shared/PinIO/SBJTask.h, for both build back-ends: on
    ESP32 every task is a FreeRTOS task whose entry routine runs the timed
    loop; elsewhere each task is handed to the TaskScheduler library. The
    FreeRTOS calls the entry routine makes become a trace of events. */
module SbjTask {
  import opened Common

  const FOREVER: int := -1
  const DEFAULT_TASK_NAME: string := "SBJTask"

  /** What a task does at run time, in order. */
  datatype Event = Call | Delay(ticks: u32) | Yield | Delete | Execute

  datatype LoopBehavior = LoopYield | LoopDelayTicks | LoopDelayMs

  datatype TaskPriority = Low | Medium | High

  function PriorityValue(p: TaskPriority): u8
  {
    match p
    case Low => 1
    case Medium => 2
    case High => 3
  }

  /** The timing template parameters. */
  datatype Timing = Timing(intervalMs: u32, iterations: i32, startDelayMs: u32)

  /** TimingTraits only compiles for FOREVER or a positive iteration count. */
  type TimingTraits = t: Timing | t.iterations == FOREVER || t.iterations > 0
    witness Timing(1, FOREVER, 0)

  const DEFAULT_TIMING: TimingTraits := Timing(1, FOREVER, 0)

  /** The FreeRTOS tick configuration: portTICK_PERIOD_MS is 1000 / configTICK_RATE_HZ. */
  type TickRate = hz: int | 1 <= hz <= 1000 witness 1000

  function TickPeriodMs(rate: TickRate): (p: int)
    ensures 1 <= p <= 1000
  {
    1000 / rate
  }

  /** msToTicks exactly as written: the addition is done in uint32_t. */
  function MsToTicksAsWritten(ms: u32, period: int): (t: u32)
    requires 1 <= period <= 1000
  {
    if ms == 0 then 0 else Wrap32(ms + period - 1) / period
  }

  /** The intended conversion: milliseconds rounded up to whole ticks, 0 staying 0. */
  function MsToTicks(ms: u32, period: int): (t: u32)
    requires 1 <= period <= 1000
    ensures ms == 0 ==> t == 0
    ensures ms > 0 ==> t >= 1 && t * period >= ms && (t - 1) * period < ms
  {
    if ms == 0 then 0 else (ms + period - 1) / period
  }

  /** Both agree whenever the uint32_t addition does not wrap. */
  lemma MsToTicksAgrees(ms: u32, period: int)
    requires 1 <= period <= 1000 && ms + period - 1 < TWO_32
    ensures MsToTicksAsWritten(ms, period) == MsToTicks(ms, period)
  {
  }

  /** With a 10 ms tick the largest millisecond count wraps to 0 ticks. */
  lemma MsToTicksAsWrittenWraps()
    ensures MsToTicksAsWritten(0xFFFF_FFFF, 10) == 0
    ensures MsToTicks(0xFFFF_FFFF, 10) == 429496730
  {
  }

  /** pdMS_TO_TICKS, FreeRTOS's own truncating conversion (32-bit ticks). */
  function PdMsToTicks(ms: u32, rate: TickRate): u32
  {
    Wrap32(ms * rate) / 1000
  }

  /** SBJTask::loop<Behavior, Param>: what the calling loop does between passes. */
  function Loop(behavior: LoopBehavior, param: u32, freeRtos: bool, rate: TickRate): (e: Event)
    ensures !freeRtos <==> e == Execute
    ensures freeRtos && behavior == LoopYield ==> e == Yield
    ensures freeRtos && behavior == LoopDelayTicks ==> e == Delay(if param == 0 then 1 else param)
    ensures freeRtos && behavior == LoopDelayMs ==> e == Delay(PdMsToTicks(if param == 0 then 1 else param, rate))
  {
    if !freeRtos then Execute
    else match behavior
      case LoopYield => Yield
      case LoopDelayTicks => Delay(if param == 0 then 1 else param)
      case LoopDelayMs => Delay(PdMsToTicks(if param == 0 then 1 else param, rate))
  }

  /** A tick delay never asks for zero ticks. */
  lemma LoopDelayTicksNeverZero(param: u32, rate: TickRate)
    ensures Loop(LoopDelayTicks, param, true, rate) != Delay(0)
  {
  }

  // ---------------------------------------------------------------------
  // FreeRTOS back-end

  /** Which Invoker the entry routine was instantiated with. */
  datatype Invoker = RuntimeFn0 | Member

  /** The entry function pointer: espEntry<Timing, Invoker>. */
  datatype Entry = Entry(timing: TimingTraits, invoker: Invoker)

  /** Invoker::init: a plain function needs fn0, a member method needs its object. */
  predicate InitOk(invoker: Invoker, fn0: Addr, arg: Addr)
  {
    match invoker
    case RuntimeFn0 => fn0 != NULL
    case Member => arg != NULL
  }

  /** The fields bindEntry(a, f) assigns. */
  datatype Binding = Binding(fn0: Addr, arg: Addr, entry: Entry)

  function Bind(a: Addr, f: Addr, timing: TimingTraits, invoker: Invoker): (b: Binding)
    ensures b.fn0 == f && b.arg == a && b.entry == Entry(timing, invoker)
  {
    Binding(f, a, Entry(timing, invoker))
  }

  /** The member-method constructor as written: `bindEntry(nullptr, obj)`
      puts the object where the function goes. */
  function MemberBindingAsWritten(obj: Addr, timing: TimingTraits): Binding
  {
    Bind(NULL, obj, timing, Member)
  }

  /** The binding the descriptor constructor makes, and the member-method
      constructor evidently intends: `bindEntry(obj, nullptr)`. */
  function MemberBinding(obj: Addr, timing: TimingTraits): Binding
  {
    Bind(obj, NULL, timing, Member)
  }

  /** As written, a member-method task never calls its method. */
  lemma MemberBindingAsWrittenNeverCalls(obj: Addr, timing: TimingTraits)
    requires obj != NULL
    ensures var b := MemberBindingAsWritten(obj, timing);
      !InitOk(b.entry.invoker, b.fn0, b.arg)
  {
  }

  /** The intended binding passes init exactly when there is an object. */
  lemma MemberBindingCalls(obj: Addr, timing: TimingTraits)
    ensures var b := MemberBinding(obj, timing);
      InitOk(b.entry.invoker, b.fn0, b.arg) <==> obj != NULL
  {
  }

  /** The wait between calls: a yield for 0 ticks, a delay otherwise. */
  function Wait(ticks: u32): (e: Event)
    ensures e == Yield || e == Delay(ticks)
    ensures e != Call && e != Delete
  {
    if ticks == 0 then Yield else Delay(ticks)
  }

  /** n rounds of call-then-wait. */
  function Rounds(n: nat, wait: Event): (r: seq<Event>)
    ensures |r| == 2 * n
  {
    if n == 0 then [] else Rounds(n - 1, wait) + [Call, wait]
  }

  /** k calls with a wait between consecutive calls and none after the last. */
  function Calls(k: nat, wait: Event): (r: seq<Event>)
  {
    if k == 0 then [] else Rounds(k - 1, wait) + [Call]
  }

  /** The trace of one task's entry routine. For FOREVER the routine never
      returns, so the trace is the prefix after `rounds` turns of its loop. */
  function EntryTrace(ok: bool, timing: TimingTraits, period: int, rounds: nat): seq<Event>
    requires 1 <= period <= 1000
  {
    if !ok then [Delete]
    else
      var start := Wait(MsToTicksAsWritten(timing.startDelayMs, period));
      var wait := Wait(MsToTicksAsWritten(timing.intervalMs, period));
      if timing.iterations == FOREVER then [start] + Rounds(rounds, wait)
      else [start] + Calls(timing.iterations as nat, wait) + [Delete]
  }

  /** Whenever neither conversion wraps, the routine waits the intended
      ceiling: the start delay and the interval rounded up to whole ticks. */
  lemma EntryTraceWaitsCeiling(timing: TimingTraits, period: int, rounds: nat)
    requires 1 <= period <= 1000
    requires timing.startDelayMs + period - 1 < TWO_32 && timing.intervalMs + period - 1 < TWO_32
    ensures var start := Wait(MsToTicks(timing.startDelayMs, period));
      var wait := Wait(MsToTicks(timing.intervalMs, period));
      EntryTrace(true, timing, period, rounds) ==
        if timing.iterations == FOREVER then [start] + Rounds(rounds, wait)
        else [start] + Calls(timing.iterations as nat, wait) + [Delete]
  {
    MsToTicksAgrees(timing.startDelayMs, period);
    MsToTicksAgrees(timing.intervalMs, period);
  }

  /** With a 10 ms tick, an interval of 0xFFFFFFFF ms wraps to 0 ticks, so a
      two-call task yields between its calls instead of delaying 429496730 ticks. */
  lemma WrappedIntervalYields()
    ensures EntryTrace(true, Timing(0xFFFF_FFFF, 2, 0), 10, 0) == [Yield, Call, Yield, Call, Delete]
    ensures Wait(MsToTicks(0xFFFF_FFFF, 10)) == Delay(429496730)
  {
    MsToTicksAsWrittenWraps();
    assert Calls(2, Yield) == [Call, Yield, Call];
  }

  function Count(trace: seq<Event>, e: Event): nat
  {
    if |trace| == 0 then 0 else Count(trace[..|trace| - 1], e) + (if trace[|trace| - 1] == e then 1 else 0)
  }

  lemma {:induction false} CountAppend(a: seq<Event>, b: seq<Event>, e: Event)
    ensures Count(a + b, e) == Count(a, e) + Count(b, e)
    decreases |b|
  {
    if |b| == 0 {
      assert a + b == a;
    } else {
      assert (a + b)[..|a + b| - 1] == a + b[..|b| - 1];
      CountAppend(a, b[..|b| - 1], e);
    }
  }

  lemma CountShort(x: Event, y: Event, e: Event)
    ensures Count([x], e) == if x == e then 1 else 0
    ensures Count([x, y], e) == Count([x], e) + (if y == e then 1 else 0)
  {
    assert [x][..0] == [];
    assert [x, y][..1] == [x];
  }

  /** n rounds hold n calls and n waits, alternating, and never a delete. */
  lemma {:induction false} RoundsShape(n: nat, wait: Event)
    requires wait != Call && wait != Delete
    ensures Count(Rounds(n, wait), Call) == n
    ensures Count(Rounds(n, wait), wait) == n
    ensures Count(Rounds(n, wait), Delete) == 0
    ensures forall i | 0 <= i < 2 * n :: Rounds(n, wait)[i] == if i % 2 == 0 then Call else wait
  {
    if n > 0 {
      RoundsShape(n - 1, wait);
      CountAppend(Rounds(n - 1, wait), [Call, wait], Call);
      CountAppend(Rounds(n - 1, wait), [Call, wait], wait);
      CountAppend(Rounds(n - 1, wait), [Call, wait], Delete);
      CountShort(Call, wait, Call);
      CountShort(Call, wait, wait);
      CountShort(Call, wait, Delete);
    }
  }

  /** A finite task makes exactly k calls and k - 1 waits, alternating, the
      last event being a call. */
  lemma CallsShape(k: nat, wait: Event)
    requires k > 0 && wait != Call && wait != Delete
    ensures |Calls(k, wait)| == 2 * k - 1
    ensures Count(Calls(k, wait), Call) == k
    ensures Count(Calls(k, wait), wait) == k - 1
    ensures Count(Calls(k, wait), Delete) == 0
    ensures Calls(k, wait)[2 * k - 2] == Call
    ensures forall i | 0 <= i < 2 * k - 1 :: Calls(k, wait)[i] == if i % 2 == 0 then Call else wait
  {
    var r, c := Rounds(k - 1, wait), Calls(k, wait);
    assert c == r + [Call];
    RoundsShape(k - 1, wait);
    CountAppend(r, [Call], Call);
    CountAppend(r, [Call], wait);
    CountAppend(r, [Call], Delete);
    CountShort(Call, Call, Call);
    CountShort(Call, Call, wait);
    CountShort(Call, Call, Delete);
    forall i | 0 <= i < 2 * k - 1 ensures c[i] == if i % 2 == 0 then Call else wait {
      if i < 2 * (k - 1) {
        assert c[i] == r[i];
      } else {
        assert i == 2 * (k - 1);
      }
    }
  }

  /** The entry routine's promises: one start wait before any call, then k
      calls and a delete for a finite count, or unending call/wait rounds
      without a delete for FOREVER; a failed init gives only the delete. */
  lemma EntryTraceShape(ok: bool, timing: TimingTraits, period: int, rounds: nat)
    requires 1 <= period <= 1000
    ensures var trace := EntryTrace(ok, timing, period, rounds);
      && (!ok ==> trace == [Delete])
      && (ok ==> trace[0] == Wait(MsToTicksAsWritten(timing.startDelayMs, period)))
      && (ok && timing.iterations == FOREVER ==>
            Count(trace, Call) == rounds && Count(trace, Delete) == 0)
      && (ok && timing.iterations > 0 ==>
            && Count(trace, Call) == timing.iterations as nat
            && trace[|trace| - 1] == Delete && Count(trace, Delete) == 1
            && trace[|trace| - 2] == Call)
  {
    if ok {
      var start := Wait(MsToTicksAsWritten(timing.startDelayMs, period));
      var wait := Wait(MsToTicksAsWritten(timing.intervalMs, period));
      if timing.iterations == FOREVER {
        RoundsShape(rounds, wait);
        CountAppend([start], Rounds(rounds, wait), Call);
        CountAppend([start], Rounds(rounds, wait), Delete);
        CountShort(start, start, Call);
        CountShort(start, start, Delete);
      } else {
        var k := timing.iterations as nat;
        CallsShape(k, wait);
        CountAppend([start], Calls(k, wait), Call);
        CountAppend([start] + Calls(k, wait), [Delete], Call);
        CountAppend([start], Calls(k, wait), Delete);
        CountAppend([start] + Calls(k, wait), [Delete], Delete);
        CountShort(start, start, Call);
        CountShort(start, start, Delete);
        CountShort(Delete, Delete, Call);
        CountShort(Delete, Delete, Delete);
      }
    }
  }

  /** After the start wait the routine alternates call and wait (the wait is
      the interval's ticks as the source computes them), up to the delete of
      a finite task. */
  lemma EntryTraceAlternates(timing: TimingTraits, period: int, rounds: nat)
    requires 1 <= period <= 1000
    ensures var trace := EntryTrace(true, timing, period, rounds);
      var wait := Wait(MsToTicksAsWritten(timing.intervalMs, period));
      forall i | 1 <= i < |trace| && (timing.iterations == FOREVER || i < |trace| - 1) ::
        trace[i] == if i % 2 == 1 then Call else wait
  {
    var start := Wait(MsToTicksAsWritten(timing.startDelayMs, period));
    var wait := Wait(MsToTicksAsWritten(timing.intervalMs, period));
    if timing.iterations == FOREVER {
      RoundsShape(rounds, wait);
      AlternationAfterStart(start, Rounds(rounds, wait), [], wait);
      assert [start] + Rounds(rounds, wait) + [] == [start] + Rounds(rounds, wait);
    } else {
      var k := timing.iterations as nat;
      CallsShape(k, wait);
      AlternationAfterStart(start, Calls(k, wait), [Delete], wait);
    }
  }

  /** An alternating body keeps alternating behind one start event. */
  lemma AlternationAfterStart(start: Event, body: seq<Event>, tail: seq<Event>, wait: Event)
    requires forall i | 0 <= i < |body| :: body[i] == if i % 2 == 0 then Call else wait
    ensures forall i | 1 <= i < 1 + |body| :: ([start] + body + tail)[i] == if i % 2 == 1 then Call else wait
  {
    forall i | 1 <= i < 1 + |body| ensures ([start] + body + tail)[i] == if i % 2 == 1 then Call else wait {
      assert ([start] + body + tail)[i] == body[i - 1];
      assert (i - 1) % 2 == 0 <==> i % 2 == 1;
    }
  }


  /** One xTaskCreatePinnedToCore call, as made by begin(). */
  datatype Creation = Creation(entry: Entry, name: string, stackDepth: u32, priority: u8, coreId: int)

  class EspTask {
    var begun: bool
    var fn0: Addr
    var arg: Addr
    /** The FreeRTOS task name; None is a null pointer. */
    const name: Option<string>
    const stackDepth: u32
    const priority: u8
    const coreId: int
    var entry: Option<Entry>
    var handle: Addr
    /** The tasks begin() asked FreeRTOS to create. */
    var created: seq<Creation>

    /** Runtime global function constructor. */
    constructor FromFunction(name: Option<string>, stackDepth: u32, fn: Addr, timing: TimingTraits, priority: TaskPriority, coreId: int)
      ensures !begun && handle == NULL && created == []
      ensures this.name == name && this.stackDepth == stackDepth
      ensures this.priority == PriorityValue(priority) && this.coreId == coreId
      ensures entry.Some? && Binding(fn0, arg, entry.value) == Bind(NULL, fn, timing, RuntimeFn0)
    {
      begun := false;
      this.name := name;
      this.stackDepth := stackDepth;
      this.priority := PriorityValue(priority);
      this.coreId := coreId;
      handle := NULL;
      created := [];
      new;
      BindEntry(NULL, fn, timing, RuntimeFn0);
    }

    /** Member method constructor, as written. */
    constructor FromMember(name: Option<string>, stackDepth: u32, obj: Addr, timing: TimingTraits, priority: TaskPriority, coreId: int)
      ensures !begun && handle == NULL && created == []
      ensures this.name == name && this.stackDepth == stackDepth
      ensures this.priority == PriorityValue(priority) && this.coreId == coreId
      ensures entry.Some? && Binding(fn0, arg, entry.value) == MemberBindingAsWritten(obj, timing)
    {
      begun := false;
      this.name := name;
      this.stackDepth := stackDepth;
      this.priority := PriorityValue(priority);
      this.coreId := coreId;
      handle := NULL;
      created := [];
      new;
      BindEntry(NULL, obj, timing, Member);
    }

    /** Descriptor constructor. */
    constructor FromDescriptor(name: Option<string>, stackDepth: u32, obj: Addr, timing: TimingTraits, priority: TaskPriority, coreId: int)
      ensures !begun && handle == NULL && created == []
      ensures this.name == name && this.stackDepth == stackDepth
      ensures this.priority == PriorityValue(priority) && this.coreId == coreId
      ensures entry.Some? && Binding(fn0, arg, entry.value) == MemberBinding(obj, timing)
    {
      begun := false;
      this.name := name;
      this.stackDepth := stackDepth;
      this.priority := PriorityValue(priority);
      this.coreId := coreId;
      handle := NULL;
      created := [];
      new;
      BindEntry(obj, NULL, timing, Member);
    }

    method BindEntry(a: Addr, f: Addr, timing: TimingTraits, invoker: Invoker)
      modifies this
      ensures entry.Some? && Binding(fn0, arg, entry.value) == Bind(a, f, timing, invoker)
      ensures begun == old(begun) && handle == old(handle) && created == old(created)
    {
      fn0 := f;
      arg := a;
      entry := Some(Entry(timing, invoker));
    }

    function Begun(): bool
      reads this
    {
      begun
    }

    /** Creates the FreeRTOS task once. `createdHandle` is what FreeRTOS stores
        in the handle; the creation result is not looked at. */
    method Begin(createdHandle: Addr)
      modifies this
      ensures old(begun) || entry.None? ==> unchanged(this)
      ensures !old(begun) && entry.Some? ==>
        && begun && handle == createdHandle
        && created == old(created) + [Creation(entry.value, if name.Some? then name.value else DEFAULT_TASK_NAME, stackDepth, priority, coreId)]
      ensures fn0 == old(fn0) && arg == old(arg) && entry == old(entry)
    {
      if begun {
        return;
      }
      if entry.None? {
        return;
      }
      created := created + [Creation(entry.value, if name.Some? then name.value else DEFAULT_TASK_NAME, stackDepth, priority, coreId)];
      handle := createdHandle;
      begun := true;
    }
  }

  /** espEntry<Timing, Invoker>(self): runTimedLoop, then vTaskDelete. For a
      FOREVER task the loop does not end; `rounds` says how many of its turns
      the returned trace covers. */
  method EspEntry(entry: Entry, self: EspTask?, rate: TickRate, rounds: nat) returns (trace: seq<Event>)
    ensures trace == EntryTrace(self != null && InitOk(entry.invoker, self.fn0, self.arg), entry.timing, TickPeriodMs(rate), rounds)
  {
    trace := RunTimedLoop(entry, self, rate, rounds);
    if entry.timing.iterations != FOREVER || self == null || !InitOk(entry.invoker, self.fn0, self.arg) {
      trace := trace + [Delete];
    }
  }

  method RunTimedLoop(entry: Entry, self: EspTask?, rate: TickRate, rounds: nat) returns (trace: seq<Event>)
    ensures var ok := self != null && InitOk(entry.invoker, self.fn0, self.arg);
      && (!ok ==> trace == [])
      && (ok && entry.timing.iterations == FOREVER ==> trace == EntryTrace(true, entry.timing, TickPeriodMs(rate), rounds))
      && (ok && entry.timing.iterations != FOREVER ==> trace + [Delete] == EntryTrace(true, entry.timing, TickPeriodMs(rate), rounds))
  {
    trace := [];
    if self == null {
      return;
    }
    if !InitOk(entry.invoker, self.fn0, self.arg) {
      return;
    }
    var period := TickPeriodMs(rate);
    var startDelayTicks := MsToTicksAsWritten(entry.timing.startDelayMs, period);
    var intervalTicks := MsToTicksAsWritten(entry.timing.intervalMs, period);
    var iterations := entry.timing.iterations;
    if startDelayTicks == 0 {
      trace := trace + [Yield];
    } else {
      trace := trace + [Delay(startDelayTicks)];
    }
    if iterations == FOREVER {
      trace := LoopForever(trace, intervalTicks, rounds);
    } else {
      trace := LoopCounted(trace, intervalTicks, iterations as nat);
    }
  }

  /** The FOREVER branch of runTimedLoop, cut off after `rounds` turns: call, then wait. */
  method LoopForever(start: seq<Event>, intervalTicks: u32, rounds: nat) returns (trace: seq<Event>)
    ensures trace == start + Rounds(rounds, Wait(intervalTicks))
  {
    trace := start;
    var r := 0;
    while r < rounds
      invariant 0 <= r <= rounds
      invariant trace == start + Rounds(r, Wait(intervalTicks))
    {
      trace := trace + [Call];
      if intervalTicks == 0 {
        trace := trace + [Yield];
      } else {
        trace := trace + [Delay(intervalTicks)];
      }
      r := r + 1;
    }
  }

  /** The counted branch of runTimedLoop: `iterations` calls, waiting between
      consecutive calls but not after the last. */
  method LoopCounted(start: seq<Event>, intervalTicks: u32, iterations: nat) returns (trace: seq<Event>)
    ensures trace == start + Calls(iterations, Wait(intervalTicks))
  {
    trace := start;
    for i := 0 to iterations
      invariant i < iterations ==> trace == start + Rounds(i, Wait(intervalTicks))
      invariant i == iterations ==> trace == start + Calls(i, Wait(intervalTicks))
    {
      trace := trace + [Call];
      if i + 1 < iterations {
        if intervalTicks == 0 {
          trace := trace + [Yield];
        } else {
          trace := trace + [Delay(intervalTicks)];
        }
      }
    }
  }

  // ---------------------------------------------------------------------
  // TaskScheduler back-end

  /** The callback handed to the TaskScheduler task. */
  datatype Callback = Function(fn: Addr) | MemberWrapper

  class SchedTask {
    var begun: bool
    const intervalMs: u32
    const iterations: i32
    const callback: Callback
    /** The start delay passed to task.delay, if any. */
    const startDelay: Option<u32>
    /** The scheduler task's local-storage pointer: the object a member callback runs on. */
    const lts: Addr
    /** Whether the scheduler task is enabled. */
    var enabled: bool

    /** SchedState's constructor: the scheduler task starts disabled, is delayed only for
        a non-zero start delay, and carries the object only when there is one. */
    constructor (timing: TimingTraits, callback: Callback, ltsObj: Addr)
      ensures !begun && !enabled
      ensures intervalMs == timing.intervalMs && iterations == timing.iterations && this.callback == callback
      ensures startDelay == if timing.startDelayMs != 0 then Some(timing.startDelayMs) else None
      ensures lts == ltsObj
    {
      begun := false;
      intervalMs := timing.intervalMs;
      iterations := timing.iterations;
      this.callback := callback;
      startDelay := if timing.startDelayMs != 0 then Some(timing.startDelayMs) else None;
      lts := if ltsObj != NULL then ltsObj else NULL;
      enabled := false;
    }

    function Begun(): bool
      reads this
    {
      begun
    }

    /** Enables the scheduler task once. */
    method Begin()
      modifies this
      ensures old(begun) ==> unchanged(this)
      ensures !old(begun) ==> begun && enabled
    {
      if begun {
        return;
      }
      enabled := true;
      begun := true;
    }
  }

  /** taskMemWrapper: the object the member method runs on, if any. `current`
      is the scheduler's current task's local-storage pointer, None when no
      task is current. */
  function TaskMemWrapper(current: Option<Addr>): (target: Option<Addr>)
    ensures target.Some? <==> current.Some? && current.value != NULL
    ensures target.Some? ==> target == current
  {
    if current.Some? && current.value != NULL then current else None
  }

  /** The constructors of the cooperative back-end; the descriptor
      constructor builds the same task as the member-method one. */
  method NewSchedTaskFromFunction(fn: Addr, timing: TimingTraits) returns (t: SchedTask)
    ensures fresh(t) && !t.begun && !t.enabled && t.callback == Function(fn) && t.lts == NULL
    ensures t.intervalMs == timing.intervalMs && t.iterations == timing.iterations
    ensures t.startDelay == if timing.startDelayMs != 0 then Some(timing.startDelayMs) else None
  {
    t := new SchedTask(timing, Function(fn), NULL);
  }

  method NewSchedTaskFromMember(obj: Addr, timing: TimingTraits) returns (t: SchedTask)
    ensures fresh(t) && !t.begun && !t.enabled && t.callback == MemberWrapper && t.lts == obj
    ensures t.intervalMs == timing.intervalMs && t.iterations == timing.iterations
    ensures t.startDelay == if timing.startDelayMs != 0 then Some(timing.startDelayMs) else None
  {
    t := new SchedTask(timing, MemberWrapper, obj);
  }
}
