/** TrainStation/TrainDockSensor.h: an analog reading is classified as not
    docked, docked passively or docked and charging; a change of class is
    reported to the callback and written to the BLE characteristic. The pin
    reading is an input; callback calls and BLE writes are recorded. */
module DockSensor {

  /** Docked, a uint8_t enumeration. */
  datatype Docked = None | Passive | Charging

  /** The readings at which the classes start. */
  const PASSIVE_FROM: int := 5
  const CHARGING_FROM: int := 20

  /** The byte written to BLE: the enumerator's value. */
  function DockedByte(d: Docked): (b: int)
    ensures 0 <= b <= 2
  {
    match d
    case None => 0
    case Passive => 1
    case Charging => 2
  }

  /** The three classes are told apart by their bytes. */
  lemma DockedByteInjective(d: Docked, e: Docked)
    ensures DockedByte(d) == DockedByte(e) <==> d == e
  {
  }

  /** The classification of a reading. */
  function Classify(value: int): Docked
  {
    if value < PASSIVE_FROM then None else if value < CHARGING_FROM then Passive else Charging
  }

  /** Every reading has a class, and the class never goes down as the reading goes up. */
  lemma ClassifyMonotone(a: int, b: int)
    requires a <= b
    ensures DockedByte(Classify(a)) <= DockedByte(Classify(b))
  {
  }

  /** The class of a reading pins the reading to its band. */
  lemma ClassifyBands(value: int)
    ensures Classify(value) == None <==> value < PASSIVE_FROM
    ensures Classify(value) == Passive <==> PASSIVE_FROM <= value < CHARGING_FROM
    ensures Classify(value) == Charging <==> CHARGING_FROM <= value
  {
  }

  /** What one tick reports against the stored class: the new class, if it differs. */
  function Changes(detected: Docked, value: int): (c: seq<Docked>)
    ensures |c| <= 1
    ensures |c| == 1 <==> Classify(value) != detected
    ensures |c| == 1 ==> c[0] == Classify(value)
  {
    if Classify(value) != detected then [Classify(value)] else []
  }

  function Bytes(ds: seq<Docked>): (bs: seq<int>)
    ensures |bs| == |ds|
  {
    if |ds| == 0 then [] else [DockedByte(ds[0])] + Bytes(ds[1..])
  }

  lemma {:induction false} BytesAppend(a: seq<Docked>, b: seq<Docked>)
    ensures Bytes(a + b) == Bytes(a) + Bytes(b)
    decreases |a|
  {
    if |a| == 0 {
      assert a + b == b;
    } else {
      assert (a + b)[1..] == a[1..] + b;
      BytesAppend(a[1..], b);
    }
  }

  /** The reports over a run of readings when the stored class is never
      updated, as the source does. */
  function ReportsAsWritten(detected: Docked, readings: seq<int>): seq<Docked>
  {
    if |readings| == 0 then []
    else Changes(detected, readings[0]) + ReportsAsWritten(detected, readings[1..])
  }

  /** The reports over a run of readings when each report also becomes the stored class. */
  function Reports(detected: Docked, readings: seq<int>): seq<Docked>
    decreases |readings|
  {
    if |readings| == 0 then []
    else
      var c := Changes(detected, readings[0]);
      c + Reports(if |c| == 1 then c[0] else detected, readings[1..])
  }

  /** As written, starting from None, every reading of 5 or more is reported,
      however many times in a row. */
  lemma {:induction false} AsWrittenReportsEveryDockedReading(readings: seq<int>)
    ensures ReportsAsWritten(None, readings) == Docking(readings)
  {
    if |readings| > 0 {
      AsWrittenReportsEveryDockedReading(readings[1..]);
    }
  }

  /** The classes of the readings that are not None. */
  function Docking(readings: seq<int>): seq<Docked>
  {
    if |readings| == 0 then []
    else (if readings[0] >= PASSIVE_FROM then [Classify(readings[0])] else []) + Docking(readings[1..])
  }

  /** Updating the stored class, no report repeats the one before it or the
      starting class. */
  lemma {:induction false} ReportsAlwaysChange(detected: Docked, readings: seq<int>)
    ensures var r := Reports(detected, readings);
      && (|r| > 0 ==> r[0] != detected)
      && (forall i | 0 <= i < |r| - 1 :: r[i] != r[i + 1])
    decreases |readings|
  {
    if |readings| > 0 {
      var c := Changes(detected, readings[0]);
      var next := if |c| == 1 then c[0] else detected;
      ReportsAlwaysChange(next, readings[1..]);
      var rest := Reports(next, readings[1..]);
      assert Reports(detected, readings) == c + rest;
    }
  }

  /** A train sitting on the passive contact for two ticks: reported twice as
      written, once when the stored class follows the reports. */
  lemma SteadyPassiveDock()
    ensures ReportsAsWritten(None, [10, 10]) == [Passive, Passive]
    ensures Reports(None, [10, 10]) == [Passive]
  {
    assert [10, 10][1..] == [10];
    assert [10][1..] == [];
  }

  lemma ReportsAsWrittenStep(detected: Docked, readings: seq<int>, i: nat)
    requires i < |readings|
    ensures Bytes(ReportsAsWritten(detected, readings[i..]))
      == Bytes(Changes(detected, readings[i])) + Bytes(ReportsAsWritten(detected, readings[i + 1..]))
  {
    assert readings[i..][1..] == readings[i + 1..];
    BytesAppend(Changes(detected, readings[i]), ReportsAsWritten(detected, readings[i + 1..]));
  }

  lemma ReportsStep(detected: Docked, readings: seq<int>, i: nat)
    requires i < |readings|
    ensures Bytes(Reports(detected, readings[i..]))
      == Bytes(Changes(detected, readings[i])) + Bytes(Reports(Classify(readings[i]), readings[i + 1..]))
  {
    assert readings[i..][1..] == readings[i + 1..];
    BytesAppend(Changes(detected, readings[i]), Reports(Classify(readings[i]), readings[i + 1..]));
  }

  class TrainDockSensor {
    /** Whether a callback was given (it may be null). */
    const hasCallback: bool
    /** _detected; the characteristic keeps its own copy of the byte it was given. */
    var detected: Docked
    /** Every class passed to the callback. */
    var callbackCalls: seq<Docked>
    /** Every byte written to the BLE characteristic. */
    var bleWrites: seq<int>

    constructor (hasCallback: bool)
      ensures this.hasCallback == hasCallback
      ensures detected == None && callbackCalls == []
      // the characteristic is created over _detected, whose byte it writes once
      ensures bleWrites == [DockedByte(None)]
    {
      this.hasCallback := hasCallback;
      detected := None;
      callbackCalls := [];
      bleWrites := [DockedByte(None)];
    }

    /** loop(Task&) as written: classify, and on a difference from _detected
        call the callback (when set) and write the byte; _detected stays. */
    method Loop(value: int)
      modifies this
      ensures detected == old(detected)
      ensures bleWrites == old(bleWrites) + Bytes(Changes(detected, value))
      ensures callbackCalls == old(callbackCalls) + (if hasCallback then Changes(detected, value) else [])
    {
      var d := Classify(value);
      if d != detected {
        if hasCallback {
          callbackCalls := callbackCalls + [d];
        }
        bleWrites := bleWrites + [DockedByte(d)];
      }
    }

    /** loop(Task&) with the reported class stored in _detected. */
    method LoopUpdatingDetected(value: int)
      modifies this
      ensures detected == Classify(value)
      ensures bleWrites == old(bleWrites) + Bytes(Changes(old(detected), value))
      ensures callbackCalls == old(callbackCalls) + (if hasCallback then Changes(old(detected), value) else [])
    {
      var d := Classify(value);
      if d != detected {
        if hasCallback {
          callbackCalls := callbackCalls + [d];
        }
        bleWrites := bleWrites + [DockedByte(d)];
        detected := d;
      }
    }

    /** A run of ticks of the source's loop. */
    method RunAsWritten(readings: seq<int>)
      modifies this
      ensures detected == old(detected)
      ensures bleWrites == old(bleWrites) + Bytes(ReportsAsWritten(detected, readings))
    {
      for i := 0 to |readings|
        invariant detected == old(detected)
        invariant bleWrites + Bytes(ReportsAsWritten(detected, readings[i..])) == old(bleWrites) + Bytes(ReportsAsWritten(detected, readings))
      {
        ReportsAsWrittenStep(detected, readings, i);
        Loop(readings[i]);
      }
    }

    /** A run of ticks of the loop that stores the reported class. */
    method Run(readings: seq<int>)
      modifies this
      ensures bleWrites == old(bleWrites) + Bytes(Reports(old(detected), readings))
    {
      for i := 0 to |readings|
        invariant bleWrites + Bytes(Reports(detected, readings[i..])) == old(bleWrites) + Bytes(Reports(old(detected), readings))
      {
        ReportsStep(detected, readings, i);
        LoopUpdatingDetected(readings[i]);
      }
    }
  }
}
