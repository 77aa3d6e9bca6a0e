/** The I2C bus singleton of shared/PinIO/I2CHardware.h. Function pointers are
    addresses (0 = null); the bus start-up call, the clock setting and every
    error report are recorded instead of performed. */
module I2cHardware {
  import opened Common

  const INIT_AFTER_BEGIN: string := "[I2C] init() after begin()"
  const INVALID_CONFIG: string := "[I2C] Invalid config. Call I2CHardware::init(sda, scl, clock[, beginFn]) in setup()."

  /** The address of the built-in defaultBegin, which starts `Wire`. */
  const DEFAULT_BEGIN: Addr := 1

  /** An error message and who received it: the registered error function, or
      the I2C_ON_ERROR fallback when none is set (NULL). */
  datatype Report = Report(handler: Addr, message: string)

  /** The start-up call made on the bus: beginFn(sda, scl). */
  datatype BeginCall = BeginCall(fn: Addr, sda: int, scl: int)

  /** State::valid. */
  predicate ValidConfig(sda: int, scl: int, beginFn: Addr)
  {
    sda >= 0 && scl >= 0 && sda != scl && beginFn != NULL
  }

  class I2cHardware {
    var sda: int
    var scl: int
    var clock: u32
    var beginFn: Addr
    var errorFn: Addr
    var begun: bool
    /** What the bus saw: start-up calls, clock settings, error reports. */
    var beginCalls: seq<BeginCall>
    var clocks: seq<u32>
    var reports: seq<Report>

    /** Started at most once, and then with the configuration still held,
        which was valid. */
    ghost predicate Valid()
      reads this
    {
      && |beginCalls| == (if begun then 1 else 0)
      && |clocks| == |beginCalls|
      && (begun ==> ValidConfig(sda, scl, beginFn) && beginCalls[0] == BeginCall(beginFn, sda, scl) && clocks[0] == clock)
    }

    /** The static State with the board's defaults: the SDA/SCL pins when the
        core defines them (otherwise -1), 100 kHz on AVR and 400 kHz elsewhere. */
    constructor (boardSda: Option<int>, boardScl: Option<int>, avr: bool)
      ensures Valid()
      ensures sda == (if boardSda.Some? then boardSda.value else -1)
      ensures scl == (if boardScl.Some? then boardScl.value else -1)
      ensures clock == (if avr then 100000 else 400000)
      ensures beginFn == DEFAULT_BEGIN && errorFn == NULL && !begun
      ensures beginCalls == [] && clocks == [] && reports == []
    {
      sda := if boardSda.Some? then boardSda.value else -1;
      scl := if boardScl.Some? then boardScl.value else -1;
      clock := if avr then 100000 else 400000;
      beginFn := DEFAULT_BEGIN;
      errorFn := NULL;
      begun := false;
      beginCalls := [];
      clocks := [];
      reports := [];
    }

    predicate IsValid()
      reads this
    {
      ValidConfig(sda, scl, beginFn)
    }

    /** Sets pins and clock (and the start-up function when one is given);
        refused with an error once the bus has started. */
    method Init(sdaPin: int, sclPin: int, hz: u32, fn: Addr)
      requires Valid()
      modifies this
      ensures Valid()
      ensures old(begun) ==>
        && sda == old(sda) && scl == old(scl) && clock == old(clock) && beginFn == old(beginFn) && begun
        && reports == old(reports) + [Report(errorFn, INIT_AFTER_BEGIN)]
      ensures !old(begun) ==>
        && sda == sdaPin && scl == sclPin && clock == hz && !begun
        && beginFn == (if fn != NULL then fn else old(beginFn))
        && reports == old(reports)
      ensures errorFn == old(errorFn) && beginCalls == old(beginCalls) && clocks == old(clocks)
    {
      if begun {
        ReportError(INIT_AFTER_BEGIN);
        return;
      }
      sda := sdaPin;
      scl := sclPin;
      clock := hz;
      if fn != NULL {
        beginFn := fn;
      }
    }

    method OnError(fn: Addr)
      requires Valid()
      modifies this
      ensures Valid()
      ensures errorFn == fn
      ensures sda == old(sda) && scl == old(scl) && clock == old(clock) && beginFn == old(beginFn) && begun == old(begun)
      ensures beginCalls == old(beginCalls) && clocks == old(clocks) && reports == old(reports)
    {
      errorFn := fn;
    }

    /** Starts the bus once, if the configuration is valid. */
    method Begin() returns (ok: bool)
      requires Valid()
      modifies this
      ensures Valid()
      ensures ok <==> begun
      ensures old(begun) ==> begun && beginCalls == old(beginCalls) && reports == old(reports)
      ensures !old(begun) && !old(IsValid()) ==>
        !ok && beginCalls == [] && reports == old(reports) + [Report(errorFn, INVALID_CONFIG)]
      ensures !old(begun) && old(IsValid()) ==>
        ok && beginCalls == [BeginCall(beginFn, sda, scl)] && clocks == [clock] && reports == old(reports)
      ensures sda == old(sda) && scl == old(scl) && clock == old(clock) && beginFn == old(beginFn) && errorFn == old(errorFn)
    {
      if begun {
        return true;
      }
      if !IsValid() {
        ReportError(INVALID_CONFIG);
        return false;
      }
      beginCalls := beginCalls + [BeginCall(beginFn, sda, scl)];
      clocks := clocks + [clock];
      begun := true;
      return true;
    }

    method ReportError(message: string)
      modifies this
      ensures reports == old(reports) + [Report(errorFn, message)]
      ensures sda == old(sda) && scl == old(scl) && clock == old(clock) && beginFn == old(beginFn)
      ensures errorFn == old(errorFn) && begun == old(begun)
      ensures beginCalls == old(beginCalls) && clocks == old(clocks)
    {
      reports := reports + [Report(errorFn, message)];
    }
  }
}
