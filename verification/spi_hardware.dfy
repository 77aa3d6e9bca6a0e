/** The SPI bus singleton of shared/PinIO/SPIHardware.h. Function pointers are
    addresses (0 = null); the bus start-up call and every error report are
    recorded instead of performed. */
module SpiHardware {
  import opened Common

  const INIT_AFTER_BEGIN: string := "[SPI] init() after begin()"
  const INVALID_CONFIG: string := "[SPI] Invalid config. Call SPIHardware(sck, miso, mosi[, beginFn]) before begin()."

  /** The address of the built-in defaultBegin, which starts `SPI`. */
  const DEFAULT_BEGIN: Addr := 1

  /** The board the firmware is built for decides the default pins. */
  datatype Board = Mega2560 | OtherAvr | Other(sck: Option<int>, miso: Option<int>, mosi: Option<int>)

  datatype Report = Report(handler: Addr, message: string)
  datatype BeginCall = BeginCall(fn: Addr, sck: int, miso: int, mosi: int)

  function OrUnset(pin: Option<int>): int
  {
    if pin.Some? then pin.value else -1
  }

  /** State::valid: pins only matter when the SPI library takes them. */
  predicate ValidConfig(hasBeginWithPins: bool, sck: int, miso: int, mosi: int, beginFn: Addr)
  {
    if hasBeginWithPins then
      sck >= 0 && miso >= 0 && mosi >= 0 && sck != miso && miso != mosi && mosi != sck && beginFn != NULL
    else
      beginFn != NULL
  }

  class SpiState {
    /** kHasBeginWithPins: whether `SPI.begin(sck, miso, mosi)` exists. */
    const hasBeginWithPins: bool
    var sck: int
    var miso: int
    var mosi: int
    var beginFn: Addr
    var errorFn: Addr
    var begun: bool
    var beginCalls: seq<BeginCall>
    var reports: seq<Report>

    ghost predicate Valid()
      reads this
    {
      && |beginCalls| == (if begun then 1 else 0)
      && (begun ==> IsValid() && beginCalls[0] == BeginCall(beginFn, sck, miso, mosi))
    }

    predicate IsValid()
      reads this
    {
      ValidConfig(hasBeginWithPins, sck, miso, mosi, beginFn)
    }

    twostate predicate ConfigUnchanged()
      reads this
    {
      sck == old(sck) && miso == old(miso) && mosi == old(mosi) && beginFn == old(beginFn) && begun == old(begun)
    }

    constructor (board: Board, hasBeginWithPins: bool)
      ensures Valid() && this.hasBeginWithPins == hasBeginWithPins
      ensures board.Mega2560? ==> sck == 52 && miso == 50 && mosi == 51
      ensures board.OtherAvr? ==> sck == 13 && miso == 12 && mosi == 11
      ensures board.Other? ==> sck == OrUnset(board.sck) && miso == OrUnset(board.miso) && mosi == OrUnset(board.mosi)
      ensures beginFn == DEFAULT_BEGIN && errorFn == NULL && !begun
      ensures beginCalls == [] && reports == []
    {
      this.hasBeginWithPins := hasBeginWithPins;
      match board {
        case Mega2560 =>
          sck, miso, mosi := 52, 50, 51;
        case OtherAvr =>
          sck, miso, mosi := 13, 12, 11;
        case Other(s, mi, mo) =>
          sck, miso, mosi := OrUnset(s), OrUnset(mi), OrUnset(mo);
      }
      beginFn := DEFAULT_BEGIN;
      errorFn := NULL;
      begun := false;
      beginCalls := [];
      reports := [];
    }

    /** Sets the pins (and the start-up function when one is given); refused
        with an error once the bus has started. */
    method OverrideDefaultsPins(sckPin: int, misoPin: int, mosiPin: int, fn: Addr)
      requires Valid()
      modifies this
      ensures Valid()
      ensures old(begun) ==> ConfigUnchanged() && reports == old(reports) + [Report(errorFn, INIT_AFTER_BEGIN)]
      ensures !old(begun) ==>
        && sck == sckPin && miso == misoPin && mosi == mosiPin && !begun
        && beginFn == (if fn != NULL then fn else old(beginFn))
        && reports == old(reports)
      ensures errorFn == old(errorFn) && beginCalls == old(beginCalls)
    {
      if begun {
        ReportError(INIT_AFTER_BEGIN);
        return;
      }
      sck := sckPin;
      miso := misoPin;
      mosi := mosiPin;
      if fn != NULL {
        beginFn := fn;
      }
    }

    /** Replaces only the start-up function, and only when one is given. */
    method OverrideDefaults(fn: Addr)
      requires Valid()
      modifies this
      ensures Valid()
      ensures old(begun) ==> ConfigUnchanged() && reports == old(reports) + [Report(errorFn, INIT_AFTER_BEGIN)]
      ensures !old(begun) ==>
        && sck == old(sck) && miso == old(miso) && mosi == old(mosi) && !begun
        && beginFn == (if fn != NULL then fn else old(beginFn))
        && reports == old(reports)
      ensures errorFn == old(errorFn) && beginCalls == old(beginCalls)
    {
      if begun {
        ReportError(INIT_AFTER_BEGIN);
        return;
      }
      if fn != NULL {
        beginFn := fn;
      }
    }

    method OnError(fn: Addr)
      requires Valid()
      modifies this
      ensures Valid() && ConfigUnchanged() && errorFn == fn
      ensures beginCalls == old(beginCalls) && reports == old(reports)
    {
      errorFn := fn;
    }

    /** Starts the bus once, if the configuration is valid. */
    method Begin() returns (ok: bool)
      requires Valid()
      modifies this
      ensures Valid()
      ensures ok <==> begun
      ensures old(begun) ==> ConfigUnchanged() && beginCalls == old(beginCalls) && reports == old(reports)
      ensures !old(begun) && !old(IsValid()) ==>
        !ok && beginCalls == [] && reports == old(reports) + [Report(errorFn, INVALID_CONFIG)]
      ensures !old(begun) && old(IsValid()) ==>
        ok && beginCalls == [BeginCall(beginFn, sck, miso, mosi)] && reports == old(reports)
      ensures sck == old(sck) && miso == old(miso) && mosi == old(mosi) && beginFn == old(beginFn) && errorFn == old(errorFn)
    {
      if begun {
        return true;
      }
      if !IsValid() {
        ReportError(INVALID_CONFIG);
        return false;
      }
      beginCalls := beginCalls + [BeginCall(beginFn, sck, miso, mosi)];
      begun := true;
      return true;
    }

    method ReportError(message: string)
      modifies this
      ensures reports == old(reports) + [Report(errorFn, message)]
      ensures ConfigUnchanged() && errorFn == old(errorFn) && beginCalls == old(beginCalls)
    {
      reports := reports + [Report(errorFn, message)];
    }
  }

  /** The SPIHardware object itself holds nothing: constructing one overrides
      the singleton's defaults. */
  class SpiHardware {
    constructor WithBeginFn(state: SpiState, fn: Addr)
      requires state.Valid()
      modifies state
      ensures state.Valid()
      ensures old(state.begun) ==>
        && state.sck == old(state.sck) && state.beginFn == old(state.beginFn)
        && state.reports == old(state.reports) + [Report(state.errorFn, INIT_AFTER_BEGIN)]
      ensures old(state.begun) ==> state.ConfigUnchanged()
      ensures !old(state.begun) ==>
        && state.beginFn == (if fn != NULL then fn else old(state.beginFn))
        && state.reports == old(state.reports)
      ensures !old(state.begun) ==>
        state.sck == old(state.sck) && state.miso == old(state.miso) && state.mosi == old(state.mosi) && !state.begun
      ensures state.errorFn == old(state.errorFn) && state.beginCalls == old(state.beginCalls)
    {
      state.OverrideDefaults(fn);
    }

    constructor WithPins(state: SpiState, sckPin: int, misoPin: int, mosiPin: int, fn: Addr)
      requires state.Valid()
      modifies state
      ensures state.Valid()
      ensures old(state.begun) ==>
        && state.sck == old(state.sck) && state.beginFn == old(state.beginFn)
        && state.reports == old(state.reports) + [Report(state.errorFn, INIT_AFTER_BEGIN)]
      ensures old(state.begun) ==> state.ConfigUnchanged()
      ensures !old(state.begun) ==>
        && state.sck == sckPin && state.miso == misoPin && state.mosi == mosiPin
        && state.beginFn == (if fn != NULL then fn else old(state.beginFn))
        && state.reports == old(state.reports)
      ensures !old(state.begun) ==> !state.begun
      ensures state.errorFn == old(state.errorFn) && state.beginCalls == old(state.beginCalls)
    {
      state.OverrideDefaultsPins(sckPin, misoPin, mosiPin, fn);
    }
  }
}
