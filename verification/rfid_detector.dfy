/** The polling state machine of shared/rfid/RFIDDetector.h. The MFRC522's
    answers (card present, serial read ok, the uid it read) and the clock are
    inputs of each tick; reader resets are counted instead of performed. */
module RfidDetector {
  import opened Common
  import opened Rfid

  /** The default traits. */
  const COOLDOWN_MS: u32 := 800
  const REINIT_AFTER_MS: u32 := 30000
  const FAIL_RESET_COUNT: u8 := 5

  /** The detector's timing state, plus how often the reader was reset. */
  datatype Timing = Timing(cooldownLimitMs: u32, lastGoodReadMs: u32, failReadCount: u8, resets: nat)

  /** The reader is re-initialised after a long stretch without a good read
      (unsigned 32-bit elapsed time, so the millisecond counter may wrap). */
  predicate Reinit(t: Timing, now: u32)
  {
    t.lastGoodReadMs != 0 && Wrap32(now - t.lastGoodReadMs) > REINIT_AFTER_MS
  }

  /** The state after the re-init check at the top of loop. */
  function AfterReinit(t: Timing, now: u32): Timing
  {
    if Reinit(t, now) then t.(failReadCount := 0, resets := t.resets + 1, lastGoodReadMs := now) else t
  }

  /** Whether a tick with these reader answers reports a card. */
  predicate Reads(t: Timing, now: u32, cardPresent: bool, readOk: bool)
  {
    cardPresent && now >= t.cooldownLimitMs && readOk
  }

  /** One tick of loop(), on the timing state. */
  function Step(t: Timing, now: u32, cardPresent: bool, readOk: bool): (r: Timing)
    requires t.failReadCount < FAIL_RESET_COUNT
  {
    var s := AfterReinit(t, now);
    if !cardPresent || now < s.cooldownLimitMs then s
    else if readOk then
      s.(lastGoodReadMs := now, failReadCount := 0, cooldownLimitMs := Wrap32(now + COOLDOWN_MS))
    else if s.failReadCount + 1 >= FAIL_RESET_COUNT then
      s.(failReadCount := 0, resets := s.resets + 1)
    else
      s.(failReadCount := s.failReadCount + 1)
  }

  /** The fail counter stays below the reset threshold. */
  lemma StepKeepsFailBound(t: Timing, now: u32, cardPresent: bool, readOk: bool)
    requires t.failReadCount < FAIL_RESET_COUNT
    ensures Step(t, now, cardPresent, readOk).failReadCount < FAIL_RESET_COUNT
  {
  }

  /** The last-good time moves only to `now`, and only on a re-init or a good read. */
  lemma StepLastGood(t: Timing, now: u32, cardPresent: bool, readOk: bool)
    requires t.failReadCount < FAIL_RESET_COUNT
    ensures var r := Step(t, now, cardPresent, readOk);
      r.lastGoodReadMs == if Reinit(t, now) || Reads(t, now, cardPresent, readOk) then now else t.lastGoodReadMs
  {
  }

  /** A good read restarts the fail count and the cooldown. */
  lemma StepGoodRead(t: Timing, now: u32, cardPresent: bool, readOk: bool)
    requires t.failReadCount < FAIL_RESET_COUNT && Reads(t, now, cardPresent, readOk)
    ensures var r := Step(t, now, cardPresent, readOk);
      r.failReadCount == 0 && r.cooldownLimitMs == Wrap32(now + COOLDOWN_MS)
  {
  }

  /** A card seen during the cooldown is ignored: no read, no fail count, no reset. */
  lemma StepCooldownIgnoresCard(t: Timing, now: u32, readOk: bool)
    requires t.failReadCount < FAIL_RESET_COUNT && now < t.cooldownLimitMs && !Reinit(t, now)
    ensures Step(t, now, true, readOk) == t
  {
  }

  /** After a good read at `t0`, the next tick, if it comes within 800 ms
      (when the clock does not wrap), ignores a present card. */
  lemma {:induction false} NoSecondReadDuringCooldown(t: Timing, t0: u32, now: u32, cardPresent: bool, readOk: bool, later: u32)
    requires t.failReadCount < FAIL_RESET_COUNT && Reads(t, t0, cardPresent, readOk)
    requires t0 + COOLDOWN_MS < TWO_32 && t0 <= later < t0 + COOLDOWN_MS
    ensures var r := Step(t, t0, cardPresent, readOk);
      forall ok :: !Reads(AfterReinit(r, later), later, true, ok)
  {
    var r := Step(t, t0, cardPresent, readOk);
    StepGoodRead(t, t0, cardPresent, readOk);
    assert r.cooldownLimitMs == t0 + COOLDOWN_MS;
  }

  /** One tick's inputs: the clock and the reader's two answers. */
  datatype Tick = Tick(now: u32, cardPresent: bool, readOk: bool)

  /** The timing state after a run of ticks. */
  function Run(t: Timing, ticks: seq<Tick>): (r: Timing)
    requires t.failReadCount < FAIL_RESET_COUNT
    ensures r.failReadCount < FAIL_RESET_COUNT
    decreases |ticks|
  {
    if ticks == [] then t
    else
      var k := ticks[0];
      StepKeepsFailBound(t, k.now, k.cardPresent, k.readOk);
      Run(Step(t, k.now, k.cardPresent, k.readOk), ticks[1..])
  }

  /** No tick of the run reports a card. */
  predicate NoneReads(t: Timing, ticks: seq<Tick>)
    requires t.failReadCount < FAIL_RESET_COUNT
    decreases |ticks|
  {
    ticks == [] ||
      var k := ticks[0];
      StepKeepsFailBound(t, k.now, k.cardPresent, k.readOk);
      && !Reads(AfterReinit(t, k.now), k.now, k.cardPresent, k.readOk)
      && NoneReads(Step(t, k.now, k.cardPresent, k.readOk), ticks[1..])
  }

  /** Ticks before the cooldown limit neither report a card nor move the
      limit: only a good read changes it, and a re-init leaves it alone. */
  lemma {:induction false} CooldownRunIgnoresCards(t: Timing, ticks: seq<Tick>)
    requires t.failReadCount < FAIL_RESET_COUNT
    requires forall k :: 0 <= k < |ticks| ==> ticks[k].now < t.cooldownLimitMs
    ensures NoneReads(t, ticks) && Run(t, ticks).cooldownLimitMs == t.cooldownLimitMs
    decreases |ticks|
  {
    if ticks != [] {
      var k := ticks[0];
      StepKeepsFailBound(t, k.now, k.cardPresent, k.readOk);
      var u := Step(t, k.now, k.cardPresent, k.readOk);
      assert u.cooldownLimitMs == t.cooldownLimitMs;
      assert forall j :: 0 <= j < |ticks[1..]| ==> ticks[1..][j] == ticks[j + 1];
      CooldownRunIgnoresCards(u, ticks[1..]);
    }
  }

  /** After a good read at `t0`, a whole run of later ticks before
      t0 + cooldownMs (when that does not wrap) reports no card. */
  lemma NoReadDuringCooldownRun(t: Timing, t0: u32, cardPresent: bool, readOk: bool, ticks: seq<Tick>)
    requires t.failReadCount < FAIL_RESET_COUNT && Reads(t, t0, cardPresent, readOk)
    requires t0 + COOLDOWN_MS < TWO_32
    requires forall k :: 0 <= k < |ticks| ==> ticks[k].now < t0 + COOLDOWN_MS
    ensures var r := Step(t, t0, cardPresent, readOk);
      r.failReadCount < FAIL_RESET_COUNT && NoneReads(r, ticks)
  {
    StepKeepsFailBound(t, t0, cardPresent, readOk);
    StepGoodRead(t, t0, cardPresent, readOk);
    CooldownRunIgnoresCards(Step(t, t0, cardPresent, readOk), ticks);
  }

  /** Failed reads in a row, none of them within a cooldown or a re-init:
      every fifth one resets the reader. */
  lemma {:induction false} FailedReadsReset(t: Timing, now: u32)
    requires t.failReadCount < FAIL_RESET_COUNT && !Reinit(t, now) && now >= t.cooldownLimitMs
    ensures var r := Step(t, now, true, false);
      && (r.resets == t.resets + 1 <==> t.failReadCount == FAIL_RESET_COUNT - 1)
      && r.failReadCount == (t.failReadCount + 1) % FAIL_RESET_COUNT
  {
  }

  function Min(a: int, b: int): int
  {
    if a < b then a else b
  }

  class RfidDetector {
    const number: u8
    var cooldownLimitMs: u32
    var lastGoodReadMs: u32
    var failReadCount: u8
    /** How often resetRc522 has run. */
    var resets: nat
    /** The last card read: `_lastID`. */
    var lastTimestamp: u32
    var lastLength: u8
    const lastUuid: array<u8>

    ghost function Timings(): Timing
      reads this
    {
      Timing(cooldownLimitMs, lastGoodReadMs, failReadCount, resets)
    }

    function LastId(): Rfid
      reads this, lastUuid
    {
      Rfid(number, lastTimestamp, lastLength, lastUuid[..])
    }

    ghost predicate Valid()
      reads this, lastUuid
    {
      WellFormed(LastId()) && failReadCount < FAIL_RESET_COUNT
    }

    constructor (number: u8)
      ensures Valid() && fresh(lastUuid)
      ensures cooldownLimitMs == 0 && lastGoodReadMs == 0 && failReadCount == 0 && resets == 0
      ensures LastId() == Fresh(number)
    {
      this.number := number;
      cooldownLimitMs := 0;
      lastGoodReadMs := 0;
      failReadCount := 0;
      resets := 0;
      lastTimestamp := 0;
      lastLength := 0;
      lastUuid := new u8[UUID_CAPACITY](_ => 0);
      new;
      assert lastUuid[..] == Fresh(number).uuid;
    }

    /** One poll: returns the card just read, or None. `uidSize` and `uidBytes`
        are the uid the reader reports on a successful serial read. */
    method Loop(now: u32, cardPresent: bool, readOk: bool, uidSize: u8, uidBytes: seq<u8>) returns (read: Option<Rfid>)
      requires Valid() && |uidBytes| == UUID_CAPACITY
      modifies this, lastUuid
      ensures Valid()
      ensures Timings() == Step(old(Timings()), now, cardPresent, readOk)
      ensures read.Some? <==> Reads(old(Timings()), now, cardPresent, readOk)
      ensures read.Some? ==>
        && read.value == LastId() && read.value.number == number
        && read.value.timestamp == now
        && read.value.length == Min(uidSize, UUID_CAPACITY)
        && read.value.uuid[..read.value.length] == uidBytes[..read.value.length]
      ensures read.None? ==> LastId() == old(LastId())
    {
      if lastGoodReadMs != 0 && Wrap32(now - lastGoodReadMs) > REINIT_AFTER_MS {
        ResetRc522();
        lastGoodReadMs := now;
      }
      if cardPresent {
        if now < cooldownLimitMs {
          return None;
        }
        if readOk {
          lastGoodReadMs := now;
          failReadCount := 0;
          Update(uidSize, uidBytes, now);
          cooldownLimitMs := Wrap32(now + COOLDOWN_MS);
          return Some(LastId());
        } else {
          failReadCount := failReadCount + 1;
          if failReadCount >= FAIL_RESET_COUNT {
            ResetRc522();
          }
        }
      }
      return None;
    }

    /** Stores a uid read at `timestamp`, at most 10 bytes of it. */
    method Update(uidSize: u8, uidBytes: seq<u8>, timestamp: u32)
      requires lastUuid.Length == UUID_CAPACITY && |uidBytes| == UUID_CAPACITY
      modifies this, lastUuid
      ensures Timings() == old(Timings())
      ensures lastTimestamp == timestamp
      ensures lastLength == Min(uidSize, UUID_CAPACITY)
      ensures lastUuid[..] == uidBytes[..lastLength] + old(lastUuid[..])[lastLength..]
    {
      lastTimestamp := timestamp;
      var len: u8 := if uidSize > UUID_CAPACITY then UUID_CAPACITY else uidSize;
      lastLength := len;
      var i := 0;
      while i < len
        invariant 0 <= i <= len
        invariant lastUuid[..] == uidBytes[..i] + old(lastUuid[i..])
        invariant Timings() == old(Timings()) && lastTimestamp == timestamp && lastLength == len
      {
        lastUuid[i] := uidBytes[i];
        i := i + 1;
      }
    }

    /** Pulses the reader's reset line and re-initialises it; the last good read
        time is deliberately kept. */
    method ResetRc522()
      modifies this
      ensures Timings() == old(Timings()).(failReadCount := 0, resets := old(resets) + 1)
      ensures lastTimestamp == old(lastTimestamp) && lastLength == old(lastLength)
    {
      failReadCount := 0;
      resets := resets + 1;
    }
  }
}
