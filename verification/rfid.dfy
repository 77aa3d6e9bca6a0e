/** The RFID record of shared/rfid/RFID.h and its fixed 19-byte encoding. The
    integers are copied in host byte order; the targets are little-endian. */
module Rfid {
  import opened Common

  const UUID_CAPACITY: int := 10
  /** 4 bytes number, 4 bytes timestamp, 1 byte length, 10 bytes uuid. */
  const ENCODED_SIZE: int := 4 + 4 + 1 + UUID_CAPACITY
  const HEADER_SIZE: int := 4 + 4 + 1

  datatype Rfid = Rfid(number: u8, timestamp: u32, length: u8, uuid: seq<u8>)

  /** The uuid array holds 10 bytes and at most that many are in use. */
  predicate WellFormed(r: Rfid)
  {
    |r.uuid| == UUID_CAPACITY && r.length <= UUID_CAPACITY
  }

  /** The constructor: only the reader number is given. */
  function Fresh(number: u8): (r: Rfid)
    ensures WellFormed(r) && r.number == number
    ensures r.timestamp == 0 && r.length == 0
    ensures forall i | 0 <= i < |r.uuid| :: r.uuid[i] == 0
  {
    Rfid(number, 0, 0, seq(UUID_CAPACITY, _ => 0))
  }

  function EncodedSize(r: Rfid): (n: int)
    requires WellFormed(r)
    ensures HEADER_SIZE <= n <= ENCODED_SIZE
  {
    HEADER_SIZE + r.length
  }

  /** encode(): `stale` stands for whatever the uninitialised tail of the local
      array holds; only the first EncodedSize bytes are meaningful. */
  function Encode(r: Rfid, stale: seq<u8>): (e: seq<u8>)
    requires WellFormed(r) && |stale| == ENCODED_SIZE
    ensures |e| == ENCODED_SIZE
    ensures LE(e[0..4]) == r.number && LE(e[4..8]) == r.timestamp
    ensures e[8] == r.length
    ensures e[9..EncodedSize(r)] == r.uuid[..r.length]
    ensures e[EncodedSize(r)..] == stale[EncodedSize(r)..]
  {
    var e := ToLE(r.number, 4) + ToLE(r.timestamp, 4) + [r.length as u8] + r.uuid[..r.length] + stale[EncodedSize(r)..];
    assert e[0..4] == ToLE(r.number, 4) && e[4..8] == ToLE(r.timestamp, 4);
    LEOfToLE(r.number, 4);
    LEOfToLE(r.timestamp, 4);
    e
  }

  /** Reads a record back from the meaningful prefix of an encoding; the unused
      uuid bytes come back as zero. */
  function Decode(e: seq<u8>): (r: Option<Rfid>)
    ensures r.Some? ==> WellFormed(r.value) && EncodedSize(r.value) <= |e|
  {
    if |e| < HEADER_SIZE || e[8] > UUID_CAPACITY || |e| < HEADER_SIZE + e[8] || LE(e[0..4]) >= TWO_8 then None
    else
      var len := e[8];
      Some(Rfid(LE(e[0..4]), LE(e[4..8]), len, e[9..9 + len] + seq(UUID_CAPACITY - len, _ => 0)))
  }

  /** Two records agree on everything the encoding carries. */
  predicate SameIdentity(a: Rfid, b: Rfid)
    requires WellFormed(a) && WellFormed(b)
  {
    a.number == b.number && a.timestamp == b.timestamp && a.length == b.length
    && a.uuid[..a.length] == b.uuid[..b.length]
  }

  /** Decoding an encoding recovers number, timestamp, length and the used uuid bytes. */
  lemma DecodeEncode(r: Rfid, stale: seq<u8>)
    requires WellFormed(r) && |stale| == ENCODED_SIZE
    ensures Decode(Encode(r, stale)).Some?
    ensures SameIdentity(Decode(Encode(r, stale)).value, r)
  {
    var e := Encode(r, stale);
    var d := Decode(e).value;
    assert d.uuid[..d.length] == e[9..9 + r.length];
  }

  /** Conversely, a valid meaningful prefix is reproduced by encoding its decoding. */
  lemma {:induction false} EncodeDecode(e: seq<u8>, stale: seq<u8>)
    requires Decode(e).Some? && |stale| == ENCODED_SIZE
    ensures var r := Decode(e).value;
      Encode(r, stale)[..EncodedSize(r)] == e[..EncodedSize(r)]
  {
    var r := Decode(e).value;
    var x := Encode(r, stale);
    assert |e[0..4]| == 4 && |e[4..8]| == 4;
    ToLEOfLE(e[0..4]);
    ToLEOfLE(e[4..8]);
    LEOfToLE(r.number, 4);
    LEOfToLE(r.timestamp, 4);
    assert x[0..4] == ToLE(r.number, 4) == e[0..4];
    assert x[4..8] == e[4..8];
    assert x[9..EncodedSize(r)] == e[9..EncodedSize(r)];
    assert x[..EncodedSize(r)] == x[0..4] + x[4..8] + [x[8]] + x[9..EncodedSize(r)];
    assert e[..EncodedSize(r)] == e[0..4] + e[4..8] + [e[8]] + e[9..EncodedSize(r)];
  }
}
