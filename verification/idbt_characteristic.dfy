/** The id helpers of shared/ble/IDBTCharacteristic.h: patching an index into a
    property id, splicing a property id into a service UUID, and the
    permission bits a characteristic is created with. */
module IdbtCharacteristic {
  import opened Common
  import opened BleUuid

  /** The minimum property-id length, and where the index digits go. */
  const ID_SIZE: int := 8
  const INDEX_AT: int := 4

  function Max(a: int, b: int): int
  {
    if a < b then b else a
  }

  /** writeIndex: the C string `src`, padded with '0' to 8 chars, with the two
      hex digits of `value` at positions 4 and 5. */
  function WriteIndex(src: seq<char>, value: u8): (r: string)
    ensures |r| == Max(|CString(src)|, ID_SIZE)
    ensures r[INDEX_AT] == HexDigit(value / 16) && r[INDEX_AT + 1] == HexDigit(value % 16)
    ensures forall k | 0 <= k < |r| && k != INDEX_AT && k != INDEX_AT + 1 ::
      r[k] == if k < |CString(src)| then src[k] else '0'
  {
    var s := CString(src);
    var buf := if |s| < ID_SIZE then s + seq(ID_SIZE - |s|, _ => '0') else s;
    buf[INDEX_AT := HEX_DIGITS[(value / 16) % 16]][INDEX_AT + 1 := HEX_DIGITS[value % 16]]
  }

  /** The index can be read back from the id. */
  lemma WriteIndexReadsBack(src: seq<char>, value: u8)
    ensures var r := WriteIndex(src, value);
      ParsePair(r[INDEX_AT], r[INDEX_AT + 1]) == Some(value as int)
  {
    ParsePairOfDigits(value / 16, value % 16);
  }

  /** A written id has no NUL, so reading it as a C string gives it back. */
  lemma CStringOfNulFree(s: seq<char>)
    requires '\0' !in s
    ensures CString(s) == s
  {
    if |s| > 0 {
      assert s[0] in s;
      assert forall c | c in s[1..] :: c in s;
      CStringOfNulFree(s[1..]);
      assert s == [s[0]] + s[1..];
    }
  }

  /** Writing the same index twice is the same as writing it once. */
  lemma {:induction false} WriteIndexIdempotent(src: seq<char>, value: u8)
    ensures WriteIndex(WriteIndex(src, value), value) == WriteIndex(src, value)
  {
    var r := WriteIndex(src, value);
    forall k | 0 <= k < |r| ensures r[k] != '\0' {
      if k != INDEX_AT && k != INDEX_AT + 1 && k < |CString(src)| {
        assert r[k] == CString(src)[k];
      }
    }
    assert '\0' !in r;
    CStringOfNulFree(r);
  }

  /** Writing a second index replaces the first. */
  lemma {:induction false} WriteIndexOverwrites(src: seq<char>, first: u8, second: u8)
    ensures WriteIndex(WriteIndex(src, first), second) == WriteIndex(src, second)
  {
    var r := WriteIndex(src, first);
    forall k | 0 <= k < |r| ensures r[k] != '\0' {
      if k != INDEX_AT && k != INDEX_AT + 1 && k < |CString(src)| {
        assert r[k] == CString(src)[k];
      }
    }
    assert '\0' !in r;
    CStringOfNulFree(r);
  }

  /** The UUID of a property: its first 8 chars are the property id, the rest
      is the service UUID. */
  function WithProperty(propertyId: string, serviceId: seq<char>): (u: seq<char>)
    requires |propertyId| >= ID_SIZE && |serviceId| == UUID_SIZE
    ensures |u| == UUID_SIZE
  {
    propertyId[..ID_SIZE] + serviceId[ID_SIZE..36] + ['\0']
  }

  method MakeUuidWithProperty(propertyId: string, serviceId: seq<char>) returns (uuid: seq<char>)
    requires |propertyId| >= ID_SIZE && |serviceId| == UUID_SIZE
    ensures uuid == WithProperty(propertyId, serviceId)
    ensures uuid[..ID_SIZE] == propertyId[..ID_SIZE] && uuid[ID_SIZE..36] == serviceId[ID_SIZE..36]
    ensures uuid[36] == '\0'
  {
    var out := new char[UUID_SIZE](_ => '\0');
    forall k | 0 <= k < 36 {
      out[k] := serviceId[k];
    }
    forall k | 0 <= k < ID_SIZE {
      out[k] := propertyId[k];
    }
    out[36] := '\0';
    uuid := out[..];
  }

  /** Splicing the same property id twice changes nothing more. */
  lemma WithPropertyIdempotent(propertyId: string, serviceId: seq<char>)
    requires |propertyId| >= ID_SIZE && |serviceId| == UUID_SIZE
    ensures WithProperty(propertyId, WithProperty(propertyId, serviceId)) == WithProperty(propertyId, serviceId)
  {
  }

  /** The service name encoded in a generated service UUID survives in every
      property UUID made from it: its hex digits all lie past position 8. */
  lemma {:induction false} PropertyKeepsServiceName(propertyId: string, name: string, n: nat)
    requires |propertyId| >= ID_SIZE && AsciiName(name) && n <= UsedLength(name)
    ensures NameBytes(WithProperty(propertyId, Generated(name)), n) == Some(Codes(name, n))
  {
    var u := WithProperty(propertyId, Generated(name));
    forall i | 0 <= i < n
      ensures u[HexPos(i)] == HexHigh(name[i]) && u[HexPos(i) + 1] == HexLow(name[i])
    {
      PairOfHexPos(i);
      GeneratedPair(name, i);
    }
    NameBytesOfPairs(u, name, n);
  }

  /** ArduinoBLE's property bits. */
  const BLE_READ: bv8 := 0x02
  const BLE_WRITE_WITHOUT_RESPONSE: bv8 := 0x04
  const BLE_NOTIFY: bv8 := 0x10

  /** The properties of a characteristic: readable and notifying when it has an
      initial value, writable without response when it has a write handler. */
  function AdjustPermissions(base: bv8, hasValue: bool, hasHandler: bool): (p: bv8)
    ensures p & !(BLE_READ | BLE_NOTIFY | BLE_WRITE_WITHOUT_RESPONSE) == base & !(BLE_READ | BLE_NOTIFY | BLE_WRITE_WITHOUT_RESPONSE)
    ensures p & base == base
    ensures p & BLE_READ != 0 <==> hasValue || base & BLE_READ != 0
    ensures p & BLE_NOTIFY != 0 <==> hasValue || base & BLE_NOTIFY != 0
    ensures p & BLE_WRITE_WITHOUT_RESPONSE != 0 <==> hasHandler || base & BLE_WRITE_WITHOUT_RESPONSE != 0
  {
    var p := base;
    var p := if hasValue then p | BLE_READ | BLE_NOTIFY else p;
    if hasHandler then p | BLE_WRITE_WITHOUT_RESPONSE else p
  }

  /** Adjusting an already adjusted set of bits changes nothing. */
  lemma AdjustPermissionsIdempotent(base: bv8, hasValue: bool, hasHandler: bool)
    ensures AdjustPermissions(AdjustPermissions(base, hasValue, hasHandler), hasValue, hasHandler)
      == AdjustPermissions(base, hasValue, hasHandler)
  {
  }
}
