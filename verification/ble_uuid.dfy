/** makeUuidWithService of shared/ble/BLEUUID.h: a 128-bit UUID in the
    8-4-4-4-12 text form of section 3 of RFC 4122, NUL-terminated in 37 chars,
    whose last 28 hex digits spell (in hex) up to 12 bytes of a service name. */
module BleUuid {
  import opened Common

  const UUID_SIZE: int := 37
  const NAME_BYTES: int := 12

  /** How many name chars are encoded. */
  function UsedLength(name: string): (n: int)
    ensures 0 <= n <= NAME_BYTES && n <= |name|
    ensures n == NAME_BYTES || n == |name|
  {
    if |name| < NAME_BYTES then |name| else NAME_BYTES
  }

  /** `sprintf("%02X")` is only two characters wide for non-negative chars. */
  predicate AsciiName(name: string)
  {
    forall i | 0 <= i < |name| && i < NAME_BYTES :: name[i] < 128 as char
  }

  /** Where the hex pair of name char i starts: after the 9 fixed characters,
      the earlier pairs and the dashes already inserted after chars 1, 3 and 5. */
  function HexPos(i: int): int
  {
    9 + 2 * i + (if i < 2 then 0 else if i < 4 then 1 else if i < 6 then 2 else 3)
  }

  /** The dashes of the layout at 13, 18 and 23 follow name chars 1, 3 and 5. */
  function DashNeeds(k: int): int
  {
    if k == 13 then 2 else if k == 18 then 4 else 6
  }

  /** Which name char the hex digit at position k (9..35, not a dash) belongs to. */
  function PairOf(k: int): int
  {
    if k < 13 then (k - 9) / 2
    else if k < 18 then 2 + (k - 14) / 2
    else if k < 23 then 4 + (k - 19) / 2
    else 6 + (k - 24) / 2
  }

  lemma PairOfHexPos(i: int)
    requires 0 <= i < NAME_BYTES
    ensures PairOf(HexPos(i)) == i && PairOf(HexPos(i) + 1) == i
    ensures 9 <= HexPos(i) && HexPos(i) + 1 < 36
    ensures HexPos(i) !in {13, 18, 23} && HexPos(i) + 1 !in {13, 18, 23}
  {
  }

  /** What iteration i of the loop writes: the pair, and after chars 1, 3 and 5 a dash. */
  lemma GeneratedPairAt(name: string, i: int)
    requires AsciiName(name) && 0 <= i < UsedLength(name)
    ensures 9 <= HexPos(i) && HexPos(i) + 2 < UUID_SIZE
    ensures GeneratedAt(name, HexPos(i)) == HexHigh(name[i])
    ensures GeneratedAt(name, HexPos(i) + 1) == HexLow(name[i])
    ensures i == 1 || i == 3 || i == 5 ==> GeneratedAt(name, HexPos(i) + 2) == '-' && HexPos(i + 1) == HexPos(i) + 3
    ensures !(i == 1 || i == 3 || i == 5) ==> HexPos(i + 1) == HexPos(i) + 2
  {
    PairOfHexPos(i);
  }

  function HexHigh(c: char): char
    requires c < 128 as char
  {
    HexDigit(c as int / 16)
  }

  function HexLow(c: char): char
  {
    HexDigit(c as int % 16)
  }

  /** The character the generated UUID holds at position k. */
  function GeneratedAt(name: string, k: int): char
    requires AsciiName(name) && 0 <= k < UUID_SIZE
  {
    var n := UsedLength(name);
    if k == 36 then '\0'
    else if k == 8 then '-'
    else if k < 8 then '0'
    else if k == 13 || k == 18 || k == 23 then (if n >= DashNeeds(k) then '-' else '0')
    else
      var i := PairOf(k);
      if i < n then (if k == HexPos(i) then HexHigh(name[i]) else HexLow(name[i])) else '0'
  }

  function Generated(name: string): (u: seq<char>)
    requires AsciiName(name)
    ensures |u| == UUID_SIZE
  {
    seq(UUID_SIZE, k requires 0 <= k < UUID_SIZE => GeneratedAt(name, k))
  }

  /** The override path: 37 chars copied from the override id; when it is
      exactly 36 long, the string's terminator is the 37th. */
  function Overridden(overrideId: string): (u: seq<char>)
    requires |overrideId| >= 36
    ensures |u| == UUID_SIZE
  {
    (overrideId + "\0")[..UUID_SIZE]
  }

  /** The buffer after fill('0') and the fixed dash and terminator. */
  function Blank(): (s: seq<char>)
    ensures |s| == UUID_SIZE
  {
    seq(UUID_SIZE, k => if k == 8 then '-' else if k == 36 then '\0' else '0')
  }

  /** The buffer after i turns of the loop: each turn sprintf's two hex digits
      and their terminator at HexPos, and after chars 1, 3 and 5 a dash over
      that terminator. */
  function Filled(name: string, i: int): (s: seq<char>)
    requires AsciiName(name) && 0 <= i <= UsedLength(name)
    ensures |s| == UUID_SIZE
  {
    if i == 0 then Blank()
    else
      var p, c := HexPos(i - 1), name[i - 1];
      var s := Filled(name, i - 1)[p := HexHigh(c)][p + 1 := HexLow(c)][p + 2 := '\0'];
      if i - 1 == 1 || i - 1 == 3 || i - 1 == 5 then s[p + 2 := '-'] else s
  }

  /** After i turns, the buffer agrees with the generated UUID before HexPos(i),
      holds the fill '0' after it and the terminator at 36. */
  lemma {:induction false} FilledAgrees(name: string, i: int)
    requires AsciiName(name) && 0 <= i <= UsedLength(name)
    ensures forall k | 0 <= k < HexPos(i) :: Filled(name, i)[k] == Generated(name)[k]
    ensures forall k | HexPos(i) < k < 36 :: Filled(name, i)[k] == '0'
    ensures Filled(name, i)[36] == '\0'
  {
    if i == 0 {
      forall k | 0 <= k < 9 ensures Filled(name, i)[k] == Generated(name)[k] {
        assert Generated(name)[k] == GeneratedAt(name, k);
      }
    } else {
      var j := i - 1;
      FilledAgrees(name, j);
      FilledStep(name, j, Filled(name, j), Filled(name, i));
    }
  }

  /** One turn of the loop moves the agreeing prefix from HexPos(j) to HexPos(j + 1). */
  lemma FilledStep(name: string, j: int, prev: seq<char>, cur: seq<char>)
    requires AsciiName(name) && 0 <= j < UsedLength(name)
    requires prev == Filled(name, j) && cur == Filled(name, j + 1)
    requires forall k | 0 <= k < HexPos(j) :: prev[k] == Generated(name)[k]
    requires forall k | HexPos(j) < k < 36 :: prev[k] == '0'
    requires prev[36] == '\0'
    ensures forall k | 0 <= k < HexPos(j + 1) :: cur[k] == Generated(name)[k]
    ensures forall k | HexPos(j + 1) < k < 36 :: cur[k] == '0'
    ensures cur[36] == '\0'
  {
    GeneratedPairAt(name, j);
    var p, c := HexPos(j), name[j];
    var g := Generated(name);
    var s := prev[p := HexHigh(c)][p + 1 := HexLow(c)][p + 2 := '\0'];
    assert cur == if j == 1 || j == 3 || j == 5 then s[p + 2 := '-'] else s;
    forall k | 0 <= k < HexPos(j + 1) ensures cur[k] == g[k] {
      if k < p {
        assert cur[k] == prev[k];
      }
    }
    forall k | HexPos(j + 1) < k < 36 ensures cur[k] == '0' {
      assert cur[k] == prev[k];
    }
  }

  method MakeUuidWithService(serviceName: string, overrideId: string) returns (uuid: seq<char>)
    requires |overrideId| == 0 || |overrideId| >= 36
    requires AsciiName(serviceName)
    ensures |overrideId| > 0 ==> uuid == Overridden(overrideId)
    ensures |overrideId| == 0 ==> uuid == Generated(serviceName)
  {
    var result := new char[UUID_SIZE];
    if |overrideId| > 0 {
      forall k | 0 <= k < UUID_SIZE {
        result[k] := (overrideId + "\0")[k];
      }
      return result[..];
    }
    forall k | 0 <= k < UUID_SIZE {
      result[k] := '0';
    }
    result[8] := '-';
    result[36] := '\0';
    var n := UsedLength(serviceName);
    var pos := 9;
    var i := 0;
    assert result[..] == Blank();
    while i < NAME_BYTES && i < |serviceName|
      invariant 0 <= i <= n && pos == HexPos(i)
      invariant result[..] == Filled(serviceName, i)
    {
      GeneratedPairAt(serviceName, i);
      var c := serviceName[i];
      result[pos] := HexHigh(c);
      result[pos + 1] := HexLow(c);
      result[pos + 2] := '\0';
      pos := pos + 2;
      if i == 1 || i == 3 || i == 5 {
        result[pos] := '-';
        pos := pos + 1;
      }
      i := i + 1;
    }
    FilledAgrees(serviceName, i);
    if |serviceName| < NAME_BYTES {
      result[pos] := '0';
      GeneratedTail(serviceName, pos);
    }
    uuid := result[..];
    assert forall k | 0 <= k < UUID_SIZE :: uuid[k] == Generated(serviceName)[k];
  }

  /** From HexPos of the used length on, the generated UUID is fill but the terminator. */
  lemma GeneratedTail(name: string, pos: int)
    requires AsciiName(name) && pos == HexPos(UsedLength(name))
    ensures forall k | pos <= k < 36 :: Generated(name)[k] == '0'
  {
    forall k | pos <= k < 36 ensures Generated(name)[k] == '0' {
      assert Generated(name)[k] == GeneratedAt(name, k);
    }
  }

  /** The 8-4-4-4-12 frame: '0's, a dash at 8, the terminator at 36 and no
      terminator before it; the three inner dashes appear once the name is
      long enough to reach them. */
  lemma GeneratedLayout(name: string)
    requires AsciiName(name)
    ensures var u := Generated(name);
      && u[..8] == "00000000" && u[8] == '-' && u[36] == '\0'
      && '\0' !in u[..36]
      && (u[13] == '-' <==> UsedLength(name) >= 2)
      && (u[18] == '-' <==> UsedLength(name) >= 4)
      && (u[23] == '-' <==> UsedLength(name) >= 6)
  {
    var u := Generated(name);
    forall k | 0 <= k < 36 ensures u[k] != '\0' {
      assert u[k] == GeneratedAt(name, k);
    }
  }

  /** Name chars past the twelfth do not change the UUID. */
  lemma OnlyTwelveCharsCount(name: string, tail: string)
    requires |name| == NAME_BYTES && AsciiName(name)
    ensures AsciiName(name + tail) && Generated(name + tail) == Generated(name)
  {
    var u, v := Generated(name + tail), Generated(name);
    forall k | 0 <= k < UUID_SIZE ensures u[k] == v[k] {
      assert u[k] == GeneratedAt(name + tail, k);
    }
  }

  /** The byte value spelt by two hex digits, if both are hex digits. */
  function ParsePair(hi: char, lo: char): Option<int>
  {
    match (HexValue(hi), HexValue(lo))
    case (Some(h), Some(l)) => Some(16 * h + l)
    case _ => None
  }

  /** Two hex digits parse back to the byte they spell. */
  lemma ParsePairOfDigits(h: nat, l: nat)
    requires h < 16 && l < 16
    ensures ParsePair(HexDigit(h), HexDigit(l)) == Some(16 * h + l)
  {
    HexRoundTrip(h);
    HexRoundTrip(l);
  }

  /** Reads the first n name bytes back out of a UUID. */
  function NameBytes(u: seq<char>, n: nat): Option<seq<int>>
    requires n <= NAME_BYTES && |u| == UUID_SIZE
  {
    if n == 0 then Some([])
    else match (NameBytes(u, n - 1), ParsePair(u[HexPos(n - 1)], u[HexPos(n - 1) + 1]))
      case (Some(prefix), Some(b)) => Some(prefix + [b])
      case _ => None
  }

  /** The char codes of the first n chars. */
  function Codes(name: string, n: nat): (c: seq<int>)
    requires n <= |name|
    ensures |c| == n && forall i | 0 <= i < n :: c[i] == name[i] as int
  {
    if n == 0 then [] else Codes(name, n - 1) + [name[n - 1] as int]
  }

  lemma ParsePairOfHex(c: char)
    requires c < 128 as char
    ensures ParsePair(HexHigh(c), HexLow(c)) == Some(c as int)
  {
    HexRoundTrip(c as int / 16);
    HexRoundTrip(c as int % 16);
  }

  /** Where the generated UUID puts the hex digits of name char i. */
  lemma GeneratedPair(name: string, i: int)
    requires AsciiName(name) && 0 <= i < UsedLength(name)
    ensures Generated(name)[HexPos(i)] == HexHigh(name[i])
    ensures Generated(name)[HexPos(i) + 1] == HexLow(name[i])
  {
    PairOfHexPos(i);
    assert Generated(name)[HexPos(i)] == GeneratedAt(name, HexPos(i));
    assert Generated(name)[HexPos(i) + 1] == GeneratedAt(name, HexPos(i) + 1);
  }

  lemma {:induction false} NameBytesOfPairs(u: seq<char>, name: string, n: nat)
    requires |u| == UUID_SIZE && n <= NAME_BYTES && n <= |name| && AsciiName(name)
    requires forall i | 0 <= i < n :: u[HexPos(i)] == HexHigh(name[i]) && u[HexPos(i) + 1] == HexLow(name[i])
    ensures NameBytes(u, n) == Some(Codes(name, n))
  {
    if n > 0 {
      NameBytesOfPairs(u, name, n - 1);
      ParsePairOfHex(name[n - 1]);
    }
  }

  /** The encoded name chars can be read back: the UUID spells them in hex. */
  lemma NameRoundTrip(name: string, n: nat)
    requires AsciiName(name) && n <= UsedLength(name)
    ensures NameBytes(Generated(name), n) == Some(Codes(name, n))
  {
    forall i | 0 <= i < n
      ensures Generated(name)[HexPos(i)] == HexHigh(name[i]) && Generated(name)[HexPos(i) + 1] == HexLow(name[i])
    {
      GeneratedPair(name, i);
    }
    NameBytesOfPairs(Generated(name), name, n);
  }
}
