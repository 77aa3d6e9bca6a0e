/** Shared vocabulary: optional values, machine integer ranges, wrap-around
    arithmetic, C strings and little-endian byte order. */
module Common {

  datatype Option<+T> = None | Some(value: T)

  /** A raw pointer: 0 is the null pointer, any other number an address. */
  type Addr = nat
  const NULL: Addr := 0

  const TWO_8: int := 0x100
  const TWO_16: int := 0x1_0000
  const TWO_32: int := 0x1_0000_0000

  type u8 = x: int | 0 <= x < TWO_8
  type u16 = x: int | 0 <= x < TWO_16
  type u32 = x: int | 0 <= x < TWO_32
  type i32 = x: int | -0x8000_0000 <= x < 0x8000_0000

  /** Unsigned 32-bit wrap-around of a mathematical integer. */
  function Wrap32(x: int): (r: u32)
    ensures 0 <= x < TWO_32 ==> r == x
    ensures (r - x) % TWO_32 == 0
  {
    x % TWO_32
  }

  /** The text of a C string held in `mem`: everything before the first NUL
      (the end of `mem` counts as a terminator). */
  function CString(mem: seq<char>): (s: seq<char>)
    ensures |s| <= |mem| && s == mem[..|s|]
    ensures '\0' !in s
    ensures |s| < |mem| ==> mem[|s|] == '\0'
  {
    if |mem| == 0 || mem[0] == '\0' then [] else [mem[0]] + CString(mem[1..])
  }

  function Pow256(n: nat): (p: nat)
    ensures p >= 1
  {
    if n == 0 then 1 else TWO_8 * Pow256(n - 1)
  }

  /** The value of `bytes` read in little-endian order (lowest byte first),
      the byte order of every target this code runs on. */
  function LE(bytes: seq<u8>): (v: nat)
    ensures v < Pow256(|bytes|)
  {
    if |bytes| == 0 then 0 else bytes[0] + TWO_8 * LE(bytes[1..])
  }

  /** The `n` lowest bytes of `v`, lowest first. */
  function ToLE(v: nat, n: nat): (b: seq<u8>)
    ensures |b| == n
  {
    if n == 0 then [] else [v % TWO_8] + ToLE(v / TWO_8, n - 1)
  }

  lemma DivMod256(lo: int, hi: int)
    requires 0 <= lo < TWO_8
    ensures (lo + TWO_8 * hi) % TWO_8 == lo && (lo + TWO_8 * hi) / TWO_8 == hi
  {
  }

  lemma {:induction false} LEOfToLE(v: nat, n: nat)
    requires v < Pow256(n)
    ensures LE(ToLE(v, n)) == v
  {
    if n > 0 {
      LEOfToLE(v / TWO_8, n - 1);
      assert ToLE(v, n)[1..] == ToLE(v / TWO_8, n - 1);
    }
  }

  lemma {:induction false} ToLEOfLE(b: seq<u8>)
    ensures ToLE(LE(b), |b|) == b
  {
    if |b| > 0 {
      DivMod256(b[0], LE(b[1..]));
      ToLEOfLE(b[1..]);
    }
  }

  /** Four little-endian bytes, the shape of every 32-bit field read here. */
  function LE32(b0: u8, b1: u8, b2: u8, b3: u8): (v: u32)
    ensures v == LE([b0, b1, b2, b3])
  {
    assert [b3][1..] == [];
    assert [b2, b3][1..] == [b3] && LE([b2, b3]) == b2 + TWO_8 * b3;
    assert [b1, b2, b3][1..] == [b2, b3] && LE([b1, b2, b3]) == b1 + TWO_8 * LE([b2, b3]);
    assert [b0, b1, b2, b3][1..] == [b1, b2, b3];
    b0 + TWO_8 * b1 + TWO_16 * b2 + 0x100_0000 * b3
  }

  function LE16(b0: u8, b1: u8): (v: u16)
    ensures v == LE([b0, b1])
  {
    assert [b1][1..] == [];
    assert [b0, b1][1..] == [b1];
    b0 + TWO_8 * b1
  }

  const HEX_DIGITS: seq<char> := "0123456789ABCDEF"

  /** Upper-case hexadecimal digit of a nibble and its inverse. */
  function HexDigit(n: nat): (c: char)
    requires n < 16
    ensures '0' <= c <= '9' || 'A' <= c <= 'F'
  {
    HEX_DIGITS[n]
  }

  function HexValue(c: char): (n: Option<nat>)
    ensures n.Some? <==> '0' <= c <= '9' || 'A' <= c <= 'F'
    ensures n.Some? ==> n.value < 16
  {
    if '0' <= c <= '9' then Some(c as int - '0' as int)
    else if 'A' <= c <= 'F' then Some(c as int - 'A' as int + 10)
    else None
  }

  /** Every nibble's digit reads back as the nibble. */
  lemma HexRoundTrip(n: nat)
    requires n < 16
    ensures HexValue(HexDigit(n)) == Some(n)
  {
    assert HEX_DIGITS[n] == if n < 10 then ('0' as int + n) as char else ('A' as int + n - 10) as char;
  }

  /** Every digit is the digit of the nibble it reads as. */
  lemma HexValueRoundTrip(c: char)
    requires HexValue(c).Some?
    ensures HexDigit(HexValue(c).value) == c
  {
    var n := HexValue(c).value;
    assert HEX_DIGITS[n] == if n < 10 then ('0' as int + n) as char else ('A' as int + n - 10) as char;
  }
}
