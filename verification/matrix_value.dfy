/** The 12 x 8 LED-matrix bitmap of shared/display/MatrixR4Value.h: 96 pixels
    stored most-significant-bit first in three 32-bit words. */
module LedMatrix {

  const WIDTH: int := 12
  const HEIGHT: int := 8
  const WORD_COUNT: int := 3
  const TOTAL_BITS: int := WIDTH * HEIGHT

  /** The `Value` array: exactly three words. */
  type Value = v: seq<bv32> | |v| == 3 witness [0, 0, 0]

  const ALL_OFF: Value := [0x0000_0000, 0x0000_0000, 0x0000_0000]
  const ALL_ON: Value := [0xFFFF_FFFF, 0xFFFF_FFFF, 0xFFFF_FFFF]
  const CIRCLE: Value := [0x0600_9010, 0x8204_2041, 0x0809_0060]

  function GetIndex(y: int, x: int): int
  {
    y * WIDTH + x
  }

  function FlipY(y: int): int
  {
    HEIGHT - 1 - y
  }

  function FlipX(x: int): int
  {
    WIDTH - 1 - x
  }

  predicate OnGrid(y: int, x: int)
  {
    0 <= y < HEIGHT && 0 <= x < WIDTH
  }

  /** Row-major indexing is a bijection from the grid onto 0..95. */
  lemma GetIndexBijective(y: int, x: int, y2: int, x2: int)
    requires OnGrid(y, x) && OnGrid(y2, x2)
    ensures 0 <= GetIndex(y, x) < TOTAL_BITS
    ensures GetIndex(y, x) == GetIndex(y2, x2) ==> y == y2 && x == x2
  {
  }

  lemma GetIndexOnto(i: int)
    requires 0 <= i < TOTAL_BITS
    ensures OnGrid(i / WIDTH, i % WIDTH) && GetIndex(i / WIDTH, i % WIDTH) == i
  {
  }

  /** Both flips are involutions on the grid. */
  lemma FlipsStayOnGrid(y: int, x: int)
    requires OnGrid(y, x)
    ensures OnGrid(FlipY(y), FlipX(x)) && FlipY(FlipY(y)) == y && FlipX(FlipX(x)) == x
  {
  }

  // ---------------------------------------------------------------------
  // Bits of one word; offset 0 is the most significant bit.

  function Offset(k: nat): (r: bv6)
    requires k < 32
    ensures r < 32
  {
    k as bv6
  }

  function Mask(k: bv6): bv32
    requires k < 32
  {
    1 << (31 - k)
  }

  predicate WordBit(w: bv32, k: bv6)
    requires k < 32
  {
    w & Mask(k) != 0
  }

  function WithBit(w: bv32, k: bv6, v: bool): bv32
    requires k < 32
  {
    if v then w | Mask(k) else w & !Mask(k)
  }

  lemma WithBitSame(w: bv32, k: bv6, v: bool)
    requires k < 32
    ensures WordBit(WithBit(w, k, v), k) == v
  {
  }

  lemma MasksDisjoint(k: bv6, j: bv6)
    requires k < 32 && j < 32 && k != j
    ensures Mask(k) & Mask(j) == 0
  {
  }

  lemma WithBitOther(w: bv32, k: bv6, j: bv6, v: bool)
    requires k < 32 && j < 32 && k != j
    ensures WordBit(WithBit(w, k, v), j) == WordBit(w, j)
  {
    MasksDisjoint(k, j);
    DisjointMaskUntouched(w, Mask(k), Mask(j), v);
  }

  lemma DisjointMaskUntouched(w: bv32, m: bv32, n: bv32, v: bool)
    requires m & n == 0
    ensures (if v then w | m else w & !m) & n == w & n
  {
  }

  lemma ComplementBit(w: bv32, k: bv6)
    requires k < 32
    ensures WordBit(!w, k) == !WordBit(w, k)
  {
  }

  lemma OffsetInjective(i: nat, j: nat)
    requires i < 32 && j < 32 && i != j
    ensures Offset(i) != Offset(j)
  {
  }

  /** Every bit offset is reached from some index. */
  lemma AllOffsets(P: bv6 -> bool)
    requires forall i: nat :: i < 32 ==> P(Offset(i))
    ensures forall k: bv6 :: k < 32 ==> P(k)
  {
    forall k: bv6 | k < 32 ensures P(k) {
      var i: nat := k as int;
      assert Offset(i) == k;
    }
  }

  lemma {:induction false} TopBitsAgree(a: bv32, b: bv32, m: bv6)
    requires m <= 32
    requires forall k: bv6 :: k < m ==> WordBit(a, k) == WordBit(b, k)
    ensures a >> (32 - m) == b >> (32 - m)
    decreases m
  {
    if m > 0 {
      TopBitsAgree(a, b, m - 1);
      assert WordBit(a, m - 1) == WordBit(b, m - 1);
    }
  }

  /** A word is determined by its 32 bits. */
  lemma WordDeterminedByBits(a: bv32, b: bv32)
    requires forall i: nat :: i < 32 ==> WordBit(a, Offset(i)) == WordBit(b, Offset(i))
    ensures a == b
  {
    var P := (k: bv6) => k < 32 && WordBit(a, k) == WordBit(b, k);
    forall i: nat | i < 32 ensures P(Offset(i)) {
      assert WordBit(a, Offset(i)) == WordBit(b, Offset(i));
    }
    AllOffsets(P);
    forall k: bv6 | k < 32 ensures WordBit(a, k) == WordBit(b, k) {
      assert P(k);
    }
    TopBitsAgree(a, b, 32);
  }

  // ---------------------------------------------------------------------
  // Bits of a frame.

  /** Pixel `index` lives in word index / 32 at offset index % 32. */
  predicate GetBit(frame: Value, index: int)
    requires 0 <= index < TOTAL_BITS
  {
    WordBit(frame[index / 32], Offset(index % 32))
  }

  function SetBitValue(frame: Value, index: int, value: bool): Value
    requires 0 <= index < TOTAL_BITS
  {
    frame[index / 32 := WithBit(frame[index / 32], Offset(index % 32), value)]
  }

  /** setBit changes exactly one bit: the one it was asked to set. */
  lemma GetBitAfterSetBit(frame: Value, index: int, value: bool, j: int)
    requires 0 <= index < TOTAL_BITS && 0 <= j < TOTAL_BITS
    ensures GetBit(SetBitValue(frame, index, value), j) == if j == index then value else GetBit(frame, j)
  {
    var f := SetBitValue(frame, index, value);
    if j == index {
      WithBitSame(frame[index / 32], Offset(index % 32), value);
    } else if j / 32 == index / 32 {
      OffsetInjective(index % 32, j % 32);
      WithBitOther(frame[index / 32], Offset(index % 32), Offset(j % 32), value);
    } else {
      assert f[j / 32] == frame[j / 32];
    }
  }

  /** A frame is determined by its 96 bits. */
  lemma FrameDeterminedByBits(a: Value, b: Value)
    requires forall i :: 0 <= i < TOTAL_BITS ==> GetBit(a, i) == GetBit(b, i)
    ensures a == b
  {
    forall w | 0 <= w < WORD_COUNT ensures a[w] == b[w] {
      forall i: nat | i < 32 ensures WordBit(a[w], Offset(i)) == WordBit(b[w], Offset(i)) {
        var index := 32 * w + i;
        assert index / 32 == w && index % 32 == i;
        assert GetBit(a, index) == GetBit(b, index);
      }
      WordDeterminedByBits(a[w], b[w]);
    }
  }

  function Complement(v: Value): Value
  {
    [!v[0], !v[1], !v[2]]
  }

  lemma ComplementFlipsEveryBit(v: Value, index: int)
    requires 0 <= index < TOTAL_BITS
    ensures GetBit(Complement(v), index) == !GetBit(v, index)
  {
    var k := Offset(index % 32);
    if index / 32 == 0 {
      ComplementBit(v[0], k);
    } else if index / 32 == 1 {
      ComplementBit(v[1], k);
    } else {
      ComplementBit(v[2], k);
    }
  }

  predicate Pixel(frame: Value, y: int, x: int)
    requires OnGrid(y, x)
  {
    GetBit(frame, GetIndex(y, x))
  }

  function SourceY(y: int, flippingY: bool): int
  {
    if flippingY then FlipY(y) else y
  }

  function SourceX(x: int, flippingX: bool): int
  {
    if flippingX then FlipX(x) else x
  }

  /** What pixel (y, x) of the result of update must be. */
  predicate Expected(input: Value, y: int, x: int, flippingY: bool, flippingX: bool, inverting: bool)
    requires OnGrid(y, x)
  {
    FlipsStayOnGrid(y, x);
    Pixel(input, SourceY(y, flippingY), SourceX(x, flippingX)) != inverting
  }

  /** `frame` is the picture `input` turns into under the given flips and inversion. */
  ghost predicate Shows(frame: Value, input: Value, flippingY: bool, flippingX: bool, inverting: bool)
  {
    forall y, x | OnGrid(y, x) :: Pixel(frame, y, x) == Expected(input, y, x, flippingY, flippingX, inverting)
  }

  /** Only one frame shows a given transformed picture. */
  lemma {:induction false} ShowsIsUnique(a: Value, b: Value, input: Value, flippingY: bool, flippingX: bool, inverting: bool)
    requires Shows(a, input, flippingY, flippingX, inverting)
    requires Shows(b, input, flippingY, flippingX, inverting)
    ensures a == b
  {
    forall i | 0 <= i < TOTAL_BITS ensures GetBit(a, i) == GetBit(b, i) {
      GetIndexOnto(i);
      assert Pixel(a, i / WIDTH, i % WIDTH) == Pixel(b, i / WIDTH, i % WIDTH);
    }
    FrameDeterminedByBits(a, b);
  }

  /** The word-wise shortcut taken when nothing is flipped shows the right picture. */
  lemma {:induction false} UnflippedShortcut(input: Value, inverting: bool)
    ensures Shows(if inverting then Complement(input) else input, input, false, false, inverting)
  {
    forall y, x | OnGrid(y, x)
      ensures Pixel(if inverting then Complement(input) else input, y, x) == Expected(input, y, x, false, false, inverting)
    {
      GetIndexBijective(y, x, y, x);
      ComplementFlipsEveryBit(input, GetIndex(y, x));
    }
  }

  method SetBit(frame: array<bv32>, index: int, value: bool)
    requires frame.Length == WORD_COUNT && 0 <= index < TOTAL_BITS
    modifies frame
    ensures frame[..] == SetBitValue(old(frame[..]), index, value)
  {
    frame[index / 32] := WithBit(frame[index / 32], Offset(index % 32), value);
  }

  /** The pixel-by-pixel path of update: every destination pixel is read from
      its mirrored source pixel, inverted if asked, into a fresh frame. */
  method Transform(input: Value, flippingY: bool, flippingX: bool, inverting: bool) returns (result: Value)
    ensures Shows(result, input, flippingY, flippingX, inverting)
  {
    var frame := new bv32[WORD_COUNT];
    frame[0], frame[1], frame[2] := *, *, *;  // the source leaves it uninitialised
    for y := 0 to HEIGHT
      invariant forall yy, xx | 0 <= yy < y && 0 <= xx < WIDTH ::
        Pixel(frame[..], yy, xx) == Expected(input, yy, xx, flippingY, flippingX, inverting)
    {
      for x := 0 to WIDTH
        invariant forall yy, xx | 0 <= yy < y && 0 <= xx < WIDTH ::
          Pixel(frame[..], yy, xx) == Expected(input, yy, xx, flippingY, flippingX, inverting)
        invariant forall xx | 0 <= xx < x ::
          Pixel(frame[..], y, xx) == Expected(input, y, xx, flippingY, flippingX, inverting)
      {
        CopyPixel(frame, input, y, x, flippingY, flippingX, inverting);
      }
    }
    result := frame[..];
  }

  /** One turn of the inner loop: pixel (y, x) of the frame gets its source
      pixel, possibly inverted; every other pixel keeps its value. */
  method CopyPixel(frame: array<bv32>, input: Value, y: int, x: int, flippingY: bool, flippingX: bool, inverting: bool)
    requires frame.Length == WORD_COUNT && OnGrid(y, x)
    modifies frame
    ensures forall yy, xx | OnGrid(yy, xx) ::
      Pixel(frame[..], yy, xx) == if yy == y && xx == x then Expected(input, y, x, flippingY, flippingX, inverting) else Pixel(old(frame[..]), yy, xx)
  {
    var srcY := if flippingY then FlipY(y) else y;
    var srcX := if flippingX then FlipX(x) else x;
    FlipsStayOnGrid(y, x);
    GetIndexBijective(srcY, srcX, srcY, srcX);
    var srcIndex := GetIndex(srcY, srcX);
    var dstIndex := GetIndex(y, x);
    GetIndexBijective(y, x, y, x);
    var pixel := GetBit(input, srcIndex);
    if inverting {
      pixel := !pixel;
    }
    ghost var before := frame[..];
    SetBit(frame, dstIndex, pixel);
    forall yy, xx | OnGrid(yy, xx)
      ensures Pixel(frame[..], yy, xx) == if yy == y && xx == x then pixel else Pixel(before, yy, xx)
    {
      GetIndexBijective(yy, xx, y, x);
      GetBitAfterSetBit(before, dstIndex, pixel, GetIndex(yy, xx));
    }
  }

  class MatrixR4Value {
    var value: Value

    constructor ()
      ensures value == ALL_OFF
    {
      value := ALL_OFF;
    }

    /** Stores `input`, optionally mirrored and inverted; reports whether the stored picture changed. */
    method Update(input: Value, flippingY: bool, flippingX: bool, inverting: bool) returns (changed: bool)
      modifies this
      ensures Shows(value, input, flippingY, flippingX, inverting)
      ensures !flippingY && !flippingX ==> value == if inverting then Complement(input) else input
      ensures changed <==> value != old(value)
      ensures Shows(old(value), input, flippingY, flippingX, inverting) ==> !changed
    {
      var newValue: Value;
      if !flippingY && !flippingX {
        newValue := if inverting then Complement(input) else input;
        UnflippedShortcut(input, inverting);
      } else {
        newValue := Transform(input, flippingY, flippingX, inverting);
      }
      if value == newValue {
        return false;
      }
      if Shows(old(value), input, flippingY, flippingX, inverting) {
        ShowsIsUnique(old(value), newValue, input, flippingY, flippingX, inverting);
      }
      value := newValue;
      return true;
    }
  }
}
