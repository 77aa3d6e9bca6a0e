/** The WAV side of shared/audio/SbjAudioPlayerEsp32S3.h: the request path
    copy, the RIFF/WAVE chunk walker over the file's bytes, the format gate,
    mono-to-stereo duplication and silence chunking, and the queue/task
    start-up guards. I2S, the SD card and FreeRTOS are not modelled: their
    answers are inputs and their effects are recorded. */
module AudioPlayer {
  import opened Common

  type i16 = x: int | -0x8000 <= x < 0x8000

  /** Req::path holds 96 chars. */
  const PATH_CAPACITY: int := 96
  /** The playback buffers: 4096 raw bytes, 4096 stereo samples. */
  const RAW_BYTES: int := 4096
  const STEREO_SAMPLES: int := 4096
  const SILENCE_CHUNK_FRAMES: int := 512

  // ---------------------------------------------------------------------
  // copyPath_

  /** Copies the C string `src` (None = null) into `dst`, truncated to
      cap - 1 chars and NUL-terminated. */
  method CopyPath(dst: array?<char>, cap: int, src: Option<seq<char>>)
    requires dst != null ==> 0 <= cap <= dst.Length
    requires src.Some? ==> '\0' in src.value
    modifies dst
    ensures dst == null || cap == 0 ==> dst == null || dst[..] == old(dst[..])
    ensures dst != null && cap > 0 ==>
      var s := if src.Some? then CString(src.value) else [];
      var n := if |s| < cap - 1 then |s| else cap - 1;
      && (forall k | 0 <= k < n :: dst[k] == s[k]) && dst[n] == '\0'
      && (forall k | n < k < dst.Length :: dst[k] == old(dst[k]))
  {
    if dst == null || cap == 0 {
      return;
    }
    if src.None? {
      dst[0] := '\0';
      return;
    }
    CopyChars(dst, cap, src.value);
  }

  /** The copy loop of copyPath_ for a non-null destination and source. */
  method CopyChars(dst: array<char>, cap: int, mem: seq<char>)
    requires 0 < cap <= dst.Length && '\0' in mem
    modifies dst
    ensures var n := if |CString(mem)| < cap - 1 then |CString(mem)| else cap - 1;
      && (forall k | 0 <= k < n :: dst[k] == CString(mem)[k]) && dst[n] == '\0'
      && (forall k | n < k < dst.Length :: dst[k] == old(dst[k]))
  {
    ghost var s := CString(mem);
    var i := 0;
    while i + 1 < cap && mem[i] != '\0'
      invariant 0 <= i < cap && i <= |s| && i < |mem|
      invariant forall k | 0 <= k < i :: dst[k] == mem[k]
      invariant forall k | i <= k < dst.Length :: dst[k] == old(dst[k])
    {
      assert i < |s|;
      dst[i] := mem[i];
      i := i + 1;
    }
    assert i + 1 < cap ==> i == |s|;
    dst[i] := '\0';
  }

  /** The C string extends past any prefix without NUL. */
  lemma {:induction false} CStringPrefix(mem: seq<char>, i: nat)
    requires i <= |mem| && '\0' !in mem[..i]
    ensures i <= |CString(mem)| && CString(mem)[..i] == mem[..i]
  {
    if i > 0 {
      assert mem[0] in mem[..i];
      assert mem[1..][..i - 1] == mem[1..i];
      assert forall c | c in mem[1..i] :: c in mem[..i];
      CStringPrefix(mem[1..], i - 1);
    }
  }

  lemma {:induction false} CStringStops(mem: seq<char>, i: nat)
    requires i < |mem| && mem[i] == '\0' && '\0' !in mem[..i]
    ensures |CString(mem)| == i
  {
    if i > 0 {
      assert mem[0] in mem[..i];
      assert forall c | c in mem[1..][..i - 1] :: c in mem[..i];
      CStringStops(mem[1..], i - 1);
    }
  }

  /** Reading the copied path back as a C string gives the truncated source. */
  lemma CopiedPathReadsBack(dst: seq<char>, s: seq<char>, n: nat)
    requires n < |dst| && n <= |s| && dst[..n] == s[..n] && dst[n] == '\0' && '\0' !in s
    ensures CString(dst) == s[..n]
  {
    assert forall c | c in dst[..n] :: c in s;
    CStringStops(dst, n);
    CStringPrefix(dst, n);
  }

  // ---------------------------------------------------------------------
  // Reading the file

  /** What `read(buf, n)` returns at position `pos`: up to n bytes, fewer at the
      end of the file; the position moves past what was read. */
  function ReadBytes(data: seq<u8>, pos: nat, n: nat): (r: (seq<u8>, nat))
    ensures |r.0| <= n && r.1 == pos + |r.0|
    ensures pos + n <= |data| ==> r.0 == data[pos..pos + n]
    ensures pos < |data| ==> r.1 <= |data| && r.0 == data[pos..r.1]
    ensures pos >= |data| ==> r.0 == [] && r.1 == pos
    ensures pos < |data| && n > 0 ==> |r.0| > 0
    ensures pos + n > |data| ==> r.1 >= |data|
  {
    if pos >= |data| then ([], pos)
    else
      var end := if pos + n <= |data| then pos + n else |data|;
      (data[pos..end], end)
  }

  /** rd16_: two bytes little-endian, 0 after a short read. */
  function Rd16(data: seq<u8>, pos: nat): (r: (u16, nat))
    ensures pos + 2 <= |data| ==> r.0 == LE(data[pos..pos + 2]) && r.1 == pos + 2
    ensures pos + 2 > |data| ==> r.0 == 0 && r.1 >= |data|
  {
    var (b, next) := ReadBytes(data, pos, 2);
    assert |b| == 2 ==> [b[0], b[1]] == b;
    (if |b| == 2 then LE16(b[0], b[1]) else 0, next)
  }

  /** rd32_: four bytes little-endian, 0 after a short read. */
  function Rd32(data: seq<u8>, pos: nat): (r: (u32, nat))
    ensures pos + 4 <= |data| ==> r.0 == LE(data[pos..pos + 4]) && r.1 == pos + 4
    ensures pos + 4 > |data| ==> r.0 == 0 && r.1 >= |data|
  {
    var (b, next) := ReadBytes(data, pos, 4);
    assert |b| == 4 ==> [b[0], b[1], b[2], b[3]] == b;
    (if |b| == 4 then LE32(b[0], b[1], b[2], b[3]) else 0, next)
  }

  /** Rd16 and Rd32 invert little-endian encoding. */
  lemma Rd32OfEncoding(prefix: seq<u8>, v: u32, suffix: seq<u8>)
    ensures Rd32(prefix + ToLE(v, 4) + suffix, |prefix|) == (v, |prefix| + 4)
  {
    var data := prefix + ToLE(v, 4) + suffix;
    assert data[|prefix|..|prefix| + 4] == ToLE(v, 4);
    LEOfToLE(v, 4);
  }

  lemma Rd16OfEncoding(prefix: seq<u8>, v: u16, suffix: seq<u8>)
    ensures Rd16(prefix + ToLE(v, 2) + suffix, |prefix|) == (v, |prefix| + 2)
  {
    var data := prefix + ToLE(v, 2) + suffix;
    assert data[|prefix|..|prefix| + 2] == ToLE(v, 2);
    LEOfToLE(v, 2);
  }

  // ---------------------------------------------------------------------
  // parseWav_

  const RIFF_ID: seq<u8> := [0x52, 0x49, 0x46, 0x46]  // "RIFF"
  const WAVE_ID: seq<u8> := [0x57, 0x41, 0x56, 0x45]  // "WAVE"
  const FMT_ID: seq<u8> := [0x66, 0x6D, 0x74, 0x20]   // "fmt "
  const DATA_ID: seq<u8> := [0x64, 0x61, 0x74, 0x61]  // "data"
  const FMT_SIZE: int := 16

  datatype WavInfo = WavInfo(fmt: u16, ch: u16, sr: u32, bits: u16, dataOff: u32, dataSize: u32)

  const NO_INFO: WavInfo := WavInfo(0, 0, 0, 0, 0, 0)

  /** The state of the chunk loop after one chunk: go on at `pos`, or leave the
      loop with a verdict. */
  datatype ChunkStep = Continue(pos: nat, info: WavInfo, gotFmt: bool, gotData: bool) | Stop(ok: bool, info: WavInfo)

  /** padded: a chunk's size rounded up to even, exactly. */
  function Padded(n: u32): nat
  {
    n + n % 2
  }

  /** The source's uint32_t arithmetic for seek(position() + padded(n)): the
      padded size and the sum are each taken modulo 2^32. */
  function SeekAsWritten(position: u32, n: u32): u32
  {
    Wrap32(position + Wrap32(n + n % 2))
  }

  /** That is the exact target taken modulo 2^32 once. */
  lemma SeekAsWrittenWrapsOnce(position: u32, n: u32)
    ensures SeekAsWritten(position, n) == Wrap32(position + Padded(n))
  {
    var d := n + n % 2;
    assert (Wrap32(d) - d) % TWO_32 == 0;
    var k := (Wrap32(d) - d) / TWO_32;
    assert Wrap32(d) == d + k * TWO_32;
    ShiftWrap32(position + d, k);
  }

  lemma ShiftWrap32(x: int, k: int)
    ensures Wrap32(x + k * TWO_32) == Wrap32(x)
  {
  }

  /** The 16 bytes of an "fmt " chunk body: format, channels, sample rate,
      byte rate and block align (read and dropped), bits per sample. */
  function ReadFmtFields(data: seq<u8>, pos: nat): (r: (WavInfo, nat))
    ensures pos + 16 <= |data| ==>
      && r.1 == pos + 16
      && r.0.fmt == LE(data[pos..pos + 2]) && r.0.ch == LE(data[pos + 2..pos + 4])
      && r.0.sr == LE(data[pos + 4..pos + 8]) && r.0.bits == LE(data[pos + 14..pos + 16])
    ensures pos < |data| ==> r.1 <= |data|
    ensures pos >= |data| ==> r.1 == pos
    ensures r.0.fmt == Rd16(data, pos).0 && r.0.ch == Rd16(data, pos + 2).0
    ensures r.0.sr == Rd32(data, pos + 4).0 && r.0.bits == Rd16(data, pos + 14).0
  {
    var (fmt, p3) := Rd16(data, pos);
    var (ch, p4) := Rd16(data, p3);
    var (sr, p5) := Rd32(data, p4);
    var (_, p6) := Rd32(data, p5);
    var (_, p7) := Rd16(data, p6);
    var (bits, p8) := Rd16(data, p7);
    (WavInfo(fmt, ch, sr, bits, 0, 0), p8)
  }

  /** One turn of the chunk loop at `pos` (the loop runs only while bytes are
      available), with exact position arithmetic. */
  function ExactChunk(data: seq<u8>, pos: nat, w: WavInfo, gotFmt: bool, gotData: bool): (s: ChunkStep)
    requires |data| < TWO_32 && pos < |data|
    ensures s.Continue? ==> s.pos >= pos + 4
  {
    var (id, p1) := ReadBytes(data, pos, 4);
    if |id| != 4 then Stop(gotFmt && gotData, w)
    else
      var (sz, p2) := Rd32(data, p1);
      if id == FMT_ID then
        var (f, p8) := ReadFmtFields(data, p2);
        var w' := w.(fmt := f.fmt, ch := f.ch, sr := f.sr, bits := f.bits);
        if sz > FMT_SIZE then Continue(p8 + Padded(sz - FMT_SIZE), w', true, gotData)
        else if sz < FMT_SIZE then Stop(false, w')
        else Continue(p8, w', true, gotData)
      else if id == DATA_ID then
        Continue(p2, w.(dataOff := p2, dataSize := sz), gotFmt, true)
      else
        Continue(p2 + Padded(sz), w, gotFmt, gotData)
  }

  /** One turn of the chunk loop; with `wrap` the position it goes on at is
      taken modulo 2^32, which is what the source's uint32_t seeks compute
      (SeekAsWrittenWrapsOnce; positions before a seek are below 2^32). */
  function Chunk(data: seq<u8>, pos: nat, w: WavInfo, gotFmt: bool, gotData: bool, wrap: bool): (s: ChunkStep)
    requires |data| < TWO_32 && pos < |data|
    ensures !wrap ==> s == ExactChunk(data, pos, w, gotFmt, gotData)
  {
    var s := ExactChunk(data, pos, w, gotFmt, gotData);
    if wrap && s.Continue? then s.(pos := Wrap32(s.pos)) else s
  }

  /** A complete chunk header at `q`: the id, then the declared size. */
  predicate ChunkHeaderAt(data: seq<u8>, q: int, id: seq<u8>, size: int)
  {
    0 <= q && q + 8 <= |data| && data[q..q + 4] == id && LE(data[q + 4..q + 8]) == size
  }

  /** A "data" chunk header ending where the samples start. */
  predicate DataChunkAt(data: seq<u8>, q: int, size: int)
  {
    ChunkHeaderAt(data, q, DATA_ID, size)
  }

  /** An "fmt " chunk header declaring at least 16 bytes. */
  predicate FmtChunkAt(data: seq<u8>, q: int)
  {
    0 <= q && q + 8 <= |data| && data[q..q + 4] == FMT_ID && LE(data[q + 4..q + 8]) >= FMT_SIZE
  }

  /** An "fmt " chunk header at `q` whose body gave `info`'s format, channels,
      sample rate and bits per sample (a field the file ends inside reads 0). */
  predicate FmtChunkRead(data: seq<u8>, q: int, info: WavInfo)
  {
    && FmtChunkAt(data, q)
    && info.fmt == Rd16(data, q + 8).0 && info.ch == Rd16(data, q + 10).0
    && info.sr == Rd32(data, q + 12).0 && info.bits == Rd16(data, q + 22).0
  }

  predicate SameFmt(a: WavInfo, b: WavInfo)
  {
    a.fmt == b.fmt && a.ch == b.ch && a.sr == b.sr && a.bits == b.bits
  }

  /** Where the data region is: right after a complete "data" header whose
      size it reports, or empty at the end of a file cut inside that header. */
  predicate DataFound(data: seq<u8>, off: int, size: int)
  {
    (off >= 8 && DataChunkAt(data, off - 8, size)) || (off == |data| && size == 0)
  }

  /** One chunk only ever sets gotFmt after a complete "fmt " header of at
      least 16 bytes whose body gives the fmt fields, and gotData on a "data"
      header; any other chunk keeps the fmt fields. */
  lemma ChunkFinds(data: seq<u8>, pos: nat, w: WavInfo, gotFmt: bool, gotData: bool)
    requires |data| < TWO_32 && pos < |data|
    requires gotData ==> DataFound(data, w.dataOff, w.dataSize)
    ensures var s := ExactChunk(data, pos, w, gotFmt, gotData);
      && (s.Continue? && s.gotData ==> DataFound(data, s.info.dataOff, s.info.dataSize))
      && (s.Continue? && s.gotFmt && !gotFmt ==> FmtChunkRead(data, pos, s.info))
      && (s.Continue? ==> FmtChunkRead(data, pos, s.info) || SameFmt(s.info, w))
      && (s.Continue? ==> (gotFmt ==> s.gotFmt) && (gotData ==> s.gotData))
      && (s.Stop? && s.ok ==> gotFmt && gotData && s.info == w)
  {
    var s := ExactChunk(data, pos, w, gotFmt, gotData);
    var (id, p1) := ReadBytes(data, pos, 4);
    if |id| != 4 {
      assert s == Stop(gotFmt && gotData, w);
    } else {
      var (sz, p2) := Rd32(data, p1);
      if id == FMT_ID {
        var (f, p8) := ReadFmtFields(data, p2);
        var w' := w.(fmt := f.fmt, ch := f.ch, sr := f.sr, bits := f.bits);
        if sz < FMT_SIZE {
          assert s == Stop(false, w');
        } else {
          assert pos + 8 <= |data| && sz == LE(data[pos + 4..pos + 8]);
          assert p2 == pos + 8 && FmtChunkRead(data, pos, s.info);
          assert s.Continue? && s.info.dataOff == w.dataOff && s.info.dataSize == w.dataSize && s.gotData == gotData;
        }
      } else if id == DATA_ID {
        assert s == Continue(p2, w.(dataOff := p2, dataSize := sz), gotFmt, true);
        if pos + 8 <= |data| {
          assert p2 == pos + 8 && sz == LE(data[pos + 4..pos + 8]);
          assert DataChunkAt(data, pos, sz);
        }
      } else {
        assert s == Continue(p2 + Padded(sz), w, gotFmt, gotData);
      }
    }
  }

  /** The chunk loop from `pos` on, with exact position arithmetic. */
  function Walk(data: seq<u8>, pos: nat, w: WavInfo, gotFmt: bool, gotData: bool): (r: (bool, WavInfo))
    requires |data| < TWO_32
    decreases |data| - pos
  {
    if pos >= |data| || (gotFmt && gotData) then (gotFmt && gotData, w)
    else match Chunk(data, pos, w, gotFmt, gotData, false)
      case Stop(ok, w') => (ok, w')
      case Continue(p, w', f, d) => Walk(data, p, w', f, d)
  }

  /** The chunk loop with the uint32_t seek arithmetic of the source, cut off
      after `fuel` chunks: None when it has not finished by then. */
  function WalkAsWritten(data: seq<u8>, pos: nat, w: WavInfo, gotFmt: bool, gotData: bool, fuel: nat): Option<(bool, WavInfo)>
    requires |data| < TWO_32
    decreases fuel
  {
    if pos >= |data| || (gotFmt && gotData) then Some((gotFmt && gotData, w))
    else if fuel == 0 then None
    else match Chunk(data, pos, w, gotFmt, gotData, true)
      case Stop(ok, w') => Some((ok, w'))
      case Continue(p, w', f, d) => WalkAsWritten(data, p, w', f, d, fuel - 1)
  }

  /** Every seek the exact walk makes from `pos` on lands below 2^32. */
  predicate SeeksFit(data: seq<u8>, pos: nat, w: WavInfo, gotFmt: bool, gotData: bool)
    requires |data| < TWO_32
    decreases |data| - pos
  {
    pos >= |data| || (gotFmt && gotData) ||
    match ExactChunk(data, pos, w, gotFmt, gotData)
    case Stop(_, _) => true
    case Continue(p, w', f, d) => p < TWO_32 && SeeksFit(data, p, w', f, d)
  }

  /** Where no seek wraps, the source's walker ends within a chunk per four
      bytes and agrees with the exact one. */
  lemma {:induction false} WalkAsWrittenAgrees(data: seq<u8>, pos: nat, w: WavInfo, gotFmt: bool, gotData: bool, fuel: nat)
    requires |data| < TWO_32 && SeeksFit(data, pos, w, gotFmt, gotData) && fuel >= |data| - pos
    ensures WalkAsWritten(data, pos, w, gotFmt, gotData, fuel) == Some(Walk(data, pos, w, gotFmt, gotData))
    decreases |data| - pos
  {
    if pos < |data| && !(gotFmt && gotData) {
      var s := ExactChunk(data, pos, w, gotFmt, gotData);
      if s.Continue? {
        assert Chunk(data, pos, w, gotFmt, gotData, true) == s;
        WalkAsWrittenAgrees(data, s.pos, s.info, s.gotFmt, s.gotData, fuel - 1);
      }
    }
  }

  /** parseWav_ on the whole file: the RIFF header, then the chunk loop from byte 12. */
  function ParseWavSpec(data: seq<u8>): (bool, WavInfo)
    requires |data| < TWO_32
  {
    var (riff, p1) := ReadBytes(data, 0, 4);
    if |riff| != 4 then (false, NO_INFO)
    else
      var (_, p2) := Rd32(data, p1);
      var (wave, p3) := ReadBytes(data, p2, 4);
      if |wave| != 4 then (false, NO_INFO)
      else if riff != RIFF_ID || wave != WAVE_ID then (false, NO_INFO)
      else Walk(data, p3, NO_INFO, false, false)
  }

  /** SD files are below 4 GiB, so positions fit the uint32_t of the source. */
  method ParseWav(data: seq<u8>) returns (ok: bool, w: WavInfo)
    requires |data| < TWO_32
    ensures (ok, w) == ParseWavSpec(data)
  {
    w := NO_INFO;
    var pos := 0;
    var tRiff := ReadBytes(data, pos, 4);
    var riff := tRiff.0;
    pos := tRiff.1;
    if |riff| != 4 {
      return false, w;
    }
    var tSize := Rd32(data, pos);
    pos := tSize.1;
    var tWave := ReadBytes(data, pos, 4);
    var wave := tWave.0;
    pos := tWave.1;
    if |wave| != 4 {
      return false, w;
    }
    if riff != RIFF_ID || wave != WAVE_ID {
      return false, w;
    }
    var gotFmt, gotData := false, false;
    while pos < |data| && !(gotFmt && gotData)
      invariant Walk(data, pos, w, gotFmt, gotData) == ParseWavSpec(data)
      decreases |data| - pos
    {
      var step := ReadChunk(data, pos, w, gotFmt, gotData);
      if step.Stop? {
        return step.ok, step.info;
      }
      pos, w, gotFmt, gotData := step.pos, step.info, step.gotFmt, step.gotData;
    }
    ok := gotFmt && gotData;
  }

  /** The body of the chunk loop: read the chunk id and size, take in an
      "fmt " chunk, note where a "data" chunk starts, skip anything else. */
  method ReadChunk(data: seq<u8>, pos: nat, w: WavInfo, gotFmt: bool, gotData: bool) returns (step: ChunkStep)
    requires |data| < TWO_32 && pos < |data|
    ensures step == ExactChunk(data, pos, w, gotFmt, gotData)
  {
    var tId := ReadBytes(data, pos, 4);
    var id, p := tId.0, tId.1;
    if |id| != 4 {
      return Stop(gotFmt && gotData, w);
    }
    var tSz := Rd32(data, p);
    var sz: u32 := tSz.0;
    p := tSz.1;
    if id == FMT_ID {
      var fields := ReadFmtFields(data, p);
      p := fields.1;
      var info := w.(fmt := fields.0.fmt, ch := fields.0.ch, sr := fields.0.sr, bits := fields.0.bits);
      if sz > FMT_SIZE {
        p := p + Padded(sz - FMT_SIZE);
      } else if sz < FMT_SIZE {
        return Stop(false, info);
      }
      return Continue(p, info, true, gotData);
    } else if id == DATA_ID {
      return Continue(p, w.(dataOff := p, dataSize := sz), gotFmt, true);
    }
    p := p + Padded(sz);
    return Continue(p, w, gotFmt, gotData);
  }

  /** Nothing is accepted without the RIFF and WAVE tags. */
  lemma ParseWavNeedsRiffWave(data: seq<u8>)
    requires |data| < TWO_32 && ParseWavSpec(data).0
    ensures |data| >= 12 && data[0..4] == RIFF_ID && data[8..12] == WAVE_ID
  {
  }

  /** An accepted file has an "fmt " chunk of at least 16 bytes whose body
      gave the reported format, channels, rate and bits, and the data offset is
      right after a "data" chunk header whose declared size is the reported
      data size (or the file ends inside that header). */
  lemma {:induction false} WalkFindsChunks(data: seq<u8>, pos: nat, w: WavInfo, gotFmt: bool, gotData: bool)
    requires |data| < TWO_32
    requires gotData ==> DataFound(data, w.dataOff, w.dataSize)
    requires gotFmt ==> exists q :: FmtChunkRead(data, q, w)
    ensures var (ok, info) := Walk(data, pos, w, gotFmt, gotData);
      ok ==> DataFound(data, info.dataOff, info.dataSize) && exists q :: FmtChunkRead(data, q, info)
    decreases |data| - pos
  {
    if pos < |data| && !(gotFmt && gotData) {
      var s := Chunk(data, pos, w, gotFmt, gotData, false);
      ChunkFinds(data, pos, w, gotFmt, gotData);
      if s.Continue? {
        if s.gotFmt {
          if FmtChunkRead(data, pos, s.info) {
          } else {
            var q :| FmtChunkRead(data, q, w);
            assert FmtChunkRead(data, q, s.info);
          }
        }
        WalkFindsChunks(data, s.pos, s.info, s.gotFmt, s.gotData);
      }
    }
  }

  lemma ParseWavFindsChunks(data: seq<u8>)
    requires |data| < TWO_32 && ParseWavSpec(data).0
    ensures var info := ParseWavSpec(data).1;
      && DataFound(data, info.dataOff, info.dataSize)
      && exists q :: FmtChunkRead(data, q, info)
  {
    WalkFindsChunks(data, 12, NO_INFO, false, false);
  }

  /** The canonical file: RIFF, WAVE, a 16-byte "fmt " chunk, then the "data"
      chunk header and its samples. */
  function CanonicalWav(riffSize: u32, fmt: u16, ch: u16, sr: u32, byteRate: u32, blockAlign: u16, bits: u16, n: u32, samples: seq<u8>): (data: seq<u8>)
    ensures |data| == 44 + |samples|
  {
    RIFF_ID + ToLE(riffSize, 4) + WAVE_ID
    + FMT_ID + ToLE(FMT_SIZE, 4) + ToLE(fmt, 2) + ToLE(ch, 2) + ToLE(sr, 4) + ToLE(byteRate, 4) + ToLE(blockAlign, 2) + ToLE(bits, 2)
    + DATA_ID + ToLE(n, 4) + samples
  }

  /** Every canonical file is accepted with the fields its header states and
      the samples right after the 44-byte header; its walk makes no seek that
      could wrap. */
  lemma CanonicalWavAccepted(riffSize: u32, fmt: u16, ch: u16, sr: u32, byteRate: u32, blockAlign: u16, bits: u16, n: u32, samples: seq<u8>)
    requires |samples| < TWO_32 - 44
    ensures var data := CanonicalWav(riffSize, fmt, ch, sr, byteRate, blockAlign, bits, n, samples);
      && ParseWavSpec(data) == (true, WavInfo(fmt, ch, sr, bits, 44, n))
      && SeeksFit(data, 12, NO_INFO, false, false)
  {
    var data := CanonicalWav(riffSize, fmt, ch, sr, byteRate, blockAlign, bits, n, samples);
    CanonicalSlices(riffSize, fmt, ch, sr, byteRate, blockAlign, bits, n, samples);
    var (riff, p1) := ReadBytes(data, 0, 4);
    var (_, p2) := Rd32(data, p1);
    var (wave, p3) := ReadBytes(data, p2, 4);
    assert riff == RIFF_ID && wave == WAVE_ID && p3 == 12;
    var w1 := NO_INFO.(fmt := fmt, ch := ch, sr := sr, bits := bits);
    var w2 := w1.(dataOff := 44, dataSize := n);
    assert ExactChunk(data, 12, NO_INFO, false, false) == Continue(36, w1, true, false);
    assert ExactChunk(data, 36, w1, true, false) == Continue(44, w2, true, true);
    assert Walk(data, 44, w2, true, true) == (true, w2);
    assert Chunk(data, 36, w1, true, false, false) == Continue(44, w2, true, true);
    assert Walk(data, 36, w1, true, false) == (true, w2);
    assert Chunk(data, 12, NO_INFO, false, false, false) == Continue(36, w1, true, false);
  }

  /** The fields of a canonical file, read where parseWav_ reads them. */
  lemma CanonicalSlices(riffSize: u32, fmt: u16, ch: u16, sr: u32, byteRate: u32, blockAlign: u16, bits: u16, n: u32, samples: seq<u8>)
    requires |samples| < TWO_32 - 44
    ensures var data := CanonicalWav(riffSize, fmt, ch, sr, byteRate, blockAlign, bits, n, samples);
      && data[0..4] == RIFF_ID && data[8..12] == WAVE_ID
      && data[12..16] == FMT_ID && LE(data[16..20]) == FMT_SIZE
      && LE(data[20..22]) == fmt && LE(data[22..24]) == ch && LE(data[24..28]) == sr && LE(data[34..36]) == bits
      && data[36..40] == DATA_ID && LE(data[40..44]) == n
  {
    var data := CanonicalWav(riffSize, fmt, ch, sr, byteRate, blockAlign, bits, n, samples);
    assert data[0..4] == RIFF_ID && data[8..12] == WAVE_ID && data[12..16] == FMT_ID;
    assert data[16..20] == ToLE(FMT_SIZE, 4);
    assert data[20..22] == ToLE(fmt, 2);
    assert data[22..24] == ToLE(ch, 2);
    assert data[24..28] == ToLE(sr, 4);
    assert data[34..36] == ToLE(bits, 2);
    assert data[36..40] == DATA_ID;
    assert data[40..44] == ToLE(n, 4);
    LEOfToLE(FMT_SIZE, 4);
    LEOfToLE(fmt, 2);
    LEOfToLE(ch, 2);
    LEOfToLE(sr, 4);
    LEOfToLE(bits, 2);
    LEOfToLE(n, 4);
  }

  /** An "fmt " chunk declaring fewer than 16 bytes rejects the file. */
  lemma ShortFmtRejects(data: seq<u8>, pos: nat, w: WavInfo, gotFmt: bool, gotData: bool)
    requires |data| < TWO_32 && !(gotFmt && gotData)
    requires pos + 8 <= |data| && data[pos..pos + 4] == FMT_ID && LE(data[pos + 4..pos + 8]) < FMT_SIZE
    ensures !Walk(data, pos, w, gotFmt, gotData).0
  {
  }

  /** Any other chunk is skipped by its size rounded up to even. */
  lemma UnknownChunkSkipped(data: seq<u8>, pos: nat, w: WavInfo, gotFmt: bool, gotData: bool)
    requires |data| < TWO_32 && !(gotFmt && gotData)
    requires pos + 8 <= |data| && data[pos..pos + 4] != FMT_ID && data[pos..pos + 4] != DATA_ID
    ensures var size := LE(data[pos + 4..pos + 8]);
      Walk(data, pos, w, gotFmt, gotData) == Walk(data, pos + 8 + size + size % 2, w, gotFmt, gotData)
  {
    UnknownChunkStep(data, pos, w, gotFmt, gotData);
    WalkContinues(data, pos, w, gotFmt, gotData);
    var s := Chunk(data, pos, w, gotFmt, gotData, false);
    var size := LE(data[pos + 4..pos + 8]);
    assert s.pos == pos + 8 + size + size % 2;
    assert s.info == w && s.gotFmt == gotFmt && s.gotData == gotData;
  }

  lemma WalkContinues(data: seq<u8>, pos: nat, w: WavInfo, gotFmt: bool, gotData: bool)
    requires |data| < TWO_32 && pos < |data| && !(gotFmt && gotData)
    requires Chunk(data, pos, w, gotFmt, gotData, false).Continue?
    ensures var s := Chunk(data, pos, w, gotFmt, gotData, false);
      Walk(data, pos, w, gotFmt, gotData) == Walk(data, s.pos, s.info, s.gotFmt, s.gotData)
  {
  }

  lemma UnknownChunkStep(data: seq<u8>, pos: nat, w: WavInfo, gotFmt: bool, gotData: bool)
    requires |data| < TWO_32
    requires pos + 8 <= |data| && data[pos..pos + 4] != FMT_ID && data[pos..pos + 4] != DATA_ID
    ensures var size := LE(data[pos + 4..pos + 8]);
      Chunk(data, pos, w, gotFmt, gotData, false) == Continue(pos + 8 + size + size % 2, w, gotFmt, gotData)
  {
    var (id, p1) := ReadBytes(data, pos, 4);
    assert id == data[pos..pos + 4] && p1 == pos + 4;
    var (sz, p2) := Rd32(data, p1);
    assert p2 == pos + 8 && sz == LE(data[pos + 4..pos + 8]);
  }

  /** A 20-byte file whose only chunk declares 0xFFFFFFF8 bytes. */
  const LOOPING_FILE: seq<u8> := RIFF_ID + [0, 0, 0, 0] + WAVE_ID + [0x4A, 0x55, 0x4E, 0x4B] + [0xF8, 0xFF, 0xFF, 0xFF]

  /** As written, skipping that chunk seeks from 20 to (20 + 0xFFFFFFF8) mod 2^32
      = 12, the chunk itself, so parseWav_ never returns. */
  lemma {:induction false} WrappedSeekNeverReturns(fuel: nat)
    ensures WalkAsWritten(LOOPING_FILE, 12, NO_INFO, false, false, fuel).None?
    decreases fuel
  {
    var data := LOOPING_FILE;
    assert data[12..16] == [0x4A, 0x55, 0x4E, 0x4B];
    assert data[16..20] == [0xF8, 0xFF, 0xFF, 0xFF];
    assert LE32(0xF8, 0xFF, 0xFF, 0xFF) == 0xFFFF_FFF8;
    assert Chunk(data, 12, NO_INFO, false, false, true) == Continue(12, NO_INFO, false, false);
    if fuel > 0 {
      WrappedSeekNeverReturns(fuel - 1);
    }
  }

  /** With exact arithmetic the same file is rejected. */
  lemma ExactSeekRejectsLoopingFile()
    ensures !ParseWavSpec(LOOPING_FILE).0
  {
    var data := LOOPING_FILE;
    assert data[0..4] == RIFF_ID && data[8..12] == WAVE_ID;
    assert data[12..16] == [0x4A, 0x55, 0x4E, 0x4B];
    assert data[16..20] == [0xF8, 0xFF, 0xFF, 0xFF];
    assert LE32(0xF8, 0xFF, 0xFF, 0xFF) == 0xFFFF_FFF8;
    var (riff, p1) := ReadBytes(data, 0, 4);
    var (size, p2) := Rd32(data, p1);
    var (wave, p3) := ReadBytes(data, p2, 4);
    assert riff == RIFF_ID && wave == WAVE_ID && p3 == 12;
    assert Chunk(data, 12, NO_INFO, false, false, false) == Continue(20 + 0xFFFF_FFF8, NO_INFO, false, false);
    assert Walk(data, 12, NO_INFO, false, false) == (false, NO_INFO);
  }

  /** As written, an unknown chunk is skipped with the source's uint32_t seek. */
  lemma UnknownChunkSeeksAsWritten(data: seq<u8>, pos: nat, w: WavInfo, gotFmt: bool, gotData: bool)
    requires |data| < TWO_32
    requires pos + 8 <= |data| && data[pos..pos + 4] != FMT_ID && data[pos..pos + 4] != DATA_ID
    ensures var size := LE32(data[pos + 4], data[pos + 5], data[pos + 6], data[pos + 7]);
      Chunk(data, pos, w, gotFmt, gotData, true) == Continue(SeekAsWritten(pos + 8, size), w, gotFmt, gotData)
  {
    var size := LE32(data[pos + 4], data[pos + 5], data[pos + 6], data[pos + 7]);
    assert data[pos + 4..pos + 8] == [data[pos + 4], data[pos + 5], data[pos + 6], data[pos + 7]];
    UnknownChunkStep(data, pos, w, gotFmt, gotData);
    SeekAsWrittenWrapsOnce(pos + 8, size);
  }

  // ---------------------------------------------------------------------
  // playFileOnce_

  /** The format gate: 16-bit PCM, mono or stereo. */
  predicate Playable(w: WavInfo)
  {
    w.fmt == 1 && w.bits == 16 && (w.ch == 1 || w.ch == 2)
  }

  /** A little-endian 16-bit sample. */
  function Sample(lo: u8, hi: u8): i16
  {
    var v := LE16(lo, hi);
    if v >= 0x8000 then v - 0x1_0000 else v
  }

  /** The mono samples in n bytes of the raw buffer; an odd last byte is not a sample. */
  function MonoSamples(raw: seq<u8>): (m: seq<i16>)
    ensures |m| == |raw| / 2
    ensures forall i | 0 <= i < |m| :: m[i] == Sample(raw[2 * i], raw[2 * i + 1])
  {
    seq(|raw| / 2, i requires 0 <= i < |raw| / 2 => Sample(raw[2 * i], raw[2 * i + 1]))
  }

  /** Duplicates each of the n / 2 mono samples of `raw` into a left/right pair
      of `stereo`, and returns how many bytes go to I2S. */
  method MonoToStereo(raw: seq<u8>, stereo: array<i16>) returns (bytes: int)
    requires |raw| <= RAW_BYTES && stereo.Length == STEREO_SAMPLES
    modifies stereo
    ensures bytes == 4 * (|raw| / 2)
    ensures forall i | 0 <= i < |raw| / 2 :: stereo[2 * i] == stereo[2 * i + 1] == MonoSamples(raw)[i]
    ensures stereo[2 * (|raw| / 2)..] == old(stereo[2 * (|raw| / 2)..])
  {
    var samples := |raw| / 2;
    ghost var mono := MonoSamples(raw);
    for i := 0 to samples
      invariant forall j | 0 <= j < i :: stereo[2 * j] == stereo[2 * j + 1] == mono[j]
      invariant stereo[2 * i..] == old(stereo[2 * i..])
    {
      var m := Sample(raw[2 * i], raw[2 * i + 1]);
      stereo[2 * i] := m;
      stereo[2 * i + 1] := m;
    }
    bytes := samples * 4;
  }

  /** The left channel, and the right channel, of interleaved samples. */
  function Channel(stereo: seq<i16>, right: bool): (c: seq<i16>)
    requires |stereo| % 2 == 0
    ensures |c| == |stereo| / 2
  {
    seq(|stereo| / 2, i requires 0 <= i < |stereo| / 2 => stereo[2 * i + (if right then 1 else 0)])
  }

  /** Both channels of the duplicated buffer play the mono signal. */
  lemma BothChannelsAreMono(stereo: seq<i16>, raw: seq<u8>)
    requires |stereo| == 2 * (|raw| / 2)
    requires forall i | 0 <= i < |raw| / 2 :: stereo[2 * i] == stereo[2 * i + 1] == MonoSamples(raw)[i]
    ensures Channel(stereo, false) == MonoSamples(raw) && Channel(stereo, true) == MonoSamples(raw)
  {
  }

  /** The two bytes I2S sends for a sample, little-endian two's complement. */
  function SampleBytes(x: i16): (b: seq<u8>)
    ensures |b| == 2
  {
    var v := if x < 0 then x + 0x1_0000 else x;
    [v % TWO_8, v / TWO_8]
  }

  lemma SampleBytesOfSample(lo: u8, hi: u8)
    ensures SampleBytes(Sample(lo, hi)) == [lo, hi]
  {
    var v := lo + TWO_8 * hi;
    assert v % TWO_8 == lo && v / TWO_8 == hi;
  }

  /** The bytes of a run of samples. */
  function Encode(t: seq<i16>): (b: seq<u8>)
    ensures |b| == 2 * |t|
  {
    if |t| == 0 then [] else SampleBytes(t[0]) + Encode(t[1..])
  }

  /** The stereo stream of mono 16-bit bytes: every sample's two bytes twice;
      a trailing odd byte is dropped. */
  function DuplicateMono(raw: seq<u8>): (b: seq<u8>)
    ensures |b| == 4 * (|raw| / 2)
  {
    if |raw| < 2 then [] else raw[..2] + raw[..2] + DuplicateMono(raw[2..])
  }

  lemma {:induction false} DuplicateMonoAppend(a: seq<u8>, b: seq<u8>)
    requires |a| % 2 == 0
    ensures DuplicateMono(a + b) == DuplicateMono(a) + DuplicateMono(b)
    decreases |a|
  {
    if |a| >= 2 {
      assert (a + b)[..2] == a[..2] && (a + b)[2..] == a[2..] + b;
      DuplicateMonoAppend(a[2..], b);
    } else {
      assert a + b == b;
    }
  }

  /** Every mono sample duplicated into a left/right pair encodes to the
      duplicated mono bytes. */
  lemma {:induction false} EncodeDuplicated(t: seq<i16>, raw: seq<u8>)
    requires |t| == 2 * (|raw| / 2)
    requires forall i | 0 <= i < |raw| / 2 :: t[2 * i] == t[2 * i + 1] == Sample(raw[2 * i], raw[2 * i + 1])
    ensures Encode(t) == DuplicateMono(raw)
    decreases |raw|
  {
    if |raw| >= 2 {
      var rest := raw[2..];
      forall i | 0 <= i < |rest| / 2
        ensures t[2..][2 * i] == t[2..][2 * i + 1] == Sample(rest[2 * i], rest[2 * i + 1])
      {
        var j := i + 1;
        assert t[2 * j] == t[2 * j + 1] == Sample(raw[2 * j], raw[2 * j + 1]);
        assert 2 * j == 2 * i + 2;
      }
      EncodeDuplicated(t[2..], rest);
      var pair := raw[..2];
      var z := 0;
      assert t[2 * z] == t[2 * z + 1] == Sample(raw[2 * z], raw[2 * z + 1]);
      SampleBytesOfSample(raw[0], raw[1]);
      assert pair == [raw[0], raw[1]] == SampleBytes(t[0]) == SampleBytes(t[1]);
      assert t[1..][1..] == t[2..];
      assert Encode(t[1..]) == pair + Encode(t[2..]);
      assert Encode(t) == pair + (pair + DuplicateMono(rest));
      assert DuplicateMono(raw) == pair + pair + DuplicateMono(rest);
    }
  }

  /** What playFileOnce_ sends for the sample data: the bytes from dataOff on,
      dataSize of them or up to the end of the file, as they are for stereo
      and duplicated for mono. */
  function PlayedBytes(data: seq<u8>, w: WavInfo): seq<u8>
    requires w.dataOff <= |data|
  {
    var end := if w.dataOff + w.dataSize <= |data| then w.dataOff + w.dataSize else |data|;
    Stream(data[w.dataOff..end], w.ch)
  }

  lemma StreamAppend(a: seq<u8>, b: seq<u8>, ch: u16)
    requires |a| % 2 == 0
    ensures Stream(a + b, ch) == Stream(a, ch) + Stream(b, ch)
  {
    if ch != 2 {
      DuplicateMonoAppend(a, b);
    }
  }

  /** Sample bytes as sent for a file with `ch` channels. */
  function Stream(region: seq<u8>, ch: u16): seq<u8>
  {
    if ch == 2 then region else DuplicateMono(region)
  }

  /** playFileOnce_ on a file's bytes (None when it does not open): what goes
      to I2S (samples, then the silence flush) and the rate I2S is started
      at; nothing for a file that does not parse or is not 16-bit PCM. */
  function PlayOutcome(file: Option<seq<u8>>, flushSilenceMs: u32): (r: (seq<u8>, Option<u32>))
    requires file.Some? ==> |file.value| < TWO_32
    ensures r.1.Some? <==> file.Some? && ParseWavSpec(file.value).0 && Playable(ParseWavSpec(file.value).1)
    ensures r.1.None? ==> r.0 == []
  {
    if file.None? then ([], None)
    else
      var (ok, w) := ParseWavSpec(file.value);
      if !ok || !Playable(w) then ([], None)
      else
        ParseWavFindsChunks(file.value);
        (PlayedBytes(file.value, w) + Zeros(4 * SilenceFrames(flushSilenceMs, w.sr)), Some(w.sr))
  }

  /** n zero bytes. */
  function Zeros(n: nat): (z: seq<u8>)
    ensures |z| == n && forall i | 0 <= i < n :: z[i] == 0
  {
    seq(n, _ => 0)
  }

  // ---------------------------------------------------------------------
  // writeSilenceMs_

  /** The frame counts of the successive zero writes for `frames` frames. */
  function SilenceChunks(frames: nat): (c: seq<int>)
    decreases frames
  {
    if frames == 0 then []
    else if frames > SILENCE_CHUNK_FRAMES then [SILENCE_CHUNK_FRAMES] + SilenceChunks(frames - SILENCE_CHUNK_FRAMES)
    else [frames]
  }

  function Sum(s: seq<int>): int
  {
    if |s| == 0 then 0 else s[0] + Sum(s[1..])
  }

  lemma {:induction false} SumAppend(s: seq<int>, x: int)
    ensures Sum(s + [x]) == Sum(s) + x
    decreases |s|
  {
    if |s| == 0 {
      assert s + [x] == [x];
    } else {
      assert (s + [x])[1..] == s[1..] + [x];
      SumAppend(s[1..], x);
    }
  }

  /** The chunks cover the frames exactly, each 1..512 frames, all but the last full. */
  lemma {:induction false} SilenceChunksShape(frames: nat)
    ensures var c := SilenceChunks(frames);
      && Sum(c) == frames
      && |c| == (frames + SILENCE_CHUNK_FRAMES - 1) / SILENCE_CHUNK_FRAMES
      && (forall i | 0 <= i < |c| :: 1 <= c[i] <= SILENCE_CHUNK_FRAMES)
      && (forall i | 0 <= i < |c| - 1 :: c[i] == SILENCE_CHUNK_FRAMES)
    decreases frames
  {
    if frames > SILENCE_CHUNK_FRAMES {
      SilenceChunksShape(frames - SILENCE_CHUNK_FRAMES);
      var c := SilenceChunks(frames);
      assert c[1..] == SilenceChunks(frames - SILENCE_CHUNK_FRAMES);
    }
  }

  /** The frame count of ms milliseconds at sr Hz, computed in uint32_t. */
  function SilenceFrames(ms: u32, sr: u32): u32
  {
    Wrap32(sr * ms) / 1000
  }

  /** Returns the byte counts written to I2S, one per chunk. */
  method WriteSilenceMs(ms: u32, sr: u32) returns (writes: seq<int>)
    ensures |writes| == |SilenceChunks(SilenceFrames(ms, sr))|
    ensures forall i | 0 <= i < |writes| :: writes[i] == 4 * SilenceChunks(SilenceFrames(ms, sr))[i]
    ensures Sum(writes) == 4 * SilenceFrames(ms, sr)
  {
    var frames := SilenceFrames(ms, sr);
    var left: u32 := frames;
    writes := [];
    ghost var done: seq<int> := [];
    while left != 0
      invariant done + SilenceChunks(left) == SilenceChunks(frames)
      invariant |writes| == |done| && forall i | 0 <= i < |done| :: writes[i] == 4 * done[i]
      invariant Sum(writes) == 4 * (frames - left)
    {
      SumAppend(writes, (if left > SILENCE_CHUNK_FRAMES then SILENCE_CHUNK_FRAMES else left) * 4);
      var chunkFrames := if left > SILENCE_CHUNK_FRAMES then SILENCE_CHUNK_FRAMES else left;
      writes := writes + [chunkFrames * 4];
      done := done + [chunkFrames];
      left := left - chunkFrames;
    }
  }

  // ---------------------------------------------------------------------
  // The player object: request queue and background task

  /** A request as queued: the copied path. */
  datatype Request = Request(path: seq<char>)

  /** The request of playOnce: the path copied into Req::path, read back as
      a C string, so cut to 95 chars. */
  method MakeRequest(path: seq<char>) returns (r: Request)
    requires '\0' in path
    ensures var p := CString(path);
      r.path == p[..if |p| < PATH_CAPACITY - 1 then |p| else PATH_CAPACITY - 1]
  {
    var buffer := new char[PATH_CAPACITY](_ => '\0');
    CopyPath(buffer, PATH_CAPACITY, Some(path));
    ghost var p := CString(path);
    ghost var n := if |p| < PATH_CAPACITY - 1 then |p| else PATH_CAPACITY - 1;
    assert '\0' !in p && buffer[..][..n] == p[..n];
    CopiedPathReadsBack(buffer[..], p, n);
    r := Request(CString(buffer[..]));
  }

  class SbjAudioPlayer {
    const queueDepth: nat
    const flushSilenceMs: u32
    var loopDelayMs: u32
    /** The request queue, None while xQueueCreate has not succeeded. */
    var queue: Option<seq<Request>>
    /** The player task's handle. */
    var task: Addr
    /** How many tasks were asked of FreeRTOS. */
    var creations: nat
    /** isPlaying(). */
    var playing: bool
    /** The static stereo buffer of playFileOnce_. */
    const stereo: array<i16>

    ghost predicate Valid()
      reads this
    {
      && (queue.Some? ==> |queue.value| <= queueDepth)
      && stereo.Length == STEREO_SAMPLES
    }

    constructor ()
      ensures Valid() && queueDepth == 4 && flushSilenceMs == 200 && loopDelayMs == 5000
      ensures queue.None? && task == NULL && creations == 0 && !playing
    {
      queueDepth := 4;
      flushSilenceMs := 200;
      loopDelayMs := 5000;
      queue := None;
      task := NULL;
      creations := 0;
      playing := false;
      stereo := new i16[STEREO_SAMPLES](_ => 0);
    }

    /** Creates the queue (`queueCreated` is xQueueCreate's success) and then
        the player task; a failed creation leaves no queue. */
    method Begin(queueCreated: bool, createOk: bool, newTask: Addr) returns (ok: bool)
      requires Valid() && newTask != NULL
      modifies this
      ensures Valid() && playing == old(playing)
      ensures !queueCreated ==> !ok && queue.None? && task == old(task) && creations == old(creations)
      ensures queueCreated ==> queue == Some([])
      ensures queueCreated && old(task) != NULL ==> ok && task == old(task) && creations == old(creations)
      ensures queueCreated && old(task) == NULL ==>
        && ok == createOk && creations == old(creations) + 1
        && task == if createOk then newTask else NULL
    {
      if queueCreated {
        queue := Some([]);
        ok := StartTask(createOk, newTask);
        return;
      }
      queue := None;
      return false;
    }

    /** playFileOnce_: parse, check the format, stream the sample data in
        reads of at most 4096 bytes (mono duplicated to stereo), then flush
        silence. */
    method PlayFileOnce(file: Option<seq<u8>>) returns (out: seq<u8>, sampleRate: Option<u32>)
      requires Valid() && (file.Some? ==> |file.value| < TWO_32)
      modifies this`playing, stereo
      ensures (out, sampleRate) == PlayOutcome(file, flushSilenceMs)
      ensures playing == (if sampleRate.Some? then false else old(playing))
    {
      out, sampleRate := [], None;
      if file.None? {
        return;
      }
      var data := file.value;
      var ok, w := ParseWav(data);
      if !ok {
        return;
      }
      if w.fmt != 1 || w.bits != 16 || (w.ch != 1 && w.ch != 2) {
        return;
      }
      ParseWavFindsChunks(data);
      sampleRate := Some(w.sr);
      playing := true;
      out := StreamSamples(data, w);
      var writes := WriteSilenceMs(flushSilenceMs, w.sr);
      out := out + Zeros(Sum(writes));
      playing := false;
    }

    /** The streaming loop of playFileOnce_, from the seek to dataOff on. */
    method StreamSamples(data: seq<u8>, w: WavInfo) returns (out: seq<u8>)
      requires Valid() && w.dataOff <= |data|
      modifies stereo
      ensures out == PlayedBytes(data, w)
    {
      out := [];
      var pos: nat := w.dataOff;
      var rem: u32 := w.dataSize;
      while rem != 0
        invariant w.dataOff <= pos <= |data| && pos - w.dataOff + rem == w.dataSize
        invariant out == Stream(data[w.dataOff..pos], w.ch)
        invariant (pos - w.dataOff) % 2 == 1 ==> pos == |data| || rem == 0
        decreases rem
      {
        var want := if rem < RAW_BYTES then rem else RAW_BYTES;
        var t := ReadBytes(data, pos, want);
        var raw := t.0;
        var n := |raw|;
        if n <= 0 {
          break;
        }
        var sent := SendChunk(raw, w.ch);
        StreamAppend(data[w.dataOff..pos], raw, w.ch);
        out := out + sent;
        assert data[w.dataOff..t.1] == data[w.dataOff..pos] + raw;
        rem := rem - n as u32;
        pos := t.1;
      }
    }

    /** Sends one read to I2S: as read for stereo, duplicated for mono. */
    method SendChunk(raw: seq<u8>, ch: u16) returns (sent: seq<u8>)
      requires Valid() && |raw| <= RAW_BYTES
      modifies stereo
      ensures sent == Stream(raw, ch)
    {
      if ch == 2 {
        return raw;
      }
      var bytes := MonoToStereo(raw, stereo);
      var samples := stereo[..bytes / 2];
      assert |samples| == 2 * (|raw| / 2);
      forall i | 0 <= i < |raw| / 2
        ensures samples[2 * i] == samples[2 * i + 1] == Sample(raw[2 * i], raw[2 * i + 1])
      {
        assert samples[2 * i] == stereo[2 * i] && samples[2 * i + 1] == stereo[2 * i + 1];
      }
      EncodeDuplicated(samples, raw);
      return Encode(samples);
    }

    /** One turn of taskLoop_: take the oldest request, play the file its
        path names on the card (`sd`), then wait loopDelayMs. With an empty
        queue the player task stays blocked. */
    method ServeNext(sd: map<seq<char>, seq<u8>>) returns (served: Option<Request>, out: seq<u8>, delayMs: Option<u32>)
      requires Valid() && queue.Some? && forall path | path in sd :: |sd[path]| < TWO_32
      modifies this`queue, this`playing, stereo
      ensures Valid()
      ensures |old(queue).value| == 0 ==> served.None? && out == [] && delayMs.None? && queue == old(queue)
      ensures |old(queue).value| > 0 ==>
        && served == Some(old(queue).value[0])
        && queue == Some(old(queue).value[1..])
        && delayMs == Some(loopDelayMs)
        && out == PlayOutcome(if served.value.path in sd then Some(sd[served.value.path]) else None, flushSilenceMs).0
    {
      if |queue.value| == 0 {
        return None, [], None;
      }
      var r := queue.value[0];
      queue := Some(queue.value[1..]);
      var file := if r.path in sd then Some(sd[r.path]) else None;
      var rate;
      out, rate := PlayFileOnce(file);
      return Some(r), out, Some(loopDelayMs);
    }

    /** Starts the player task unless there already is one. `createOk` is
        xTaskCreatePinnedToCore's verdict and `newTask` the handle it stores. */
    method StartTask(createOk: bool, newTask: Addr) returns (ok: bool)
      requires newTask != NULL
      modifies this
      ensures old(task) != NULL ==> ok && task == old(task) && creations == old(creations)
      ensures old(task) == NULL ==>
        && ok == createOk && creations == old(creations) + 1
        && task == if createOk then newTask else NULL
      ensures queue == old(queue) && loopDelayMs == old(loopDelayMs) && playing == old(playing)
    {
      if task != NULL {
        return true;
      }
      creations := creations + 1;
      if createOk {
        task := newTask;
      }
      return createOk;
    }

    /** Queues a play request without blocking: refused without a queue, for
        a null or empty path, and when the queue is full. */
    method PlayOnce(path: Option<seq<char>>) returns (ok: bool)
      requires Valid() && (path.Some? ==> '\0' in path.value)
      modifies this
      ensures Valid() && task == old(task) && loopDelayMs == old(loopDelayMs)
      ensures var p := if path.Some? then CString(path.value) else [];
        && (ok <==> old(queue).Some? && |p| > 0 && |old(queue).value| < queueDepth)
        && (ok ==> queue == Some(old(queue).value + [Request(p[..if |p| < PATH_CAPACITY - 1 then |p| else PATH_CAPACITY - 1])]))
        && (!ok ==> queue == old(queue))
    {
      if queue.None? {
        return false;
      }
      if path.None? || path.value[0] == '\0' {
        if path.Some? {
          CStringStops(path.value, 0);
        }
        return false;
      }
      var request := MakeRequest(path.value);
      if |request.path| == 0 {
        return false;
      }
      if |queue.value| < queueDepth {
        queue := Some(queue.value + [request]);
        return true;
      }
      return false;
    }

    method SetLoopDelayMs(ms: u32)
      modifies this
      ensures loopDelayMs == ms && queue == old(queue) && task == old(task) && creations == old(creations)
    {
      loopDelayMs := ms;
    }
  }
}
