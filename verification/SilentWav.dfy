/**
 `generateSilentWAV`: the 44-byte header of the RIFF/WAVE layout, written in place in
 little-endian order, followed by silence. Bytes are integers below 256.
 */
module SilentWav {

  newtype byte = i: int | 0 <= i < 256

  const SAMPLE_RATE := 16000
  const HEADER := 44
  const TWO_32: int := 0x1_0000_0000

  function DataSize(seconds: nat): nat {
    SAMPLE_RATE * seconds * 2
  }

  function LE16(v: int): (b: seq<byte>)
    requires 0 <= v < 0x1_0000
    ensures |b| == 2 && Decode16(b) == v
  {
    [(v % 0x100) as byte, (v / 0x100) as byte]
  }

  function LE32(v: int): (b: seq<byte>)
    requires 0 <= v < TWO_32
    ensures |b| == 4 && Decode32(b) == v
  {
    var q1 := v / 0x100;
    var q2 := q1 / 0x100;
    var q3 := q2 / 0x100;
    [(v % 0x100) as byte, (q1 % 0x100) as byte, (q2 % 0x100) as byte, q3 as byte]
  }

  /** The byte order, for one number of each width. */
  lemma LittleEndian()
    ensures LE16(0x0102) == [0x02, 0x01] && LE32(0x0102_0304) == [0x04, 0x03, 0x02, 0x01]
  {
  }

  function Decode16(b: seq<byte>): int
    requires |b| == 2
  {
    b[0] as int + 0x100 * b[1] as int
  }

  function Decode32(b: seq<byte>): int
    requires |b| == 4
  {
    b[0] as int + 0x100 * b[1] as int + 0x1_0000 * b[2] as int + 0x100_0000 * b[3] as int
  }

  const RIFF: seq<byte> := [0x52, 0x49, 0x46, 0x46]
  const WAVE: seq<byte> := [0x57, 0x41, 0x56, 0x45]
  const FMT: seq<byte> := [0x66, 0x6D, 0x74, 0x20]
  const DATA: seq<byte> := [0x64, 0x61, 0x74, 0x61]

  /** Writes some bytes in place. */
  method Write(b: array<byte>, at: nat, bytes: seq<byte>)
    requires at + |bytes| <= b.Length
    modifies b
    ensures b[..at + |bytes|] == old(b[..at]) + bytes
    ensures b[at + |bytes|..] == old(b[at + |bytes|..])
  {
    for i := 0 to |bytes|
      invariant b[..at + i] == old(b[..at]) + bytes[..i]
      invariant b[at + i..] == old(b[at + i..])
    {
      b[at + i] := bytes[i];
    }
  }

  method WriteU16LE(b: array<byte>, at: nat, v: int)
    requires at + 2 <= b.Length && 0 <= v < 0x1_0000
    modifies b
    ensures b[..at + 2] == old(b[..at]) + LE16(v)
    ensures b[at + 2..] == old(b[at + 2..])
  {
    b[at] := (v % 0x100) as byte;
    b[at + 1] := (v / 0x100) as byte;
  }

  method WriteU32LE(b: array<byte>, at: nat, v: int)
    requires at + 4 <= b.Length && 0 <= v < TWO_32
    modifies b
    ensures b[..at + 4] == old(b[..at]) + LE32(v)
    ensures b[at + 4..] == old(b[at + 4..])
  {
    var q1 := v / 0x100;
    var q2 := q1 / 0x100;
    var q3 := q2 / 0x100;
    b[at] := (v % 0x100) as byte;
    b[at + 1] := (q1 % 0x100) as byte;
    b[at + 2] := (q2 % 0x100) as byte;
    b[at + 3] := q3 as byte;
  }

  /** The chunk descriptor and the format chunk, and the header of the data chunk. */
  function RiffPart(seconds: nat): (b: seq<byte>)
    ensures |b| == 12
  {
    RIFF + LE32((36 + DataSize(seconds)) % TWO_32) + WAVE
  }

  function FormatHead(): (b: seq<byte>)
    ensures |b| == 12
  {
    FMT + LE32(16) + LE16(1) + LE16(1)
  }

  function FormatRates(): (b: seq<byte>)
    ensures |b| == 12
  {
    LE32(SAMPLE_RATE) + LE32(SAMPLE_RATE * 2) + LE16(2) + LE16(16)
  }

  function FormatPart(): (b: seq<byte>)
    ensures |b| == 24
  {
    FormatHead() + FormatRates()
  }

  function DataPart(seconds: nat): (b: seq<byte>)
    ensures |b| == 8
  {
    DATA + LE32(DataSize(seconds) % TWO_32)
  }

  method WriteRiffPart(buf: array<byte>, seconds: nat)
    requires buf.Length >= HEADER
    modifies buf
    ensures buf[..12] == RiffPart(seconds) && buf[12..] == old(buf[12..])
  {
    ghost var before := buf[..];
    Write(buf, 0, RIFF);
    assert buf[4..][8..] == before[12..];
    WriteU32LE(buf, 4, (36 + DataSize(seconds)) % TWO_32);
    assert buf[8..][4..] == before[12..];
    Write(buf, 8, WAVE);
  }

  method WriteFormatPart(buf: array<byte>)
    requires buf.Length >= HEADER
    modifies buf
    ensures buf[..36] == old(buf[..12]) + FormatPart() && buf[36..] == old(buf[36..])
  {
    ghost var tail := buf[36..];
    WriteFormatHead(buf);
    assert buf[24..][12..] == tail;
    WriteFormatRates(buf);
    assert old(buf[..12]) + FormatHead() + FormatRates() == old(buf[..12]) + FormatPart();
  }

  method WriteFormatHead(buf: array<byte>)
    requires buf.Length >= HEADER
    modifies buf
    ensures buf[..24] == old(buf[..12]) + FormatHead() && buf[24..] == old(buf[24..])
  {
    ghost var tail := buf[24..];
    Write(buf, 12, FMT);
    assert buf[16..][8..] == tail;
    WriteU32LE(buf, 16, 16);
    assert buf[20..][4..] == tail;
    WriteU16LE(buf, 20, 1);
    assert buf[22..][2..] == tail;
    WriteU16LE(buf, 22, 1);
  }

  method WriteFormatRates(buf: array<byte>)
    requires buf.Length >= HEADER
    modifies buf
    ensures buf[..36] == old(buf[..24]) + FormatRates() && buf[36..] == old(buf[36..])
  {
    ghost var tail := buf[36..];
    WriteU32LE(buf, 24, SAMPLE_RATE);
    assert buf[28..][8..] == tail;
    WriteU32LE(buf, 28, SAMPLE_RATE * 2);
    assert buf[32..][4..] == tail;
    WriteU16LE(buf, 32, 2);
    assert buf[34..][2..] == tail;
    WriteU16LE(buf, 34, 16);
  }

  method GenerateSilentWAV(seconds: nat) returns (buf: array<byte>)
    ensures buf.Length == 44 + 32_000 * seconds
    ensures buf[..44] == RiffPart(seconds) + FormatPart() + DataPart(seconds)
    ensures forall k :: 44 <= k < buf.Length ==> buf[k] == 0
  {
    buf := new byte[HEADER + DataSize(seconds)](_ => 0);
    ghost var silence := buf[HEADER..];
    WriteRiffPart(buf, seconds);
    assert buf[12..][32..] == silence;
    WriteFormatPart(buf);
    assert buf[36..][8..] == silence;
    Write(buf, 36, DATA);
    assert buf[40..][4..] == silence;
    WriteU32LE(buf, 40, DataSize(seconds) % TWO_32);
    assert buf[..HEADER] == RiffPart(seconds) + FormatPart() + DataPart(seconds);
    assert buf[HEADER..] == silence;
  }

  /** Every field is read back from its documented offset: PCM, one channel, 16 kHz, 16 bits. */
  lemma HeaderDecodes(seconds: nat)
    ensures var h := RiffPart(seconds) + FormatPart() + DataPart(seconds);
            && |h| == 44
            && h[0..4] == [0x52, 0x49, 0x46, 0x46] && h[8..12] == [0x57, 0x41, 0x56, 0x45]
            && h[12..16] == [0x66, 0x6D, 0x74, 0x20] && h[36..40] == [0x64, 0x61, 0x74, 0x61]
            && Decode32(h[4..8]) == (36 + 32_000 * seconds) % 0x1_0000_0000
            && Decode32(h[16..20]) == 16 && Decode16(h[20..22]) == 1 && Decode16(h[22..24]) == 1
            && Decode32(h[24..28]) == 16_000 && Decode32(h[28..32]) == 32_000
            && Decode16(h[32..34]) == 2 && Decode16(h[34..36]) == 16
            && Decode32(h[40..44]) == (32_000 * seconds) % 0x1_0000_0000
  {
    var r, f, d := RiffPart(seconds), FormatPart(), DataPart(seconds);
    var h := r + f + d;
    RiffFields(seconds);
    FormatFields();
    assert d[0..4] == DATA && d[4..8] == LE32(DataSize(seconds) % TWO_32);
    assert h[0..4] == r[0..4] && h[4..8] == r[4..8] && h[8..12] == r[8..12];
    assert h[12..16] == f[0..4] && h[16..20] == f[4..8] && h[20..22] == f[8..10] && h[22..24] == f[10..12];
    assert h[24..28] == f[12..16] && h[28..32] == f[16..20] && h[32..34] == f[20..22] && h[34..36] == f[22..24];
    assert h[36..40] == d[0..4] && h[40..44] == d[4..8];
  }

  lemma RiffFields(seconds: nat)
    ensures var r := RiffPart(seconds);
            && r[0..4] == RIFF && r[4..8] == LE32((36 + DataSize(seconds)) % TWO_32) && r[8..12] == WAVE
  {
  }

  lemma FormatFields()
    ensures var f := FormatPart();
            && f[0..4] == FMT && f[4..8] == LE32(16) && f[8..10] == LE16(1) && f[10..12] == LE16(1)
            && f[12..16] == LE32(SAMPLE_RATE) && f[16..20] == LE32(SAMPLE_RATE * 2)
            && f[20..22] == LE16(2) && f[22..24] == LE16(16)
  {
    var h, r := FormatHead(), FormatRates();
    assert h[0..4] == FMT && h[4..8] == LE32(16) && h[8..10] == LE16(1) && h[10..12] == LE16(1);
    assert r[0..4] == LE32(SAMPLE_RATE) && r[4..8] == LE32(SAMPLE_RATE * 2) && r[8..10] == LE16(2) && r[10..12] == LE16(16);
    var f := h + r;
    assert f[0..4] == h[0..4] && f[4..8] == h[4..8] && f[8..10] == h[8..10] && f[10..12] == h[10..12];
    assert f[12..16] == r[0..4] && f[16..20] == r[4..8] && f[20..22] == r[8..10] && f[22..24] == r[10..12];
  }

  lemma SizesFitUpTo(seconds: nat)
    ensures (36 + DataSize(seconds)) % TWO_32 == 36 + DataSize(seconds) && DataSize(seconds) % TWO_32 == DataSize(seconds)
            <==> seconds <= 134217
  {
    var x := DataSize(seconds);
    assert x == 32000 * seconds;
    if seconds <= 134217 {
      assert 36 + x < TWO_32;
    } else {
      assert x >= TWO_32 && x % TWO_32 < TWO_32;
    }
  }

  /** The two size fields tell the truth exactly up to 134217 seconds; then 32 bits run out. */
  lemma SizesAreExactUpTo(seconds: nat, h: seq<byte>)
    requires h == RiffPart(seconds) + FormatPart() + DataPart(seconds)
    ensures Decode32(h[4..8]) == 44 + 32_000 * seconds - 8 && Decode32(h[40..44]) == 32_000 * seconds
            <==> seconds <= 134217
  {
    HeaderDecodes(seconds);
    SizesFitUpTo(seconds);
  }
}
