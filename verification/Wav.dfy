/** The WAV file of a recording: a 44-byte header with placeholder sizes, samples, and the sizes
    written back at the end. */
module Wav {
  import opened Text
  import opened G711

  const WORD32 := 0x1_0000_0000

  function Le16(n: nat): (r: seq<Byte>)
    ensures |r| == 2
  {
    [n % 0x100, n / 0x100 % 0x100]
  }

  /** A uint32_t in memory order; what exceeds 32 bits is lost. */
  function Le32(n: int): (r: seq<Byte>)
    ensures |r| == 4
  {
    var u := n % WORD32;
    [u % 0x100, u / 0x100 % 0x100, u / 0x1_0000 % 0x100, u / 0x100_0000]
  }

  function FromLe32(b: seq<Byte>): nat
    requires |b| == 4
  {
    b[0] as int + 0x100 * b[1] as int + 0x1_0000 * b[2] as int + 0x100_0000 * b[3] as int
  }

  lemma Le32RoundTrip(n: int)
    ensures FromLe32(Le32(n)) == n % WORD32
  {
    var u := n % WORD32;
    var v := u / 0x100;
    var w := v / 0x100;
    assert u / 0x1_0000 == w && u / 0x100_0000 == w / 0x100;
  }

  const RIFF: seq<Byte> := [0x52, 0x49, 0x46, 0x46]
  const WAVE: seq<Byte> := [0x57, 0x41, 0x56, 0x45]
  const FMT: seq<Byte> := [0x66, 0x6D, 0x74, 0x20]
  const DATA: seq<Byte> := [0x64, 0x61, 0x74, 0x61]

  /** The format fields, offsets 8 to 35. */
  function FormatBytes(rate: nat, channels: nat, bits: nat): (r: seq<Byte>)
    ensures |r| == 28
  {
    WAVE + FMT + Le32(16) + Le16(1) + Le16(channels) + Le32(rate)
      + Le32(rate * channels * bits % WORD32 / 8) + Le16(channels * bits / 8) + Le16(bits)
  }

  /** A header with given sizes. */
  function HeaderBytes(rate: nat, channels: nat, bits: nat, fileSize: int, dataSize: int): (r: seq<Byte>)
    ensures |r| == 44
  {
    RIFF + Le32(fileSize) + FormatBytes(rate, channels, bits) + DATA + Le32(dataSize)
  }

  /** Bytes written over a position, extending the file when they reach past its end. */
  function Overwritten(bytes: seq<Byte>, pos: nat, data: seq<Byte>): seq<Byte>
    requires pos <= |bytes|
  {
    bytes[..pos] + data + if pos + |data| < |bytes| then bytes[pos + |data|..] else []
  }

  lemma PatchOnce(b: seq<Byte>, pos: nat, w: seq<Byte>)
    requires |w| == 4 && pos + 4 <= |b|
    ensures Overwritten(b, pos, w) == b[..pos] + w + b[pos + 4..]
  {}

  lemma PatchTwice(b: seq<Byte>, w: seq<Byte>, v: seq<Byte>)
    requires |w| == 4 && |v| == 4 && |b| >= 44
    ensures Overwritten(Overwritten(b, 4, w), 40, v) == b[..4] + w + b[8..40] + v + b[44..]
  {
    PatchOnce(b, 4, w);
    var c := Overwritten(b, 4, w);
    PatchOnce(c, 40, v);
    assert c[..40] == b[..4] + w + b[8..40];
    assert c[44..] == b[44..];
  }

  /** Subtracting from a uint32_t conversion. */
  lemma SizeWraps(n: nat, k: nat)
    ensures Le32(n % WORD32 - k) == Le32(n - k)
  {
    assert n == n / WORD32 * WORD32 + n % WORD32;
    assert (n % WORD32 - k) % WORD32 == (n - k) % WORD32;
  }

  lemma FourFields(head: seq<Byte>, a: seq<Byte>, b: seq<Byte>, c: seq<Byte>, d: seq<Byte>)
    ensures head + a + b + c + d == head + (a + b + c + d)
  {
    AppendIsAssociative(head, a, b);
    AppendIsAssociative(head, a + b, c);
    AppendIsAssociative(head, a + b + c, d);
  }

  lemma NineFields(head: seq<Byte>, a: seq<Byte>, b: seq<Byte>, c: seq<Byte>, d: seq<Byte>, e: seq<Byte>, f: seq<Byte>,
                   g: seq<Byte>, h: seq<Byte>, i: seq<Byte>)
    ensures head + a + b + c + d + e + f + g + h + i == head + (a + b + c + d + e + f + g + h + i)
  {
    FourFields(head, a, b, c, d);
    FourFields(head, a + b + c + d, e, f, g);
    AppendIsAssociative(head, a + b + c + d + e + f + g, h);
    AppendIsAssociative(head, a + b + c + d + e + f + g + h, i);
  }

  class File {
    var bytes: seq<Byte>
    var pos: nat

    ghost predicate Valid()
      reads this
    {
      pos <= |bytes|
    }

    ghost predicate AtEnd()
      reads this
    {
      pos == |bytes|
    }

    constructor ()
      ensures bytes == [] && pos == 0
    {
      bytes, pos := [], 0;
    }

    method Write(data: seq<Byte>)
      requires Valid()
      modifies this
      ensures Valid()
      ensures bytes == Overwritten(old(bytes), old(pos), data)
      ensures pos == old(pos) + |data|
    {
      bytes := Overwritten(bytes, pos, data);
      pos := pos + |data|;
    }

    method Append(data: seq<Byte>)
      requires AtEnd()
      modifies this
      ensures AtEnd()
      ensures bytes == old(bytes) + data
    {
      Write(data);
    }

    method Seek(p: nat)
      requires p <= |bytes|
      modifies this`pos
      ensures pos == p
    {
      pos := p;
    }

    /** `writeHeader`, on an empty file, with placeholder sizes. */
    method WriteHeader(rate: nat, channels: nat, bits: nat)
      requires bytes == [] && pos == 0
      modifies this
      ensures AtEnd()
      ensures bytes == HeaderBytes(rate, channels, bits, 0, 0)
    {
      Append(RIFF);
      Append(Le32(0));
      assert bytes == RIFF + Le32(0);
      WriteFormat(rate, channels, bits);
      Append(DATA);
      Append(Le32(0));
    }

    /** The part of it between the file size and the data chunk. */
    method WriteFormat(rate: nat, channels: nat, bits: nat)
      requires AtEnd()
      modifies this
      ensures AtEnd()
      ensures bytes == old(bytes) + FormatBytes(rate, channels, bits)
    {
      WriteRun(WAVE, FMT, Le32(16));
      WriteRun(Le16(1), Le16(channels), Le32(rate));
      WriteRun(Le32(rate * channels * bits % WORD32 / 8), Le16(channels * bits / 8), Le16(bits));
      NineFields(old(bytes), WAVE, FMT, Le32(16), Le16(1), Le16(channels), Le32(rate),
                 Le32(rate * channels * bits % WORD32 / 8), Le16(channels * bits / 8), Le16(bits));
    }

    method WriteRun(a: seq<Byte>, b: seq<Byte>, c: seq<Byte>)
      requires AtEnd()
      modifies this
      ensures AtEnd()
      ensures bytes == old(bytes) + a + b + c
    {
      Append(a);
      Append(b);
      Append(c);
    }

    /** `updateHeader`: the sizes, computed from the position, go to offsets 4 and 40. */
    method UpdateHeader()
      requires AtEnd() && |bytes| >= 44
      modifies this
      ensures AtEnd()
      ensures |bytes| == |old(bytes)|
      ensures bytes == old(bytes)[..4] + Le32(|bytes| - 8) + old(bytes)[8..40] + Le32(|bytes| - 44) + old(bytes)[44..]
    {
      var current := pos;
      Seek(4);
      Write(Le32(current % WORD32 - 8));
      Seek(40);
      Write(Le32(current % WORD32 - 44));
      Seek(current);
      PatchTwice(old(bytes), Le32(current % WORD32 - 8), Le32(current % WORD32 - 44));
      SizeWraps(current, 8);
      SizeWraps(current, 44);
    }
  }

  /** A finished file: a header with its sizes, then the data. */
  lemma UpdatedHeader(rate: nat, channels: nat, bits: nat, data: seq<Byte>)
    ensures var before := HeaderBytes(rate, channels, bits, 0, 0) + data;
      before[..4] + Le32(|before| - 8) + before[8..40] + Le32(|before| - 44) + before[44..]
        == HeaderBytes(rate, channels, bits, 36 + |data|, |data|) + data
  {
    var before := HeaderBytes(rate, channels, bits, 0, 0) + data;
    var format := FormatBytes(rate, channels, bits);
    assert before[..4] == RIFF;
    assert before[8..40] == format + DATA;
    assert before[44..] == data;
    AppendIsAssociative(RIFF + Le32(36 + |data|), format, DATA);
  }

  lemma SizeFields(w: seq<Byte>, format: seq<Byte>, v: seq<Byte>, data: seq<Byte>)
    requires |w| == 4 && |format| == 28 && |v| == 4
    ensures var b := RIFF + w + format + DATA + v + data;
      b[4..8] == w && b[40..44] == v
  {}

  lemma HeaderFields(rate: nat, channels: nat, bits: nat, data: seq<Byte>)
    ensures var b := HeaderBytes(rate, channels, bits, 36 + |data|, |data|) + data;
      |b| == 44 + |data| && b[4..8] == Le32(36 + |data|) && b[40..44] == Le32(|data|)
  {
    SizeFields(Le32(36 + |data|), FormatBytes(rate, channels, bits), Le32(|data|), data);
  }

  /** A number of two bytes, the lower one first. */
  lemma TwoBytes(b: seq<Byte>, i: nat, n: nat)
    requires i + 2 <= |b| && b[i..i + 2] == Le16(n)
    ensures b[i] + 256 * b[i + 1] as int == n % 0x1_0000
  {
    var q, r := n / 0x1_0000, n % 0x1_0000;
    assert n == 0x1_0000 * q + r;
    assert n / 0x100 == 0x100 * q + r / 0x100 && n % 0x100 == r % 0x100;
    assert b[i] == b[i..i + 2][0] && b[i + 1] == b[i..i + 2][1];
  }

  /** And of four. */
  lemma FourBytes(b: seq<Byte>, i: nat, n: nat)
    requires i + 4 <= |b| && b[i..i + 4] == Le32(n)
    ensures b[i] + 256 * b[i + 1] as int + 0x1_0000 * b[i + 2] as int + 0x100_0000 * b[i + 3] as int == n % WORD32
  {
    var w := b[i..i + 4];
    Le32RoundTrip(n);
    assert b[i] == w[0] && b[i + 1] == w[1] && b[i + 2] == w[2] && b[i + 3] == w[3];
  }

  lemma SizeAt(b: seq<Byte>, i: nat, n: nat)
    requires i + 4 <= |b| && b[i..i + 4] == Le32(n) && n < WORD32
    ensures b[i] + 256 * b[i + 1] as int + 0x1_0000 * b[i + 2] as int + 0x100_0000 * b[i + 3] as int == n
  {
    FourBytes(b, i, n);
  }

  lemma FormatParts(rate: nat, channels: nat, bits: nat)
    ensures var b := FormatBytes(rate, channels, bits);
      && b[..8] == WAVE + FMT && b[8..12] == Le32(16) && b[12..14] == Le16(1)
      && b[14..16] == Le16(channels) && b[16..20] == Le32(rate)
      && b[20..24] == Le32(rate * channels * bits % WORD32 / 8)
      && b[24..26] == Le16(channels * bits / 8) && b[26..28] == Le16(bits)
  {}

  lemma HeaderParts(rate: nat, channels: nat, bits: nat, data: seq<Byte>)
    ensures var b := HeaderBytes(rate, channels, bits, 36 + |data|, |data|) + data;
      && |b| == 44 + |data| && b[..4] == RIFF && b[4..8] == Le32(36 + |data|)
      && b[8..36] == FormatBytes(rate, channels, bits)
      && b[36..40] == DATA && b[40..44] == Le32(|data|) && b[44..] == data
  {}

  lemma InFormat(b: seq<Byte>, f: seq<Byte>, i: nat, j: nat)
    requires |b| >= 44 && b[8..36] == f && i <= j <= 28
    ensures b[8 + i..8 + j] == f[i..j]
  {
    assert b[8..36][i..j] == b[8 + i..8 + j];
  }

  lemma TextLayout(rate: nat, channels: nat, bits: nat, b: seq<Byte>)
    requires |b| >= 44 && b[..4] == RIFF && b[8..36] == FormatBytes(rate, channels, bits) && b[36..40] == DATA
    ensures b[..4] == [82, 73, 70, 70] && b[8..16] == [87, 65, 86, 69, 102, 109, 116, 32]
    ensures b[16..22] == [16, 0, 0, 0, 1, 0] && b[36..40] == [100, 97, 116, 97]
  {
    var f := FormatBytes(rate, channels, bits);
    FormatParts(rate, channels, bits);
    InFormat(b, f, 0, 8);
    InFormat(b, f, 8, 14);
    assert f[8..14] == f[8..12] + f[12..14];
    assert Le32(16) == [16, 0, 0, 0] && Le16(1) == [1, 0];
  }

  lemma NumberSlices(rate: nat, channels: nat, bits: nat, b: seq<Byte>)
    requires |b| >= 44 && b[8..36] == FormatBytes(rate, channels, bits)
    ensures b[22..24] == Le16(channels) && b[24..28] == Le32(rate)
    ensures b[28..32] == Le32(rate * channels * bits % WORD32 / 8)
    ensures b[32..34] == Le16(channels * bits / 8) && b[34..36] == Le16(bits)
  {
    var f := FormatBytes(rate, channels, bits);
    FormatParts(rate, channels, bits);
    InFormat(b, f, 14, 16);
    InFormat(b, f, 16, 20);
    InFormat(b, f, 20, 24);
    InFormat(b, f, 24, 26);
    InFormat(b, f, 26, 28);
  }

  lemma NumbersAt(b: seq<Byte>, rate: nat, channels: nat, bits: nat, byteRate: nat, frame: nat)
    requires |b| >= 44 && b[22..24] == Le16(channels) && b[24..28] == Le32(rate) && b[28..32] == Le32(byteRate)
    requires b[32..34] == Le16(frame) && b[34..36] == Le16(bits)
    requires channels < 0x1_0000 && bits < 0x1_0000 && rate < WORD32 && byteRate < WORD32
    ensures b[22] + 256 * b[23] as int == channels
    ensures b[24] + 256 * b[25] as int + 0x1_0000 * b[26] as int + 0x100_0000 * b[27] as int == rate
    ensures b[28] + 256 * b[29] as int + 0x1_0000 * b[30] as int + 0x100_0000 * b[31] as int == byteRate
    ensures b[32] + 256 * b[33] as int == frame % 0x1_0000 && b[34] + 256 * b[35] as int == bits
  {
    TwoBytes(b, 22, channels);
    SizeAt(b, 24, rate);
    SizeAt(b, 28, byteRate);
    TwoBytes(b, 32, frame);
    TwoBytes(b, 34, bits);
  }

  /** The text and the sizes of a finished file, in numbers: RIFF and the size of the rest; WAVE and "fmt ",
      then 16 and 1 for plain samples; "data", the size of the data, and the data. */
  lemma FileLayout(b: seq<Byte>, rate: nat, channels: nat, bits: nat, data: seq<Byte>)
    requires b == HeaderBytes(rate, channels, bits, 36 + |data|, |data|) + data && |data| < WORD32 - 36
    ensures |b| == 44 + |data| && b[44..] == data
    ensures b[..4] == [82, 73, 70, 70] && b[8..16] == [87, 65, 86, 69, 102, 109, 116, 32]
    ensures b[16..22] == [16, 0, 0, 0, 1, 0] && b[36..40] == [100, 97, 116, 97]
    ensures b[4] + 256 * b[5] as int + 0x1_0000 * b[6] as int + 0x100_0000 * b[7] as int == 36 + |data|
    ensures b[40] + 256 * b[41] as int + 0x1_0000 * b[42] as int + 0x100_0000 * b[43] as int == |data|
  {
    HeaderParts(rate, channels, bits, data);
    TextLayout(rate, channels, bits, b);
    SizeAt(b, 4, 36 + |data|);
    SizeAt(b, 40, |data|);
  }

  /** The numbers of its format: channels, samples a second, bytes a second, bytes a frame, bits. */
  lemma FormatLayout(b: seq<Byte>, rate: nat, channels: nat, bits: nat, data: seq<Byte>, byteRate: nat, frame: nat)
    requires b == HeaderBytes(rate, channels, bits, 36 + |data|, |data|) + data
    requires channels < 0x1_0000 && bits < 0x1_0000 && rate < WORD32
    requires byteRate == rate * channels * bits % 0x1_0000_0000 / 8 && frame == channels * bits / 8
    ensures b[22] + 256 * b[23] as int == channels
    ensures b[24] + 256 * b[25] as int + 0x1_0000 * b[26] as int + 0x100_0000 * b[27] as int == rate
    ensures b[28] + 256 * b[29] as int + 0x1_0000 * b[30] as int + 0x100_0000 * b[31] as int == byteRate
    ensures b[32] + 256 * b[33] as int == frame % 0x1_0000 && b[34] + 256 * b[35] as int == bits
  {
    HeaderParts(rate, channels, bits, data);
    NumberSlices(rate, channels, bits, b);
    NumbersAt(b, rate, channels, bits, byteRate, frame);
  }

  /** What a reader of a finished file takes for its number of data bytes. */
  function DataSize(b: seq<Byte>): nat
    requires |b| >= 44
  {
    FromLe32(b[40..44])
  }

  lemma SizeRead(b: seq<Byte>, n: nat)
    requires |b| >= 44 && b[40..44] == Le32(n)
    ensures DataSize(b) == n % WORD32
  {
    Le32RoundTrip(n);
  }

  lemma WrapsAt(n: nat)
    ensures n % WORD32 == n <==> n < WORD32
  {}

  /** The data size field holds the number of data bytes modulo 2 to the 32, so the number itself
      exactly below four gigabytes. */
  lemma DataSizeField(rate: nat, channels: nat, bits: nat, data: seq<Byte>)
    ensures var b := HeaderBytes(rate, channels, bits, 36 + |data|, |data|) + data;
      DataSize(b) == |data| % WORD32 && (DataSize(b) == |data| <==> |data| < WORD32)
  {
    HeaderFields(rate, channels, bits, data);
    SizeRead(HeaderBytes(rate, channels, bits, 36 + |data|, |data|) + data, |data|);
    WrapsAt(|data|);
  }
}
