/** 16-bit samples as little-endian bytes, the layout `memcpy` and `write` give them. */
module Pcm {
  import opened G711

  function SampleBytes(s: Int16): (r: seq<Byte>)
    ensures |r| == 2
  {
    var u := s % 0x1_0000;
    [u % 0x100, u / 0x100]
  }

  function SampleOf(lo: Byte, hi: Byte): Int16 {
    Wrap16(0x100 * hi + lo)
  }

  function ToBytes(pcm: seq<Int16>): (r: seq<Byte>)
    ensures |r| == 2 * |pcm|
  {
    if pcm == [] then [] else ToBytes(pcm[..|pcm| - 1]) + SampleBytes(pcm[|pcm| - 1])
  }

  function FromBytes(data: seq<Byte>): (r: seq<Int16>)
    requires |data| % 2 == 0
    ensures |r| == |data| / 2
    ensures forall i :: 0 <= i < |r| ==> r[i] == SampleOf(data[2 * i], data[2 * i + 1])
  {
    if data == [] then []
    else
      var n := |data| - 2;
      FromBytes(data[..n]) + [SampleOf(data[n], data[n + 1])]
  }

  lemma SampleRoundTrip(s: Int16)
    ensures SampleOf(SampleBytes(s)[0], SampleBytes(s)[1]) == s
  {}

  lemma FromBytesStep(data: seq<Byte>, lo: Byte, hi: Byte)
    requires |data| % 2 == 0
    ensures FromBytes(data + [lo, hi]) == FromBytes(data) + [SampleOf(lo, hi)]
  {
    var all := data + [lo, hi];
    assert all[..|all| - 2] == data;
  }

  /** Copying samples out as bytes and back is the identity. */
  lemma {:induction false} BytesRoundTrip(pcm: seq<Int16>)
    ensures FromBytes(ToBytes(pcm)) == pcm
  {
    if pcm != [] {
      var n := |pcm| - 1;
      var b := SampleBytes(pcm[n]);
      BytesRoundTrip(pcm[..n]);
      SampleRoundTrip(pcm[n]);
      FromBytesStep(ToBytes(pcm[..n]), b[0], b[1]);
      assert b == [b[0], b[1]];
      assert pcm == pcm[..n] + [pcm[n]];
    }
  }

  /** The bytes 2i and 2i + 1 are the sample `i`, the low one first. */
  lemma {:induction false} BytesOfSample(pcm: seq<Int16>, i: nat)
    requires i < |pcm|
    ensures var b := ToBytes(pcm);
      b[2 * i] + 256 * b[2 * i + 1] as int == if pcm[i] >= 0 then pcm[i] else 65536 + pcm[i] as int
  {
    var n := |pcm| - 1;
    if i < n {
      BytesOfSample(pcm[..n], i);
    } else {
      assert ToBytes(pcm)[2 * n..] == SampleBytes(pcm[n]);
    }
  }

  lemma SampleOfTwo(lo: Byte, hi: Byte)
    ensures var u := lo + 256 * hi as int; SampleOf(lo, hi) as int == if u < 32768 then u else u - 65536
  {}

  lemma SampleOfBytes(data: seq<Byte>, i: nat)
    requires |data| % 2 == 0 && 2 * i < |data|
    ensures var u := data[2 * i] + 256 * data[2 * i + 1] as int;
      FromBytes(data)[i] as int == if u < 32768 then u else u - 65536
  {
    SampleOfTwo(data[2 * i], data[2 * i + 1]);
  }

  lemma {:induction false} ToBytesAppend(a: seq<Int16>, b: seq<Int16>)
    ensures ToBytes(a + b) == ToBytes(a) + ToBytes(b)
  {
    if b == [] {
      assert a + b == a;
    } else {
      var n := |b| - 1;
      assert (a + b)[..|a + b| - 1] == a + b[..n];
      ToBytesAppend(a, b[..n]);
    }
  }
}
