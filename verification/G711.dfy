/** G.711 companding as the gateway computes it, with the 16-bit wrap of its arithmetic. */
module G711 {
  import opened Arith

  type Int16 = n: int | -0x8000 <= n < 0x8000

  type Byte = n: int | 0 <= n < 0x100

  /** Conversion to int16_t. */
  function Wrap16(n: int): Int16 {
    (n + 0x8000) % 0x1_0000 - 0x8000
  }

  /** 2 to the power `n`, the factor of a left shift and the divisor of a right one. */
  function Pow2(n: nat): (p: nat)
    ensures p > 0
  {
    if n == 0 then 1 else 2 * Pow2(n - 1)
  }

  /** XOR with 0x55 on a bit pair, on a nibble, on a byte. */
  function Toggle2(n: int): (r: int)
    requires 0 <= n < 4
    ensures 0 <= r < 4
  {
    if n % 2 == 0 then n + 1 else n - 1
  }

  function Toggle4(n: int): (r: int)
    requires 0 <= n < 16
    ensures 0 <= r < 16
  {
    4 * Toggle2(n / 4) + Toggle2(n % 4)
  }

  function Toggle(n: Byte): Byte {
    16 * Toggle4(n / 16) + Toggle4(n % 16)
  }

  /** The segment of a magnitude: the thresholds double from 0xFF up. */
  function Segment(m: int): (seg: nat)
    ensures seg < 8
  {
    if m <= 0xFF then 0
    else if m <= 0x1FF then 1
    else if m <= 0x3FF then 2
    else if m <= 0x7FF then 3
    else if m <= 0xFFF then 4
    else if m <= 0x1FFF then 5
    else if m <= 0x3FFF then 6
    else 7
  }

  // ---------------------------------------------------------------- the four sample laws

  /** The biased magnitude of a segment and mantissa. */
  function ULawBiased(seg: nat, mant: nat): nat {
    (mant * 8 + 0x84) * Pow2(seg)
  }

  function ULawToLinear(code: Byte): Int16 {
    var u := 255 - code;
    var t := ULawBiased(u / 16 % 8, u % 16);
    Wrap16(if u >= 128 then 0x84 - t else t - 0x84)
  }

  /** The sample of a code word whose alternate bits have been restored. */
  function ALawSample(a: Byte): Int16 {
    var seg := a / 16 % 8;
    var t := if seg != 0 then ((a % 16) * 16 + 0x108) * Pow2(seg - 1) else (a % 16) * 16 + 8;
    Wrap16(if a >= 128 then t else -t)
  }

  function ALawToLinear(code: Byte): Int16 {
    ALawSample(Toggle(code))
  }

  /** The clipped, biased magnitude: negation and addition happen in an int16_t. */
  function Biased(pcm: Int16): Int16 {
    var m := if pcm < 0 then Wrap16(-(pcm as int)) else pcm;
    Wrap16((if m > 32635 then 32635 else m) + 0x84)
  }

  function LinearToULaw(pcm: Int16): Byte {
    var b := Biased(pcm);
    var seg := Segment(b);
    var u := 16 * seg + b / Pow2(seg + 3) % 16;
    if pcm < 0 then 127 - u else 255 - u
  }

  /** Sign, segment and mantissa, before the alternate bits are toggled: the mask 0xD5 of the positive
      samples is 0x55 with the sign bit set. */
  function ALawBits(pcm: Int16): Byte {
    var m := if pcm >= 0 then pcm else Wrap16(-(pcm as int));
    var seg := Segment(m);
    var a := 16 * seg + (if seg < 2 then m / 16 % 16 else m / Pow2(seg + 3) % 16);
    if pcm >= 0 then a + 128 else a
  }

  function LinearToALaw(pcm: Int16): Byte {
    Toggle(ALawBits(pcm))
  }

  // ---------------------------------------------------------------- the array loops

  method DecodeULaw(input: array<Byte>) returns (output: array<Int16>)
    ensures fresh(output) && output.Length == input.Length
    ensures forall i :: 0 <= i < input.Length ==> output[i] == ULawToLinear(input[i])
  {
    output := new Int16[input.Length];
    for i := 0 to input.Length
      invariant forall k :: 0 <= k < i ==> output[k] == ULawToLinear(input[k])
    {
      output[i] := ULawToLinear(input[i]);
    }
  }

  method DecodeALaw(input: array<Byte>) returns (output: array<Int16>)
    ensures fresh(output) && output.Length == input.Length
    ensures forall i :: 0 <= i < input.Length ==> output[i] == ALawToLinear(input[i])
  {
    output := new Int16[input.Length];
    for i := 0 to input.Length
      invariant forall k :: 0 <= k < i ==> output[k] == ALawToLinear(input[k])
    {
      output[i] := ALawToLinear(input[i]);
    }
  }

  method EncodeULaw(input: array<Int16>) returns (output: array<Byte>)
    ensures fresh(output) && output.Length == input.Length
    ensures forall i :: 0 <= i < input.Length ==> output[i] == LinearToULaw(input[i])
  {
    output := new Byte[input.Length];
    for i := 0 to input.Length
      invariant forall k :: 0 <= k < i ==> output[k] == LinearToULaw(input[k])
    {
      output[i] := LinearToULaw(input[i]);
    }
  }

  method EncodeALaw(input: array<Int16>) returns (output: array<Byte>)
    ensures fresh(output) && output.Length == input.Length
    ensures forall i :: 0 <= i < input.Length ==> output[i] == LinearToALaw(input[i])
  {
    output := new Byte[input.Length];
    for i := 0 to input.Length
      invariant forall k :: 0 <= k < i ==> output[k] == LinearToALaw(input[k])
    {
      output[i] := LinearToALaw(input[i]);
    }
  }

  function Distance(a: int, b: int): nat {
    if a < b then b - a else a - b
  }

  /** Of all 16-bit values `s` is the one nearest to `v`. */
  ghost predicate Nearest(s: Int16, v: int) {
    forall x: Int16 :: Distance(s, v) <= Distance(x, v)
  }

  lemma SomethingNearer(s: Int16, t: Int16, v: int)
    requires s < t && Distance(s, v) == Distance(t, v)
    ensures exists x: Int16 :: Distance(x, v) < Distance(s, v)
  {
    var x: Int16 := s + 1;
    assert Distance(x, v) < Distance(s, v);
  }

  /** There is only one. */
  lemma NearestIsUnique(s: Int16, t: Int16, v: int)
    requires Nearest(s, v) && Nearest(t, v)
    ensures s == t
  {
    if s < t {
      SomethingNearer(s, t, v);
    } else if t < s {
      SomethingNearer(t, s, v);
    }
  }

  /** Three times the sample, clamped. */
  function Gain(sample: Int16): Int16 {
    if 3 * sample as int > 32767 then 32767
    else if 3 * sample as int < -32768 then -32768
    else 3 * sample as int
  }

  /** The gained sample is the 16-bit value nearest to three times the sample. */
  lemma GainIsNearest(sample: Int16)
    ensures Nearest(Gain(sample), 3 * sample as int)
  {}

  /** The gain loop, in place: three times each sample, as near as 16 bits allow. */
  method ApplyGain(pcm: array<Int16>)
    modifies pcm
    ensures forall i :: 0 <= i < pcm.Length ==> pcm[i] == Gain(old(pcm[i]))
    ensures forall i :: 0 <= i < pcm.Length ==> Nearest(pcm[i], 3 * old(pcm[i]) as int)
  {
    forall i | 0 <= i < pcm.Length ensures Nearest(Gain(pcm[i]), 3 * pcm[i] as int) {
      GainIsNearest(pcm[i]);
    }
    for i := 0 to pcm.Length
      invariant forall k :: 0 <= k < i ==> pcm[k] == Gain(old(pcm[k]))
      invariant forall k :: i <= k < pcm.Length ==> pcm[k] == old(pcm[k])
    {
      var val := 3 * pcm[i] as int;
      if val > 32767 {
        val := 32767;
      }
      if val < -32768 {
        val := -32768;
      }
      pcm[i] := val;
    }
  }

  // ---------------------------------------------------------------- segments and levels

  lemma Pow2Values()
    ensures Pow2(0) == 1 && Pow2(1) == 2 && Pow2(2) == 4 && Pow2(3) == 8
    ensures Pow2(4) == 16 && Pow2(5) == 32 && Pow2(6) == 64 && Pow2(7) == 128
    ensures Pow2(8) == 256 && Pow2(9) == 512 && Pow2(10) == 1024
  {
    assert Pow2(3) == 8;
    assert Pow2(6) == 64;
    assert Pow2(9) == 512;
  }

  /** The step between decoded levels of a segment: both linear A-law segments share one. */
  function ULawStep(seg: nat): nat {
    Pow2(seg + 3)
  }

  function ALawStep(seg: nat): nat {
    Pow2(if seg < 2 then 4 else seg + 3)
  }

  /** The middle of the quantisation interval a magnitude falls into. */
  function Middle(m: nat, step: nat): nat
    requires step > 0
  {
    m / step * step + step / 2
  }

  /** A code word is read back as its sign, segment and mantissa. */
  lemma CodeFields(seg: nat, mant: nat, high: bool)
    requires seg < 8 && mant < 16
    ensures var u := 16 * seg + mant + if high then 128 else 0;
      u < 256 && u % 16 == mant && u / 16 % 8 == seg && (u >= 128 <==> high)
  {}

  /** A biased magnitude lies in the upper half of its segment's range, that is in [16, 32) steps. */
  lemma SegmentRange(b: nat)
    requires 128 <= b <= 32767
    ensures 16 * Pow2(Segment(b) + 3) <= b < 32 * Pow2(Segment(b) + 3)
  {
    Pow2Values();
  }

  lemma QuotientRange(b: nat, p: nat)
    requires p > 0 && 16 * p <= b < 32 * p
    ensures 16 <= b / p < 32
  {
    var q := b / p;
    assert b == q * p + b % p;
    assert (q - 15) * p == q * p - 15 * p;
    assert (32 - q) * p == 32 * p - q * p;
    PositiveFactor(q - 15, p);
    PositiveFactor(32 - q, p);
  }

  lemma ULawValue(q: nat, seg: nat)
    requires 16 <= q < 32
    ensures ULawBiased(seg, q - 16) == q * Pow2(seg + 3) + Pow2(seg + 3) / 2
  {
    var p := Pow2(seg);
    assert Pow2(seg + 1) == 2 * p;
    assert Pow2(seg + 2) == 4 * p;
    assert Pow2(seg + 3) == 8 * p;
    assert (8 * (q - 16) + 0x84) * p == 8 * q * p + 4 * p;
  }

  /** The middle stays inside the interval, so it is within half a step of the magnitude. */
  lemma MiddleIsClose(m: nat, step: nat)
    requires step > 0 && step % 2 == 0
    ensures -(step / 2) <= Middle(m, step) - m <= step / 2
    ensures m / step * step <= Middle(m, step) < (m / step + 1) * step
  {
    assert m == m / step * step + m % step;
  }

  lemma SegmentTop(b: nat)
    requires 128 <= b <= 32767
    ensures 32 * Pow2(Segment(b) + 3) <= 0x8000
  {
    Pow2Values();
  }

  lemma WrapIs(n: int)
    requires -0x8000 <= n < 0x8000
    ensures Wrap16(n) == n
  {}

  lemma ULawDecodes(seg: nat, mant: nat, negative: bool)
    requires seg < 8 && mant < 16
    requires 132 <= ULawBiased(seg, mant) < 0x8000
    ensures var t: int := ULawBiased(seg, mant) - 0x84;
      ULawToLinear((if negative then 127 else 255) - (16 * seg + mant)) == if negative then -t else t
  {
    var t: int := ULawBiased(seg, mant) - 0x84;
    WrapIs(t);
    WrapIs(-t);
    CodeFields(seg, mant, negative);
  }

  lemma ULawEncodes(pcm: Int16)
    requires pcm != -0x8000
    ensures var b := Biased(pcm);
      var q := b / Pow2(Segment(b) + 3);
      && 132 <= b <= 32767 && 16 <= q < 32
      && LinearToULaw(pcm) == (if pcm < 0 then 127 else 255) - (16 * Segment(b) + (q - 16))
  {
    var b := Biased(pcm);
    var q := b / Pow2(Segment(b) + 3);
    SegmentRange(b);
    QuotientRange(b, Pow2(Segment(b) + 3));
    QuotientIs(1, 16, q - 16);
  }

  /** The middle of a segment's interval fits an int16_t. */
  lemma MiddleInRange(b: nat, p: nat)
    requires p > 0 && p % 2 == 0 && 16 <= b / p < 32 && 32 * p <= 0x8000 && 132 <= b
    requires p == 8 || 132 <= 16 * p
    ensures 132 <= Middle(b, p) < 0x8000
  {
    MiddleIsClose(b, p);
    MulAtMost(b / p + 1, 32, p);
    MulAtMost(16, b / p, p);
  }

  lemma StepIs(seg: nat)
    requires seg < 8
    ensures var p := Pow2(seg + 3); p % 2 == 0 && (p == 8 || 132 <= 16 * p)
  {
    Pow2Values();
  }

  /** An encoded sample decodes to the middle of the interval its biased magnitude is in. */
  lemma ULawLevel(pcm: Int16)
    requires pcm != -0x8000
    ensures var b := Biased(pcm);
      && 132 <= b
      && ULawToLinear(LinearToULaw(pcm))
           == var m: int := Middle(b, ULawStep(Segment(b))) - 132; if pcm < 0 then -m else m
  {
    var b := Biased(pcm);
    var seg := Segment(b);
    var p := Pow2(seg + 3);
    ULawEncodes(pcm);
    ULawValue(b / p, seg);
    SegmentTop(b);
    StepIs(seg);
    MiddleInRange(b, p);
    ULawDecodes(seg, b / p - 16, pcm < 0);
  }

  lemma SegmentOf(v: nat, seg: nat)
    requires seg < 8 && 16 * Pow2(seg + 3) <= v < 32 * Pow2(seg + 3)
    ensures Segment(v) == seg
  {
    Pow2Values();
  }

  /** The middle of an interval is in its segment and in the interval. */
  lemma MiddleStays(q: nat, p: nat)
    requires 16 <= q < 32 && p >= 2
    ensures 16 * p <= q * p + p / 2 < 32 * p && (q * p + p / 2) / p == q
  {
    assert (q + 1) * p == q * p + p;
    MulAtMost(16, q, p);
    MulAtMost(q + 1, 32, p);
    QuotientIs(q, p, p / 2);
  }

  lemma ULawReencodes(seg: nat, mant: nat)
    requires seg < 8 && mant < 16
    ensures var v := (mant + 16) * Pow2(seg + 3) + Pow2(seg + 3) / 2;
      && 132 <= v <= 32256 && (v == 132 ==> seg == 0 && mant == 0)
      && Segment(v) == seg && v / Pow2(seg + 3) == mant + 16
  {
    var p, q := Pow2(seg + 3), mant + 16;
    StepIs(seg);
    MiddleStays(q, p);
    SegmentOf(q * p + p / 2, seg);
    ULawLargest(seg, mant);
  }

  lemma BiasedIs(pcm: Int16)
    requires -32635 <= pcm <= 32635
    ensures Biased(pcm) == 132 + if pcm < 0 then -pcm else pcm
  {}

  lemma ULawOfLevel(v: int, negative: bool)
    requires 132 <= v <= 32256 && (v == 132 ==> !negative)
    ensures LinearToULaw(if negative then 132 - v else v - 132)
         == (if negative then 127 else 255) - (16 * Segment(v) + v / Pow2(Segment(v) + 3) % 16)
  {
    BiasedIs(if negative then 132 - v else v - 132);
  }

  lemma ULawOfCode(code: Byte)
    ensures var seg, mant := (255 - code) / 16 % 8, (255 - code) % 16;
      var v := (mant + 16) * Pow2(seg + 3) + Pow2(seg + 3) / 2;
      ULawToLinear(code) == if 255 - code >= 128 then 132 - v else v - 132
  {
    var seg, mant := (255 - code) / 16 % 8, (255 - code) % 16;
    CodeIs(code, seg, mant);
    ULawValue(mant + 16, seg);
    ULawReencodes(seg, mant);
    ULawDecodes(seg, mant, 255 - code >= 128);
  }

  lemma Mantissa(mant: nat)
    requires mant < 16
    ensures (mant + 16) % 16 == mant
  {}

  /** Encoding a decoded code word gives the code word back; only the negative zero changes. */
  lemma ULawCodeRoundTrip(code: Byte)
    ensures LinearToULaw(ULawToLinear(code)) == if code == 0x7F then 0xFF else code
  {
    var seg, mant := (255 - code) / 16 % 8, (255 - code) % 16;
    var v := (mant + 16) * Pow2(seg + 3) + Pow2(seg + 3) / 2;
    ULawOfCode(code);
    ULawReencodes(seg, mant);
    Mantissa(mant);
    CodeIs(code, seg, mant);
    ULawOfLevel(v, 255 - code >= 128 && v != 132);
  }

  lemma CodeIs(code: Byte, seg: nat, mant: nat)
    requires seg == (255 - code) / 16 % 8 && mant == (255 - code) % 16
    ensures code == (if 255 - code >= 128 then 127 else 255) - (16 * seg + mant)
  {}

  lemma ULawLargest(seg: nat, mant: nat)
    requires seg < 8 && mant < 16
    ensures var v := (mant + 16) * Pow2(seg + 3) + Pow2(seg + 3) / 2;
      v <= 32256 && (v == 132 ==> seg == 0 && mant == 0)
  {
    Pow2Values();
  }

  // ---------------------------------------------------------------- mu-law

  /** Quantisation error of mu-law: at most half a step of the sample's segment. */
  lemma ULawBound(pcm: Int16)
    requires -32635 <= pcm <= 32635
    ensures var half: int := Pow2(Segment(Biased(pcm)) + 2);
      -half <= ULawToLinear(LinearToULaw(pcm)) - pcm <= half
  {
    var b := Biased(pcm);
    var p := Pow2(Segment(b) + 3);
    ULawLevel(pcm);
    BiasedIs(pcm);
    assert p == 2 * Pow2(Segment(b) + 2);
    MiddleIsClose(b, p);
  }

  lemma LargestLevel()
    ensures Middle(32767, ULawStep(Segment(32767))) == 32256
  {
    assert Pow2(10) == 1024 by {
      Pow2Values();
    }
    assert 32767 / 1024 == 31;
  }

  /** Clipped samples decode to the largest level. */
  lemma ULawClipped(pcm: Int16)
    requires pcm > 32635 || -0x8000 < pcm < -32635
    ensures ULawToLinear(LinearToULaw(pcm)) == if pcm < 0 then -32124 else 32124
  {
    assert Biased(pcm) == 32767;
    ULawLevel(pcm);
    LargestLevel();
  }

  lemma BiasedMostNegative()
    ensures Biased(-0x8000) == -32636
  {
    assert Wrap16(0x8000) == -0x8000;
  }

  /** Negating -32768 in an int16_t leaves it: its code is that of negative zero. */
  lemma ULawMostNegative()
    ensures LinearToULaw(-0x8000) == 0x7F && ULawToLinear(0x7F) == 0
  {
    BiasedMostNegative();
    assert Pow2(0) == 1 && Pow2(3) == 8;
    assert -32636 / 8 == -4080 && -4080 % 16 == 0;
    CodeFields(0, 0, true);
  }

  /** The decoded sample is within 643 of the original for every sample but -32768. */
  lemma ULawIsClose(pcm: Int16)
    ensures -643 <= ULawToLinear(LinearToULaw(pcm)) - pcm <= 643 <==> pcm != -0x8000
  {
    if pcm == -0x8000 {
      ULawMostNegative();
    } else if -32635 <= pcm <= 32635 {
      ULawBound(pcm);
      Pow2Values();
    } else {
      ULawClipped(pcm);
    }
  }

  lemma QuotientMonotone(a: nat, b: nat, p: nat)
    requires p > 0 && a <= b
    ensures a / p <= b / p
  {
    var d, e := a / p, b / p;
    assert a == d * p + a % p && b == e * p + b % p;
    assert (e - d + 1) * p == e * p - d * p + p;
    PositiveFactor(e - d + 1, p);
  }

  lemma MiddleMonotone(a: nat, b: nat, p: nat)
    requires p > 0 && a <= b
    ensures Middle(a, p) <= Middle(b, p)
  {
    QuotientMonotone(a, b, p);
    MulAtMost(a / p, b / p, p);
  }

  lemma SegmentMonotone(a: nat, b: nat)
    requires a <= b
    ensures Segment(a) <= Segment(b)
  {}

  lemma {:induction false} Pow2Grows(m: nat, n: nat)
    requires m < n
    ensures 2 * Pow2(m) <= Pow2(n)
    decreases n
  {
    if m < n - 1 {
      Pow2Grows(m, n - 1);
    }
  }

  lemma ULawLevelMonotone(a: nat, b: nat)
    requires 132 <= a <= b <= 32767
    ensures Middle(a, ULawStep(Segment(a))) <= Middle(b, ULawStep(Segment(b)))
  {
    var s, t := Segment(a), Segment(b);
    SegmentMonotone(a, b);
    if s == t {
      MiddleMonotone(a, b, Pow2(s + 3));
    } else {
      LevelInSegment(a);
      LevelInSegment(b);
      Pow2Grows(s + 3, t + 3);
    }
  }

  lemma LevelInSegment(b: nat)
    requires 128 <= b <= 32767
    ensures var p := Pow2(Segment(b) + 3); 16 * p <= Middle(b, p) < 32 * p
  {
    var p := Pow2(Segment(b) + 3);
    SegmentRange(b);
    QuotientRange(b, p);
    StepIs(Segment(b));
    MiddleIsClose(b, p);
    MulAtMost(b / p + 1, 32, p);
    MulAtMost(16, b / p, p);
  }

  lemma BiasedMonotone(x: Int16, y: Int16)
    requires -0x8000 < x <= y
    ensures 132 <= Biased(x) <= 32767 && 132 <= Biased(y) <= 32767
    ensures x >= 0 ==> Biased(x) <= Biased(y)
    ensures y < 0 ==> Biased(y) <= Biased(x)
  {}

  /** Above -32768 companding keeps the order of samples. */
  lemma ULawMonotone(x: Int16, y: Int16)
    requires -0x8000 < x <= y
    ensures ULawToLinear(LinearToULaw(x)) <= ULawToLinear(LinearToULaw(y))
  {
    ULawLevel(x);
    ULawLevel(y);
    BiasedMonotone(x, y);
    if y < 0 {
      ULawLevelMonotone(Biased(y), Biased(x));
    } else if x >= 0 {
      ULawLevelMonotone(Biased(x), Biased(y));
    } else {
      LevelAtLeastBias(Biased(x));
      LevelAtLeastBias(Biased(y));
    }
  }

  lemma LevelAtLeastBias(b: nat)
    requires 132 <= b <= 32767
    ensures Middle(b, ULawStep(Segment(b))) >= 132
  {
    ULawLevelMonotone(132, b);
    Pow2Values();
    assert Segment(132) == 0;
  }

  // ---------------------------------------------------------------- A-law

  lemma Toggle4Twice(n: int)
    requires 0 <= n < 16
    ensures Toggle4(Toggle4(n)) == n
  {
    var a, b := n / 4, n % 4;
    assert Toggle2(Toggle2(a)) == a && Toggle2(Toggle2(b)) == b;
    assert (4 * Toggle2(a) + Toggle2(b)) / 4 == Toggle2(a);
  }

  lemma NibbleParts(a: int, b: int)
    requires 0 <= a < 16 && 0 <= b < 16
    ensures (16 * a + b) / 16 == a && (16 * a + b) % 16 == b
  {}

  /** Toggling the alternate bits is its own inverse. */
  lemma ToggleTwice(n: Byte)
    ensures Toggle(Toggle(n)) == n
  {
    var ta, tb := Toggle4(n / 16), Toggle4(n % 16);
    Toggle4Twice(n / 16);
    Toggle4Twice(n % 16);
    NibbleParts(ta, tb);
    var t := Toggle(n);
    assert t / 16 == ta && t % 16 == tb;
  }

  function Magnitude(pcm: Int16): nat
    requires pcm != -0x8000
  {
    if pcm < 0 then -(pcm as int) else pcm
  }

  lemma MagnitudeWraps(pcm: Int16)
    requires pcm != -0x8000
    ensures Magnitude(pcm) == if pcm >= 0 then pcm else Wrap16(-(pcm as int))
    ensures Magnitude(pcm) <= 32767
  {}

  /** The mantissa bits of a magnitude. */
  function ALawMantissa(m: nat): nat {
    m / ALawStep(Segment(m)) % 16
  }

  lemma ALawEncodes(pcm: Int16)
    requires pcm != -0x8000
    ensures var m := Magnitude(pcm);
      ALawBits(pcm) == 16 * Segment(m) + ALawMantissa(m) + if pcm >= 0 then 128 else 0
  {
    MagnitudeWraps(pcm);
    assert Pow2(4) == 16 by {
      Pow2Values();
    }
  }

  /** The decoded magnitude of a segment and mantissa. */
  function ALawDecoded(seg: nat, mant: nat): nat {
    if seg == 0 then 16 * mant + 8 else (16 * mant + 0x108) * Pow2(seg - 1)
  }

  lemma ALawDecodedRange(seg: nat, mant: nat)
    requires seg < 8 && mant < 16
    ensures 0 < ALawDecoded(seg, mant) < 0x8000
  {
    Pow2Values();
  }

  lemma ALawDecodes(seg: nat, mant: nat, positive: bool)
    requires seg < 8 && mant < 16
    ensures var t: int := ALawDecoded(seg, mant);
      ALawSample(16 * seg + mant + if positive then 128 else 0) == if positive then t else -t
  {
    CodeFields(seg, mant, positive);
    ALawDecodedRange(seg, mant);
  }

  lemma ALawUpperValue(q: nat, seg: nat)
    requires 16 <= q < 32 && seg >= 2
    ensures (16 * (q - 16) + 0x108) * Pow2(seg - 1) == q * Pow2(seg + 3) + Pow2(seg + 3) / 2
  {
    var r := Pow2(seg - 1);
    assert Pow2(seg) == 2 * r;
    assert Pow2(seg + 1) == 4 * r;
    assert Pow2(seg + 2) == 8 * r;
    assert Pow2(seg + 3) == 16 * r;
    assert (16 * (q - 16) + 0x108) * r == 16 * q * r + 8 * r;
  }

  lemma ALawLowerValue(m: nat)
    requires m <= 0x1FF
    ensures Middle(m, 16) == ALawDecoded(Segment(m), m / 16 % 16)
  {
    assert Pow2(0) == 1;
  }

  lemma ALawUpperDecoded(q: nat, seg: nat)
    requires 16 <= q < 32 && seg >= 2
    ensures ALawDecoded(seg, q % 16) == q * Pow2(seg + 3) + Pow2(seg + 3) / 2
  {
    assert q % 16 == q - 16;
    ALawUpperValue(q, seg);
  }

  lemma ALawUpper(m: nat)
    requires 0x1FF < m <= 32767
    ensures Middle(m, Pow2(Segment(m) + 3)) == ALawDecoded(Segment(m), m / Pow2(Segment(m) + 3) % 16)
  {
    var p := Pow2(Segment(m) + 3);
    SegmentRange(m);
    QuotientRange(m, p);
    ALawUpperDecoded(m / p, Segment(m));
  }

  lemma ALawValue(m: nat)
    requires m <= 32767
    ensures Middle(m, ALawStep(Segment(m))) == ALawDecoded(Segment(m), ALawMantissa(m))
  {
    if m <= 0x1FF {
      assert ALawStep(Segment(m)) == 16 by {
        Pow2Values();
      }
      ALawLowerValue(m);
    } else {
      ALawUpper(m);
    }
  }

  /** An encoded sample decodes to the middle of the interval its magnitude is in. */
  lemma ALawLevel(pcm: Int16)
    requires pcm != -0x8000
    ensures var m: int := Middle(Magnitude(pcm), ALawStep(Segment(Magnitude(pcm))));
      ALawToLinear(LinearToALaw(pcm)) == if pcm < 0 then -m else m
  {
    var m := Magnitude(pcm);
    MagnitudeWraps(pcm);
    ToggleTwice(ALawBits(pcm));
    ALawEncodes(pcm);
    ALawValue(m);
    ALawDecodes(Segment(m), ALawMantissa(m), pcm >= 0);
  }

  lemma ALawStepIs(seg: nat)
    requires seg < 8
    ensures ALawStep(seg) % 2 == 0 && 16 <= ALawStep(seg) <= 1024
  {
    Pow2Values();
  }

  /** Quantisation error of A-law: at most half a step, which is never below 8. */
  lemma ALawBound(pcm: Int16)
    requires pcm != -0x8000
    ensures var half: int := ALawStep(Segment(Magnitude(pcm))) / 2;
      && 8 <= half <= 512
      && -half <= ALawToLinear(LinearToALaw(pcm)) - pcm <= half
  {
    var m := Magnitude(pcm);
    ALawLevel(pcm);
    ALawStepIs(Segment(m));
    MiddleIsClose(m, ALawStep(Segment(m)));
  }

  lemma ALawBitsOfMostNegative()
    ensures ALawBits(-0x8000) == 0
  {
    assert Wrap16(0x8000) == -0x8000;
    assert Segment(-0x8000) == 0;
    assert -0x8000 / 16 == -2048;
    assert -2048 % 16 == 0;
  }

  lemma ToggleZero()
    ensures Toggle(0) == 0x55
  {
    assert Toggle2(0) == 1;
    assert Toggle4(0) == 5;
  }

  /** -32768 again: the code is that of the smallest negative sample. */
  lemma ALawMostNegative()
    ensures LinearToALaw(-0x8000) == 0x55 && ALawToLinear(0x55) == -8
  {
    ALawBitsOfMostNegative();
    ToggleZero();
    ToggleTwice(ALawBits(-0x8000));
    ALawDecodes(0, 0, false);
  }

  /** The decoded sample is within 512 of the original for every sample but -32768. */
  lemma ALawIsClose(pcm: Int16)
    ensures -512 <= ALawToLinear(LinearToALaw(pcm)) - pcm <= 512 <==> pcm != -0x8000
  {
    if pcm == -0x8000 {
      ALawMostNegative();
    } else {
      ALawBound(pcm);
    }
  }

  lemma ALawLevelMonotone(a: nat, b: nat)
    requires a <= b <= 32767
    ensures Middle(a, ALawStep(Segment(a))) <= Middle(b, ALawStep(Segment(b)))
  {
    var s, t := Segment(a), Segment(b);
    SegmentMonotone(a, b);
    if ALawStep(s) == ALawStep(t) {
      MiddleMonotone(a, b, ALawStep(s));
    } else if s < 2 {
      Pow2Values();
      LevelInSegment(b);
    } else {
      LevelInSegment(a);
      LevelInSegment(b);
      Pow2Grows(s + 3, t + 3);
    }
  }

  /** Above -32768 companding keeps the order of samples. */
  lemma ALawMonotone(x: Int16, y: Int16)
    requires -0x8000 < x <= y
    ensures ALawToLinear(LinearToALaw(x)) <= ALawToLinear(LinearToALaw(y))
  {
    ALawLevel(x);
    ALawLevel(y);
    if x < 0 && y < 0 {
      ALawLevelMonotone(Magnitude(y), Magnitude(x));
    } else if x >= 0 {
      ALawLevelMonotone(Magnitude(x), Magnitude(y));
    }
  }

  lemma ALawLowerReencodes(seg: nat, mant: nat)
    requires seg < 2 && mant < 16
    ensures Segment(ALawDecoded(seg, mant)) == seg
    ensures ALawDecoded(seg, mant) / 16 % 16 == mant
  {
    assert Pow2(0) == 1;
    assert ALawDecoded(seg, mant) == 16 * (16 * seg + mant) + 8;
    QuotientIs(16 * seg + mant, 16, 8);
  }

  lemma ALawUpperReencodes(seg: nat, mant: nat)
    requires 2 <= seg < 8 && mant < 16
    ensures Segment(ALawDecoded(seg, mant)) == seg
    ensures ALawDecoded(seg, mant) / Pow2(seg + 3) == mant + 16
  {
    ALawUpperValue(mant + 16, seg);
    ULawReencodes(seg, mant);
  }

  lemma ALawReencodes(seg: nat, mant: nat)
    requires seg < 8 && mant < 16
    ensures Segment(ALawDecoded(seg, mant)) == seg
    ensures ALawMantissa(ALawDecoded(seg, mant)) == mant
  {
    if seg < 2 {
      ALawLowerReencodes(seg, mant);
      assert ALawStep(seg) == 16 by {
        Pow2Values();
      }
    } else {
      ALawUpperReencodes(seg, mant);
    }
  }

  lemma ByteFields(u: Byte)
    ensures u == 16 * (u / 16 % 8) + u % 16 + if u >= 128 then 128 else 0
  {}

  lemma ALawBitsRoundTrip(a: Byte)
    ensures ALawBits(ALawSample(a)) == a
  {
    var seg, mant := a / 16 % 8, a % 16;
    ByteFields(a);
    ALawDecodes(seg, mant, a >= 128);
    ALawReencodes(seg, mant);
    ALawDecodedRange(seg, mant);
    var t: int := ALawDecoded(seg, mant);
    ALawEncodes(if a >= 128 then t else -t);
  }

  /** Encoding a decoded code word gives the code word back, for all 256. */
  lemma ALawCodeRoundTrip(code: Byte)
    ensures LinearToALaw(ALawToLinear(code)) == code
  {
    ALawBitsRoundTrip(Toggle(code));
    ToggleTwice(code);
  }

  // ---------------------------------------------------------------- the tables of the standard

  /** The powers of two of the segments. */
  function Scale(seg: int): (p: nat)
    ensures p > 0
  {
    if seg <= 0 then 1 else if seg == 1 then 2 else if seg == 2 then 4 else if seg == 3 then 8
    else if seg == 4 then 16 else if seg == 5 then 32 else if seg == 6 then 64 else 128
  }

  lemma ScaleIs(seg: nat)
    requires seg < 8
    ensures Scale(seg) == Pow2(seg)
  {
    Pow2Values();
  }

  lemma ULawLevelOf(u: nat)
    requires u < 128
    ensures ULawToLinear(255 - u) == (8 * (u % 16) + 132) * Scale(u / 16) - 132
    ensures ULawToLinear(127 - u) as int == -(ULawToLinear(255 - u) as int)
  {
    var seg, mant := u / 16, u % 16;
    ScaleIs(seg);
    ULawInRange(seg, mant);
    CodeFields(seg, mant, false);
    ULawDecodes(seg, mant, false);
    ULawDecodes(seg, mant, true);
  }

  lemma ULawInRange(seg: nat, mant: nat)
    requires seg < 8 && mant < 16
    ensures 132 <= ULawBiased(seg, mant) < 0x8000
  {
    Pow2Values();
  }

  lemma NextCode(u: nat)
    requires u < 127
    ensures if u % 16 < 15 then (u + 1) / 16 == u / 16 && (u + 1) % 16 == u % 16 + 1
            else (u + 1) / 16 == u / 16 + 1 && (u + 1) % 16 == 0 && u / 16 < 7
  {}

  /** The decoder's table: zero at 0xFF, and from there down to 0x80 the levels rise by 8 within the first
      segment and by 12 into the next, and by twice as much in every further one. */
  lemma ULawTable(code: Byte, next: Byte)
    requires 128 <= next && code == next + 1
    ensures var u: int := 255 - code;
      ULawToLinear(next) as int - ULawToLinear(code) as int == (if u % 16 < 15 then 8 else 12) * Scale(u / 16)
  {
    var u: nat, v: nat := 255 - code, 255 - next;
    var low: int, high: int := ULawToLinear(code), ULawToLinear(next);
    ULawLevelOf(u);
    ULawLevelOf(v);
    ULawRiseOf(u, v, low, high);
  }

  lemma ULawZero()
    ensures ULawToLinear(0xFF) == 0
  {
    ULawLevelOf(0);
  }

  /** The lower half of the table is the negative of the upper one. */
  lemma ULawOpposite(code: Byte, lower: Byte)
    requires code == lower + 128
    ensures ULawToLinear(lower) as int == -(ULawToLinear(code) as int)
  {
    ULawLevelOf(255 - code);
  }

  lemma ULawRiseOf(u: nat, v: nat, low: int, high: int)
    requires u < 127 && v == u + 1
    requires low == (8 * (u % 16) + 132) * Scale(u / 16) - 132
    requires high == (8 * (v % 16) + 132) * Scale(v / 16) - 132
    ensures high - low == (if u % 16 < 15 then 8 else 12) * Scale(u / 16)
  {
    NextCode(u);
    ULawRise(u / 16, u % 16, Scale(u / 16));
  }

  lemma ULawRise(seg: nat, mant: nat, scale: nat)
    requires seg < 8 && mant < 16 && !(seg == 7 && mant == 15) && scale == Scale(seg)
    ensures mant < 15 ==> (8 * (mant + 1) + 132) * scale - (8 * mant + 132) * scale == 8 * scale
    ensures mant == 15 ==> (8 * 0 + 132) * Scale(seg + 1) - (8 * mant + 132) * scale == 12 * scale
  {
    if mant == 15 {
      assert Scale(seg + 1) == 2 * scale;
    }
  }

  /** How far apart the levels are around a biased magnitude. */
  function ULawGap(b: nat): nat {
    if b < 0x100 then 8 else if b < 0x200 then 16 else if b < 0x400 then 32 else if b < 0x800 then 64
    else if b < 0x1000 then 128 else if b < 0x2000 then 256 else if b < 0x4000 then 512 else 1024
  }

  lemma GapIsStep(b: nat)
    requires b <= 32767
    ensures ULawGap(b) == ULawStep(Segment(b))
  {
    Pow2Values();
  }

  lemma MiddleIsNear(m: nat, step: nat)
    requires step > 0 && step % 2 == 0
    ensures -(step / 2) < Middle(m, step) - m <= step / 2
  {
    assert m == m / step * step + m % step;
  }

  /** The encoder's intervals: the level a sample is given is less than half a gap below it and at most
      half a gap above it; loud samples get the loudest code, and negative ones the code of their
      magnitude with the sign changed. */
  lemma ULawIntervals(pcm: Int16)
    requires 0 <= pcm
    ensures pcm <= 32635 ==>
      var gap: int := ULawGap(pcm + 132);
      -gap < 2 * (ULawToLinear(LinearToULaw(pcm)) as int - pcm) <= gap
    ensures pcm > 32635 ==> LinearToULaw(pcm) == 0x80
    ensures pcm > 0 ==> LinearToULaw(-pcm) == LinearToULaw(pcm) - 128
  {
    if pcm <= 32635 {
      var b := Biased(pcm);
      BiasedIs(pcm);
      ULawLevel(pcm);
      GapIsStep(b);
      GapIsEven(b);
      MiddleIsNear(b, ULawGap(b));
    } else {
      LoudestCode(pcm);
    }
    if pcm > 0 {
      OppositeCode(pcm);
    }
  }

  lemma GapIsEven(b: nat)
    ensures ULawGap(b) % 2 == 0 && ULawGap(b) > 0
  {}

  lemma LoudestCode(pcm: Int16)
    requires pcm > 32635
    ensures LinearToULaw(pcm) == 0x80
  {
    assert Biased(pcm) == 32767;
    assert Pow2(10) == 1024 by {
      Pow2Values();
    }
    assert 32767 / 1024 == 31;
  }

  lemma OppositeCode(pcm: Int16)
    requires pcm > 0
    ensures LinearToULaw(-pcm) == LinearToULaw(pcm) - 128
  {
    assert Wrap16(-(-(pcm as int))) == pcm;
    assert Biased(-pcm) == Biased(pcm);
  }

  // ---------------------------------------------------------------- and of A-law

  lemma Toggle2Bits(n: int)
    requires 0 <= n < 4
    ensures Toggle2(n) % 2 == 1 - n % 2 && Toggle2(n) / 2 == n / 2
  {}

  /** The bits of a nibble, from its two halves. */
  lemma HalvesBits(t: int, a: int, b: int)
    requires 0 <= a < 4 && 0 <= b < 4 && t == 4 * a + b
    ensures t % 2 == b % 2 && t / 2 % 2 == b / 2 && t / 4 % 2 == a % 2 && t / 8 == a / 2
  {
    assert t / 2 == 2 * a + b / 2 && t / 4 == a;
  }

  lemma Toggle4Bits(n: int)
    requires 0 <= n < 16
    ensures Toggle4(n) % 2 == 1 - n % 2 && Toggle4(n) / 2 % 2 == n / 2 % 2
    ensures Toggle4(n) / 4 % 2 == 1 - n / 4 % 2 && Toggle4(n) / 8 == n / 8
  {
    var a, b := n / 4, n % 4;
    Toggle2Bits(a);
    Toggle2Bits(b);
    HalvesBits(n, a, b);
    HalvesBits(Toggle4(n), Toggle2(a), Toggle2(b));
  }

  lemma UpperBits(t: int)
    requires 0 <= t < 256
    ensures t / 32 == t / 16 / 2 && t / 64 == t / 16 / 4 && t / 128 == t / 16 / 8
  {}

  lemma LowestBits(t: int, h: int, l: int)
    requires 0 <= l < 16 && t == 16 * h + l
    ensures t % 2 == l % 2 && t / 2 % 2 == l / 2 % 2
  {
    assert t / 2 == 8 * h + l / 2;
  }

  lemma MiddleBits(t: int, h: int, l: int)
    requires 0 <= l < 16 && t == 16 * h + l
    ensures t / 4 % 2 == l / 4 % 2 && t / 8 % 2 == l / 8
  {
    assert t / 4 == 4 * h + l / 4;
    assert t / 8 == 2 * h + l / 8;
  }

  /** A bit of a byte, as a bit of one of its nibbles. */
  lemma BitOf(t: Byte, k: nat)
    requires k < 8
    ensures t / Scale(k) % 2 == if k < 4 then t % 16 / Scale(k) % 2 else t / 16 / Scale(k - 4) % 2
  {
    UpperBits(t);
    LowestBits(t, t / 16, t % 16);
    MiddleBits(t, t / 16, t % 16);
  }

  /** The bits that XOR with 0x55 inverts, counted from the lowest: exactly those with an even number. */
  lemma ToggleInverts(n: Byte, k: nat)
    requires k < 8
    ensures Toggle(n) / Scale(k) % 2 == if k % 2 == 0 then 1 - n / Scale(k) % 2 else n / Scale(k) % 2
  {
    var h, l := n / 16, n % 16;
    var th, tl := Toggle4(h), Toggle4(l);
    NibbleParts(th, tl);
    BitOf(n, k);
    BitOf(Toggle(n), k);
    NibbleInverts(h, l, th, tl, k);
  }

  lemma NibbleInverts(h: nat, l: nat, th: nat, tl: nat, k: nat)
    requires h < 16 && l < 16 && k < 8 && th == Toggle4(h) && tl == Toggle4(l)
    ensures var b, t := if k < 4 then l / Scale(k) % 2 else h / Scale(k - 4) % 2,
                        if k < 4 then tl / Scale(k) % 2 else th / Scale(k - 4) % 2;
      t == if k % 2 == 0 then 1 - b else b
  {
    if k < 4 {
      Toggle4Inverts(l, k);
    } else {
      Toggle4Inverts(h, k - 4);
    }
  }

  lemma Toggle4Inverts(n: int, k: nat)
    requires 0 <= n < 16 && k < 4
    ensures Toggle4(n) / Scale(k) % 2 == if k % 2 == 0 then 1 - n / Scale(k) % 2 else n / Scale(k) % 2
  {
    Toggle4Bits(n);
    assert Scale(k) == if k == 0 then 1 else if k == 1 then 2 else if k == 2 then 4 else 8;
  }

  lemma ALawLevelOf(u: nat, bits: Byte)
    requires u < 128 && bits == u + 128
    ensures ALawSample(bits) as int == ALawDecoded(u / 16, u % 16)
    ensures ALawSample(u) as int == -(ALawDecoded(u / 16, u % 16) as int)
  {
    ALawDecodes(u / 16, u % 16, true);
    ALawDecodes(u / 16, u % 16, false);
  }

  /** The decoder's table, by the bits a code has after the inversion: from 8 at 128 up the levels rise by
      16 in the first two segments, by 24 into the next, and by twice as much in every further one. */
  lemma ALawTable(code: Byte, bits: Byte, nextCode: Byte, next: Byte)
    requires bits == Toggle(code) && next == Toggle(nextCode) && 128 <= bits && next == bits + 1
    ensures var u := bits - 128;
      ALawToLinear(nextCode) as int - ALawToLinear(code) as int
        == if u < 16 then 16 else (if u % 16 < 15 then 16 else 24) * Scale(u / 16 - 1)
  {
    ALawRises(bits, next);
  }

  lemma ALawRises(bits: Byte, next: Byte)
    requires 128 <= bits && next == bits + 1
    ensures var u := bits - 128;
      ALawSample(next) as int - ALawSample(bits) as int
        == if u < 16 then 16 else (if u % 16 < 15 then 16 else 24) * Scale(u / 16 - 1)
  {
    var u: nat, v: nat := bits - 128, next - 128;
    var low: int, high: int := ALawSample(bits), ALawSample(next);
    ALawLevelOf(u, bits);
    ALawLevelOf(v, next);
    ALawRiseOf(u, v, low, high);
  }

  /** The table starts at 8, and below 128 it is the negative of the upper half. */
  lemma ALawOpposite(code: Byte, bits: Byte, lowerCode: Byte)
    requires bits == Toggle(code) && 128 <= bits && bits - 128 == Toggle(lowerCode)
    ensures ALawToLinear(lowerCode) as int == -(ALawToLinear(code) as int)
    ensures bits == 128 ==> ALawToLinear(code) == 8
  {
    ALawLevelOf(bits - 128, bits);
  }

  lemma ALawRiseOf(u: nat, v: nat, low: int, high: int)
    requires u < 127 && v == u + 1
    requires low == ALawDecoded(u / 16, u % 16) && high == ALawDecoded(v / 16, v % 16)
    ensures high - low == if u < 16 then 16 else (if u % 16 < 15 then 16 else 24) * Scale(u / 16 - 1)
  {
    NextCode(u);
    ALawRise(u / 16, u % 16);
  }

  lemma ALawRise(seg: nat, mant: nat)
    requires seg < 8 && mant < 16 && !(seg == 7 && mant == 15)
    ensures ALawDecoded(if mant < 15 then seg else seg + 1, if mant < 15 then mant + 1 else 0) - ALawDecoded(seg, mant)
         == if seg == 0 then 16 else (if mant < 15 then 16 else 24) * Scale(seg - 1)
  {
    Pow2Values();
  }

  function ALawGap(m: nat): nat {
    if m < 0x200 then 16 else ULawGap(m)
  }

  /** The encoder's intervals, as for mu-law; no sample is too loud but -32768. */
  lemma ALawIntervals(pcm: Int16)
    requires 0 <= pcm
    ensures var gap: int := ALawGap(pcm);
      -gap < 2 * (ALawToLinear(LinearToALaw(pcm)) as int - pcm) <= gap
    ensures pcm > 0 ==> LinearToALaw(-pcm) == LinearToALaw(pcm) - 128
  {
    ALawLevel(pcm);
    ALawGapIsStep(pcm);
    GapIsEven(pcm);
    MiddleIsNear(pcm, ALawGap(pcm));
    if pcm > 0 {
      OppositeALaw(pcm);
    }
  }

  lemma ALawGapIsStep(m: nat)
    requires m <= 32767
    ensures ALawGap(m) == ALawStep(Segment(m))
  {
    Pow2Values();
  }

  lemma OppositeALaw(pcm: Int16)
    requires pcm > 0
    ensures LinearToALaw(-pcm) == LinearToALaw(pcm) - 128
  {
    ALawEncodes(pcm);
    ALawEncodes(-pcm);
    ToggleHigh(ALawBits(-pcm));
  }

  lemma ToggleHigh(n: Byte)
    requires n < 128
    ensures Toggle(n + 128) == Toggle(n) + 128
  {
    Toggle4High(n / 16);
  }

  lemma Toggle4High(n: int)
    requires 0 <= n < 8
    ensures Toggle4(n + 8) == Toggle4(n) + 8
  {}

  // ---------------------------------------------------------------- gain, then companding

  /** A downlink sample as the far end hears it. */
  function Heard(sample: Int16, ulaw: bool): Int16 {
    if ulaw then ULawToLinear(LinearToULaw(Gain(sample))) else ALawToLinear(LinearToALaw(Gain(sample)))
  }

  /** Over a whole frame the sound is close to the gained samples exactly when no sample is so loud
      and negative that the gain clamps it to -32768: those come out as near silence. */
  lemma FrameIsClose(frame: seq<Int16>, ulaw: bool)
    ensures (forall i :: 0 <= i < |frame| ==> -643 <= Heard(frame[i], ulaw) - Gain(frame[i]) <= 643)
      <==> (forall i :: 0 <= i < |frame| ==> frame[i] > -10923)
  {
    forall i | 0 <= i < |frame|
      ensures -643 <= Heard(frame[i], ulaw) - Gain(frame[i]) <= 643 <==> frame[i] > -10923
    {
      SampleIsClose(frame[i], ulaw);
    }
  }

  lemma SampleIsClose(sample: Int16, ulaw: bool)
    ensures -643 <= Heard(sample, ulaw) - Gain(sample) <= 643 <==> sample > -10923
  {
    ULawIsClose(Gain(sample));
    ALawIsClose(Gain(sample));
    ALawMostNegative();
  }
}
