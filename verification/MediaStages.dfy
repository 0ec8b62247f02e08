/** The two stages that feed the downlink: both keep their bytes in the same kind of bounded buffer. */
module MediaStages {
  import opened G711
  import opened Pcm
  import opened Downlink

  function EncodeAll(pcm: seq<Int16>, ulaw: bool): (r: seq<Byte>)
    ensures |r| == |pcm|
    ensures forall i :: 0 <= i < |pcm| ==> r[i] == if ulaw then LinearToULaw(pcm[i]) else LinearToALaw(pcm[i])
  {
    seq(|pcm|, i requires 0 <= i < |pcm| => if ulaw then LinearToULaw(pcm[i]) else LinearToALaw(pcm[i]))
  }

  function Decode(code: Byte, ulaw: bool): Int16 {
    if ulaw then ULawToLinear(code) else ALawToLinear(code)
  }

  function DecodeAll(data: seq<Byte>, ulaw: bool): seq<Int16> {
    if data == [] then [] else DecodeAll(data[..|data| - 1], ulaw) + [Decode(data[|data| - 1], ulaw)]
  }

  lemma {:induction false} DecodeAllElements(data: seq<Byte>, ulaw: bool)
    ensures |DecodeAll(data, ulaw)| == |data|
    ensures forall i :: 0 <= i < |data| ==> DecodeAll(data, ulaw)[i] == Decode(data[i], ulaw)
  {
    if data != [] {
      DecodeAllElements(data[..|data| - 1], ulaw);
    }
  }

  /** The decoding loop of either law, as a whole. */
  method DecodeSamples(data: seq<Byte>, ulaw: bool) returns (pcm: array<Int16>)
    ensures fresh(pcm) && pcm[..] == DecodeAll(data, ulaw)
  {
    DecodeAllElements(data, ulaw);
    var bytes := new Byte[|data|](i requires 0 <= i < |data| => data[i]);
    if ulaw {
      pcm := DecodeULaw(bytes);
    } else {
      pcm := DecodeALaw(bytes);
    }
  }

  function GainAll(pcm: seq<Int16>): (r: seq<Int16>)
    ensures |r| == |pcm|
    ensures forall i :: 0 <= i < |pcm| ==> r[i] == Gain(pcm[i])
  {
    seq(|pcm|, i requires 0 <= i < |pcm| => Gain(pcm[i]))
  }

  /** What a chunk of socket data adds to the downlink: nothing when its size is odd. */
  function Encoded(data: seq<Byte>, ulaw: bool): seq<Byte> {
    if |data| % 2 != 0 then [] else EncodeAll(GainAll(FromBytes(data)), ulaw)
  }

  /** What the far end is sent for socket data: byte `i` encodes the 16-bit value nearest to three times the
      sample in bytes 2i and 2i + 1, the low one first. */
  lemma SocketSample(data: seq<Byte>, ulaw: bool, i: nat, louder: Int16)
    requires |data| % 2 == 0 && 2 * i < |data|
    requires var u := data[2 * i] + 256 * data[2 * i + 1] as int;
      Nearest(louder, 3 * if u < 32768 then u else u - 65536)
    ensures |Encoded(data, ulaw)| == |data| / 2
    ensures Encoded(data, ulaw)[i] == if ulaw then LinearToULaw(louder) else LinearToALaw(louder)
  {
    var sample := FromBytes(data)[i];
    SampleOfBytes(data, i);
    GainIsNearest(sample);
    NearestIsUnique(louder, Gain(sample), 3 * sample as int);
  }

  /** What the socket is sent for call audio: bytes 2i and 2i + 1 are the 16-bit value nearest to three
      times the decoded sample `i`, the low one first. */
  lemma CallSample(audio: seq<Byte>, ulaw: bool, i: nat, louder: Int16)
    requires i < |audio|
    requires Nearest(louder, 3 * (if ulaw then ULawToLinear(audio[i]) else ALawToLinear(audio[i])) as int)
    ensures var out := ToBytes(GainAll(DecodeAll(audio, ulaw)));
      && |out| == 2 * |audio|
      && out[2 * i] + 256 * out[2 * i + 1] as int == if louder >= 0 then louder else 65536 + louder as int
  {
    DecodeAllElements(audio, ulaw);
    var pcm := DecodeAll(audio, ulaw);
    BytesOfSample(GainAll(pcm), i);
    GainIsNearest(pcm[i]);
    NearestIsUnique(louder, Gain(pcm[i]), 3 * pcm[i] as int);
  }

  /** A data call, as a step of the abstract stream. */
  lemma DataStep(es: seq<Event>, bytes: seq<Byte>)
    ensures Run(es + [Data(bytes)]).buffer == Keep(Run(es).buffer, bytes)
  {
    assert (es + [Data(bytes)])[..|es|] == es;
  }

  /** Nothing changes a buffer that is within its capacity. */
  lemma KeepNothing(es: seq<Event>)
    ensures Keep(Run(es).buffer, []) == Run(es).buffer
  {
    StreamIsCut(es);
    assert Run(es).buffer + [] == Run(es).buffer;
  }

  /** A frame call, as a step of the abstract stream. */
  lemma AskStep(es: seq<Event>)
    ensures var b := Run(es).buffer;
      Run(es + [Ask]).buffer == if |b| >= FRAME then b[FRAME..] else b
  {
    assert (es + [Ask])[..|es|] == es;
  }

  /** Append and erase, as both stages do it. */
  method Append(buffer: seq<Byte>, data: seq<Byte>) returns (b: seq<Byte>)
    ensures b == Keep(buffer, data)
  {
    b := buffer + data;
    if |b| > CAPACITY {
      b := b[|b| - CAPACITY..];
    }
  }

  class AudioSocketStage {
    const ulaw: bool
    var downlinkBuffer: seq<Byte>
    /** The calls that touched the buffer: the stage's place in the abstract stream. */
    ghost var history: seq<Event>
    /** Everything handed to the client's `sendAudio`. */
    var sent: seq<seq<Byte>>

    ghost predicate Valid()
      reads this
    {
      downlinkBuffer == Run(history).buffer
    }

    constructor (payloadType: int)
      ensures Valid() && history == [] && sent == [] && ulaw == (payloadType == 0)
    {
      ulaw := payloadType == 0;
      downlinkBuffer, sent, history := [], [], [];
    }

    /** Gain and companding of socket data; none of an odd length. */
    method Encode(data: seq<Byte>) returns (bytes: seq<Byte>)
      ensures bytes == Encoded(data, ulaw)
    {
      if |data| % 2 != 0 {
        return [];
      }
      var samples := FromBytes(data);
      var pcm := new Int16[|samples|](i requires 0 <= i < |samples| => samples[i]);
      ApplyGain(pcm);
      assert pcm[..] == GainAll(samples);
      var encoded: array<Byte>;
      if ulaw {
        encoded := EncodeULaw(pcm);
      } else {
        encoded := EncodeALaw(pcm);
      }
      bytes := encoded[..];
    }

    /** Socket data: gain, companding, and into the buffer. */
    method OnAudioSocketData(data: seq<Byte>)
      requires Valid()
      modifies this`downlinkBuffer, this`history
      ensures Valid()
      ensures history == old(history) + [Data(Encoded(data, ulaw))]
    {
      ghost var before := history;
      var bytes := Encode(data);
      if |data| % 2 == 0 {
        downlinkBuffer := Append(downlinkBuffer, bytes);
      } else {
        KeepNothing(before);
      }
      history := before + [Data(bytes)];
      DataStep(before, bytes);
    }

    /** Call audio to the socket: decoded, gained, as little-endian samples. */
    method ProcessUplink(audio: seq<Byte>)
      modifies this`sent
      ensures sent == if audio == [] then old(sent) else old(sent) + [ToBytes(GainAll(DecodeAll(audio, ulaw)))]
    {
      if audio == [] {
        return;
      }
      var pcm := DecodeSamples(audio, ulaw);
      ApplyGain(pcm);
      assert pcm[..] == GainAll(DecodeAll(audio, ulaw));
      sent := sent + [ToBytes(pcm[..])];
    }

    method ProcessDownlink(audio: seq<Byte>) returns (out: seq<Byte>)
      requires Valid()
      modifies this`downlinkBuffer, this`history
      ensures Valid()
      ensures history == old(history) + [Ask]
      ensures var held := Run(old(history)).buffer; out == if |held| >= 160 then held[..160] else audio
    {
      AskStep(history);
      history := history + [Ask];
      out := audio;
      if |downlinkBuffer| >= FRAME {
        out := downlinkBuffer[..FRAME];
        downlinkBuffer := downlinkBuffer[FRAME..];
      }
    }
  }

  class GrpcBridgeStage {
    var downlinkBuffer: seq<Byte>
    /** The calls that touched the buffer: the stage's place in the abstract stream. */
    ghost var history: seq<Event>
    var seqNo: nat
    /** The numbered chunks handed to the client. */
    var sent: seq<(seq<Byte>, nat)>

    ghost predicate Valid()
      reads this
    {
      && downlinkBuffer == Run(history).buffer
      && seqNo == |sent|
      && forall i :: 0 <= i < |sent| ==> sent[i].1 == i
    }

    constructor ()
      ensures Valid() && history == [] && sent == []
    {
      downlinkBuffer, seqNo, sent, history := [], 0, [], [];
    }

    method OnBotAudio(data: seq<Byte>)
      requires Valid()
      modifies this`downlinkBuffer, this`history
      ensures Valid()
      ensures history == old(history) + [Data(data)]
    {
      ghost var before := history;
      downlinkBuffer := Append(downlinkBuffer, data);
      history := before + [Data(data)];
      DataStep(before, data);
    }

    /** Non-empty chunks go out under consecutive numbers. */
    method ProcessUplink(audio: seq<Byte>)
      requires Valid()
      modifies this`seqNo, this`sent
      ensures Valid()
      ensures sent == if audio == [] then old(sent) else old(sent) + [(audio, old(seqNo))]
    {
      if audio != [] {
        sent := sent + [(audio, seqNo)];
        seqNo := seqNo + 1;
      }
    }

    method ProcessDownlink(audio: seq<Byte>) returns (out: seq<Byte>)
      requires Valid()
      modifies this`downlinkBuffer, this`history
      ensures Valid()
      ensures history == old(history) + [Ask]
      ensures var held := Run(old(history)).buffer; out == if |held| >= 160 then held[..160] else audio
    {
      AskStep(history);
      history := history + [Ask];
      out := audio;
      if |downlinkBuffer| >= FRAME {
        out := downlinkBuffer[..FRAME];
        downlinkBuffer := downlinkBuffer[FRAME..];
      }
    }
  }
}
