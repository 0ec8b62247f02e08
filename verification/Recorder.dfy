/** The recorder stage: producers queue chunks, a worker takes the queue whole, mixes chunk by chunk
    into a WAV file, and drains what is queued before it stops. */
module Recorder {
  import opened Text
  import opened G711
  import opened Pcm
  import opened MediaStages
  import Mixer
  import Wav

  datatype Chunk = Chunk(up: bool, data: seq<Byte>)

  // ---------------------------------------------------------------- the queue protocol

  /** The queue, the worker's own batch, the chunks it has finished, and the two flags. */
  datatype Proto = Proto(queue: seq<Chunk>, batch: seq<Chunk>, done: seq<Chunk>, running: bool, exited: bool)

  const IDLE := Proto([], [], [], true, false)

  /** The atomic steps: a producer's push, the worker's swap, one chunk processed, the destructor's
      stop, and the worker's return. */
  datatype Action = Push(chunk: Chunk) | Swap | Work | Stop | Exit

  /** Producers hold the stage alive, so nothing is pushed once the destructor has started. */
  predicate Enabled(s: Proto, a: Action) {
    match a
    case Push(c) => s.running && c.data != []
    case Swap => !s.exited && s.batch == [] && s.queue != []
    case Work => !s.exited && s.batch != []
    case Stop => s.running
    case Exit => !s.exited && s.batch == [] && s.queue == [] && !s.running
  }

  function Do(s: Proto, a: Action): Proto
    requires Enabled(s, a)
  {
    match a
    case Push(c) => s.(queue := s.queue + [c])
    case Swap => s.(queue := [], batch := s.queue)
    case Work => s.(batch := s.batch[1..], done := s.done + [s.batch[0]])
    case Stop => s.(running := false)
    case Exit => s.(exited := true)
  }

  ghost predicate Legal(s: Proto, acts: seq<Action>)
    decreases acts
  {
    acts == [] || (Enabled(s, acts[0]) && Legal(Do(s, acts[0]), acts[1..]))
  }

  ghost function After(s: Proto, acts: seq<Action>): Proto
    requires Legal(s, acts)
    decreases acts
  {
    if acts == [] then s else After(Do(s, acts[0]), acts[1..])
  }

  function Pushed(acts: seq<Action>): seq<Chunk>
    decreases acts
  {
    if acts == [] then [] else (if acts[0].Push? then [acts[0].chunk] else []) + Pushed(acts[1..])
  }

  /** All chunks of a protocol state, oldest first. */
  function Contents(s: Proto): seq<Chunk> {
    s.done + s.batch + s.queue
  }

  lemma DoKeepsOrder(s: Proto, a: Action)
    requires Enabled(s, a) && (s.exited ==> !s.running && s.batch == [] && s.queue == [])
    ensures Contents(Do(s, a)) == Contents(s) + if a.Push? then [a.chunk] else []
    ensures var t := Do(s, a); t.exited ==> !t.running && t.batch == [] && t.queue == []
  {
    match a
    case Push(c) =>
      AppendIsAssociative(s.done + s.batch, s.queue, [c]);
    case Swap =>
      assert s.done + [] + s.queue == s.done + s.queue + [];
    case Work =>
      assert s.batch == [s.batch[0]] + s.batch[1..];
      assert s.done + s.batch == s.done + [s.batch[0]] + s.batch[1..];
    case Stop =>
    case Exit =>
  }

  /** Over every interleaving of producers and worker, chunks are finished once each, in the order they
      were pushed; when the worker has returned, all of them are. */
  lemma {:induction false} FirstInFirstOut(s: Proto, acts: seq<Action>)
    requires Legal(s, acts) && (s.exited ==> !s.running && s.batch == [] && s.queue == [])
    ensures Contents(After(s, acts)) == Contents(s) + Pushed(acts)
    ensures After(s, acts).exited ==> After(s, acts).done == Contents(s) + Pushed(acts)
    decreases acts
  {
    if acts == [] {
      assert Contents(s) + [] == Contents(s);
      assert s.exited ==> s.done + [] + [] == s.done;
    } else {
      DoKeepsOrder(s, acts[0]);
      FirstInFirstOut(Do(s, acts[0]), acts[1..]);
      AppendIsAssociative(Contents(s), if acts[0].Push? then [acts[0].chunk] else [], Pushed(acts[1..]));
    }
  }

  /** What the worker still has to do once stopped. */
  function Remaining(s: Proto): nat {
    2 * |s.queue| + |s.batch| + if s.exited then 0 else 1
  }

  predicate WorkerStep(a: Action) {
    a == Swap || a == Work || a == Exit
  }

  /** After the stop the worker always has a step to take, and every step it takes brings its return closer. */
  lemma WorkerReturns(s: Proto)
    requires !s.running && !s.exited
    ensures exists a :: WorkerStep(a) && Enabled(s, a)
    ensures forall a :: WorkerStep(a) && Enabled(s, a) ==> Remaining(Do(s, a)) < Remaining(s)
  {
    var a := if s.batch != [] then Work else if s.queue != [] then Swap else Exit;
    assert WorkerStep(a) && Enabled(s, a);
  }

  /** One action more. */
  lemma {:induction false} ActsSnoc(s: Proto, acts: seq<Action>, a: Action)
    requires Legal(s, acts) && Enabled(After(s, acts), a)
    ensures Legal(s, acts + [a]) && After(s, acts + [a]) == Do(After(s, acts), a)
    ensures Pushed(acts + [a]) == Pushed(acts) + if a.Push? then [a.chunk] else []
    decreases acts
  {
    if acts == [] {
      assert [] + [a] == [a] && [a][1..] == [];
    } else {
      assert (acts + [a])[1..] == acts[1..] + [a];
      ActsSnoc(Do(s, acts[0]), acts[1..], a);
      AppendIsAssociative(if acts[0].Push? then [acts[0].chunk] else [], Pushed(acts[1..]),
                          if a.Push? then [a.chunk] else []);
    }
  }

  /** Every run that has ended has finished exactly what was pushed in it, in order, so the mixer has
      written the same file, whatever the interleaving. */
  lemma EndedRunsAgree(acts: seq<Action>, other: seq<Action>, ulaw: bool)
    requires Legal(IDLE, acts) && After(IDLE, acts).exited && Legal(IDLE, other) && After(IDLE, other).exited
    requires Pushed(acts) == Pushed(other)
    ensures After(IDLE, acts).done == Pushed(acts)
    ensures Mixer.Run(Parts(After(IDLE, acts).done, ulaw)) == Mixer.Run(Parts(After(IDLE, other).done, ulaw))
  {
    FirstInFirstOut(IDLE, acts);
    FirstInFirstOut(IDLE, other);
    assert Contents(IDLE) + Pushed(acts) == Pushed(acts);
  }

  // ---------------------------------------------------------------- the mixed file

  /** The mixing loop over two equally long stretches: each sample is the 16-bit value nearest to the sum. */
  method MixLoop(u: seq<Int16>, d: seq<Int16>) returns (mixed: array<Int16>)
    requires |u| == |d|
    ensures fresh(mixed) && mixed[..] == Mixer.Sum(u, d)
    ensures forall i :: 0 <= i < |u| ==> Nearest(mixed[i], u[i] as int + d[i] as int)
  {
    forall i | 0 <= i < |u| ensures Nearest(Mixer.Clamp(u[i] as int + d[i] as int), u[i] as int + d[i] as int) {
      Mixer.ClampIsNearest(u[i] as int + d[i] as int);
    }
    mixed := new Int16[|u|];
    for i := 0 to |u|
      invariant forall k :: 0 <= k < i ==> mixed[k] == Mixer.Clamp(u[k] as int + d[k] as int)
    {
      var sample := u[i] as int + d[i] as int;
      if sample > 32767 {
        sample := 32767;
      }
      if sample < -32768 {
        sample := -32768;
      }
      mixed[i] := sample;
    }
  }

  lemma RunSnoc(ps: seq<Mixer.Part>, p: Mixer.Part)
    ensures Mixer.Run(ps + [p]) == Mixer.Take(Mixer.Run(ps), p)
  {
    assert (ps + [p])[..|ps|] == ps;
  }

  /** The stage's two sample buffers and its file. */
  class MixedFile {
    const wav: Wav.File
    /** The format of the recording: 8 kHz, one channel, 16 bits. */
    const rate: nat
    const channels: nat
    const bits: nat
    var ulBuffer: seq<Int16>
    var dlBuffer: seq<Int16>
    /** The decoded chunks so far. */
    ghost var taken: seq<Mixer.Part>

    /** The buffers and the file are those of a mixer state. */
    ghost predicate Holds(s: Mixer.State)
      reads this`ulBuffer, this`dlBuffer, wav
    {
      && ulBuffer == s.ul && dlBuffer == s.dl
      && wav.AtEnd()
      && wav.bytes == Wav.HeaderBytes(rate, channels, bits, 0, 0) + ToBytes(s.file)
    }

    ghost predicate Valid()
      reads this, wav
    {
      Holds(Mixer.Run(taken))
    }

    constructor ()
      ensures Valid() && fresh(wav) && taken == []
      ensures rate == 8000 && channels == 1 && bits == 16
    {
      rate, channels, bits := 8000, 1, 16;
      wav := new Wav.File();
      ulBuffer, dlBuffer, taken := [], [], [];
      new;
      wav.WriteHeader(rate, channels, bits);
      assert ToBytes([]) == [];
    }

    method WriteSamples(pcm: seq<Int16>, ghost s: Mixer.State)
      requires Holds(s)
      modifies wav
      ensures Holds(s.(file := s.file + pcm))
    {
      ToBytesAppend(s.file, pcm);
      AppendIsAssociative(Wav.HeaderBytes(rate, channels, bits, 0, 0), ToBytes(s.file), ToBytes(pcm));
      wav.Append(ToBytes(pcm));
    }

    /** The decoded samples join their side. */
    method Arrive(up: bool, pcm: seq<Int16>, ghost s: Mixer.State)
      requires Holds(s)
      modifies this`ulBuffer, this`dlBuffer
      ensures Holds(Mixer.Arrived(s, Mixer.Part(up, pcm)))
    {
      if up {
        ulBuffer := ulBuffer + pcm;
      } else {
        dlBuffer := dlBuffer + pcm;
      }
    }

    /** What both sides have is mixed and written. */
    method MixCommon(ghost s: Mixer.State)
      requires Holds(s)
      modifies this`ulBuffer, this`dlBuffer, wav
      ensures Holds(Mixer.Mixed(s))
    {
      var mixLen := Mixer.Min(|ulBuffer|, |dlBuffer|);
      if mixLen > 0 {
        var mixed := MixLoop(ulBuffer[..mixLen], dlBuffer[..mixLen]);
        WriteSamples(mixed[..], s);
        ulBuffer, dlBuffer := ulBuffer[mixLen..], dlBuffer[mixLen..];
      } else {
        assert s.file + [] == s.file;
      }
    }

    /** A side more than a second long is written alone. */
    method Flush(ghost s: Mixer.State)
      requires Holds(s)
      modifies this`ulBuffer, this`dlBuffer, wav
      ensures Holds(Mixer.FlushedDown(Mixer.FlushedUp(s)))
    {
      if |ulBuffer| > Mixer.LIMIT {
        WriteSamples(ulBuffer, s);
        ulBuffer := [];
      }
      ghost var t := Mixer.FlushedUp(s);
      if |dlBuffer| > Mixer.LIMIT {
        WriteSamples(dlBuffer, t);
        dlBuffer := [];
      }
    }

    /** One decoded chunk: append to its side, mix, flush. */
    method Process(up: bool, pcm: seq<Int16>, ghost s: Mixer.State)
      requires Holds(s)
      modifies this`ulBuffer, this`dlBuffer, wav
      ensures Holds(Mixer.Take(s, Mixer.Part(up, pcm)))
    {
      ghost var arrived := Mixer.Arrived(s, Mixer.Part(up, pcm));
      Arrive(up, pcm, s);
      MixCommon(arrived);
      Flush(Mixer.Mixed(arrived));
    }

    /** The same, as a step of the mixer's run. */
    method Take(up: bool, pcm: seq<Int16>)
      requires Valid()
      modifies this, wav
      ensures Valid() && taken == old(taken) + [Mixer.Part(up, pcm)]
    {
      Process(up, pcm, Mixer.Run(taken));
      RunSnoc(taken, Mixer.Part(up, pcm));
      taken := taken + [Mixer.Part(up, pcm)];
    }

    /** The file of a finished recording of the given samples. */
    ghost predicate Recording(samples: seq<Int16>)
      reads wav
    {
      wav.bytes == Wav.HeaderBytes(rate, channels, bits, 36 + 2 * |samples|, 2 * |samples|) + ToBytes(samples)
    }

    /** A finished recording: under a header with its sizes, what the mixer makes of the chunks. */
    ghost predicate Finished()
      reads this, wav
    {
      Recording(Mixer.Run(taken).file)
    }

    /** `updateHeader`. */
    method WriteSizes(ghost s: Mixer.State)
      requires Holds(s)
      modifies wav
      ensures Recording(s.file)
    {
      wav.UpdateHeader();
      Wav.UpdatedHeader(rate, channels, bits, ToBytes(s.file));
    }

    method Finish()
      requires Valid()
      modifies wav
      ensures Finished()
    {
      WriteSizes(Mixer.Run(taken));
    }
  }

  // ---------------------------------------------------------------- the stage

  /** What the mixer is given for a list of chunks. */
  function Parts(chunks: seq<Chunk>, ulaw: bool): seq<Mixer.Part> {
    if chunks == [] then []
    else
      Parts(chunks[..|chunks| - 1], ulaw)
      + [Mixer.Part(chunks[|chunks| - 1].up, DecodeAll(chunks[|chunks| - 1].data, ulaw))]
  }

  lemma PartsSnoc(chunks: seq<Chunk>, c: Chunk, ulaw: bool)
    ensures Parts(chunks + [c], ulaw) == Parts(chunks, ulaw) + [Mixer.Part(c.up, DecodeAll(c.data, ulaw))]
  {
    assert (chunks + [c])[..|chunks|] == chunks;
  }

  class RecorderStage {
    const ulaw: bool
    const mixed: MixedFile
    var queue: seq<Chunk>
    var batch: seq<Chunk>
    var running: bool
    /** The chunks the worker has finished, and whether it has returned. */
    ghost var done: seq<Chunk>
    ghost var exited: bool
    /** The atomic steps so far, of producers, worker and destructor. */
    ghost var history: seq<Action>

    ghost function State(): Proto
      reads this
    {
      Proto(queue, batch, done, running, exited)
    }

    /** The fields are where the history leads. */
    ghost predicate Tracks()
      reads this
    {
      Legal(IDLE, history) && After(IDLE, history) == State() && (exited ==> !running)
    }

    ghost predicate Valid()
      reads this, mixed, mixed.wav
    {
      && Tracks()
      && mixed.Valid() && mixed.taken == Parts(done, ulaw)
    }

    constructor (payloadType: int)
      ensures Valid() && fresh(mixed) && fresh(mixed.wav) && running && history == [] && ulaw == (payloadType == 0)
    {
      ulaw := payloadType == 0;
      mixed := new MixedFile();
      queue, batch, running := [], [], true;
      done, exited, history := [], false, [];
    }

    /** `processUplink` and `processDownlink`: a non-empty chunk joins the queue. */
    method Queue(up: bool, audio: seq<Byte>)
      requires Valid() && running
      modifies this`queue, this`history
      ensures Valid()
      ensures history == if audio == [] then old(history) else old(history) + [Push(Chunk(up, audio))]
    {
      if audio != [] {
        ActsSnoc(IDLE, history, Push(Chunk(up, audio)));
        queue := queue + [Chunk(up, audio)];
        history := history + [Push(Chunk(up, audio))];
      }
    }

    /** `buffer.swap(queue_)`, with the worker's last batch finished. */
    method TakeQueue()
      requires Valid() && batch == [] && queue != [] && !exited
      modifies this`queue, this`batch, this`history
      ensures Valid() && queue == [] && batch == old(queue)
      ensures history == old(history) + [Swap] && Pushed(history) == Pushed(old(history))
    {
      ActsSnoc(IDLE, history, Swap);
      batch, queue := queue, [];
      history := history + [Swap];
    }

    /** A chunk decoded, then through the mixer. */
    method MixChunk(chunk: Chunk)
      requires mixed.Valid() && mixed.taken == Parts(done, ulaw)
      modifies mixed, mixed.wav
      ensures mixed.Valid() && mixed.taken == Parts(done + [chunk], ulaw)
    {
      PartsSnoc(done, chunk, ulaw);
      var pcm := DecodeSamples(chunk.data, ulaw);
      mixed.Take(chunk.up, pcm[..]);
    }

    /** On to the next chunk of the batch. */
    method Advance()
      requires Tracks() && batch != [] && !exited
      modifies this`batch, this`done, this`history
      ensures Tracks() && batch == old(batch)[1..] && done == old(done) + [old(batch)[0]]
      ensures history == old(history) + [Work] && Pushed(history) == Pushed(old(history))
    {
      ActsSnoc(IDLE, history, Work);
      done := done + [batch[0]];
      batch := batch[1..];
      history := history + [Work];
    }

    /** The next chunk of the batch. */
    method ProcessChunk()
      requires Valid() && batch != [] && !exited
      modifies this`batch, this`done, this`history, mixed, mixed.wav
      ensures Valid() && batch == old(batch)[1..] && done == old(done) + [old(batch)[0]]
      ensures history == old(history) + [Work] && Pushed(history) == Pushed(old(history))
    {
      MixChunk(batch[0]);
      Advance();
    }

    /** The worker's return. */
    ghost method Leave()
      requires Valid() && batch == [] && queue == [] && !running && !exited
      modifies this`exited, this`history
      ensures Valid() && exited
      ensures history == old(history) + [Exit] && Pushed(history) == Pushed(old(history))
    {
      ActsSnoc(IDLE, history, Exit);
      exited := true;
      history := history + [Exit];
    }

    /** The worker's loop from the stop on: queue after queue, until nothing is left. */
    method Drain()
      requires Valid() && !running && !exited
      modifies this`queue, this`batch, this`done, this`exited, this`history, mixed, mixed.wav
      ensures Valid() && exited && Pushed(history) == Pushed(old(history))
    {
      while true
        invariant Valid() && !exited && Pushed(history) == Pushed(old(history))
        decreases 2 * |queue| + |batch|
      {
        ghost var waiting := queue;
        while batch != []
          invariant Valid() && queue == waiting && !exited && Pushed(history) == Pushed(old(history))
          decreases |batch|
        {
          ProcessChunk();
        }
        if queue == [] {
          break;
        }
        TakeQueue();
      }
      Leave();
    }

    /** Once the worker has returned, by whatever interleaving, everything pushed has been mixed in order. */
    lemma EverythingIsMixed()
      requires Valid() && exited
      ensures queue == [] && batch == [] && done == Pushed(history) && mixed.taken == Parts(Pushed(history), ulaw)
    {
      FirstInFirstOut(IDLE, history);
      ExitedIsEmpty(IDLE, history);
      assert Contents(IDLE) + Pushed(history) == Pushed(history);
    }

    /** The destructor's stop. */
    method Halt()
      requires Valid() && running
      modifies this`running, this`history
      ensures Valid() && !running && !exited && Pushed(history) == Pushed(old(history))
    {
      ActsSnoc(IDLE, history, Stop);
      running := false;
      history := history + [Stop];
    }

    /** The destructor: stop, let the worker drain, write the sizes. By then every chunk ever pushed is
        finished, and the file holds what the mixer makes of them under a header with its size. */
    method Close()
      requires Valid() && running
      modifies this, mixed, mixed.wav
      ensures Pushed(history) == Pushed(old(history)) && mixed.taken == Parts(Pushed(history), ulaw)
      ensures mixed.Finished()
    {
      Halt();
      Drain();
      EverythingIsMixed();
      mixed.Finish();
    }
  }

  lemma {:induction false} ExitedIsEmpty(s: Proto, acts: seq<Action>)
    requires Legal(s, acts) && (s.exited ==> !s.running && s.batch == [] && s.queue == [])
    ensures var t := After(s, acts); t.exited ==> !t.running && t.batch == [] && t.queue == []
    decreases acts
  {
    if acts != [] {
      DoKeepsOrder(s, acts[0]);
      ExitedIsEmpty(Do(s, acts[0]), acts[1..]);
    }
  }
}
