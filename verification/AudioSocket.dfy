/** The length-prefixed frames of the AudioSocket connection: what the client puts on the wire, however
    the socket splits it, and what the reader loop takes off it. */
module AudioSocket {
  import opened Text
  import opened G711

  const UUID_TYPE: Byte := 0x01
  const AUDIO_TYPE: Byte := 0x10
  const TERMINATE_TYPE: Byte := 0x00
  const MAX_LENGTH := 0xFFFF

  /** A payload as it is sent: its length must fit 16 bits. */
  function Capped(p: seq<Byte>): seq<Byte> {
    if |p| > MAX_LENGTH then p[..MAX_LENGTH] else p
  }

  /** Type, big-endian length, payload. */
  function Frame(kind: Byte, payload: seq<Byte>): seq<Byte>
    requires |payload| <= MAX_LENGTH
  {
    [kind, |payload| / 0x100, |payload| % 0x100] + payload
  }

  /** The frames of a list of payloads; `sendAudio` sends nothing for an empty one. */
  function Frames(ps: seq<seq<Byte>>): seq<Byte> {
    if ps == [] then []
    else Frames(ps[..|ps| - 1]) + if ps[|ps| - 1] == [] then [] else Frame(AUDIO_TYPE, Capped(ps[|ps| - 1]))
  }

  lemma FramesOfOne(p: seq<Byte>)
    ensures Frames([p]) == if p == [] then [] else Frame(AUDIO_TYPE, Capped(p))
  {
    assert [p][..0] == [];
  }

  /** A big-endian length. */
  function Length16(hi: Byte, lo: Byte): nat {
    0x100 * (hi as int) + lo
  }

  function Zeros(n: nat): (r: seq<Byte>)
    ensures |r| == n
  {
    if n == 0 then [] else Zeros(n - 1) + [48]
  }

  /** The last `width` bytes of a text, padded with zero digits on the left. */
  function Padded(s: seq<Byte>, width: nat): (r: seq<Byte>)
    ensures |r| == width
  {
    if |s| > width then s[|s| - width..] else Zeros(width - |s|) + s
  }

  /** Dialer, epoch seconds, dialed: always 32 bytes. */
  function UuidPayload(from: seq<Byte>, epoch: seq<Byte>, to: seq<Byte>): (r: seq<Byte>)
    ensures |r| == 32
  {
    Padded(from, 10) + Padded(epoch, 7) + Padded(to, 15)
  }

  /** A text in a column of fixed width: cut on the left, or filled up there with zero digits (48). */
  ghost predicate Column(column: seq<Byte>, text: seq<Byte>) {
    if |text| >= |column| then column == text[|text| - |column|..]
    else
      && column[|column| - |text|..] == text
      && forall i :: 0 <= i < |column| - |text| ==> column[i] == 48
  }

  lemma {:induction false} ZerosAre(n: nat)
    ensures forall i :: 0 <= i < n ==> Zeros(n)[i] == 48
  {
    if n > 0 {
      ZerosAre(n - 1);
    }
  }

  lemma PaddedIsColumn(text: seq<Byte>, width: nat)
    ensures Column(Padded(text, width), text)
  {
    if |text| < width {
      ZerosAre(width - |text|);
      FilledColumn(Zeros(width - |text|), text);
    }
  }

  lemma FilledColumn(zeros: seq<Byte>, text: seq<Byte>)
    requires zeros != [] && forall i :: 0 <= i < |zeros| ==> zeros[i] == 48
    ensures Column(zeros + text, text)
  {
    assert (zeros + text)[|zeros|..] == text;
  }

  lemma ColumnsOf(from: seq<Byte>, epoch: seq<Byte>, to: seq<Byte>)
    ensures var p := UuidPayload(from, epoch, to);
      Column(p[..10], from) && Column(p[10..17], epoch) && Column(p[17..], to)
  {
    var p := UuidPayload(from, epoch, to);
    PaddedIsColumn(from, 10);
    PaddedIsColumn(epoch, 7);
    PaddedIsColumn(to, 15);
    assert p[..10] == Padded(from, 10) && p[10..17] == Padded(epoch, 7) && p[17..] == Padded(to, 15);
  }

  /** The identification frame: 1, 0, 32, and the last 10, 7 and 15 characters of dialer, epoch and dialed. */
  ghost predicate Identifies(b: seq<Byte>, from: seq<Byte>, epoch: seq<Byte>, to: seq<Byte>) {
    && |b| == 35 && b[0] == 1 && b[1] == 0 && b[2] == 32
    && Column(b[3..13], from) && Column(b[13..20], epoch) && Column(b[20..], to)
  }

  lemma UuidIdentifies(from: seq<Byte>, epoch: seq<Byte>, to: seq<Byte>)
    ensures Identifies(Frame(UUID_TYPE, UuidPayload(from, epoch, to)), from, epoch, to)
  {
    var p := UuidPayload(from, epoch, to);
    ColumnsOf(from, epoch, to);
    UuidFrame(p);
    FrameIdentifies(Frame(UUID_TYPE, p), p, from, epoch, to);
  }

  lemma UuidFrame(p: seq<Byte>)
    requires |p| == 32
    ensures Frame(UUID_TYPE, p) == [1, 0, 32] + p
  {}

  lemma FrameIdentifies(b: seq<Byte>, p: seq<Byte>, from: seq<Byte>, epoch: seq<Byte>, to: seq<Byte>)
    requires |p| == 32 && b == [1, 0, 32] + p
    requires Column(p[..10], from) && Column(p[10..17], epoch) && Column(p[17..], to)
    ensures Identifies(b, from, epoch, to)
  {
    assert b[3..13] == p[..10] && b[13..20] == p[10..17] && b[20..] == p[17..];
  }

  /** An audio frame: 16, the number of bytes with the high byte first, and these bytes of the payload,
      65535 at most. */
  ghost predicate Carries(b: seq<Byte>, pcm: seq<Byte>) {
    var n := if |pcm| > 65535 then 65535 else |pcm|;
    |b| == 3 + n && b[0] == 16 && 256 * b[1] as int + b[2] == n && b[3..] == pcm[..n]
  }

  lemma AudioFrame(pcm: seq<Byte>, n: nat)
    requires n == if |pcm| > MAX_LENGTH then MAX_LENGTH else |pcm|
    ensures var b := [AUDIO_TYPE, n / 0x100 % 0x100, n % 0x100] + pcm[..n];
      b == Frame(AUDIO_TYPE, Capped(pcm)) && Carries(b, pcm)
  {
    var b := [AUDIO_TYPE, n / 0x100 % 0x100, n % 0x100] + pcm[..n];
    assert Capped(pcm) == pcm[..n];
    assert b[3..] == pcm[..n];
  }

  const TERMINATE: seq<Byte> := [TERMINATE_TYPE, 0, 0]

  // ---------------------------------------------------------------- the reader

  /** The payloads a reader loop delivers from the bytes of a connection, reads being full ones. */
  function Delivered(s: seq<Byte>): seq<seq<Byte>>
    decreases |s|
  {
    if |s| < 3 then []
    else
      var kind, n := s[0], Length16(s[1], s[2]);
      if |s| < 3 + n then []
      else if kind == TERMINATE_TYPE then []
      else if kind == AUDIO_TYPE && n > 0 then [s[3..3 + n]] + Delivered(s[3 + n..])
      else Delivered(s[3 + n..])
  }

  /** What the loop makes of the next frame, by its bytes: a type, a length of two bytes with the high one
      first, and a payload. Type 16 with a payload is audio; type 0 ends the loop, and so does a frame that
      is cut off; anything else is passed over. */
  lemma ReaderReads(kind: Byte, hi: Byte, lo: Byte, payload: seq<Byte>, rest: seq<Byte>)
    requires 256 * hi as int + lo == |payload|
    ensures var s := [kind, hi, lo] + payload + rest;
      Delivered(s) == if kind == 0 then [] else if kind == 16 && payload != [] then [payload] + Delivered(rest)
                      else Delivered(rest)
    ensures forall k :: 0 <= k < 3 + |payload| ==> Delivered(([kind, hi, lo] + payload)[..k]) == []
  {
    var s := [kind, hi, lo] + payload + rest;
    assert s[3..3 + |payload|] == payload && s[3 + |payload|..] == rest;
    forall k | 0 <= k < 3 + |payload| ensures Delivered(([kind, hi, lo] + payload)[..k]) == [] {
      if k >= 3 {
        var cut := ([kind, hi, lo] + payload)[..k];
        assert cut[0] == kind && cut[1] == hi && cut[2] == lo;
      }
    }
  }

  // ---------------------------------------------------------------- the client

  /** How many bytes `send` takes when `k` are already sent; at most what is left. */
  type Socket = f: (nat, nat) -> int | forall k: nat, left: nat :: f(k, left) <= left
    witness (k: nat, left: nat) => left

  /** A socket that takes at least a byte whenever there is one to take. */
  ghost predicate Working(socket: Socket) {
    forall k: nat, left: nat :: left > 0 ==> socket(k, left) > 0
  }

  class Client {
    /** The bytes the socket has taken. */
    var wire: seq<Byte>
    /** What the audio callback was called with. */
    var heard: seq<seq<Byte>>
    /** `sockfd_` is not negative. */
    var open: bool
    /** Cleared by `stop`, and by the reader loop when it ends. */
    var running: bool
    /** The reader thread has been started and not been joined. */
    var joinable: bool

    /** Connected, with the reader loop about to start. */
    constructor ()
      ensures wire == [] && heard == [] && open && running && joinable
    {
      wire, heard, open, running, joinable := [], [], true, true, true;
    }

    /** `readerLoop`: header, payload, callback, until the stream ends or a terminate frame comes. The
        socket stays open. */
    method ReaderLoop(s: seq<Byte>)
      requires running
      modifies this`heard, this`running
      ensures heard == old(heard) + Delivered(s)
      ensures !running
    {
      var stream := s;
      while running
        invariant old(heard) + Delivered(s) == heard + if running then Delivered(stream) else []
        decreases running, |stream|
      {
        if |stream| < 3 {
          break;
        }
        var kind, n := stream[0], Length16(stream[1], stream[2]);
        ghost var before := stream;
        stream := stream[3..];
        if |stream| < n {
          break;
        }
        var payload := stream[..n];
        stream := stream[n..];
        if kind == TERMINATE_TYPE {
          break;
        }
        assert payload == before[3..3 + n] && stream == before[3 + n..];
        if kind == AUDIO_TYPE && n > 0 {
          AppendIsAssociative(heard, [payload], Delivered(stream));
          heard := heard + [payload];
        }
      }
      running := false;
    }

    /** `sendAll`: partial sends until everything is taken or one fails. */
    method SendAll(data: seq<Byte>, socket: Socket) returns (ok: bool)
      modifies this`wire
      ensures ok ==> wire == old(wire) + data
      ensures !ok ==> exists k :: 0 <= k < |data| && wire == old(wire) + data[..k]
      ensures Working(socket) ==> ok
    {
      var sent := 0;
      while sent < |data|
        invariant sent <= |data|
        invariant wire == old(wire) + data[..sent]
      {
        var n := socket(sent, |data| - sent);
        if n <= 0 {
          return false;
        }
        wire := wire + data[sent..sent + n];
        assert data[..sent] + data[sent..sent + n] == data[..sent + n];
        sent := sent + n;
      }
      assert data[..sent] == data;
      return true;
    }

    /** `sendUuid`. */
    method SendUuid(from: seq<Byte>, epoch: seq<Byte>, to: seq<Byte>, socket: Socket)
      modifies this`wire
      ensures Working(socket) ==> wire == old(wire) + Frame(UUID_TYPE, UuidPayload(from, epoch, to))
      ensures old(wire) <= wire && (Working(socket) ==> Identifies(wire[|old(wire)|..], from, epoch, to))
    {
      UuidIdentifies(from, epoch, to);
      var ok := SendAll([UUID_TYPE, 0x00, 0x20] + UuidPayload(from, epoch, to), socket);
    }

    /** A header, and what it announces, in two sends. */
    method SendBoth(header: seq<Byte>, data: seq<Byte>, first: Socket, second: Socket)
      modifies this`wire
      ensures Working(first) && Working(second) ==> wire == old(wire) + (header + data)
      ensures exists i, j :: 0 <= i <= |header| && 0 <= j <= |data| && wire == old(wire) + header[..i] + data[..j]
      ensures Working(second) ==> |data| <= |wire| && wire[|wire| - |data|..] == data
    {
      var ok := SendAll(header, first);
      ghost var i := |wire| - |old(wire)|;
      assert wire == old(wire) + header[..i];
      ok := SendAll(data, second);
      ghost var j := |wire| - |old(wire)| - i;
      assert wire == old(wire) + header[..i] + data[..j];
    }

    /** `sendAudio`, as long as the socket is open. */
    method SendAudio(pcm: seq<Byte>, first: Socket, second: Socket)
      modifies this`wire
      ensures open && Working(first) && Working(second) ==> wire == old(wire) + Frames([pcm])
      ensures open && pcm != [] && Working(first) && Working(second) ==>
        old(wire) <= wire && Carries(wire[|old(wire)|..], pcm)
      ensures open && Working(second) ==>
        var n := if |pcm| > 65535 then 65535 else |pcm|; n <= |wire| && wire[|wire| - n..] == pcm[..n]
      ensures !open || pcm == [] ==> wire == old(wire)
    {
      FramesOfOne(pcm);
      if !open || pcm == [] {
        return;
      }
      var n := if |pcm| > MAX_LENGTH then MAX_LENGTH else |pcm|;
      AudioFrame(pcm, n);
      SendBoth([AUDIO_TYPE, n / 0x100 % 0x100, n % 0x100], pcm[..n], first, second);
    }

    /** `stop`, which the destructor calls too: nothing at all once the reader loop has ended, neither closing
        the socket nor joining the thread. */
    method Stop(socket: Socket)
      modifies this`wire, this`open, this`running, this`joinable
      ensures !running && joinable == (old(joinable) && !old(running))
      ensures !old(running) ==> wire == old(wire) && open == old(open)
      ensures old(running) ==> !open
      ensures old(running) && old(open) && Working(socket) ==> wire == old(wire) + [0, 0, 0]
      ensures old(running) && !old(open) ==> wire == old(wire)
    {
      if !running {
        return;
      }
      running := false;
      if open {
        var ok := SendAll(TERMINATE, socket);
        open := false;
      }
      joinable := false;
    }
  }

  // ---------------------------------------------------------------- the round trip

  /** The payloads that are sent at all, each as it is sent. */
  function Audible(ps: seq<seq<Byte>>): seq<seq<Byte>> {
    if ps == [] then []
    else Audible(ps[..|ps| - 1]) + if ps[|ps| - 1] == [] then [] else [Capped(ps[|ps| - 1])]
  }

  lemma FrameIsRead(kind: Byte, payload: seq<Byte>, rest: seq<Byte>)
    requires |payload| <= MAX_LENGTH && kind != TERMINATE_TYPE
    ensures Delivered(Frame(kind, payload) + rest)
         == if kind == AUDIO_TYPE && payload != [] then [payload] + Delivered(rest) else Delivered(rest)
  {
    var s := Frame(kind, payload) + rest;
    var n := |payload|;
    assert Length16(s[1], s[2]) == n;
    assert s[3..3 + n] == payload;
    assert s[3 + n..] == rest;
  }

  lemma {:induction false} FramesAreRead(ps: seq<seq<Byte>>, rest: seq<Byte>)
    ensures Delivered(Frames(ps) + rest) == Audible(ps) + Delivered(rest)
  {
    if ps == [] {
      assert Frames(ps) + rest == rest;
      assert Audible(ps) + Delivered(rest) == Delivered(rest);
    } else {
      var last := |ps| - 1;
      FramesAreRead(ps[..last], rest);
      if ps[last] != [] {
        var p := Capped(ps[last]);
        AppendIsAssociative(Frames(ps[..last]), Frame(AUDIO_TYPE, p), rest);
        FramesAreRead(ps[..last], Frame(AUDIO_TYPE, p) + rest);
        FrameIsRead(AUDIO_TYPE, p, rest);
        AppendIsAssociative(Audible(ps[..last]), [p], Delivered(rest));
      } else {
        NothingAppended(Frames(ps[..last]));
        NothingAppended(Audible(ps[..last]));
      }
    }
  }

  lemma NothingAppended<T>(a: seq<T>)
    ensures a + [] == a
  {}

  lemma TerminateIsRead(rest: seq<Byte>)
    ensures Delivered(TERMINATE + rest) == []
  {}

  /** A whole connection: the UUID frame, any audio, the terminate frame, and whatever follows it. The
      reader delivers exactly the non-empty audio payloads, each capped, in order, and nothing of the rest. */
  lemma FramingRoundTrip(from: seq<Byte>, epoch: seq<Byte>, to: seq<Byte>, ps: seq<seq<Byte>>, rest: seq<Byte>)
    ensures Delivered(Frame(UUID_TYPE, UuidPayload(from, epoch, to)) + (Frames(ps) + (TERMINATE + rest))) == Audible(ps)
    ensures Delivered(Frame(UUID_TYPE, UuidPayload(from, epoch, to)) + Frames(ps)) == Audible(ps)
  {
    var uuid := UuidPayload(from, epoch, to);
    FrameIsRead(UUID_TYPE, uuid, Frames(ps) + (TERMINATE + rest));
    FramesAreRead(ps, TERMINATE + rest);
    TerminateIsRead(rest);
    FrameIsRead(UUID_TYPE, uuid, Frames(ps));
    FramesAreRead(ps, []);
    assert Frames(ps) + [] == Frames(ps);
  }

  lemma FramesSnoc(ps: seq<seq<Byte>>, p: seq<Byte>)
    ensures Frames(ps + [p]) == Frames(ps) + Frames([p])
  {
    assert (ps + [p])[..|ps|] == ps;
    assert [p][..0] == [] && Frames([]) == [];
  }

  lemma FramesStep(ps: seq<seq<Byte>>, i: nat, head: seq<Byte>)
    requires i < |ps|
    ensures head + Frames(ps[..i]) + Frames([ps[i]]) == head + Frames(ps[..i + 1])
  {
    FramesSnoc(ps[..i], ps[i]);
    AppendIsAssociative(head, Frames(ps[..i]), Frames([ps[i]]));
    assert ps[..i] + [ps[i]] == ps[..i + 1];
  }

  /** The sending end, from its identification to its stop, under any schedule of partial sends. */
  method Speak(client: Client, from: seq<Byte>, epoch: seq<Byte>, to: seq<Byte>, ps: seq<seq<Byte>>,
               schedule: nat -> Socket)
    requires client.open && client.running && client.wire == []
    requires forall i: nat :: Working(schedule(i))
    modifies client`wire, client`open, client`running, client`joinable
    ensures client.wire == Frame(UUID_TYPE, UuidPayload(from, epoch, to)) + Frames(ps) + TERMINATE
    ensures !client.open && !client.running && !client.joinable
  {
    client.SendUuid(from, epoch, to, schedule(0));
    ghost var uuid := Frame(UUID_TYPE, UuidPayload(from, epoch, to));
    NothingAppended(uuid);
    for i := 0 to |ps|
      invariant client.wire == uuid + Frames(ps[..i])
      invariant client.open && client.running
    {
      FramesStep(ps, i, uuid);
      client.SendAudio(ps[i], schedule(2 * i + 1), schedule(2 * i + 2));
    }
    assert ps[..|ps|] == ps;
    client.Stop(schedule(2 * |ps| + 1));
  }

  lemma SpokenIsHeard(from: seq<Byte>, epoch: seq<Byte>, to: seq<Byte>, ps: seq<seq<Byte>>)
    ensures Delivered(Frame(UUID_TYPE, UuidPayload(from, epoch, to)) + Frames(ps) + TERMINATE) == Audible(ps)
  {
    FramingRoundTrip(from, epoch, to, ps, []);
    NothingAppended(TERMINATE);
    AppendIsAssociative(Frame(UUID_TYPE, UuidPayload(from, epoch, to)), Frames(ps), TERMINATE);
  }

  /** Two ends of a connection: what one sends until its stop, under any schedule of partial sends, the
      other one's reader loop hears: exactly the audio, in order; and then it ends. */
  method Converse(client: Client, peer: Client, from: seq<Byte>, epoch: seq<Byte>, to: seq<Byte>, ps: seq<seq<Byte>>,
                  schedule: nat -> Socket)
    requires client != peer && client.open && client.running && client.wire == [] && peer.running
    requires forall i: nat :: Working(schedule(i))
    modifies client, peer
    ensures peer.heard == old(peer.heard) + Audible(ps) && !peer.running
    ensures !client.open && !client.running && !client.joinable
  {
    Speak(client, from, epoch, to, ps, schedule);
    SpokenIsHeard(from, epoch, to, ps);
    peer.ReaderLoop(client.wire);
  }

  /** A connection that ends by itself, and then `stop`: no terminate frame is sent, the socket is never
      closed, and the thread is never joined. */
  method HearOut(client: Client, s: seq<Byte>, socket: Socket)
    requires client.running
    modifies client
    ensures client.heard == old(client.heard) + Delivered(s)
    ensures !client.running && client.wire == old(client.wire)
    ensures client.open == old(client.open) && client.joinable == old(client.joinable)
  {
    client.ReaderLoop(s);
    client.Stop(socket);
  }
}
