/** The bounded downlink buffer of the media stages: bytes arrive in any amounts, the oldest are
    dropped beyond two seconds, and frames of 160 bytes are cut off the front. */
module Downlink {
  import opened Text
  import opened G711

  const CAPACITY := 16000
  const FRAME := 160

  /** Append, then erase from the front what exceeds the capacity. */
  function Keep(buffer: seq<Byte>, data: seq<Byte>): seq<Byte> {
    var b := buffer + data;
    if |b| > CAPACITY then b[|b| - CAPACITY..] else b
  }

  // ---------------------------------------------------------------- runs

  /** Bytes come in, or a frame is asked for. */
  datatype Event = Data(bytes: seq<Byte>) | Ask

  /** Bytes that left the buffer at its front, either way. */
  datatype Cut = Emitted(bytes: seq<Byte>) | Dropped(bytes: seq<Byte>)

  datatype Log = Log(buffer: seq<Byte>, cuts: seq<Cut>)

  function Step(s: Log, e: Event): Log {
    match e
    case Data(bytes) =>
      var all := s.buffer + bytes;
      var kept := Keep(s.buffer, bytes);
      var over := |all| - |kept|;
      Log(kept, if over == 0 then s.cuts else s.cuts + [Dropped(all[..over])])
    case Ask =>
      if |s.buffer| >= FRAME then Log(s.buffer[FRAME..], s.cuts + [Emitted(s.buffer[..FRAME])]) else s
  }

  function Run(es: seq<Event>): Log {
    if es == [] then Log([], []) else Step(Run(es[..|es| - 1]), es[|es| - 1])
  }

  /** All bytes that ever came in. */
  function Received(es: seq<Event>): seq<Byte> {
    if es == [] then []
    else Received(es[..|es| - 1]) + match es[|es| - 1]
      case Data(bytes) => bytes
      case Ask => []
  }

  /** All bytes that left, in the order they left. */
  function Left(cuts: seq<Cut>): seq<Byte> {
    if cuts == [] then [] else Left(cuts[..|cuts| - 1]) + cuts[|cuts| - 1].bytes
  }

  function Bytes(cuts: seq<Cut>, emitted: bool): nat {
    if cuts == [] then 0
    else
      var last := cuts[|cuts| - 1];
      Bytes(cuts[..|cuts| - 1], emitted) + if last.Emitted? == emitted then |last.bytes| else 0
  }

  // ---------------------------------------------------------------- the stream laws

  lemma LeftSnoc(cuts: seq<Cut>, c: Cut)
    ensures Left(cuts + [c]) == Left(cuts) + c.bytes
    ensures forall emitted ::
      Bytes(cuts + [c], emitted) == Bytes(cuts, emitted) + if c.Emitted? == emitted then |c.bytes| else 0
  {
    assert (cuts + [c])[..|cuts|] == cuts;
  }

  /** Bytes moved from the front of the buffer to the cuts stay in place. */
  lemma CutMoves(cuts: seq<Cut>, c: Cut, all: seq<Byte>, n: nat)
    requires n <= |all| && c.bytes == all[..n]
    ensures Left(cuts + [c]) + all[n..] == Left(cuts) + all
  {
    LeftSnoc(cuts, c);
    AppendIsAssociative(Left(cuts), all[..n], all[n..]);
    assert all == all[..n] + all[n..];
  }

  lemma DataExtends(s: Log, bytes: seq<Byte>)
    ensures var n := Step(s, Data(bytes));
      |n.buffer| <= CAPACITY && Left(n.cuts) + n.buffer == Left(s.cuts) + s.buffer + bytes
  {
    var all := s.buffer + bytes;
    AppendIsAssociative(Left(s.cuts), s.buffer, bytes);
    if |all| > CAPACITY {
      var over := |all| - CAPACITY;
      CutMoves(s.cuts, Dropped(all[..over]), all, over);
    }
  }

  lemma AskExtends(s: Log)
    requires |s.buffer| <= CAPACITY
    ensures var n := Step(s, Ask);
      |n.buffer| <= CAPACITY && Left(n.cuts) + n.buffer == Left(s.cuts) + s.buffer
  {
    if |s.buffer| >= FRAME {
      CutMoves(s.cuts, Emitted(s.buffer[..FRAME]), s.buffer, FRAME);
    }
  }

  lemma StepExtends(s: Log, e: Event)
    requires |s.buffer| <= CAPACITY
    ensures var n := Step(s, e);
      && |n.buffer| <= CAPACITY
      && Left(n.cuts) + n.buffer == Left(s.cuts) + s.buffer + (if e.Data? then e.bytes else [])
  {
    match e
    case Data(bytes) => DataExtends(s, bytes);
    case Ask =>
      AskExtends(s);
      assert Left(s.cuts) + s.buffer + [] == Left(s.cuts) + s.buffer;
  }

  /** Over every interleaving: what left plus what is held is exactly what came in, in order; the
      buffer, a suffix of it, never exceeds the capacity; every emitted frame has 160 bytes. */
  lemma {:induction false} StreamIsCut(es: seq<Event>)
    ensures var s := Run(es);
      && |s.buffer| <= 16000
      && Left(s.cuts) + s.buffer == Received(es)
      && forall c <- s.cuts :: c.bytes != [] && (c.Emitted? ==> |c.bytes| == 160)
  {
    if es != [] {
      var last := |es| - 1;
      StreamIsCut(es[..last]);
      StepExtends(Run(es[..last]), es[last]);
    }
  }

  lemma {:induction false} LeftLength(cuts: seq<Cut>)
    ensures |Left(cuts)| == Bytes(cuts, true) + Bytes(cuts, false)
  {
    if cuts != [] {
      LeftLength(cuts[..|cuts| - 1]);
    }
  }

  /** Bytes received = emitted + dropped + held. */
  lemma BytesConserved(es: seq<Event>)
    ensures var s := Run(es);
      |Received(es)| == Bytes(s.cuts, true) + Bytes(s.cuts, false) + |s.buffer|
  {
    StreamIsCut(es);
    LeftLength(Run(es).cuts);
  }

  /** Where the bytes of a cut start in the stream. */
  function Offset(cuts: seq<Cut>, k: nat): nat
    requires k <= |cuts|
  {
    |Left(cuts[..k])|
  }

  lemma {:induction false} LeftPrefix(cuts: seq<Cut>, k: nat)
    requires k < |cuts|
    ensures Left(cuts[..k]) + cuts[k].bytes <= Left(cuts)
    decreases |cuts|
  {
    if k == |cuts| - 1 {
      assert cuts[..k] == cuts[..|cuts| - 1];
    } else {
      LeftPrefix(cuts[..|cuts| - 1], k);
      assert cuts[..|cuts| - 1][..k] == cuts[..k];
      assert Left(cuts[..|cuts| - 1]) <= Left(cuts);
    }
  }

  /** Every frame, and every dropped stretch, is a slice of the received bytes, where its offset says. */
  lemma FramesAreSlices(es: seq<Event>, k: nat)
    requires k < |Run(es).cuts|
    ensures var cuts := Run(es).cuts;
      && Offset(cuts, k) + |cuts[k].bytes| <= |Received(es)|
      && cuts[k].bytes == Received(es)[Offset(cuts, k)..Offset(cuts, k) + |cuts[k].bytes|]
  {
    var cuts := Run(es).cuts;
    StreamIsCut(es);
    LeftPrefix(cuts, k);
    SliceOfPrefix(Left(cuts[..k]), cuts[k].bytes, Received(es));
  }

  /** A later slice starts where no earlier one reaches. */
  lemma SlicesAreDisjoint(es: seq<Event>, j: nat, k: nat)
    requires j < k < |Run(es).cuts|
    ensures var cuts := Run(es).cuts;
      Offset(cuts, j) + |cuts[j].bytes| <= Offset(cuts, k)
  {
    var cuts := Run(es).cuts;
    LeftPrefix(cuts[..k], j);
    assert cuts[..k][..j] == cuts[..j];
  }

  lemma SliceOfPrefix(a: seq<Byte>, b: seq<Byte>, whole: seq<Byte>)
    requires a + b <= whole
    ensures |a| + |b| <= |whole| && whole[|a|..|a| + |b|] == b
  {
    assert (a + b)[|a|..] == b;
    assert whole[..|a| + |b|] == a + b;
  }

  lemma RunThen(es: seq<Event>, e: Event)
    ensures Run(es + [e]) == Step(Run(es), e)
    ensures Received(es + [e]) == Received(es) + match e case Data(bytes) => bytes case Ask => []
  {
    assert (es + [e])[..|es|] == es;
  }

  lemma HeldPart(left: seq<Byte>, held: seq<Byte>, all: seq<Byte>, n: nat)
    requires left + held == all && n <= |held|
    ensures held[..n] == all[|left|..|left| + n] && held[n..] == all[|left| + n..]
  {}

  /** A frame call takes the oldest 160 bytes that are still there, and nothing when there are fewer. */
  lemma AskExactly(es: seq<Event>)
    ensures var s, t, all, gone := Run(es), Run(es + [Ask]), Received(es), |Left(Run(es).cuts)|;
      && gone <= |all|
      && (|all| - gone >= 160 ==> t == Log(all[gone + 160..], s.cuts + [Emitted(all[gone..gone + 160])]))
      && (|all| - gone < 160 ==> t == s)
  {
    var s, all := Run(es), Received(es);
    StreamIsCut(es);
    RunThen(es, Ask);
    HeldPart(Left(s.cuts), s.buffer, all, if |s.buffer| >= 160 then 160 else 0);
  }

  lemma KeepsLast(s: Log, bytes: seq<Byte>, held: seq<Byte>, over: nat)
    requires held == s.buffer + bytes && over == (if |held| > 16000 then |held| - 16000 else 0)
    ensures Step(s, Data(bytes)) == Log(held[over..], if over == 0 then s.cuts else s.cuts + [Dropped(held[..over])])
  {}

  /** The log `t` holds the last bytes of `all`, from `gone` on but no more than 16000, and records what
      that pushes out. */
  ghost predicate Pushes(cuts: seq<Cut>, gone: nat, all: seq<Byte>, t: Log) {
    && gone <= |all|
    && (|all| - gone <= 16000 ==> t == Log(all[gone..], cuts))
    && (|all| - gone > 16000 ==> t == Log(all[|all| - 16000..], cuts + [Dropped(all[gone..|all| - 16000])]))
  }

  lemma HeldPushes(cuts: seq<Cut>, left: seq<Byte>, held: seq<Byte>, all: seq<Byte>, over: nat, t: Log)
    requires left + held == all && over == (if |held| > 16000 then |held| - 16000 else 0)
    requires t == Log(held[over..], if over == 0 then cuts else cuts + [Dropped(held[..over])])
    ensures Pushes(cuts, |left|, all, t)
  {
    HeldPart(left, held, all, over);
  }

  /** Arriving bytes push out exactly the oldest ones beyond 16000. */
  lemma DataExactly(es: seq<Event>, bytes: seq<Byte>)
    ensures Pushes(Run(es).cuts, |Left(Run(es).cuts)|, Received(es) + bytes, Run(es + [Data(bytes)]))
  {
    var s := Run(es);
    var held := s.buffer + bytes;
    var over := if |held| > 16000 then |held| - 16000 else 0;
    StreamIsCut(es);
    RunThen(es, Data(bytes));
    AppendIsAssociative(Left(s.cuts), s.buffer, bytes);
    KeepsLast(s, bytes, held, over);
    HeldPushes(s.cuts, Left(s.cuts), held, Received(es) + bytes, over, Run(es + [Data(bytes)]));
  }

  // ---------------------------------------------------------------- nothing dropped

  /** The arrival `i` fits on top of the backlog. */
  ghost predicate Fits(es: seq<Event>, i: nat)
    requires i < |es|
  {
    es[i].Data? ==> |Run(es[..i]).buffer| + |es[i].bytes| <= 16000
  }

  /** At no arrival did the backlog pass the capacity. */
  ghost predicate NeverFull(es: seq<Event>) {
    forall i :: 0 <= i < |es| ==> Fits(es, i)
  }

  /** Bytes are dropped exactly when the backlog passes the capacity; otherwise the frames are the
      stream itself, cut every 160 bytes. */
  lemma {:induction false} DroppedOnlyWhenFull(es: seq<Event>)
    ensures NeverFull(es) <==> Bytes(Run(es).cuts, false) == 0
  {
    if es != [] {
      var last := |es| - 1;
      var before, now := Run(es[..last]), Run(es);
      DroppedOnlyWhenFull(es[..last]);
      NeverFullPrefix(es);
      if es[last].Data? {
        var all := before.buffer + es[last].bytes;
        if |all| > CAPACITY {
          LeftSnoc(before.cuts, Dropped(all[..|all| - CAPACITY]));
        }
      } else if |before.buffer| >= FRAME {
        LeftSnoc(before.cuts, Emitted(before.buffer[..FRAME]));
      }
    }
  }

  lemma FitsPrefix(es: seq<Event>, i: nat)
    requires i < |es| - 1
    ensures Fits(es[..|es| - 1], i) == Fits(es, i)
  {
    assert es[..|es| - 1][..i] == es[..i];
  }

  lemma NeverFullPrefix(es: seq<Event>)
    requires es != []
    ensures NeverFull(es) <==> NeverFull(es[..|es| - 1]) && Fits(es, |es| - 1)
  {
    var last := |es| - 1;
    forall i | 0 <= i < last ensures Fits(es[..last], i) == Fits(es, i) {
      FitsPrefix(es, i);
    }
  }

  lemma {:induction false} AllEmitted(cuts: seq<Cut>, k: nat)
    requires Bytes(cuts, false) == 0 && k <= |cuts|
    requires forall c <- cuts :: c.bytes != [] && (c.Emitted? ==> |c.bytes| == FRAME)
    ensures forall i :: 0 <= i < |cuts| ==> cuts[i].Emitted?
    ensures Offset(cuts, k) == FRAME * k
    decreases |cuts|, k
  {
    if cuts != [] {
      var last := |cuts| - 1;
      assert cuts[last] in cuts;
      if k == |cuts| {
        AllEmitted(cuts[..last], last);
        assert cuts[..last][..last] == cuts[..last] && cuts[..k] == cuts;
      } else {
        AllEmitted(cuts[..last], k);
        assert cuts[..last][..k] == cuts[..k];
      }
    }
  }

  /** Then frame `k` is bytes 160k to 160k + 159 of the stream. */
  lemma FramesWhenNeverFull(es: seq<Event>, k: nat)
    requires NeverFull(es) && k < |Run(es).cuts|
    ensures 160 * (k + 1) <= |Received(es)|
    ensures Run(es).cuts[k] == Emitted(Received(es)[160 * k..160 * (k + 1)])
  {
    var cuts := Run(es).cuts;
    StreamIsCut(es);
    DroppedOnlyWhenFull(es);
    AllEmitted(cuts, k);
    LeftPrefix(cuts, k);
    SliceOfPrefix(Left(cuts[..k]), cuts[k].bytes, Received(es));
    assert cuts[k] in cuts;
  }
}
