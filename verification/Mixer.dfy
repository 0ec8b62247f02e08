/** The recorder's mixer: samples of the two directions are added pairwise as far as both have any,
    and a side that gets more than a second ahead is flushed alone. */
module Mixer {
  import opened Text
  import opened G711

  const LIMIT := 8000

  function Clamp(n: int): Int16 {
    if n > 32767 then 32767 else if n < -32768 then -32768 else n
  }

  lemma ClampIsNearest(n: int)
    ensures Nearest(Clamp(n), n)
  {}

  /** The clamped pointwise sum. */
  function Sum(u: seq<Int16>, d: seq<Int16>): (r: seq<Int16>)
    requires |u| == |d|
    ensures |r| == |u|
    ensures forall i :: 0 <= i < |u| ==> r[i] == Clamp(u[i] as int + d[i] as int)
  {
    if u == [] then []
    else Sum(u[..|u| - 1], d[..|d| - 1]) + [Clamp(u[|u| - 1] as int + d[|d| - 1] as int)]
  }

  /** A decoded chunk of one direction. */
  datatype Part = Part(up: bool, pcm: seq<Int16>)

  /** What is waiting on either side, and every sample written so far. */
  datatype State = State(ul: seq<Int16>, dl: seq<Int16>, file: seq<Int16>)

  const START := State([], [], [])

  function Min(a: nat, b: nat): nat {
    if a < b then a else b
  }

  function Arrived(s: State, p: Part): State {
    if p.up then s.(ul := s.ul + p.pcm) else s.(dl := s.dl + p.pcm)
  }

  function Mixed(s: State): State {
    var n := Min(|s.ul|, |s.dl|);
    State(s.ul[n..], s.dl[n..], s.file + Sum(s.ul[..n], s.dl[..n]))
  }

  function FlushedUp(s: State): State {
    if |s.ul| > LIMIT then State([], s.dl, s.file + s.ul) else s
  }

  function FlushedDown(s: State): State {
    if |s.dl| > LIMIT then State(s.ul, [], s.file + s.dl) else s
  }

  /** One chunk through the mixer. */
  function Take(s: State, p: Part): State {
    FlushedDown(FlushedUp(Mixed(Arrived(s, p))))
  }

  /** The file has grown by the common part of what is waiting, every sample of it the 16-bit value nearest
      to the sum of the two, and by `alone`. */
  ghost predicate Writes(s: State, u: seq<Int16>, d: seq<Int16>, alone: seq<Int16>, t: State) {
    var n := if |u| < |d| then |u| else |d|;
    && |t.file| == |s.file| + n + |alone|
    && t.file[..|s.file|] == s.file
    && (forall i :: 0 <= i < n ==> Nearest(t.file[|s.file| + i], u[i] as int + d[i] as int))
    && t.file[|s.file| + n..] == alone
  }

  /** What one chunk does: the common part is mixed; what one side has beyond it stays, or is written
      alone when it is more than 8000 samples. */
  lemma TakeWrites(s: State, p: Part)
    ensures var u, d := s.ul + (if p.up then p.pcm else []), s.dl + (if p.up then [] else p.pcm);
      var t := Take(s, p);
      if |u| > |d| + 8000 then Writes(s, u, d, u[|d|..], t) && t.ul == [] && t.dl == []
      else if |d| > |u| + 8000 then Writes(s, u, d, d[|u|..], t) && t.ul == [] && t.dl == []
      else if |u| >= |d| then Writes(s, u, d, [], t) && t.ul == u[|d|..] && t.dl == []
      else Writes(s, u, d, [], t) && t.ul == [] && t.dl == d[|u|..]
  {
    var u, d := s.ul + (if p.up then p.pcm else []), s.dl + (if p.up then [] else p.pcm);
    assert s.ul + [] == s.ul && s.dl + [] == s.dl;
    assert Arrived(s, p) == State(u, d, s.file);
    var m := Mixed(State(u, d, s.file));
    MixWrites(s, u, d, m);
    FlushWrites(s, u, d, m);
  }

  lemma MixWrites(s: State, u: seq<Int16>, d: seq<Int16>, m: State)
    requires m == Mixed(State(u, d, s.file))
    ensures Writes(s, u, d, [], m)
    ensures |u| >= |d| ==> m.ul == u[|d|..] && m.dl == []
    ensures |d| >= |u| ==> m.ul == [] && m.dl == d[|u|..]
  {
    var n := Min(|u|, |d|);
    var sum := Sum(u[..n], d[..n]);
    forall i | 0 <= i < n ensures Nearest(sum[i], u[i] as int + d[i] as int) {
      ClampIsNearest(u[i] as int + d[i] as int);
    }
    WritesSum(s, u, d, sum, m);
  }

  lemma WritesSum(s: State, u: seq<Int16>, d: seq<Int16>, sum: seq<Int16>, m: State)
    requires |sum| == Min(|u|, |d|) && m.file == s.file + sum
    requires forall i :: 0 <= i < |sum| ==> Nearest(sum[i], u[i] as int + d[i] as int)
    ensures Writes(s, u, d, [], m)
  {}

  lemma AloneWrites(s: State, u: seq<Int16>, d: seq<Int16>, m: State, alone: seq<Int16>, t: State)
    requires Writes(s, u, d, [], m) && t.file == m.file + alone
    ensures Writes(s, u, d, alone, t)
  {}

  lemma FlushWrites(s: State, u: seq<Int16>, d: seq<Int16>, m: State)
    requires Writes(s, u, d, [], m)
    requires |u| >= |d| ==> m.ul == u[|d|..] && m.dl == []
    requires |d| >= |u| ==> m.ul == [] && m.dl == d[|u|..]
    ensures var t := FlushedDown(FlushedUp(m));
      if |u| > |d| + 8000 then Writes(s, u, d, u[|d|..], t) && t.ul == [] && t.dl == []
      else if |d| > |u| + 8000 then Writes(s, u, d, d[|u|..], t) && t.ul == [] && t.dl == []
      else if |u| >= |d| then Writes(s, u, d, [], t) && t.ul == u[|d|..] && t.dl == []
      else Writes(s, u, d, [], t) && t.ul == [] && t.dl == d[|u|..]
  {
    var t := FlushedDown(FlushedUp(m));
    if |u| > |d| + 8000 {
      AloneWrites(s, u, d, m, u[|d|..], t);
    } else if |d| > |u| + 8000 {
      AloneWrites(s, u, d, m, d[|u|..], t);
    }
  }

  function Run(ps: seq<Part>): State {
    if ps == [] then START else Take(Run(ps[..|ps| - 1]), ps[|ps| - 1])
  }

  /** The whole stream of one direction. */
  function Stream(ps: seq<Part>, up: bool): seq<Int16> {
    if ps == [] then []
    else Stream(ps[..|ps| - 1], up) + if ps[|ps| - 1].up == up then ps[|ps| - 1].pcm else []
  }

  // ---------------------------------------------------------------- conservation

  /** What a stretch of the file is made of. */
  datatype Segment = Both(u: seq<Int16>, d: seq<Int16>) | Alone(up: bool, pcm: seq<Int16>)

  /** The samples of one direction a segment used up. */
  function Used(g: Segment, up: bool): seq<Int16> {
    match g
    case Both(u, d) => if up then u else d
    case Alone(side, pcm) => if side == up then pcm else []
  }

  function UsedAll(gs: seq<Segment>, up: bool): seq<Int16> {
    if gs == [] then [] else UsedAll(gs[..|gs| - 1], up) + Used(gs[|gs| - 1], up)
  }

  ghost predicate Proper(gs: seq<Segment>) {
    forall g <- gs :: g.Both? ==> |g.u| == |g.d|
  }

  function Written(g: Segment): seq<Int16>
    requires g.Both? ==> |g.u| == |g.d|
  {
    match g
    case Both(u, d) => Sum(u, d)
    case Alone(_, pcm) => pcm
  }

  function WrittenAll(gs: seq<Segment>): seq<Int16>
    requires Proper(gs)
  {
    if gs == [] then [] else WrittenAll(gs[..|gs| - 1]) + Written(gs[|gs| - 1])
  }

  function MixSegment(s: State): Segment {
    var n := Min(|s.ul|, |s.dl|);
    Both(s.ul[..n], s.dl[..n])
  }

  function UpSegment(s: State): (gs: seq<Segment>)
    ensures Proper(gs)
  {
    if |s.ul| > LIMIT then [Alone(true, s.ul)] else []
  }

  function DownSegment(s: State): (gs: seq<Segment>)
    ensures Proper(gs)
  {
    if |s.dl| > LIMIT then [Alone(false, s.dl)] else []
  }

  /** The segments one chunk writes. */
  function Segments(s: State, p: Part): (gs: seq<Segment>)
    ensures Proper(gs)
  {
    var a := Arrived(s, p);
    var m := Mixed(a);
    [MixSegment(a)] + UpSegment(m) + DownSegment(FlushedUp(m))
  }

  function Log(ps: seq<Part>): (gs: seq<Segment>)
    ensures Proper(gs)
  {
    if ps == [] then []
    else Log(ps[..|ps| - 1]) + Segments(Run(ps[..|ps| - 1]), ps[|ps| - 1])
  }

  /** At a chunk boundary: one side is empty and neither is more than a second long. */
  ghost predicate Settled(s: State) {
    (s.ul == [] || s.dl == []) && |s.ul| <= 8000 && |s.dl| <= 8000
  }

  lemma SnocUsed(gs: seq<Segment>, g: Segment)
    ensures forall up :: UsedAll(gs + [g], up) == UsedAll(gs, up) + Used(g, up)
    ensures Proper(gs) && Proper([g]) ==> Proper(gs + [g]) && WrittenAll(gs + [g]) == WrittenAll(gs) + Written(g)
  {
    assert (gs + [g])[..|gs|] == gs;
    if Proper([g]) {
      assert [g][0] == g && g in [g];
    }
  }

  /** The account of a state: what the log used of a direction, then what waits. */
  function Account(gs: seq<Segment>, s: State, up: bool): seq<Int16> {
    UsedAll(gs, up) + if up then s.ul else s.dl
  }

  ghost predicate Books(gs: seq<Segment>, s: State) {
    Proper(gs) && s.file == WrittenAll(gs)
  }

  /** Same books, same accounts. */
  ghost predicate Balanced(gs: seq<Segment>, s: State, hs: seq<Segment>, t: State) {
    && Books(hs, t)
    && Account(hs, t, true) == Account(gs, s, true)
    && Account(hs, t, false) == Account(gs, s, false)
  }

  lemma MixBalances(gs: seq<Segment>, s: State)
    requires Books(gs, s)
    ensures Balanced(gs, s, gs + [MixSegment(s)], Mixed(s))
  {
    var n := Min(|s.ul|, |s.dl|);
    SnocUsed(gs, MixSegment(s));
    Moved(UsedAll(gs, true), s.ul, n);
    Moved(UsedAll(gs, false), s.dl, n);
  }

  /** Samples leave the buffer and are used. */
  lemma Moved(used: seq<Int16>, buffer: seq<Int16>, n: nat)
    requires n <= |buffer|
    ensures used + buffer[..n] + buffer[n..] == used + buffer
  {
    AppendIsAssociative(used, buffer[..n], buffer[n..]);
    assert buffer[..n] + buffer[n..] == buffer;
  }

  lemma EmptyTail<T>(a: seq<T>)
    ensures a + [] == a
  {}

  lemma UpBalances(gs: seq<Segment>, s: State)
    requires Books(gs, s)
    ensures Balanced(gs, s, gs + UpSegment(s), FlushedUp(s))
  {
    EmptyTail(gs);
    if |s.ul| > LIMIT {
      SnocUsed(gs, Alone(true, s.ul));
      EmptyTail(UsedAll(gs, false));
      EmptyTail(UsedAll(gs, true) + s.ul);
    }
  }

  lemma DownBalances(gs: seq<Segment>, s: State)
    requires Books(gs, s)
    ensures Balanced(gs, s, gs + DownSegment(s), FlushedDown(s))
  {
    EmptyTail(gs);
    if |s.dl| > LIMIT {
      SnocUsed(gs, Alone(false, s.dl));
      EmptyTail(UsedAll(gs, true));
      EmptyTail(UsedAll(gs, false) + s.dl);
    }
  }

  /** Mixing and flushing move samples from the buffers to the file and leave the state settled. */
  lemma TakeBalances(gs: seq<Segment>, s: State, p: Part)
    requires Books(gs, s)
    ensures Balanced(gs, Arrived(s, p), gs + Segments(s, p), Take(s, p)) && Settled(Take(s, p))
  {
    var a := Arrived(s, p);
    var m := Mixed(a);
    var f := FlushedUp(m);
    var g1 := gs + [MixSegment(a)];
    var g2 := g1 + UpSegment(m);
    MixBalances(gs, a);
    UpBalances(g1, m);
    DownBalances(g2, f);
    AppendIsAssociative(gs, [MixSegment(a)], UpSegment(m));
    AppendIsAssociative(gs, [MixSegment(a)] + UpSegment(m), DownSegment(f));
  }

  lemma ArrivalAccounts(gs: seq<Segment>, s: State, p: Part)
    ensures Account(gs, Arrived(s, p), true) == Account(gs, s, true) + if p.up then p.pcm else []
    ensures Account(gs, Arrived(s, p), false) == Account(gs, s, false) + if p.up then [] else p.pcm
  {
    EmptyTail(Account(gs, s, true));
    EmptyTail(Account(gs, s, false));
    AppendIsAssociative(UsedAll(gs, true), s.ul, p.pcm);
    AppendIsAssociative(UsedAll(gs, false), s.dl, p.pcm);
  }

  /** Over every run: the file is its log of mixed and flushed stretches, and each direction's stream
      is, in order, what the log used of it and what still waits. */
  lemma {:induction false} Conserved(ps: seq<Part>)
    ensures Settled(Run(ps))
    ensures Run(ps).file == WrittenAll(Log(ps))
    ensures Stream(ps, true) == UsedAll(Log(ps), true) + Run(ps).ul
    ensures Stream(ps, false) == UsedAll(Log(ps), false) + Run(ps).dl
  {
    if ps != [] {
      var last := |ps| - 1;
      Conserved(ps[..last]);
      ArrivalAccounts(Log(ps[..last]), Run(ps[..last]), ps[last]);
      TakeBalances(Log(ps[..last]), Run(ps[..last]), ps[last]);
    }
  }

  // ---------------------------------------------------------------- order independence

  function Gap(u: nat, d: nat): nat {
    if u > d then u - d else d - u
  }

  /** How far one direction is ahead of the other. */
  function Lead(ps: seq<Part>): nat {
    Gap(|Stream(ps, true)|, |Stream(ps, false)|)
  }

  /** At no chunk boundary is a side more than a second ahead. */
  ghost predicate Even(ps: seq<Part>) {
    forall k :: 0 <= k <= |ps| ==> Lead(ps[..k]) <= 8000
  }

  /** The mix of two streams as far as both go. */
  function MixOf(u: seq<Int16>, d: seq<Int16>): seq<Int16> {
    var n := Min(|u|, |d|);
    Sum(u[..n], d[..n])
  }

  /** The state in which exactly the common part of the streams has been mixed. */
  ghost predicate InStep(ps: seq<Part>) {
    var u, d := Stream(ps, true), Stream(ps, false);
    var n := Min(|u|, |d|);
    Run(ps) == State(u[n..], d[n..], MixOf(u, d))
  }

  lemma {:induction false} SumAppend(u: seq<Int16>, d: seq<Int16>, v: seq<Int16>, e: seq<Int16>)
    requires |u| == |d| && |v| == |e|
    ensures Sum(u + v, d + e) == Sum(u, d) + Sum(v, e)
  {
    var a, b := Sum(u + v, d + e), Sum(u, d) + Sum(v, e);
    assert |a| == |b|;
    forall i | 0 <= i < |a| ensures a[i] == b[i] {
    }
  }

  lemma StreamSnoc(ps: seq<Part>, k: nat)
    requires k < |ps|
    ensures forall up :: Stream(ps[..k + 1], up) == Stream(ps[..k], up) + if ps[k].up == up then ps[k].pcm else []
  {
    assert ps[..k + 1][..k] == ps[..k];
  }

  lemma SliceOn<T>(v: seq<T>, n: nat, m: nat)
    requires n <= m <= |v|
    ensures v[n..][..m - n] == v[n..m] && v[n..][m - n..] == v[m..] && v[..m] == v[..n] + v[n..m]
  {}

  lemma TakePrefix<T>(u: seq<T>, v: seq<T>, n: nat)
    requires u <= v && n <= |u|
    ensures u[..n] == v[..n]
  {}

  /** Mixing on, when the streams have grown. */
  lemma MixMore(u: seq<Int16>, d: seq<Int16>, v: seq<Int16>, e: seq<Int16>)
    requires u <= v && d <= e
    ensures var n, m := Min(|u|, |d|), Min(|v|, |e|);
      n <= m && Mixed(State(v[n..], e[n..], MixOf(u, d))) == State(v[m..], e[m..], MixOf(v, e))
  {
    var n, m := Min(|u|, |d|), Min(|v|, |e|);
    SliceOn(v, n, m);
    SliceOn(e, n, m);
    TakePrefix(u, v, n);
    TakePrefix(d, e, n);
    SumAppend(v[..n], e[..n], v[n..m], e[n..m]);
    assert Min(|v[n..]|, |e[n..]|) == m - n;
  }

  lemma DropGrows<T>(u: seq<T>, pcm: seq<T>, n: nat)
    requires n <= |u|
    ensures u[n..] + pcm == (u + pcm)[n..]
  {}

  lemma ArrivedGrows(u: seq<Int16>, d: seq<Int16>, file: seq<Int16>, p: Part)
    ensures var n := Min(|u|, |d|);
      var v, e := u + (if p.up then p.pcm else []), d + (if p.up then [] else p.pcm);
      Arrived(State(u[n..], d[n..], file), p) == State(v[n..], e[n..], file)
  {
    var n := Min(|u|, |d|);
    EmptyTail(u);
    EmptyTail(d);
    DropGrows(u, p.pcm, n);
    DropGrows(d, p.pcm, n);
  }

  /** The state right after mixing, before any flush. */
  lemma MixedInStep(ps: seq<Part>, k: nat)
    requires k < |ps| && InStep(ps[..k])
    ensures var u, d := Stream(ps[..k + 1], true), Stream(ps[..k + 1], false);
      var n := Min(|u|, |d|);
      Mixed(Arrived(Run(ps[..k]), ps[k])) == State(u[n..], d[n..], MixOf(u, d))
  {
    var u, d := Stream(ps[..k], true), Stream(ps[..k], false);
    StreamSnoc(ps, k);
    ArrivedGrows(u, d, MixOf(u, d), ps[k]);
    MixMore(u, d, Stream(ps[..k + 1], true), Stream(ps[..k + 1], false));
  }

  /** After mixing, a flush happens exactly when one stream is more than a second ahead. */
  lemma FlushOfCommon(u: seq<Int16>, d: seq<Int16>, file: seq<Int16>)
    ensures var n := Min(|u|, |d|);
      var m := State(u[n..], d[n..], file);
      var f := FlushedDown(FlushedUp(m));
      && (Gap(|u|, |d|) <= LIMIT ==> f == m)
      && (Gap(|u|, |d|) > LIMIT ==> |f.file| > |file|)
  {}

  /** A chunk that leaves both sides within a second of each other causes no flush; one that does not
      puts more into the file than the common part of the streams. */
  lemma StepInStep(ps: seq<Part>, k: nat)
    requires k < |ps| && InStep(ps[..k])
    ensures Lead(ps[..k + 1]) <= LIMIT ==> InStep(ps[..k + 1])
    ensures Lead(ps[..k + 1]) > LIMIT ==>
      |Run(ps[..k + 1]).file| > Min(|Stream(ps[..k + 1], true)|, |Stream(ps[..k + 1], false)|)
  {
    var qs := ps[..k + 1];
    var u, d := Stream(qs, true), Stream(qs, false);
    MixedInStep(ps, k);
    RunSnoc(ps, k);
    FlushOfCommon(u, d, MixOf(u, d));
  }

  lemma RunSnoc(ps: seq<Part>, k: nat)
    requires k < |ps|
    ensures Run(ps[..k + 1]) == FlushedDown(FlushedUp(Mixed(Arrived(Run(ps[..k]), ps[k]))))
  {
    assert ps[..k + 1][..k] == ps[..k];
  }

  lemma {:induction false} EvenInStep(ps: seq<Part>, k: nat)
    requires k <= |ps| && forall j :: 0 <= j <= k ==> Lead(ps[..j]) <= LIMIT
    ensures InStep(ps[..k])
  {
    if k == 0 {
      assert ps[..0] == [];
    } else {
      EvenInStep(ps, k - 1);
      StepInStep(ps, k - 1);
    }
  }

  ghost predicate CommonPart(ps: seq<Part>) {
    Run(ps).file == MixOf(Stream(ps, true), Stream(ps, false))
  }

  /** The first chunk boundary at which a side is too far ahead, or past the end. */
  lemma {:induction false} FirstUneven(ps: seq<Part>, n: nat) returns (k: nat)
    requires n <= |ps|
    ensures k <= n + 1 && forall j :: 0 <= j < k ==> Lead(ps[..j]) <= LIMIT
    ensures k <= n ==> Lead(ps[..k]) > LIMIT
  {
    if n == 0 {
      assert ps[..0] == [];
      k := 1;
    } else {
      k := FirstUneven(ps, n - 1);
      if k == n && Lead(ps[..k]) <= LIMIT {
        k := n + 1;
      }
    }
  }

  /** At every chunk boundary the file is the clamped sum of the two streams as far as both go,
      exactly when no side ever gets more than a second ahead. */
  lemma MixesExactly(ps: seq<Part>)
    ensures (forall k :: 0 <= k <= |ps| ==> CommonPart(ps[..k])) <==> Even(ps)
  {
    var k := FirstUneven(ps, |ps|);
    if k <= |ps| {
      assert ps[..0] == [];
      EvenInStep(ps, k - 1);
      StepInStep(ps, k - 1);
      assert !CommonPart(ps[..k]);
    } else {
      forall j | 0 <= j <= |ps| ensures CommonPart(ps[..j]) {
        EvenInStep(ps, j);
      }
    }
  }

  /** Chunk sizes and interleaving do not matter: even runs over the same two streams end in the same
      state, so they have written the same file. */
  lemma OrderIndependent(ps: seq<Part>, qs: seq<Part>)
    requires Even(ps) && Even(qs)
    requires Stream(ps, true) == Stream(qs, true) && Stream(ps, false) == Stream(qs, false)
    ensures Run(ps) == Run(qs)
  {
    EvenInStep(ps, |ps|);
    EvenInStep(qs, |qs|);
    assert ps[..|ps|] == ps && qs[..|qs|] == qs;
  }
}
