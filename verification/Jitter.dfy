/** The jitter buffer: a short queue kept in the order of 16-bit sequence numbers that wrap around,
    and the proof that it puts a stream with bounded overtaking back in order. */
module Jitter {
  import opened Text

  type Seq16 = n: int | 0 <= n < 0x1_0000

  const TARGET_SIZE := 5

  /** A packet as the buffer sees it. The buffer never looks at the payload. */
  datatype Packet<T> = Packet(seqNo: Seq16, payload: T)

  /** `(uint16_t)(cur - seq) < 32768`. */
  predicate NotAfter(s: Seq16, cur: Seq16) {
    (cur - s) % 0x1_0000 < 0x8000
  }

  /** The scan of `push`: stop at a duplicate, insert before the first number that is not earlier. */
  function Inserted<T>(b: seq<Packet<T>>, p: Packet<T>): seq<Packet<T>> {
    if b == [] then [p]
    else if b[0].seqNo == p.seqNo then b
    else if NotAfter(p.seqNo, b[0].seqNo) then [p] + b
    else [b[0]] + Inserted(b[1..], p)
  }

  /** The buffer after a scan for a new packet `p`: the scan stops at the first packet that has its number or
      is not earlier; `p` goes in front of that one unless it has the number, and to the end if there is none. */
  ghost predicate Placed<T>(before: seq<Packet<T>>, p: Packet<T>, after: seq<Packet<T>>, k: nat) {
    && k <= |before|
    && (forall i :: 0 <= i < k ==>
          before[i].seqNo != p.seqNo && 32768 <= (before[i].seqNo as int - p.seqNo) % 65536)
    && (k < |before| ==> (before[k].seqNo as int - p.seqNo) % 65536 < 32768)
    && after == if k < |before| && before[k].seqNo == p.seqNo then before else before[..k] + [p] + before[k..]
  }

  /** The scan goes on behind the first packet. */
  lemma PlacedLater<T>(b: seq<Packet<T>>, p: Packet<T>, after: seq<Packet<T>>, j: nat)
    requires b != [] && b[0].seqNo != p.seqNo && 32768 <= (b[0].seqNo as int - p.seqNo) % 65536
    requires Placed(b[1..], p, after, j)
    ensures Placed(b, p, [b[0]] + after, j + 1)
  {
    var rest := b[1..];
    assert b == [b[0]] + rest;
    assert forall i :: 0 < i < |b| ==> b[i] == rest[i - 1];
    assert b[..j + 1] == [b[0]] + rest[..j] && b[j + 1..] == rest[j..];
  }

  lemma PlacedFirst<T>(b: seq<Packet<T>>, p: Packet<T>)
    requires b == [] || b[0].seqNo == p.seqNo || (b[0].seqNo as int - p.seqNo) % 65536 < 32768
    ensures Placed(b, p, if b != [] && b[0].seqNo == p.seqNo then b else [p] + b, 0)
  {
    assert b[..0] + [p] + b[0..] == [p] + b;
  }

  lemma {:induction false} InsertedIsPlaced<T>(b: seq<Packet<T>>, p: Packet<T>) returns (k: nat)
    ensures Placed(b, p, Inserted(b, p), k)
  {
    if b != [] && b[0].seqNo != p.seqNo && !NotAfter(p.seqNo, b[0].seqNo) {
      var j := InsertedIsPlaced(b[1..], p);
      PlacedLater(b, p, Inserted(b[1..], p), j);
      k := j + 1;
    } else {
      PlacedFirst(b, p);
      k := 0;
      assert b == [] ==> [p] + b == [p];
    }
  }

  class JitterBuffer<T> {
    var buffer: seq<Packet<T>>

    constructor ()
      ensures buffer == []
    {
      buffer := [];
    }

    method Push(p: Packet<T>)
      modifies this
      ensures buffer == Inserted(old(buffer), p)
    {
      for i := 0 to |buffer|
        invariant buffer == old(buffer)
        invariant Inserted(buffer, p) == buffer[..i] + Inserted(buffer[i..], p)
      {
        var cur := buffer[i].seqNo;
        if p.seqNo == cur {
          assert buffer[..i] + buffer[i..] == buffer;
          return;
        }
        if NotAfter(p.seqNo, cur) {
          buffer := buffer[..i] + [p] + buffer[i..];
          return;
        }
        assert buffer[i..][1..] == buffer[i + 1..];
      }
      buffer := buffer + [p];
    }

    method Pop() returns (r: Option<Packet<T>>)
      modifies this
      ensures r.Some? <==> |old(buffer)| >= 5
      ensures r.Some? ==> [r.value] + buffer == old(buffer)
      ensures r.None? ==> buffer == old(buffer)
    {
      if |buffer| >= TARGET_SIZE {
        r := Some(buffer[0]);
        buffer := buffer[1..];
      } else {
        r := None;
      }
    }
  }

  // ---------------------------------------------------------------- runs

  /** What has come out of the buffer, and what is still in it. */
  datatype Flow<T> = Flow(popped: seq<Packet<T>>, held: seq<Packet<T>>)

  /** One push, then one pop. */
  function Arrive<T>(f: Flow<T>, p: Packet<T>): Flow<T> {
    var b := Inserted(f.held, p);
    if |b| >= TARGET_SIZE then Flow(f.popped + [b[0]], b[1..]) else Flow(f.popped, b)
  }

  function Run<T>(ps: seq<Packet<T>>): Flow<T> {
    if ps == [] then Flow([], [])
    else Arrive(Run(ps[..|ps| - 1]), ps[|ps| - 1])
  }

  // ---------------------------------------------------------------- conservation

  predicate HasSeq<T>(b: seq<Packet<T>>, s: Seq16) {
    exists i :: 0 <= i < |b| && b[i].seqNo == s
  }

  /** The packets of a run that a push ignored. */
  function Dropped<T>(ps: seq<Packet<T>>): seq<Packet<T>> {
    if ps == [] then []
    else
      var last := |ps| - 1;
      var held := Run(ps[..last]).held;
      Dropped(ps[..last]) + (if |Inserted(held, ps[last])| == |held| then [ps[last]] else [])
  }

  lemma {:induction false} InsertedCounts<T>(b: seq<Packet<T>>, p: Packet<T>)
    ensures var r := Inserted(b, p);
      || (r == b && HasSeq(b, p.seqNo))
      || (|r| == |b| + 1 && multiset(r) == multiset(b) + multiset{p})
  {
    if b == [] {
      assert Inserted(b, p) == [p];
    } else {
      assert b == [b[0]] + b[1..];
      if b[0].seqNo == p.seqNo {
        assert b[0].seqNo == p.seqNo;
      } else if NotAfter(p.seqNo, b[0].seqNo) {
      } else {
        InsertedCounts(b[1..], p);
        if HasSeq(b[1..], p.seqNo) {
          var i :| 0 <= i < |b[1..]| && b[1..][i].seqNo == p.seqNo;
          assert b[i + 1].seqNo == p.seqNo;
        }
      }
    }
  }

  lemma ReleaseConserves<T>(popped: seq<Packet<T>>, b: seq<Packet<T>>)
    requires b != []
    ensures multiset(popped + [b[0]]) + multiset(b[1..]) == multiset(popped) + multiset(b)
  {
    assert b == [b[0]] + b[1..];
  }

  /** The packets a flow accounts for. */
  ghost function All<T>(f: Flow<T>): multiset<Packet<T>> {
    multiset(f.popped) + multiset(f.held)
  }

  lemma ArriveConserves<T>(f: Flow<T>, p: Packet<T>)
    ensures All(Arrive(f, p)) == All(f) + if |Inserted(f.held, p)| == |f.held| then multiset{} else multiset{p}
  {
    var b := Inserted(f.held, p);
    InsertedCounts(f.held, p);
    if |b| >= TARGET_SIZE {
      ReleaseConserves(f.popped, b);
    }
  }

  lemma DroppedStep<T>(ps: seq<Packet<T>>)
    requires ps != []
    ensures var last := |ps| - 1;
      var held := Run(ps[..last]).held;
      && multiset(ps) == multiset(ps[..last]) + multiset{ps[last]}
      && multiset(Dropped(ps)) == multiset(Dropped(ps[..last]))
           + if |Inserted(held, ps[last])| == |held| then multiset{ps[last]} else multiset{}
  {
    assert ps == ps[..|ps| - 1] + [ps[|ps| - 1]];
  }

  /** Over every run at all, what was pushed is what came out, what is held, and what was dropped. */
  lemma {:induction false} NothingIsLost<T>(ps: seq<Packet<T>>)
    ensures multiset(ps) == All(Run(ps)) + multiset(Dropped(ps))
  {
    if ps != [] {
      var last := |ps| - 1;
      var before, p := Run(ps[..last]), ps[last];
      NothingIsLost(ps[..last]);
      DroppedStep(ps);
      ArriveConserves(before, p);
      assert Run(ps) == Arrive(before, p);
    }
  }

  /** A push drops a packet only for one of the same number that is held. */
  lemma DroppedIsDuplicate<T>(f: Flow<T>, p: Packet<T>)
    requires |Inserted(f.held, p)| == |f.held|
    ensures Inserted(f.held, p) == f.held && HasSeq(f.held, p.seqNo)
  {
    InsertedCounts(f.held, p);
  }

  // ---------------------------------------------------------------- the payload does not matter

  function MapAll<T, U>(f: T -> U, b: seq<Packet<T>>): (r: seq<Packet<U>>)
    ensures |r| == |b|
    ensures forall i :: 0 <= i < |b| ==> r[i] == Packet(b[i].seqNo, f(b[i].payload))
  {
    if b == [] then [] else [Packet(b[0].seqNo, f(b[0].payload))] + MapAll(f, b[1..])
  }

  lemma {:induction false} InsertedMap<T, U>(f: T -> U, b: seq<Packet<T>>, p: Packet<T>)
    ensures MapAll(f, Inserted(b, p)) == Inserted(MapAll(f, b), Packet(p.seqNo, f(p.payload)))
  {
    if b == [] {
    } else if b[0].seqNo == p.seqNo || NotAfter(p.seqNo, b[0].seqNo) {
    } else {
      InsertedMap(f, b[1..], p);
      assert MapAll(f, b)[1..] == MapAll(f, b[1..]);
    }
  }

  lemma ArriveMap<T, U>(f: T -> U, a: Flow<T>, p: Packet<T>)
    ensures Arrive(Flow(MapAll(f, a.popped), MapAll(f, a.held)), Packet(p.seqNo, f(p.payload)))
         == Flow(MapAll(f, Arrive(a, p).popped), MapAll(f, Arrive(a, p).held))
  {
    InsertedMap(f, a.held, p);
    var b := Inserted(a.held, p);
    if |b| >= TARGET_SIZE {
      assert MapAll(f, a.popped + [b[0]]) == MapAll(f, a.popped) + [MapAll(f, b)[0]];
      assert MapAll(f, b)[1..] == MapAll(f, b[1..]);
    }
  }

  /** Relabelling the payloads before a run or after it makes no difference. */
  lemma {:induction false} RunMap<T, U>(f: T -> U, ps: seq<Packet<T>>)
    ensures Run(MapAll(f, ps)) == Flow(MapAll(f, Run(ps).popped), MapAll(f, Run(ps).held))
  {
    if ps != [] {
      var last := |ps| - 1;
      RunMap(f, ps[..last]);
      ArriveMap(f, Run(ps[..last]), ps[last]);
      assert MapAll(f, ps)[..last] == MapAll(f, ps[..last]);
    }
  }

  // ---------------------------------------------------------------- extended numbers

  /** Packets carrying their own unbounded sequence number as payload. */
  ghost predicate Numbered(b: seq<Packet<int>>) {
    forall i :: 0 <= i < |b| ==> b[i].seqNo == b[i].payload % 0x1_0000
  }

  function Exts(b: seq<Packet<int>>): (r: seq<int>)
    ensures |r| == |b| && forall i :: 0 <= i < |b| ==> r[i] == b[i].payload
  {
    if b == [] then [] else [b[0].payload] + Exts(b[1..])
  }

  ghost predicate Increasing(e: seq<int>) {
    forall i, j :: 0 <= i < j < |e| ==> e[i] < e[j]
  }

  /** Insertion into a strictly increasing sequence, on unbounded numbers. */
  function InsertedExt(e: seq<int>, x: int): seq<int> {
    if e == [] || x < e[0] then [x] + e
    else if e[0] == x then e
    else [e[0]] + InsertedExt(e[1..], x)
  }

  /** Half the number space around an arriving number, the range in which the comparison is right. */
  ghost predicate Close(c: int, x: int) {
    -0x8000 <= c - x < 0x8000
  }

  /** Within half the number space the 16-bit comparison is the order of the unbounded numbers. */
  lemma CompareIsOrder(c: int, x: int)
    requires Close(c, x)
    ensures NotAfter(x % 0x1_0000, c % 0x1_0000) <==> x <= c
    ensures x % 0x1_0000 == c % 0x1_0000 <==> x == c
  {
    var d := c - x;
    assert (c % 0x1_0000 - x % 0x1_0000) % 0x1_0000 == d % 0x1_0000;
    assert d % 0x1_0000 == if d >= 0 then d else d + 0x1_0000;
  }

  lemma HalfApart(x: int)
    ensures var c := (x + 0x8000) % 0x1_0000; c != x % 0x1_0000 && !NotAfter(x % 0x1_0000, c)
  {
    var r := x % 0x1_0000;
    assert (x + 0x8000) % 0x1_0000 == if r < 0x8000 then r + 0x8000 else r - 0x8000;
  }

  /** One step further the comparison is wrong: a packet exactly half the space behind goes last. */
  lemma HalfSpaceIsTight(x: int)
    ensures Exts(Inserted([Packet((x + 0x8000) % 0x1_0000, x + 0x8000)], Packet(x % 0x1_0000, x))) == [x + 0x8000, x]
  {
    var b := [Packet((x + 0x8000) % 0x1_0000, x + 0x8000)];
    var p := Packet(x % 0x1_0000, x);
    HalfApart(x);
    assert b[1..] == [];
    assert Inserted(b, p) == b + [p];
  }

  /** `push` is insertion into a set of unbounded numbers kept in order. */
  lemma {:induction false} PushRefines(b: seq<Packet<int>>, p: Packet<int>)
    requires Numbered(b) && Numbered([p])
    requires forall c <- Exts(b) :: Close(c, p.payload)
    ensures Numbered(Inserted(b, p))
    ensures Exts(Inserted(b, p)) == InsertedExt(Exts(b), p.payload)
  {
    assert [p][0] == p;
    var e := Exts(b);
    if b != [] {
      assert e[0] in e;
      CompareIsOrder(b[0].payload, p.payload);
      assert e[1..] == Exts(b[1..]);
      if e[0] < p.payload {
        forall c <- Exts(b[1..]) ensures Close(c, p.payload) {
          assert c in e;
        }
        PushRefines(b[1..], p);
      }
    }
  }

  lemma {:induction false} InsertedExtMembers(e: seq<int>, x: int)
    ensures forall y :: y in InsertedExt(e, x) <==> y in e || y == x
  {
    if e != [] && !(x < e[0]) && e[0] != x {
      InsertedExtMembers(e[1..], x);
      assert e == [e[0]] + e[1..];
    }
  }

  lemma IncreasingCons(a: int, t: seq<int>)
    requires Increasing(t) && forall y <- t :: a < y
    ensures Increasing([a] + t)
  {
    var r := [a] + t;
    forall i, j | 0 <= i < j < |r| ensures r[i] < r[j] {
      assert r[j] in t;
    }
  }

  /** Insertion keeps the sequence strictly increasing and adds exactly its number: the sequence
      changes unless the number was already there, which is when `push` drops the packet. */
  lemma {:induction false} InsertedExtIsSet(e: seq<int>, x: int)
    requires Increasing(e)
    ensures var r := InsertedExt(e, x);
      && Increasing(r) && (forall y :: y in r <==> y in e || y == x)
      && (if x in e then r == e else |r| == |e| + 1)
  {
    InsertedExtMembers(e, x);
    if e == [] || x < e[0] {
      IncreasingCons(x, e);
    } else if e[0] < x {
      InsertedExtIsSet(e[1..], x);
      InsertedExtMembers(e[1..], x);
      IncreasingCons(e[0], InsertedExt(e[1..], x));
      assert e == [e[0]] + e[1..];
    }
  }

  // ---------------------------------------------------------------- bounded overtaking

  ghost predicate Distinct(xs: seq<int>) {
    forall i, j :: 0 <= i < j < |xs| ==> xs[i] != xs[j]
  }

  function ToSet(s: seq<int>): set<int> {
    set y | y in s
  }

  function Above(s: seq<int>, x: int): set<int> {
    set y | y in s && y > x
  }

  /** Packet `k` comes too late: it is new and has been overtaken by more than four later-numbered ones,
      or it is a repetition overtaken by more than three, so that the first one is already out. */
  ghost predicate Late(xs: seq<int>, k: nat)
    requires k < |xs|
  {
    |Above(xs[..k], xs[k])| >= if xs[k] in xs[..k] then TARGET_SIZE - 1 else TARGET_SIZE
  }

  /** No packet comes too late: new ones are overtaken by at most four, repetitions by at most three. */
  ghost predicate BoundedOvertaking(xs: seq<int>) {
    forall i :: 0 <= i < |xs| ==> !Late(xs, i)
  }

  /** Each arriving number is within half the number space of the four highest seen before it. */
  ghost predicate Windowed(xs: seq<int>) {
    forall i, j :: 0 <= j < i < |xs| && |Above(xs[..i], xs[j])| < TARGET_SIZE - 1 ==> Close(xs[j], xs[i])
  }

  /** The flow in terms of unbounded numbers, kept in true order. */
  datatype Order = Order(popped: seq<int>, held: seq<int>)

  function ArriveExt(o: Order, x: int): Order {
    var r := InsertedExt(o.held, x);
    if |r| >= TARGET_SIZE then Order(o.popped + [r[0]], r[1..]) else Order(o.popped, r)
  }

  /** All of `xs` is in order: first what came out, then what is held, which is the last four. */
  ghost predicate Settled(o: Order, xs: seq<int>) {
    && Increasing(o.popped + o.held)
    && ToSet(o.popped + o.held) == ToSet(xs)
    && |o.held| == (if |ToSet(xs)| < TARGET_SIZE then |ToSet(xs)| else TARGET_SIZE - 1)
    && |o.popped| + |o.held| == |ToSet(xs)|
  }

  function OrderOf(f: Flow<int>): Order {
    Order(Exts(f.popped), Exts(f.held))
  }

  lemma {:induction false} SizeOfIncreasing(e: seq<int>)
    requires Increasing(e)
    ensures |ToSet(e)| == |e|
  {
    if e == [] {
      assert ToSet(e) == {};
    } else {
      SizeOfIncreasing(e[1..]);
      assert e == [e[0]] + e[1..];
      assert ToSet(e) == {e[0]} + ToSet(e[1..]);
    }
  }

  lemma SubsetSize(a: set<int>, b: set<int>)
    requires a <= b
    ensures |a| <= |b|
  {
    assert b == a + (b - a);
  }

  lemma AboveSameElements(s: seq<int>, t: seq<int>, x: int)
    requires ToSet(s) == ToSet(t)
    ensures Above(s, x) == Above(t, x)
    ensures x in s <==> x in t
  {
    assert forall y :: y in s <==> y in ToSet(s);
    assert forall y :: y in t <==> y in ToSet(t);
  }

  lemma IncreasingParts(p: seq<int>, h: seq<int>)
    requires Increasing(p + h)
    ensures Increasing(p) && Increasing(h)
    ensures forall y <- p, z <- h :: y < z
  {
    var all := p + h;
    assert forall i :: 0 <= i < |p| ==> p[i] == all[i];
    assert forall i :: 0 <= i < |h| ==> h[i] == all[|p| + i];
    forall y <- p, z <- h ensures y < z {
      var i :| 0 <= i < |p| && p[i] == y;
      var j :| 0 <= j < |h| && h[j] == z;
      assert all[i] < all[|p| + j];
    }
  }

  lemma IncreasingJoin(p: seq<int>, r: seq<int>)
    requires Increasing(p) && Increasing(r)
    requires forall y <- p, z <- r :: y < z
    ensures Increasing(p + r)
  {
    var all := p + r;
    forall i, j | 0 <= i < j < |all| ensures all[i] < all[j] {
      if i < |p| <= j {
        assert p[i] in p && r[j - |p|] in r;
      }
    }
  }

  /** The last |h| numbers of an increasing sequence have fewer than |h| above them. */
  lemma TailHasFewAbove(p: seq<int>, h: seq<int>, c: int)
    requires Increasing(p + h) && c in h
    ensures |Above(p + h, c)| < |h|
  {
    IncreasingParts(p, h);
    SizeOfIncreasing(h);
    forall y | y in Above(p + h, c) ensures y in ToSet(h) - {c} {
      assert y in p || y in h;
    }
    SubsetSize(Above(p + h, c), ToSet(h) - {c});
    assert |ToSet(h) - {c}| == |ToSet(h)| - 1;
  }

  /** A number is above all of `p` exactly when no more than |h| numbers are above it. */
  lemma FewAboveMeansBehind(p: seq<int>, h: seq<int>, x: int)
    requires Increasing(p + h) && x !in p + h
    ensures (forall y <- p :: y < x) <==> |Above(p + h, x)| <= |h|
    ensures !(forall y <- p :: y < x) ==> forall z <- h :: x < z
  {
    IncreasingParts(p, h);
    SizeOfIncreasing(h);
    if forall y <- p :: y < x {
      forall y | y in Above(p + h, x) ensures y in ToSet(h) {
        assert y in p || y in h;
      }
      SubsetSize(Above(p + h, x), ToSet(h));
    } else {
      var y :| y in p && !(y < x);
      assert y in p + h;
      assert y !in h;
      forall z | z in ToSet(h) + {y} ensures z in Above(p + h, x) {
        assert z in p + h;
      }
      SubsetSize(ToSet(h) + {y}, Above(p + h, x));
      assert |ToSet(h) + {y}| == |h| + 1;
    }
  }

  // ---------------------------------------------------------------- arrivals, on the numbers

  lemma JoinAround(p: seq<int>, h: seq<int>, r: seq<int>, x: int)
    requires Increasing(p + h) && Increasing(r)
    requires forall y <- p :: y < x
    requires ToSet(r) == ToSet(h) + {x}
    ensures Increasing(p + r)
    ensures ToSet(p + r) == ToSet(p + h) + {x}
  {
    IncreasingParts(p, h);
    forall y <- p, z <- r ensures y < z {
      assert z in ToSet(r);
    }
    IncreasingJoin(p, r);
    ToSetJoin(p, h);
    ToSetJoin(p, r);
  }

  lemma ToSetJoin(a: seq<int>, b: seq<int>)
    ensures ToSet(a + b) == ToSet(a) + ToSet(b)
  {}

  lemma InsertIntoHeld(o: Order, xs: seq<int>, x: int)
    requires Settled(o, xs) && x !in xs
    ensures x !in o.popped + o.held
    ensures var r := InsertedExt(o.held, x);
      Increasing(r) && |r| == |o.held| + 1 && ToSet(r) == ToSet(o.held) + {x}
  {
    AboveSameElements(o.popped + o.held, xs, x);
    IncreasingParts(o.popped, o.held);
    InsertedExtIsSet(o.held, x);
    assert forall y <- o.held :: y in o.popped + o.held;
  }

  lemma ArriveSplits(o: Order, x: int)
    ensures var n := ArriveExt(o, x);
      n.popped + n.held == o.popped + InsertedExt(o.held, x)
  {
    var r := InsertedExt(o.held, x);
    if |r| >= TARGET_SIZE {
      assert r == [r[0]] + r[1..];
    }
  }

  /** Whether an arrival goes behind everything that is out. */
  lemma BehindWhenFewAbove(o: Order, xs: seq<int>, x: int)
    requires Settled(o, xs) && x !in xs
    ensures (forall y <- o.popped :: y < x) <==> |Above(xs, x)| < TARGET_SIZE
    ensures |Above(xs, x)| >= TARGET_SIZE ==> |o.held| == TARGET_SIZE - 1 && forall z <- o.held :: x < z
  {
    AboveSameElements(o.popped + o.held, xs, x);
    FewAboveMeansBehind(o.popped, o.held, x);
    SubsetSize(Above(xs, x), ToSet(xs));
  }

  /** An arrival overtaken by at most four keeps everything in order. */
  lemma OrderlyArrival(o: Order, xs: seq<int>, x: int)
    requires Settled(o, xs) && x !in xs
    requires |Above(xs, x)| < TARGET_SIZE
    ensures Settled(ArriveExt(o, x), xs + [x])
  {
    InsertIntoHeld(o, xs, x);
    BehindWhenFewAbove(o, xs, x);
    JoinAround(o.popped, o.held, InsertedExt(o.held, x), x);
    ArriveSplits(o, x);
    OneMore(xs, x);
  }

  lemma OneMore(xs: seq<int>, x: int)
    requires x !in xs
    ensures ToSet(xs + [x]) == ToSet(xs) + {x} && |ToSet(xs + [x])| == |ToSet(xs)| + 1
  {
    assert ToSet(xs + [x]) == ToSet(xs) + {x};
  }

  /** A repetition overtaken by at most three finds its number still held, and changes nothing. */
  lemma HarmlessRepetition(o: Order, xs: seq<int>, x: int)
    requires Settled(o, xs) && x in xs
    requires |Above(xs, x)| < TARGET_SIZE - 1
    ensures ArriveExt(o, x) == o && Settled(o, xs + [x])
  {
    AboveSameElements(o.popped + o.held, xs, x);
    IncreasingParts(o.popped, o.held);
    if x !in o.held {
      HeldAreAbove(o, xs, x);
    }
    InsertedExtIsSet(o.held, x);
    assert ToSet(xs + [x]) == ToSet(xs);
  }

  /** A number that is out has all held ones above it, and then these are four. */
  lemma HeldAreAbove(o: Order, xs: seq<int>, x: int)
    requires Settled(o, xs) && x in xs && x !in o.held
    ensures x in o.popped && |o.held| == TARGET_SIZE - 1 && (forall z <- o.held :: x < z)
    ensures |Above(xs, x)| >= TARGET_SIZE - 1
  {
    AboveSameElements(o.popped + o.held, xs, x);
    IncreasingParts(o.popped, o.held);
    SizeOfIncreasing(o.held);
    forall z | z in ToSet(o.held) ensures z in Above(xs, x) {
      assert z in o.popped + o.held && z in ToSet(o.popped + o.held);
    }
    SubsetSize(ToSet(o.held), Above(xs, x));
  }

  /** A later repetition comes out at once, behind the first packet of its number. */
  lemma LateRepetition(o: Order, xs: seq<int>, x: int)
    requires Settled(o, xs) && x in xs
    requires |Above(xs, x)| >= TARGET_SIZE - 1
    ensures x in o.popped && ArriveExt(o, x).popped == o.popped + [x]
    ensures !Increasing(ArriveExt(o, x).popped)
  {
    AboveSameElements(o.popped + o.held, xs, x);
    if x in o.held {
      TailHasFewAbove(o.popped, o.held, x);
    }
    HeldAreAbove(o, xs, x);
    assert o.held[0] in o.held;
    NotIncreasing(o.popped, x, x);
  }

  lemma NotIncreasing(p: seq<int>, x: int, y: int)
    requires y in p && y >= x
    ensures !Increasing(p + [x])
  {
    var i :| 0 <= i < |p| && p[i] == y;
    var out := p + [x];
    assert out[i] == y && out[|p|] == x;
  }

  /** An arrival overtaken by more comes out at once, behind a higher number. */
  lemma LateArrival(o: Order, xs: seq<int>, x: int)
    requires Settled(o, xs) && x !in xs
    requires |Above(xs, x)| >= TARGET_SIZE
    ensures !Increasing(ArriveExt(o, x).popped)
  {
    InsertIntoHeld(o, xs, x);
    BehindWhenFewAbove(o, xs, x);
    var y :| y in o.popped && y >= x;
    assert y in o.popped + o.held;
    assert o.held[0] in o.held;
    NotIncreasing(o.popped, x, y);
  }

  // ---------------------------------------------------------------- arrivals, on the packets

  /** The held numbers of an orderly flow are its four highest, so the window covers them all. */
  lemma HeldAreClose(o: Order, xs: seq<int>, x: int)
    requires Settled(o, xs)
    requires forall c <- xs :: |Above(xs, c)| < TARGET_SIZE - 1 ==> Close(c, x)
    ensures forall c <- o.held :: Close(c, x)
  {
    forall c <- o.held ensures Close(c, x) {
      TailHasFewAbove(o.popped, o.held, c);
      AboveSameElements(o.popped + o.held, xs, c);
      assert c in o.popped + o.held;
    }
  }

  lemma ExtsSnoc(ps: seq<Packet<int>>, q: Packet<int>)
    ensures Exts(ps + [q]) == Exts(ps) + [q.payload]
  {}

  /** One push and one pop on 16-bit numbers do what they would do on the unbounded ones. */
  lemma ArriveRefines(f: Flow<int>, q: Packet<int>)
    requires Numbered(f.held) && Numbered([q])
    requires forall c <- Exts(f.held) :: Close(c, q.payload)
    ensures Numbered(Arrive(f, q).held)
    ensures OrderOf(Arrive(f, q)) == ArriveExt(OrderOf(f), q.payload)
  {
    PushRefines(f.held, q);
    var b := Inserted(f.held, q);
    if |b| >= TARGET_SIZE {
      ExtsSnoc(f.popped, b[0]);
      assert Exts(b[1..]) == Exts(b)[1..];
    }
  }

  lemma RunSnoc(ps: seq<Packet<int>>, k: nat)
    requires k < |ps|
    ensures Run(ps[..k + 1]) == Arrive(Run(ps[..k]), ps[k])
  {
    assert ps[..k + 1][..k] == ps[..k];
  }

  // ---------------------------------------------------------------- the sorting theorem

  /** A stream the theorem speaks about: numbered packets within the window, repetitions included. */
  ghost predicate Stream(ps: seq<Packet<int>>) {
    Numbered(ps) && Windowed(Exts(ps))
  }

  /** After `k` packets of a stream everything is in order. */
  ghost predicate InOrder(ps: seq<Packet<int>>, k: nat)
    requires k <= |ps|
  {
    Numbered(Run(ps[..k]).held) && Settled(OrderOf(Run(ps[..k])), Exts(ps)[..k])
  }

  /** The next packet of a stream, seen against the packets before it. */
  lemma NextOfStream(xs: seq<int>, k: nat)
    requires Windowed(xs) && k < |xs|
    ensures forall c <- xs[..k] :: |Above(xs[..k], c)| < TARGET_SIZE - 1 ==> Close(c, xs[k])
  {}

  lemma NextArrival(ps: seq<Packet<int>>, k: nat)
    requires Stream(ps) && k < |ps| && InOrder(ps, k)
    ensures Numbered(Run(ps[..k + 1]).held)
    ensures OrderOf(Run(ps[..k + 1])) == ArriveExt(OrderOf(Run(ps[..k])), Exts(ps)[k])
  {
    var xs := Exts(ps);
    NextOfStream(xs, k);
    HeldAreClose(OrderOf(Run(ps[..k])), xs[..k], xs[k]);
    RunSnoc(ps, k);
    assert [ps[k]][0] == ps[k];
    ArriveRefines(Run(ps[..k]), ps[k]);
  }

  lemma OrderlyNext(xs: seq<int>, k: nat, o: Order)
    requires k < |xs| && Settled(o, xs[..k])
    requires !Late(xs, k)
    ensures Settled(ArriveExt(o, xs[k]), xs[..k + 1])
  {
    if xs[k] in xs[..k] {
      HarmlessRepetition(o, xs[..k], xs[k]);
    } else {
      OrderlyArrival(o, xs[..k], xs[k]);
    }
    assert xs[..k] + [xs[k]] == xs[..k + 1];
  }

  lemma OrderlyStep(ps: seq<Packet<int>>, k: nat)
    requires Stream(ps) && k < |ps| && InOrder(ps, k)
    requires !Late(Exts(ps), k)
    ensures InOrder(ps, k + 1)
  {
    NextArrival(ps, k);
    OrderlyNext(Exts(ps), k, OrderOf(Run(ps[..k])));
  }

  /** As long as no packet comes too late, the run stays in order. */
  lemma {:induction false} BoundedRunInOrder(ps: seq<Packet<int>>, k: nat)
    requires Stream(ps) && k <= |ps|
    requires forall i :: 0 <= i < k ==> !Late(Exts(ps), i)
    ensures InOrder(ps, k)
  {
    if k == 0 {
      assert ps[..0] == [] && Exts(ps)[..0] == [];
    } else {
      BoundedRunInOrder(ps, k - 1);
      OrderlyStep(ps, k - 1);
    }
  }

  lemma {:induction false} PoppedGrows<T>(ps: seq<Packet<T>>, k: nat)
    requires k <= |ps|
    ensures Run(ps[..k]).popped <= Run(ps).popped
  {
    if k == |ps| {
      assert ps[..k] == ps;
    } else {
      PoppedGrows(ps[..|ps| - 1], k);
      assert ps[..|ps| - 1][..k] == ps[..k];
    }
  }

  lemma PrefixIncreasing(a: seq<Packet<int>>, b: seq<Packet<int>>)
    requires a <= b && Increasing(Exts(b))
    ensures Increasing(Exts(a))
  {
    assert forall i :: 0 <= i < |a| ==> Exts(a)[i] == Exts(b)[i];
  }

  lemma LateStep(ps: seq<Packet<int>>, k: nat)
    requires Stream(ps) && k < |ps| && InOrder(ps, k)
    requires Late(Exts(ps), k)
    ensures !Increasing(Exts(Run(ps[..k + 1]).popped))
  {
    var xs := Exts(ps);
    var o := OrderOf(Run(ps[..k]));
    NextArrival(ps, k);
    if xs[k] in xs[..k] {
      LateRepetition(o, xs[..k], xs[k]);
    } else {
      LateArrival(o, xs[..k], xs[k]);
    }
  }

  /** Disorder once out stays out. */
  lemma LateRun(ps: seq<Packet<int>>, k: nat)
    requires k <= |ps| && !Increasing(Exts(Run(ps[..k]).popped))
    ensures !Increasing(Exts(Run(ps).popped))
  {
    PoppedGrows(ps, k);
    if Increasing(Exts(Run(ps).popped)) {
      PrefixIncreasing(Run(ps[..k]).popped, Run(ps).popped);
    }
  }

  /** The first packet that comes too late, or |xs|. */
  lemma {:induction false} FirstLate(xs: seq<int>, n: nat) returns (k: nat)
    requires n <= |xs|
    ensures k <= n && forall i :: 0 <= i < k ==> !Late(xs, i)
    ensures k < n ==> Late(xs, k)
  {
    if n == 0 {
      k := 0;
    } else {
      k := FirstLate(xs, n - 1);
      if k == n - 1 && !Late(xs, k) {
        k := n;
      }
    }
  }

  lemma SortsWhenBounded(ps: seq<Packet<int>>)
    requires Stream(ps) && BoundedOvertaking(Exts(ps))
    ensures Settled(OrderOf(Run(ps)), Exts(ps))
  {
    BoundedRunInOrder(ps, |ps|);
    assert ps[..|ps|] == ps && Exts(ps)[..|ps|] == Exts(ps);
  }

  /** The buffer sorts: what comes out of a stream is strictly increasing in the unbounded numbers,
      over any number of wraps, exactly when no new packet is overtaken by more than four later-numbered
      ones and no repetition by more than three. */
  lemma SortsExactly(ps: seq<Packet<int>>)
    requires Stream(ps)
    ensures Increasing(Exts(Run(ps).popped)) <==> BoundedOvertaking(Exts(ps))
  {
    var k := FirstLate(Exts(ps), |ps|);
    if k < |ps| {
      assert !BoundedOvertaking(Exts(ps));
      BoundedRunInOrder(ps, k);
      LateStep(ps, k);
      LateRun(ps, k + 1);
    } else {
      SortsWhenBounded(ps);
      IncreasingParts(Exts(Run(ps).popped), Exts(Run(ps).held));
    }
  }

  /** The first packet to come too late, if it is a repetition: it has been played out, and is played out
      once more at once. */
  lemma LateIsPlayedAgain(ps: seq<Packet<int>>, k: nat)
    requires Stream(ps) && k < |ps| && (forall i :: 0 <= i < k ==> !Late(Exts(ps), i))
    requires Late(Exts(ps), k) && Exts(ps)[k] in Exts(ps)[..k]
    ensures var x := Exts(ps)[k]; var before := Exts(Run(ps[..k]).popped);
      x in before && Exts(Run(ps[..k + 1]).popped) == before + [x]
  {
    BoundedRunInOrder(ps, k);
    NextArrival(ps, k);
    LateRepetition(OrderOf(Run(ps[..k])), Exts(ps)[..k], Exts(ps)[k]);
  }

  /** Packets that arrive in order, without a wrap. */
  ghost predicate InSequence<T>(ps: seq<Packet<T>>) {
    forall i, j :: 0 <= i < j < |ps| ==> ps[i].seqNo < ps[j].seqNo < 0x8000
  }

  lemma {:induction false} InsertedLast<T>(b: seq<Packet<T>>, p: Packet<T>)
    requires forall i :: 0 <= i < |b| ==> b[i].seqNo < p.seqNo < 0x8000
    ensures Inserted(b, p) == b + [p]
  {
    if b != [] {
      var rest := b[1..];
      forall i | 0 <= i < |rest| ensures rest[i].seqNo < p.seqNo < 0x8000 {
        assert rest[i] == b[i + 1];
      }
      InsertedLast(rest, p);
      assert b == [b[0]] + rest;
    }
  }

  lemma AllButLast<T>(ps: seq<Packet<T>>)
    requires ps != [] && InSequence(ps)
    ensures var b, p := ps[..|ps| - 1], ps[|ps| - 1];
      && InSequence(b) && b + [p] == ps
      && forall i :: 0 <= i < |b| ==> b[i].seqNo < p.seqNo < 0x8000
  {
    var b := ps[..|ps| - 1];
    forall i, j | 0 <= i < j < |b| ensures b[i].seqNo < b[j].seqNo < 0x8000 {
      assert b[i] == ps[i] && b[j] == ps[j];
    }
    forall i | 0 <= i < |b| ensures b[i].seqNo < ps[|ps| - 1].seqNo < 0x8000 {
      assert b[i] == ps[i];
    }
  }

  /** They fill the buffer first. */
  lemma {:induction false} FillsUp<T>(ps: seq<Packet<T>>)
    requires |ps| < TARGET_SIZE && InSequence(ps)
    ensures Run(ps) == Flow([], ps)
  {
    if ps != [] {
      var b, p := ps[..|ps| - 1], ps[|ps| - 1];
      AllButLast(ps);
      FillsUp(b);
      InsertedLast(b, p);
    }
  }

  lemma FifthArrives<T>(ps: seq<Packet<T>>)
    requires |ps| == TARGET_SIZE && InSequence(ps)
    ensures Run(ps) == Flow(ps[..1], ps[1..])
  {
    var four := ps[..|ps| - 1];
    AllButLast(ps);
    FillsUp(four);
    InsertedLast(four, ps[|ps| - 1]);
    assert [] + [ps[0]] == ps[..1];
  }

  lemma GoesFirst<T>(first: Packet<T>, rest: seq<Packet<T>>, out: seq<Packet<T>>)
    requires |rest| == TARGET_SIZE - 1 && first.seqNo < rest[0].seqNo < 0x8000
    ensures Arrive(Flow(out, rest), first) == Flow(out + [first], rest)
  {
    assert Inserted(rest, first) == [first] + rest;
    assert ([first] + rest)[1..] == rest;
  }

  /** Five packets in order, and the first one once more. */
  lemma FirstComesAgain<T>(ps: seq<Packet<T>>)
    requires |ps| == TARGET_SIZE && InSequence(ps)
    ensures Run(ps + [ps[0]]) == Flow([ps[0], ps[0]], ps[1..])
  {
    FifthArrives(ps);
    GoesFirst(ps[0], ps[1..], ps[..1]);
    assert (ps + [ps[0]])[..|ps|] == ps;
    assert ps[..1] + [ps[0]] == [ps[0], ps[0]];
  }

  lemma NarrowIsWindowed(xs: seq<int>)
    requires forall i :: 0 <= i < |xs| ==> 0 <= xs[i] < 0x8000
    ensures Windowed(xs)
  {}

  /** The numbers 1, 2, 3, 4, 5, 1. */
  ghost predicate OneAgain(xs: seq<int>) {
    |xs| == 6 && xs[5] == 1 && forall i :: 0 <= i < 5 ==> xs[i] == i + 1
  }

  lemma OneIsTooLate(xs: seq<int>)
    requires OneAgain(xs)
    ensures !BoundedOvertaking(xs)
  {
    var five := xs[..5];
    assert five[0] == 1 && five[1] == 2 && five[2] == 3 && five[3] == 4 && five[4] == 5;
    assert Above(five, 1) == {2, 3, 4, 5};
    assert Late(xs, 5);
  }

  lemma RunOfFiveAndFirst<T>(ps: seq<Packet<T>>)
    requires |ps| == 6 && InSequence(ps[..5]) && ps[5] == ps[0]
    ensures Run(ps) == Flow([ps[0], ps[0]], ps[1..5])
  {
    var five := ps[..5];
    FirstComesAgain(five);
    assert five + [five[0]] == ps;
    assert five[1..] == ps[1..5];
  }

  lemma FiveInSequence(xs: seq<int>, ps: seq<Packet<int>>)
    requires OneAgain(xs) && |ps| == 6 && forall i :: 0 <= i < 6 ==> ps[i] == Packet(xs[i], xs[i])
    ensures InSequence(ps[..5]) && ps[5] == ps[0]
  {
    var five := ps[..5];
    forall i, j | 0 <= i < j < 5 ensures five[i].seqNo < five[j].seqNo < 0x8000 {
      assert five[i] == Packet(i + 1, i + 1) && five[j] == Packet(j + 1, j + 1);
    }
  }

  /** Such a stream: 1 comes again behind 5, well within the window, and has been played out by then. */
  lemma PlayedAgain(xs: seq<int>, ps: seq<Packet<int>>)
    requires OneAgain(xs) && |ps| == 6 && forall i :: 0 <= i < 6 ==> ps[i] == Packet(xs[i], xs[i])
    ensures Windowed(xs) && !BoundedOvertaking(xs)
    ensures Run(ps) == Flow([ps[0], ps[0]], ps[1..5])
  {
    NarrowIsWindowed(xs);
    OneIsTooLate(xs);
    FiveInSequence(xs, ps);
    RunOfFiveAndFirst(ps);
  }

  lemma {:induction false} DistinctSize(xs: seq<int>)
    requires Distinct(xs)
    ensures |ToSet(xs)| == |xs|
  {
    if xs != [] {
      DistinctSize(xs[1..]);
      assert xs == [xs[0]] + xs[1..];
      assert ToSet(xs) == {xs[0]} + ToSet(xs[1..]);
    }
  }

  /** Then what is out and what is held is the whole stream in order, each number once, and after N
      different packets exactly max(0, N - 4) have come out. */
  lemma SortedStream(ps: seq<Packet<int>>)
    requires Stream(ps) && BoundedOvertaking(Exts(ps))
    ensures Settled(OrderOf(Run(ps)), Exts(ps))
    ensures var n := |ToSet(Exts(ps))|; |Run(ps).popped| == if n < TARGET_SIZE then 0 else n - (TARGET_SIZE - 1)
    ensures Distinct(Exts(ps)) ==> |ToSet(Exts(ps))| == |ps|
  {
    SortsWhenBounded(ps);
    if Distinct(Exts(ps)) {
      DistinctSize(Exts(ps));
    }
  }

  // ---------------------------------------------------------------- any payload

  /** The packets with their unbounded numbers beside the payload. */
  function Label<T>(ps: seq<Packet<T>>, xs: seq<int>): (r: seq<Packet<(T, int)>>)
    requires |ps| == |xs|
    ensures |r| == |ps| && forall i :: 0 <= i < |ps| ==> r[i] == Packet(ps[i].seqNo, (ps[i].payload, xs[i]))
  {
    if ps == [] then [] else [Packet(ps[0].seqNo, (ps[0].payload, xs[0]))] + Label(ps[1..], xs[1..])
  }

  /** The theorem for packets of any content: labelling changes nothing about the run, and the labels
      that come out increase exactly when overtaking is bounded. */
  lemma StreamOfAnything<T>(ps: seq<Packet<T>>, xs: seq<int>)
    requires |ps| == |xs| && forall i :: 0 <= i < |ps| ==> ps[i].seqNo == xs[i] % 0x1_0000
    requires Windowed(xs)
    ensures var out := Run(Label(ps, xs)).popped;
      && Run(ps).popped == MapAll((l: (T, int)) => l.0, out)
      && (Increasing(Exts(MapAll((l: (T, int)) => l.1, out))) <==> BoundedOvertaking(xs))
  {
    var ls := Label(ps, xs);
    var numbers, contents := (l: (T, int)) => l.1, (l: (T, int)) => l.0;
    RunMap(contents, ls);
    assert MapAll(contents, ls) == ps;
    RunMap(numbers, ls);
    var ns := MapAll(numbers, ls);
    assert Exts(ns) == xs;
    SortsExactly(ns);
  }
}
