/** RTP port allocation: the range is cut among workers, each hands out its even ports, and the server
    asks the workers in turn. */
module RtpPorts {
  import opened Arith

  // ---------------------------------------------------------------- one worker

  /** How opening the socket of a port turns out. */
  datatype Outcome = NoSocket | BindFailed | EpollFailed | Opened

  /** The operating system during one allocation. */
  type Sockets = int -> Outcome

  /** A worker's port range and the keys of its `activeSockets_`. */
  datatype Worker = Worker(start: int, end: int, active: set<int>)

  datatype Scan = Scan(port: int, active: set<int>)

  /** The linear search from `p` on, in steps of two. A failing epoll registration leaves its entry. */
  function ScanFrom(p: int, end: int, active: set<int>, os: Sockets): Scan
    decreases end - p
  {
    if p > end then Scan(-1, active)
    else if p in active then ScanFrom(p + 2, end, active, os)
    else match os(p)
      case Opened => Scan(p, active + {p})
      case EpollFailed => ScanFrom(p + 2, end, active + {p}, os)
      case NoSocket => ScanFrom(p + 2, end, active, os)
      case BindFailed => ScanFrom(p + 2, end, active, os)
  }

  /** A port the search considers: in range, of the parity of the start. */
  predicate Candidate(p: int, start: int, end: int) {
    start <= p <= end && (p - start) % 2 == 0
  }

  /** The search skipped `p`: it was active, or its socket did not work. */
  ghost predicate Skipped(p: int, active: set<int>, os: Sockets) {
    p in active || os(p) != Opened
  }

  lemma {:induction false} ScanFinds(p: int, end: int, active: set<int>, os: Sockets)
    requires p >= 0
    ensures var r := ScanFrom(p, end, active, os);
      && (r.port == -1 || (Candidate(r.port, p, end) && !Skipped(r.port, active, os)))
      && (forall q :: Candidate(q, p, end) && (r.port == -1 || q < r.port) ==> Skipped(q, active, os))
      && (forall q :: q in r.active <==>
            || q in active
            || (r.port != -1 && q == r.port)
            || (Candidate(q, p, end) && (r.port == -1 || q < r.port) && os(q) == EpollFailed))
    decreases end - p
  {
    if p <= end && Skipped(p, active, os) {
      var next := if p !in active && os(p) == EpollFailed then active + {p} else active;
      ScanFinds(p + 2, end, next, os);
      forall q | Candidate(q, p, end) && q != p ensures Candidate(q, p + 2, end) {
      }
    }
  }

  class RtpWorker {
    const startPort: int
    const endPort: int
    var activeSockets: set<int>

    ghost function View(): Worker
      reads this
    {
      Worker(startPort, endPort, activeSockets)
    }

    constructor (startPort: int, endPort: int)
      ensures View() == Worker(startPort, endPort, {})
    {
      this.startPort, this.endPort := startPort, endPort;
      activeSockets := {};
    }

    /** `RtpWorker::allocatePort`. */
    method AllocatePort(os: Sockets) returns (port: int)
      modifies this
      ensures Scan(port, activeSockets) == ScanFrom(startPort, endPort, old(activeSockets), os)
    {
      var p := startPort;
      while p <= endPort
        invariant ScanFrom(p, endPort, activeSockets, os) == ScanFrom(startPort, endPort, old(activeSockets), os)
        decreases endPort - p
      {
        if p !in activeSockets {
          match os(p) {
            case Opened =>
              activeSockets := activeSockets + {p};
              return p;
            case EpollFailed =>
              activeSockets := activeSockets + {p};
            case NoSocket =>
            case BindFailed =>
          }
        }
        p := p + 2;
      }
      port := -1;
    }

    /** `RtpWorker::releasePort`. */
    method ReleasePort(port: int)
      modifies this
      ensures activeSockets == old(activeSockets) - {port}
    {
      if port in activeSockets {
        activeSockets := activeSockets - {port};
      }
    }
  }

  // ---------------------------------------------------------------- the partition

  /** C++ integer division. */
  function Trunc(a: int, b: int): int
    requires b > 0
  {
    if a >= 0 then a / b else -((-a) / b)
  }

  /** The range of worker `i` of `n`. */
  function RangeOf(start: int, end: int, n: nat, i: nat): (int, int)
    requires i < n
  {
    var per := Trunc(end - start + 1, n);
    var low := start + i * per;
    (if low % 2 != 0 then low + 1 else low, if i == n - 1 then end else low + per - 1)
  }

  function FreshWorkers(start: int, end: int, n: nat, k: nat): (ws: seq<Worker>)
    requires k <= n
    ensures |ws| == k
    ensures forall i :: 0 <= i < k ==> ws[i] == Worker(RangeOf(start, end, n, i).0, RangeOf(start, end, n, i).1, {})
  {
    if k == 0 then []
    else
      var range := RangeOf(start, end, n, k - 1);
      FreshWorkers(start, end, n, k - 1) + [Worker(range.0, range.1, {})]
  }

  predicate InRange(p: int, w: Worker) {
    w.start <= p <= w.end
  }

  lemma Slices(range: nat, n: nat, i: nat)
    requires i < n
    ensures var per := range / n;
      && i * per <= (i + 1) * per <= range
      && (i + 1) * per == i * per + per
  {
    var per := range / n;
    assert range == per * n + range % n;
    MulAtMost(i + 1, n, per);
  }

  /** Where a worker's slice starts before the even alignment, and where the next one does. */
  lemma SliceBounds(start: int, end: int, n: nat, i: nat)
    requires i < n
    ensures var per := Trunc(end - start + 1, n);
      && start + (i + 1) * per == start + i * per + per
      && (end >= start ==> 0 <= per && start <= start + i * per && start + (i + 1) * per <= end + 1)
      && (end < start ==> per <= 0 && start + i * per >= end + 1)
  {
    var range := end - start + 1;
    if range >= 0 {
      Slices(range, n, i);
      MulAtMost(0, i, range / n);
    } else {
      var down := (-range) / n;
      Slices(-range, n, i);
      assert i * -down == -(i * down) && (i + 1) * -down == -((i + 1) * down);
    }
  }

  lemma SlicesInOrder(start: int, end: int, n: nat, i: nat, j: nat)
    requires i < j < n && end >= start
    ensures var per := Trunc(end - start + 1, n);
      start + (i + 1) * per <= start + j * per
  {
    SliceBounds(start, end, n, i);
    MulAtMost(i + 1, j, Trunc(end - start + 1, n));
  }

  /** Two workers never share a port, for any range and any number of workers. */
  lemma RangesDisjoint(start: int, end: int, n: nat, i: nat, j: nat, p: int)
    requires i < j < n
    ensures var ri, rj := RangeOf(start, end, n, i), RangeOf(start, end, n, j);
      !(ri.0 <= p <= ri.1 && rj.0 <= p <= rj.1)
  {
    SliceBounds(start, end, n, i);
    SliceBounds(start, end, n, j);
    if end >= start {
      SlicesInOrder(start, end, n, i, j);
    }
  }

  /** Every worker but the last has an equal slice of the range, whose odd first port it leaves out; the last
      one has what remains. */
  lemma EqualSlices(start: int, end: int, n: nat, i: nat)
    requires i < n && start <= end
    ensures var r, size := RangeOf(start, end, n, i), (end - start + 1) / n;
      && r.0 % 2 == 0 && start + i * size <= r.0 <= start + i * size + 1
      && r.1 == if i < n - 1 then start + i * size + size - 1 else end
  {}

  lemma SliceOf(start: int, p: int, n: nat, per: nat) returns (i: nat)
    requires n > 0 && start <= p < start + (n - 1) * per
    ensures i < n - 1 && start + i * per <= p < start + i * per + per
  {
    i := (p - start) / per;
    assert p - start == i * per + (p - start) % per;
    assert (n - 1 - i) * per == (n - 1) * per - i * per;
    PositiveFactor(n - 1 - i, per);
  }

  /** Every even port of the range belongs to a worker. */
  lemma RangesCover(start: int, end: int, n: nat, p: int) returns (i: nat)
    requires n > 0 && start <= p <= end && p % 2 == 0
    ensures i < n && RangeOf(start, end, n, i).0 <= p <= RangeOf(start, end, n, i).1
  {
    var per := Trunc(end - start + 1, n);
    SliceBounds(start, end, n, n - 1);
    if p >= start + (n - 1) * per {
      i := n - 1;
    } else {
      i := SliceOf(start, p, n, per);
    }
  }

  // ---------------------------------------------------------------- the server

  datatype Server = Server(workers: seq<Worker>, next: nat)

  /** What an allocation returns and leaves behind. */
  datatype Grant = Grant(port: int, server: Server)

  /** The turn after `i` of `n`: the linear form of the source's remainder. */
  function Wrapped(i: nat, n: nat): nat {
    if i + 1 < n then i + 1 else 0
  }

  /** One worker asked, and the turn passed on. */
  function AskTurn(s: Server, os: Sockets): Grant
    requires s.next < |s.workers|
  {
    var w := s.workers[s.next];
    var r := ScanFrom(w.start, w.end, w.active, os);
    Grant(r.port, Server(s.workers[s.next := w.(active := r.active)], Wrapped(s.next, |s.workers|)))
  }

  /** The round robin with `k` workers still to ask. */
  function AskFrom(s: Server, k: nat, os: Sockets): Grant
    requires s.next < |s.workers|
    decreases k
  {
    if k == 0 then Grant(-1, s)
    else
      var g := AskTurn(s, os);
      if g.port > 0 then g else AskFrom(g.server, k - 1, os)
  }

  function Allocate(s: Server, os: Sockets): Grant
    requires s.next < |s.workers|
  {
    AskFrom(s, |s.workers|, os)
  }

  /** The first worker whose range holds a port, or the number of workers. */
  function Holder(ws: seq<Worker>, port: int): (i: nat)
    ensures i <= |ws|
    ensures forall k :: 0 <= k < i ==> !InRange(port, ws[k])
    ensures i < |ws| ==> InRange(port, ws[i])
  {
    if ws == [] || InRange(port, ws[0]) then 0 else 1 + Holder(ws[1..], port)
  }

  function Release(s: Server, port: int): Server {
    var i := Holder(s.workers, port);
    if i == |s.workers| then s
    else s.(workers := s.workers[i := s.workers[i].(active := s.workers[i].active - {port})])
  }

  /** All ports in use. */
  function Active(s: Server): set<int> {
    set i, p | 0 <= i < |s.workers| && p in s.workers[i].active :: p
  }

  /** Disjoint even ranges of positive ports, active ports inside their worker's range. */
  ghost predicate Ok(s: Server) {
    && s.next < |s.workers|
    && (forall i :: 0 <= i < |s.workers| ==> s.workers[i].start >= 1 && s.workers[i].start % 2 == 0)
    && (forall i, p :: 0 <= i < |s.workers| && p in s.workers[i].active ==>
          Candidate(p, s.workers[i].start, s.workers[i].end))
    && (forall i, j, p :: 0 <= i < j < |s.workers| && InRange(p, s.workers[i]) ==> !InRange(p, s.workers[j]))
  }

  /** Ports an allocation left in the table without handing them out: only failed registrations. */
  ghost predicate OnlyStranded(extra: set<int>, before: set<int>, os: Sockets) {
    forall q <- extra :: q !in before && q > 0 && q % 2 == 0 && os(q) == EpollFailed
  }

  lemma ActiveAfterUpdate(s: Server, i: nat, active: set<int>)
    requires i < |s.workers| && s.workers[i].active <= active
    ensures Active(s.(workers := s.workers[i := s.workers[i].(active := active)])) == Active(s) + active
  {
    var t := s.(workers := s.workers[i := s.workers[i].(active := active)]);
    forall p ensures p in Active(t) <==> p in Active(s) || p in active {
      if p in active {
        assert p in t.workers[i].active;
      }
      if p in Active(s) {
        var j :| 0 <= j < |s.workers| && p in s.workers[j].active;
        assert p in t.workers[j].active;
      }
    }
  }

  /** A port of one worker's range is active in the server only if that worker has it. */
  lemma ActiveInOwner(s: Server, i: nat, p: int)
    requires Ok(s) && i < |s.workers| && InRange(p, s.workers[i])
    ensures p in Active(s) <==> p in s.workers[i].active
  {
    if p in Active(s) {
      var j :| 0 <= j < |s.workers| && p in s.workers[j].active;
      assert InRange(p, s.workers[j]);
      assert i == j;
    }
  }

  /** What an allocation does: a fresh even port or none, and nothing else new but stranded entries. */
  ghost predicate Granted(s: Server, g: Grant, os: Sockets) {
    && Ok(g.server)
    && |g.server.workers| == |s.workers|
    && (g.port == -1 || (g.port > 0 && g.port % 2 == 0 && os(g.port) == Opened && g.port !in Active(s)))
    && exists extra :: OnlyStranded(extra, Active(s), os)
         && Active(g.server) == Active(s) + (if g.port == -1 then {} else {g.port}) + extra
  }

  lemma AskOne(s: Server, os: Sockets)
    requires Ok(s)
    ensures Granted(s, AskTurn(s, os), os)
  {
    var w := s.workers[s.next];
    var r := ScanFrom(w.start, w.end, w.active, os);
    var t := Server(s.workers[s.next := w.(active := r.active)], Wrapped(s.next, |s.workers|));
    ScanFinds(w.start, w.end, w.active, os);
    assert forall q <- w.active :: q in r.active;
    ActiveAfterUpdate(s, s.next, r.active);
    assert Active(t) == Active(s.(workers := t.workers));
    var granted := if r.port == -1 then {} else {r.port};
    var extra := r.active - w.active - granted;
    forall q | q in r.active && q !in w.active
      ensures q > 0 && q % 2 == 0 && q !in Active(s) && InRange(q, w)
    {
      EvenCandidate(q, w.start, w.end);
      ActiveInOwner(s, s.next, q);
    }
    assert OnlyStranded(extra, Active(s), os);
    assert Active(t) == Active(s) + granted + extra;
  }

  lemma EvenCandidate(q: int, start: int, end: int)
    requires start >= 1 && start % 2 == 0 && Candidate(q, start, end)
    ensures q > 0 && q % 2 == 0
  {}

  lemma {:induction false} AskGrants(s: Server, k: nat, os: Sockets)
    requires Ok(s)
    ensures Granted(s, AskFrom(s, k, os), os)
    decreases k
  {
    if k == 0 {
      assert OnlyStranded({}, Active(s), os);
    } else {
      var one := AskTurn(s, os);
      var t := one.server;
      AskOne(s, os);
      if one.port == -1 {
        var first :| OnlyStranded(first, Active(s), os) && Active(t) == Active(s) + {} + first;
        AskGrants(t, k - 1, os);
        var g := AskFrom(t, k - 1, os);
        var more :| OnlyStranded(more, Active(t), os)
          && Active(g.server) == Active(t) + (if g.port == -1 then {} else {g.port}) + more;
        assert OnlyStranded(first + more, Active(s), os);
        assert Active(g.server) == Active(s) + (if g.port == -1 then {} else {g.port}) + (first + more);
      }
    }
  }

  /** The same workers in the same order, with the same ranges. */
  ghost predicate SameRanges(s: Server, t: Server) {
    && |t.workers| == |s.workers|
    && forall i :: 0 <= i < |s.workers| ==>
         t.workers[i].start == s.workers[i].start && t.workers[i].end == s.workers[i].end
  }

  lemma {:induction false} AskKeepsRanges(s: Server, k: nat, os: Sockets)
    requires s.next < |s.workers|
    ensures SameRanges(s, AskFrom(s, k, os).server)
    decreases k
  {
    if k > 0 && AskTurn(s, os).port <= 0 {
      AskKeepsRanges(AskTurn(s, os).server, k - 1, os);
    }
  }

  /** Allocation grants a fresh even port, or none, and no worker's range changes. */
  lemma AllocateGrants(s: Server, os: Sockets)
    requires Ok(s)
    ensures Granted(s, Allocate(s, os), os)
    ensures SameRanges(s, Allocate(s, os).server)
  {
    AskGrants(s, |s.workers|, os);
    AskKeepsRanges(s, |s.workers|, os);
  }

  /** Without failing registrations the allocation adds its port and nothing else. */
  lemma AllocateExactly(s: Server, os: Sockets)
    requires Ok(s) && forall p :: os(p) != EpollFailed
    ensures var g := Allocate(s, os);
      Active(g.server) == Active(s) + if g.port == -1 then {} else {g.port}
  {
    AllocateGrants(s, os);
    var g := Allocate(s, os);
    var extra :| OnlyStranded(extra, Active(s), os)
      && Active(g.server) == Active(s) + (if g.port == -1 then {} else {g.port}) + extra;
    assert extra == {};
  }

  /** The index asked `j` steps from now. */
  function Ahead(s: Server, j: nat): nat {
    if s.next + j < |s.workers| then s.next + j else s.next + j - |s.workers|
  }

  /** A failed round has asked every worker it passed, and each of them had nothing. */
  lemma {:induction false} AskFails(s: Server, k: nat, os: Sockets, j: nat, q: int)
    requires Ok(s) && j < k <= |s.workers| && AskFrom(s, k, os).port == -1
    requires var w := s.workers[Ahead(s, j)]; Candidate(q, w.start, w.end)
    ensures Skipped(q, s.workers[Ahead(s, j)].active, os)
    decreases k
  {
    var w := s.workers[s.next];
    var t := AskTurn(s, os).server;
    AskOne(s, os);
    ScanFinds(w.start, w.end, w.active, os);
    if j > 0 {
      assert Ahead(t, j - 1) == Ahead(s, j);
      assert t.workers[Ahead(s, j)] == s.workers[Ahead(s, j)];
      AskFails(t, k - 1, os, j - 1, q);
    }
  }

  /** Allocation fails only when, in every worker, every port of the search is active or unusable. */
  lemma FailsOnlyWhenFull(s: Server, os: Sockets, i: nat, q: int)
    requires Ok(s) && Allocate(s, os).port == -1
    requires i < |s.workers| && Candidate(q, s.workers[i].start, s.workers[i].end)
    ensures q in Active(s) || os(q) != Opened
  {
    var n := |s.workers|;
    var j := if i >= s.next then i - s.next else i + n - s.next;
    AskFails(s, n, os, j, q);
    if q in s.workers[i].active {
      assert q in Active(s);
    }
  }

  lemma HolderIs(s: Server, i: nat, p: int)
    requires Ok(s) && i < |s.workers| && InRange(p, s.workers[i])
    ensures Holder(s.workers, p) == i
  {
    var h := Holder(s.workers, p);
    assert h < |s.workers| && InRange(p, s.workers[h]);
  }

  /** Releasing a port frees that port and no other. */
  lemma ReleaseFrees(s: Server, port: int)
    requires Ok(s)
    ensures Ok(Release(s, port)) && Active(Release(s, port)) == Active(s) - {port}
    ensures |Release(s, port).workers| == |s.workers|
  {
    var t := Release(s, port);
    forall p ensures p in Active(t) <==> p in Active(s) && p != port {
      if p in Active(s) {
        var i :| 0 <= i < |s.workers| && p in s.workers[i].active;
        assert InRange(p, s.workers[i]);
        if p == port {
          HolderIs(s, i, p);
          if p in Active(t) {
            var j :| 0 <= j < |t.workers| && p in t.workers[j].active;
            assert p in s.workers[j].active;
            assert InRange(p, s.workers[j]);
          }
        } else {
          assert p in t.workers[i].active;
        }
      }
      if p in Active(t) {
        var j :| 0 <= j < |t.workers| && p in t.workers[j].active;
        assert p in s.workers[j].active;
      }
    }
  }

  /** The server after `init`. */
  function Fresh(start: int, end: int, n: nat): Server {
    Server(FreshWorkers(start, end, n, n), 0)
  }

  lemma RangeStart(start: int, end: int, n: nat, i: nat)
    requires start >= 1 && end >= 1 && i < n
    ensures RangeOf(start, end, n, i).0 >= 1 && RangeOf(start, end, n, i).0 % 2 == 0
  {
    SliceBounds(start, end, n, i);
  }

  lemma {:induction false} NothingActive(ws: seq<Worker>, next: nat)
    requires forall w <- ws :: w.active == {}
    ensures Active(Server(ws, next)) == {}
  {
    forall p ensures p !in Active(Server(ws, next)) {
      forall i | 0 <= i < |ws| ensures p !in ws[i].active {
        assert ws[i] in ws;
      }
    }
  }

  lemma FreshIsOk(start: int, end: int, n: nat)
    requires start >= 1 && end >= 1 && n > 0
    ensures Ok(Fresh(start, end, n)) && Active(Fresh(start, end, n)) == {}
  {
    var s := Fresh(start, end, n);
    NothingActive(s.workers, 0);
    forall i | 0 <= i < n ensures s.workers[i].start >= 1 && s.workers[i].start % 2 == 0 {
      RangeStart(start, end, n, i);
    }
    forall i, j, p | 0 <= i < j < n && InRange(p, s.workers[i]) ensures !InRange(p, s.workers[j]) {
      RangesDisjoint(start, end, n, i, j, p);
    }
  }

  /** The workers have the ranges `init` gave them. */
  ghost predicate Partitioned(s: Server, start: int, end: int) {
    forall i :: 0 <= i < |s.workers| ==>
      && s.workers[i].start == RangeOf(start, end, |s.workers|, i).0
      && s.workers[i].end == RangeOf(start, end, |s.workers|, i).1
  }

  lemma EvenIsCandidate(p: int, start: int, end: int)
    requires start <= p <= end && p % 2 == 0 && start % 2 == 0
    ensures Candidate(p, start, end)
  {}

  /** A server refuses only when every even port of its range is active, or has no working socket. */
  lemma RefusesOnlyWhenFull(s: Server, start: int, end: int, os: Sockets, p: int)
    requires Ok(s) && Partitioned(s, start, end)
    requires Allocate(s, os).port == -1
    requires start <= p <= end && p % 2 == 0
    ensures p in Active(s) || os(p) != Opened
  {
    var i := RangesCover(start, end, |s.workers|, p);
    EvenIsCandidate(p, s.workers[i].start, s.workers[i].end);
    FailsOnlyWhenFull(s, os, i, p);
  }

  lemma ReleaseKeepsRanges(s: Server, port: int)
    ensures SameRanges(s, Release(s, port))
  {}

  /** `init` cuts the range as the partition says, and no allocation or release changes that. */
  lemma PartitionIsKept(s: Server, start: int, end: int, os: Sockets, port: int)
    requires s.next < |s.workers| && Partitioned(s, start, end)
    ensures Partitioned(Allocate(s, os).server, start, end) && Partitioned(Release(s, port), start, end)
  {
    AskKeepsRanges(s, |s.workers|, os);
    ReleaseKeepsRanges(s, port);
  }

  lemma FreshIsPartitioned(start: int, end: int, n: nat)
    ensures Partitioned(Fresh(start, end, n), start, end)
  {}

  /** No worker reaches outside the configured range. */
  lemma RangeInside(start: int, end: int, n: nat, i: nat, p: int)
    requires i < n && RangeOf(start, end, n, i).0 <= p <= RangeOf(start, end, n, i).1
    ensures start <= p <= end
  {
    SliceBounds(start, end, n, i);
  }

  lemma ActiveInside(s: Server, start: int, end: int, p: int)
    requires Ok(s) && Partitioned(s, start, end) && p in Active(s)
    ensures start <= p <= end
  {
    var i :| 0 <= i < |s.workers| && p in s.workers[i].active;
    RangeInside(start, end, |s.workers|, i, p);
  }

  /** Some even port of the range is not in use, and its socket works. */
  ghost predicate Available(s: Server, start: int, end: int, os: Sockets) {
    exists p :: start <= p <= end && p % 2 == 0 && p !in Active(s) && os(p) == Opened
  }

  /** Complete allocation: a port is granted exactly when some even port of the configured range is
      free and opens, and it is such a port. */
  lemma GrantsExactly(s: Server, start: int, end: int, os: Sockets)
    requires Ok(s) && Partitioned(s, start, end)
    ensures var port := Allocate(s, os).port;
      && (port != -1 <==> Available(s, start, end, os))
      && (port != -1 ==> start <= port <= end && port % 2 == 0 && port !in Active(s) && os(port) == Opened)
  {
    var g := Allocate(s, os);
    AllocateGrants(s, os);
    if g.port != -1 {
      assert g.port in Active(g.server);
      PartitionIsKept(s, start, end, os, 0);
      ActiveInside(g.server, start, end, g.port);
    } else if Available(s, start, end, os) {
      var p :| start <= p <= end && p % 2 == 0 && p !in Active(s) && os(p) == Opened;
      RefusesOnlyWhenFull(s, start, end, os, p);
      assert false;
    }
  }

  // ---------------------------------------------------------------- stranded entries

  /** `q` is a port the `j`-th worker of a round considers. */
  ghost predicate At(s: Server, j: nat, q: int)
    requires s.next < |s.workers|
  {
    j < |s.workers| && Candidate(q, s.workers[Ahead(s, j)].start, s.workers[Ahead(s, j)].end)
  }

  /** A round gets as far as `q` at its `j`-th worker: no port considered before it is free and opens. */
  ghost predicate Reached(s: Server, j: nat, q: int, os: Sockets)
    requires s.next < |s.workers|
  {
    forall i: nat, p {:trigger At(s, i, p)} :: At(s, i, p) && (i < j || (i == j && p < q)) ==>
      Skipped(p, s.workers[Ahead(s, i)].active, os)
  }

  /** Up to the port it grants, a round of `k` workers leaves an entry for exactly the failed
      registrations. */
  ghost predicate Leaves(s: Server, g: Grant, j: nat, q: int, os: Sockets)
    requires s.next < |s.workers| && j < |s.workers| && |g.server.workers| == |s.workers|
  {
    q in g.server.workers[Ahead(s, j)].active <==>
      q in s.workers[Ahead(s, j)].active || q == g.port || (os(q) == EpollFailed && Reached(s, j, q, os))
  }

  /** The next worker's turn passes, and the others are one step nearer. */
  lemma TurnShifts(s: Server, os: Sockets, j: nat, q: int)
    requires s.next < |s.workers| && 0 < j < |s.workers|
    ensures var t := AskTurn(s, os).server;
      && t.next < |t.workers| == |s.workers|
      && Ahead(t, j - 1) == Ahead(s, j) != s.next
      && t.workers[Ahead(s, j)] == s.workers[Ahead(s, j)]
      && (At(t, j - 1, q) <==> At(s, j, q))
  {}

  /** Workers a round does not get to keep what they have. */
  lemma {:induction false} Unasked(s: Server, k: nat, os: Sockets, j: nat)
    requires s.next < |s.workers| && k <= j < |s.workers|
    ensures var g := AskFrom(s, k, os);
      |g.server.workers| == |s.workers| && g.server.workers[Ahead(s, j)] == s.workers[Ahead(s, j)]
    decreases k
  {
    if k > 0 {
      TurnShifts(s, os, j, 0);
      if AskTurn(s, os).port <= 0 {
        Unasked(AskTurn(s, os).server, k - 1, os, j - 1);
      }
    }
  }

  /** After a first worker with nothing to grant, the round gets as far as it would without it. */
  lemma ReachedShifts(s: Server, os: Sockets, j: nat, q: int)
    requires Ok(s) && 0 < j < |s.workers| && AskTurn(s, os).port == -1
    ensures AskTurn(s, os).server.next < |s.workers| == |AskTurn(s, os).server.workers|
    ensures Reached(s, j, q, os) <==> Reached(AskTurn(s, os).server, j - 1, q, os)
  {
    var t := AskTurn(s, os).server;
    var w := s.workers[s.next];
    ScanFinds(w.start, w.end, w.active, os);
    if Reached(t, j - 1, q, os) {
      forall i: nat, p | At(s, i, p) && (i < j || (i == j && p < q))
        ensures Skipped(p, s.workers[Ahead(s, i)].active, os)
      {
        if i > 0 {
          TurnShifts(s, os, i, p);
          assert At(t, i - 1, p);
        }
      }
    }
    if Reached(s, j, q, os) {
      forall i: nat, p | At(t, i, p) && (i < j - 1 || (i == j - 1 && p < q))
        ensures Skipped(p, t.workers[Ahead(t, i)].active, os)
      {
        TurnShifts(s, os, i + 1, p);
        assert At(s, i + 1, p);
      }
    }
  }

  /** What the first worker of a round is left with. */
  lemma FirstLeaves(s: Server, os: Sockets, q: int)
    requires Ok(s) && At(s, 0, q)
    ensures Leaves(s, AskTurn(s, os), 0, q, os)
  {
    var w := s.workers[s.next];
    var r := ScanFrom(w.start, w.end, w.active, os);
    ScanFinds(w.start, w.end, w.active, os);
    if r.port == -1 || q < r.port {
      assert Reached(s, 0, q, os);
    } else if q > r.port {
      assert At(s, 0, r.port);
      assert !Reached(s, 0, q, os);
    }
  }

  lemma TurnLeaves(s: Server, os: Sockets, j: nat, q: int)
    requires Ok(s) && 0 < j < |s.workers| && At(s, j, q) && AskTurn(s, os).port != -1
    ensures Leaves(s, AskTurn(s, os), j, q, os)
  {
    var w := s.workers[s.next];
    var g := AskTurn(s, os);
    TurnShifts(s, os, j, q);
    ScanFinds(w.start, w.end, w.active, os);
    assert At(s, 0, g.port);
    assert InRange(g.port, w) && InRange(q, s.workers[Ahead(s, j)]);
  }

  lemma {:induction false} AskLeaves(s: Server, k: nat, os: Sockets, j: nat, q: int)
    requires Ok(s) && j < k <= |s.workers| && At(s, j, q)
    ensures |AskFrom(s, k, os).server.workers| == |s.workers|
    ensures Leaves(s, AskFrom(s, k, os), j, q, os)
    decreases k
  {
    var one, g := AskTurn(s, os), AskFrom(s, k, os);
    var t := one.server;
    AskOne(s, os);
    if one.port != -1 {
      if j == 0 {
        FirstLeaves(s, os, q);
      } else {
        TurnLeaves(s, os, j, q);
      }
    } else if j == 0 {
      FirstLeaves(s, os, q);
      NothingFurther(s, k, os, q);
    } else {
      TurnShifts(s, os, j, q);
      ReachedShifts(s, os, j, q);
      AskLeaves(t, k - 1, os, j - 1, q);
    }
  }

  /** Once asked in vain, a worker is left alone for the rest of the round, and none of its ports granted. */
  lemma NothingFurther(s: Server, k: nat, os: Sockets, q: int)
    requires Ok(s) && 0 < k <= |s.workers| && At(s, 0, q) && AskTurn(s, os).port == -1
    ensures var t, g := AskTurn(s, os).server, AskFrom(s, k, os);
      && |g.server.workers| == |s.workers| == |t.workers|
      && g.server.workers[s.next] == t.workers[s.next]
      && (q == g.port ==> q in s.workers[s.next].active)
  {
    var t, g := AskTurn(s, os).server, AskFrom(s, k, os);
    var n := |s.workers|;
    var w := s.workers[s.next];
    AskOne(s, os);
    ScanFinds(w.start, w.end, w.active, os);
    assert Ahead(t, n - 1) == s.next;
    Unasked(t, k - 1, os, n - 1);
    AskGrants(t, k - 1, os);
  }

  lemma FirstTurn(s: Server, os: Sockets)
    requires Ok(s) && AskTurn(s, os).port != -1
    ensures At(s, 0, AskTurn(s, os).port) && Reached(s, 0, AskTurn(s, os).port, os)
  {
    var w := s.workers[s.next];
    ScanFinds(w.start, w.end, w.active, os);
  }

  /** A round asks the workers in their turn, from the one whose turn it is; the port it grants is the first in
      that order that is free and opens, and the turn is then the next worker's. A round of `k` workers that
      grants none leaves the turn `k` workers further. */
  lemma {:induction false} AskInTurn(s: Server, k: nat, os: Sockets) returns (j: nat)
    requires Ok(s) && k <= |s.workers|
    ensures var g, n := AskFrom(s, k, os), |s.workers|;
      if g.port == -1 then
        j == k && g.server.next == if s.next + k < n then s.next + k else s.next + k - n
      else
        && j < k && At(s, j, g.port) && Reached(s, j, g.port, os)
        && g.server.next == if s.next + j + 1 < n then s.next + j + 1 else s.next + j + 1 - n
    decreases k
  {
    if k == 0 {
      j := 0;
    } else {
      var one := AskTurn(s, os);
      AskOne(s, os);
      if one.port != -1 {
        FirstTurn(s, os);
        j := 0;
      } else {
        var i := AskInTurn(one.server, k - 1, os);
        var p := AskFrom(one.server, k - 1, os).port;
        j := i + 1;
        if p != -1 {
          TurnShifts(s, os, j, p);
          ReachedShifts(s, os, j, p);
        }
      }
    }
  }

  /** The whole round of an allocation. */
  lemma GrantedInTurn(s: Server, os: Sockets) returns (j: nat)
    requires Ok(s)
    ensures var g, n := Allocate(s, os), |s.workers|;
      if g.port == -1 then g.server.next == s.next
      else
        && At(s, j, g.port) && Reached(s, j, g.port, os)
        && g.server.next == if s.next + j + 1 < n then s.next + j + 1 else s.next + j + 1 - n
  {
    j := AskInTurn(s, |s.workers|, os);
  }

  /** The entries that failed registrations leave behind in an allocation. */
  function Stranded(s: Server, os: Sockets): set<int>
    requires s.next < |s.workers|
  {
    var g := Allocate(s, os);
    Active(g.server) - Active(s) - {g.port}
  }

  /** Exactly these: the port was not in use, its registration fails, and no port considered before it
      is free and opens. */
  ghost predicate Strands(s: Server, q: int, os: Sockets)
    requires s.next < |s.workers|
  {
    q !in Active(s) && os(q) == EpollFailed && exists j: nat :: At(s, j, q) && Reached(s, j, q, os)
  }

  lemma TurnOf(s: Server, i: nat) returns (j: nat)
    requires s.next < |s.workers| && i < |s.workers|
    ensures j < |s.workers| && Ahead(s, j) == i
  {
    j := if i >= s.next then i - s.next else i + |s.workers| - s.next;
  }

  lemma StrandedExactly(s: Server, os: Sockets, q: int)
    requires Ok(s)
    ensures q in Stranded(s, os) <==> Strands(s, q, os)
  {
    var g := Allocate(s, os);
    AllocateGrants(s, os);
    if q in Stranded(s, os) {
      var i :| 0 <= i < |g.server.workers| && q in g.server.workers[i].active;
      var j := TurnOf(s, i);
      assert At(s, j, q);
      AskLeaves(s, |s.workers|, os, j, q);
    }
    if Strands(s, q, os) {
      var j: nat :| At(s, j, q) && Reached(s, j, q, os);
      AskLeaves(s, |s.workers|, os, j, q);
      assert q in g.server.workers[Ahead(s, j)].active;
    }
  }

  // ---------------------------------------------------------------- balance

  /** The server after `k` allocations. */
  function Allocations(s: Server, k: nat, os: Sockets): (t: Server)
    requires s.next < |s.workers|
    ensures t.next < |t.workers|
  {
    if k == 0 then s
    else
      var before := Allocations(s, k - 1, os);
      AskKeepsShape(before, |before.workers|, os);
      Allocate(before, os).server
  }

  lemma {:induction false} AskKeepsShape(s: Server, k: nat, os: Sockets)
    requires s.next < |s.workers|
    ensures var t := AskFrom(s, k, os).server; t.next < |t.workers| && |t.workers| == |s.workers|
    decreases k
  {
    if k > 0 && AskTurn(s, os).port <= 0 {
      AskKeepsShape(AskTurn(s, os).server, k - 1, os);
    }
  }

  /** Every worker has a port left. */
  ghost predicate Room(s: Server) {
    forall i :: 0 <= i < |s.workers| ==>
      exists q :: Candidate(q, s.workers[i].start, s.workers[i].end) && q !in s.workers[i].active
  }

  /** With room everywhere, the worker whose turn it is serves the allocation. */
  lemma TurnServes(s: Server, os: Sockets)
    requires Ok(s) && Room(s) && forall q :: os(q) == Opened
    ensures var t := Allocate(s, os).server;
      && Ok(t) && |t.workers| == |s.workers| && t.next == Wrapped(s.next, |s.workers|)
      && (forall i :: 0 <= i < |s.workers| && i != s.next ==> t.workers[i] == s.workers[i])
      && |t.workers[s.next].active| == |s.workers[s.next].active| + 1
  {
    var w := s.workers[s.next];
    var r := ScanFrom(w.start, w.end, w.active, os);
    var q :| Candidate(q, w.start, w.end) && q !in w.active;
    ScanFinds(w.start, w.end, w.active, os);
    assert !Skipped(q, w.active, os);
    assert forall p :: p in r.active <==> p in w.active || p == r.port;
    assert r.active == w.active + {r.port};
    AskOne(s, os);
  }

  /** What worker `i` of `n` has after `k` turns. */
  function Share(k: nat, n: nat, i: nat): nat
    requires n > 0
  {
    k / n + if i < k % n then 1 else 0
  }

  lemma ShareOf(q: nat, n: nat, r: nat, i: nat)
    requires r < n
    ensures Share(q * n + r, n, i) == q + if i < r then 1 else 0
    ensures (q * n + r) % n == r
  {
    QuotientIs(q, n, r);
  }

  lemma ShareGrows(k: nat, n: nat, i: nat)
    requires i < n
    ensures Share(k + 1, n, i) == Share(k, n, i) + if i == k % n then 1 else 0
    ensures (k + 1) % n == Wrapped(k % n, n)
  {
    var q, r := k / n, k % n;
    assert k == q * n + r;
    ShareOf(q, n, r, i);
    if r + 1 < n {
      ShareOf(q, n, r + 1, i);
      assert k + 1 == q * n + (r + 1);
    } else {
      ShareOf(q + 1, n, 0, i);
      assert k + 1 == (q + 1) * n + 0;
    }
  }

  /** After `k` turns: whose turn it is, and what each worker has. */
  ghost predicate Even(t: Server, n: nat, k: nat)
    requires n > 0
  {
    && Ok(t) && |t.workers| == n && t.next == k % n
    && forall i :: 0 <= i < n ==> |t.workers[i].active| == Share(k, n, i)
  }

  lemma TurnStaysEven(t: Server, n: nat, k: nat, os: Sockets)
    requires n > 0 && Even(t, n, k) && Room(t) && forall q :: os(q) == Opened
    ensures Even(Allocate(t, os).server, n, k + 1)
  {
    var u := Allocate(t, os).server;
    TurnServes(t, os);
    forall i | 0 <= i < n ensures |u.workers[i].active| == Share(k + 1, n, i) {
      ShareGrows(k, n, i);
    }
    ShareGrows(k, n, 0);
  }

  /** Round-robin balance: from an empty server, while there is room, `k` allocations leave every
      worker with the floor or the ceiling of k / n ports. */
  lemma {:induction false} Balanced(start: int, end: int, n: nat, k: nat, os: Sockets)
    requires start >= 1 && end >= 1 && n > 0 && forall q :: os(q) == Opened
    requires forall j :: 0 <= j < k ==> Room(Allocations(Fresh(start, end, n), j, os))
    ensures Even(Allocations(Fresh(start, end, n), k, os), n, k)
  {
    if k == 0 {
      FreshIsOk(start, end, n);
      QuotientIs(0, n, 0);
    } else {
      Balanced(start, end, n, k - 1, os);
      TurnStaysEven(Allocations(Fresh(start, end, n), k - 1, os), n, k - 1, os);
    }
  }

  // ---------------------------------------------------------------- the server object

  class RtpServer {
    var workers: seq<RtpWorker>
    var nextWorker: nat
    /** What the workers and the turn amount to. */
    ghost var view: Server

    ghost predicate Valid()
      reads this, workers
    {
      && nextWorker == view.next < |workers| == |view.workers|
      && (forall i :: 0 <= i < |workers| ==> workers[i].View() == view.workers[i])
      && (forall i, j :: 0 <= i < j < |workers| ==> workers[i] != workers[j])
    }

    /** `RtpServer::init`: the thread count falls back to the number of cores, then to four. */
    constructor (startPort: int, endPort: int, threadCount: int, cores: nat)
      ensures Valid() && forall w <- workers :: fresh(w)
      ensures view == Fresh(startPort, endPort, if threadCount > 0 then threadCount else if cores > 0 then cores else 4)
    {
      var n := threadCount;
      if n <= 0 {
        n := if cores > 0 then cores else 4;
      }
      workers, nextWorker := [], 0;
      view := Fresh(startPort, endPort, n);
      new;
      var portRange := endPort - startPort + 1;
      var portsPerWorker := Trunc(portRange, n);
      for i := 0 to n
        invariant |workers| == i && nextWorker == 0 && view == Fresh(startPort, endPort, n)
        invariant forall w <- workers :: fresh(w)
        invariant forall j, k :: 0 <= j < k < i ==> workers[j] != workers[k]
        invariant forall j :: 0 <= j < i ==> workers[j].View() == view.workers[j]
      {
        var wStart := startPort + i * portsPerWorker;
        var wEnd := wStart + portsPerWorker - 1;
        if wStart % 2 != 0 {
          wStart := wStart + 1;
        }
        if i == n - 1 {
          wEnd := endPort;
        }
        var worker := new RtpWorker(wStart, wEnd);
        workers := workers + [worker];
      }
    }

    /** One worker asked, and the turn passed on. */
    method AskNext(os: Sockets) returns (port: int)
      requires Valid()
      modifies this`nextWorker, this`view, workers
      ensures Valid() && workers == old(workers)
      ensures Grant(port, view) == AskTurn(old(view), os)
    {
      port := workers[nextWorker].AllocatePort(os);
      view := AskTurn(view, os).server;
      ModBelow(nextWorker + 1, |workers|);
      nextWorker := (nextWorker + 1) % |workers|;
    }

    /** The same, in terms of the round: with `k` workers still to ask. */
    method AskStep(os: Sockets, ghost k: nat, ghost goal: Grant) returns (port: int)
      requires Valid() && k > 0 && AskFrom(view, k, os) == goal
      modifies this`nextWorker, this`view, workers
      ensures Valid() && workers == old(workers)
      ensures nextWorker == Wrapped(old(nextWorker), |workers|)
      ensures if port > 0 then Grant(port, view) == goal else AskFrom(view, k - 1, os) == goal
      ensures port <= 0 && k == 1 ==> Grant(-1, view) == goal
    {
      AskFromStep(view, k, os);
      port := AskNext(os);
    }

    /** `RtpServer::allocatePort`: ask in turn until a worker has a port or the turn is back at the start. */
    method AllocatePort(os: Sockets) returns (port: int)
      requires Valid()
      modifies this`nextWorker, this`view, workers
      ensures Valid() && workers == old(workers)
      ensures Grant(port, view) == Allocate(old(view), os)
    {
      var startWorker := nextWorker;
      ghost var n, left := |workers|, |workers|;
      ghost var goal := AskFrom(view, n, os);
      while true
        invariant Valid() && workers == old(workers)
        invariant 0 < left <= n && startWorker < n
        invariant nextWorker == startWorker + (n - left) || nextWorker == startWorker - left
        invariant AskFrom(view, left, os) == goal
        decreases left
      {
        port := AskStep(os, left, goal);
        left := left - 1;
        if port > 0 {
          return;
        }
        if nextWorker == startWorker {
          break;
        }
      }
      port := -1;
    }

    /** `RtpServer::releasePort`: the first worker whose range holds the port. */
    method ReleasePort(port: int)
      requires Valid()
      modifies this`view, workers
      ensures Valid() && workers == old(workers) && view == Release(old(view), port)
    {
      var i := 0;
      while i < |workers| && !(workers[i].startPort <= port <= workers[i].endPort)
        invariant i <= |workers|
        invariant forall k :: 0 <= k < i ==> !InRange(port, view.workers[k])
      {
        i := i + 1;
      }
      HolderFrom(view.workers, port, i);
      if i < |workers| {
        workers[i].ReleasePort(port);
        view := Release(view, port);
      }
    }
  }

  /** The first worker whose range holds the port is the holder. */
  lemma HolderFrom(ws: seq<Worker>, port: int, i: nat)
    requires i <= |ws| && (forall k :: 0 <= k < i ==> !InRange(port, ws[k]))
    requires i < |ws| ==> InRange(port, ws[i])
    ensures Holder(ws, port) == i
  {
    var h := Holder(ws, port);
    assert h < |ws| ==> InRange(port, ws[h]);
  }

  lemma AskFromStep(s: Server, k: nat, os: Sockets)
    requires s.next < |s.workers| && k > 0
    ensures var g := AskTurn(s, os);
      AskFrom(s, k, os) == if g.port > 0 then g else AskFrom(g.server, k - 1, os)
    ensures AskFrom(AskTurn(s, os).server, 0, os) == Grant(-1, AskTurn(s, os).server)
  {}
}
