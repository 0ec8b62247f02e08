/** Calls, their sessions and their RTP ports: which session owns which port through every
    operation of the signalling, and which ports nobody owns any more. */
module Calls {
  import opened RtpPorts
  import opened Registry
  import Sdp

  /** What the signalling knows of a session: its port, and the RTP payload type it takes. */
  datatype Session = Session(callId: string, localPort: int, payloadType: int)

  /** The registry, the sessions that still exist, and the port allocator. A session leaves the
      registry first and ceases to exist later, when its last reference goes. */
  datatype World<S> = World(reg: Maps<S>, sessions: map<S, Session>, server: Server)

  /** A new session, entered as a call. */
  function Open<S>(w: World<S>, id: string, s: S): World<S> {
    w.(reg := Added(w.reg, id, s), sessions := w.sessions[s := Session(id, 0, 0)])
  }

  function Drop<S>(w: World<S>, id: string): World<S> {
    w.(reg := Removed(w.reg, id))
  }

  function Enlist<S>(w: World<S>, port: int, id: string): World<S> {
    w.(reg := Registered(w.reg, port, id))
  }

  function Free<S>(w: World<S>, port: int): World<S> {
    w.(server := Release(w.server, port))
  }

  /** `startPipeline`: the session takes the port and the payload type; those it had before are overwritten. */
  function Adopt<S>(w: World<S>, s: S, port: int, payloadType: int): World<S>
    requires s in w.sessions
  {
    w.(sessions := w.sessions[s := w.sessions[s].(localPort := port, payloadType := payloadType)])
  }

  function Vacate<S>(w: World<S>, s: S): World<S>
    requires s in w.sessions
  {
    w.(sessions := w.sessions[s := w.sessions[s].(localPort := 0)])
  }

  /** `terminate`. */
  function Terminate<S>(w: World<S>, s: S): World<S>
    requires s in w.sessions
  {
    if w.sessions[s].localPort > 0 then Vacate(Free(w, w.sessions[s].localPort), s) else w
  }

  /** The destructor. */
  function Destroy<S>(w: World<S>, s: S): World<S>
    requires s in w.sessions
  {
    var t := Terminate(w, s);
    t.(sessions := t.sessions - {s})
  }

  // ---------------------------------------------------------------- ownership

  function Held<S>(sessions: map<S, Session>): set<int> {
    set s | s in sessions && sessions[s].localPort > 0 :: sessions[s].localPort
  }

  ghost predicate Exclusive<S>(sessions: map<S, Session>) {
    && (forall s :: s in sessions ==> sessions[s].localPort >= 0)
    && (forall s, t :: s in sessions && t in sessions && s != t && sessions[s].localPort > 0
          ==> sessions[s].localPort != sessions[t].localPort)
  }

  /** Every active port is held by one session or is one of the spare ports, never both. */
  ghost predicate Accounted<S>(w: World<S>, spare: set<int>) {
    && Exclusive(w.sessions)
    && Active(w.server) == Held(w.sessions) + spare
    && Held(w.sessions) !! spare
  }

  /** Every call's session exists and knows its call. */
  ghost predicate Bound<S>(w: World<S>) {
    forall id :: id in w.reg.calls ==> w.reg.calls[id] in w.sessions && w.sessions[w.reg.calls[id]].callId == id
  }

  /** Every mapped port is its call's own, or a spare one. */
  ghost predicate Attributed<S>(w: World<S>, spare: set<int>)
    requires Consistent(w.reg) && Bound(w)
  {
    forall p :: p in w.reg.portMap ==>
      p > 0 && (p in spare || p == w.sessions[w.reg.calls[w.reg.portMap[p]]].localPort)
  }

  ghost predicate Owned<S>(w: World<S>, spare: set<int>) {
    && Ok(w.server)
    && Consistent(w.reg)
    && Bound(w)
    && Accounted(w, spare)
    && Attributed(w, spare)
  }

  /** A call has a port, and RTP for that port is led to the call. */
  ghost predicate Served<S>(w: World<S>, id: string)
    requires Bound(w) && id in w.reg.calls
  {
    var port := w.sessions[w.reg.calls[id]].localPort;
    port > 0 && port in w.reg.portMap && w.reg.portMap[port] == id
  }

  /** Every call is served, but perhaps one. */
  ghost predicate OthersServed<S>(w: World<S>, id: string)
    requires Bound(w)
  {
    forall c :: c in w.reg.calls && c != id ==> Served(w, c)
  }

  ghost predicate AllServed<S>(w: World<S>)
    requires Bound(w)
  {
    forall c :: c in w.reg.calls ==> Served(w, c)
  }

  /** The ports a session holds. */
  function PortOf<S>(sessions: map<S, Session>, s: S): set<int> {
    if s in sessions && sessions[s].localPort > 0 then {sessions[s].localPort} else {}
  }

  ghost predicate Unreferenced<S>(r: Maps<S>, s: S) {
    forall id :: id in r.calls ==> r.calls[id] != s
  }

  lemma HeldAfterUpdate<S>(sessions: map<S, Session>, s: S, v: Session)
    requires Exclusive(sessions)
    ensures Held(sessions[s := v]) ==
      (Held(sessions) - PortOf(sessions, s)) + (if v.localPort > 0 then {v.localPort} else {})
  {
    var after := sessions[s := v];
    forall p | p in Held(sessions) - PortOf(sessions, s) ensures p in Held(after) {
      var t :| t in sessions && sessions[t].localPort == p;
      assert t != s && after[t] == sessions[t];
    }
    if v.localPort > 0 {
      assert after[s].localPort in Held(after);
    }
  }

  lemma HeldAfterRemoval<S>(sessions: map<S, Session>, s: S)
    requires Exclusive(sessions) && s in sessions && sessions[s].localPort == 0
    ensures Held(sessions - {s}) == Held(sessions) && Exclusive(sessions - {s})
  {
    forall p | p in Held(sessions) ensures p in Held(sessions - {s}) {
      var t :| t in sessions && sessions[t].localPort == p && p > 0;
      assert (sessions - {s})[t] == sessions[t];
    }
  }

  lemma OpenIsAttributed<S>(w: World<S>, spare: set<int>, id: string, s: S)
    requires Consistent(w.reg) && Bound(w) && Attributed(w, spare) && id !in w.reg.calls && s !in w.sessions
    ensures var t := Open(w, id, s);
      Consistent(t.reg) && Bound(t) && Attributed(t, spare)
  {
    var t := Open(w, id, s);
    AddedIsConsistent(w.reg, id, s);
    assert Bound(t);
  }

  lemma OpenServesOthers<S>(w: World<S>, id: string, s: S)
    requires Bound(w) && AllServed(w) && id !in w.reg.calls && s !in w.sessions && Bound(Open(w, id, s))
    ensures OthersServed(Open(w, id, s), id)
  {
    forall c | c in w.reg.calls ensures Served(Open(w, id, s), c) {
      assert Served(w, c);
    }
  }

  lemma OpenKeeps<S>(w: World<S>, spare: set<int>, id: string, s: S)
    requires Owned(w, spare) && id !in w.reg.calls && s !in w.sessions
    ensures Owned(Open(w, id, s), spare)
  {
    HeldAfterUpdate(w.sessions, s, Session(id, 0, 0));
    OpenIsAttributed(w, spare, id, s);
  }

  /** A granted port starts out as a spare one, with whatever the allocation stranded. */
  lemma GrantKeeps<S>(w: World<S>, spare: set<int>, os: Sockets)
    requires Owned(w, spare)
    ensures var g := Allocate(w.server, os);
      && Owned(w.(server := g.server), spare + (Active(g.server) - Active(w.server)))
      && spare !! Active(g.server) - Active(w.server)
      && (g.port == -1 || (g.port > 0 && g.port in Active(g.server) - Active(w.server)))
  {
    AllocateGrants(w.server, os);
  }

  /** A fresh port is not mapped. */
  lemma MappedIsActive<S>(w: World<S>, spare: set<int>, p: int)
    requires Owned(w, spare) && p in w.reg.portMap
    ensures p in Active(w.server)
  {
    var s := w.reg.calls[w.reg.portMap[p]];
    if p !in spare {
      assert w.sessions[s].localPort in Held(w.sessions);
    }
  }

  lemma EnlistKeeps<S>(w: World<S>, spare: set<int>, port: int, id: string)
    requires Owned(w, spare) && id in w.reg.calls && port > 0 && port in spare && port !in w.reg.portMap
    ensures Owned(Enlist(w, port, id), spare)
    ensures OthersServed(w, id) ==> OthersServed(Enlist(w, port, id), id)
  {
    RegisteredIsConsistent(w.reg, port, id);
  }

  lemma DropKeeps<S>(w: World<S>, spare: set<int>, id: string)
    requires Owned(w, spare)
    ensures Owned(Drop(w, id), spare)
    ensures OthersServed(w, id) ==> AllServed(Drop(w, id))
  {
    RemovedIsConsistent(w.reg, id);
  }

  lemma AdoptIsExclusive<S>(w: World<S>, spare: set<int>, s: S, port: int, payloadType: int)
    requires Accounted(w, spare) && s in w.sessions && (port == 0 || (port > 0 && port in spare))
    ensures Exclusive(Adopt(w, s, port, payloadType).sessions)
  {
    forall t | t in w.sessions && w.sessions[t].localPort > 0 ensures w.sessions[t].localPort !in spare {
      assert w.sessions[t].localPort in Held(w.sessions);
    }
  }

  /** Different calls have different sessions. */
  lemma SessionsAreApart<S>(w: World<S>)
    requires Bound(w)
    ensures forall c, d :: c in w.reg.calls && d in w.reg.calls && w.reg.calls[c] == w.reg.calls[d] ==> c == d
  {
    forall c, d | c in w.reg.calls && d in w.reg.calls && w.reg.calls[c] == w.reg.calls[d] ensures c == d {
      assert w.sessions[w.reg.calls[c]].callId == c;
    }
  }

  /** Taking a spare port: the port it replaces becomes a spare one. */
  lemma AdoptIsAccounted<S>(w: World<S>, spare: set<int>, s: S, port: int, payloadType: int)
    requires Accounted(w, spare) && s in w.sessions && port > 0 && port in spare
    ensures Accounted(Adopt(w, s, port, payloadType), spare - {port} + PortOf(w.sessions, s))
  {
    HeldAfterUpdate(w.sessions, s, w.sessions[s].(localPort := port, payloadType := payloadType));
    AdoptIsExclusive(w, spare, s, port, payloadType);
    assert PortOf(w.sessions, s) <= Held(w.sessions);
  }

  lemma AdoptIsAttributed<S>(w: World<S>, spare: set<int>, id: string, port: int, payloadType: int)
    requires Owned(w, spare) && id in w.reg.calls
    requires port > 0 && port in w.reg.portMap && w.reg.portMap[port] == id
    ensures var s := w.reg.calls[id]; var t := Adopt(w, s, port, payloadType);
      Bound(t) && Attributed(t, spare - {port} + PortOf(w.sessions, s))
  {
    var s := w.reg.calls[id];
    var t := Adopt(w, s, port, payloadType);
    SessionsAreApart(w);
    assert Bound(t);
    forall p | p in w.reg.portMap && p != port && p !in spare
      ensures p in PortOf(w.sessions, s) || p == t.sessions[w.reg.calls[w.reg.portMap[p]]].localPort
    {
      assert p > 0;
    }
  }

  lemma AdoptServes<S>(w: World<S>, id: string, port: int, payloadType: int)
    requires Bound(w) && id in w.reg.calls && OthersServed(w, id)
    requires port > 0 && port in w.reg.portMap && w.reg.portMap[port] == id
    requires Bound(Adopt(w, w.reg.calls[id], port, payloadType))
    ensures AllServed(Adopt(w, w.reg.calls[id], port, payloadType))
  {
    var t := Adopt(w, w.reg.calls[id], port, payloadType);
    SessionsAreApart(w);
    forall c | c in t.reg.calls ensures Served(t, c) {
      assert c != id ==> Served(w, c);
    }
  }

  lemma AdoptKeeps<S>(w: World<S>, spare: set<int>, id: string, port: int, payloadType: int)
    requires Owned(w, spare) && id in w.reg.calls
    requires port > 0 && port in spare && port in w.reg.portMap && w.reg.portMap[port] == id
    ensures var s := w.reg.calls[id];
      Owned(Adopt(w, s, port, payloadType), spare - {port} + PortOf(w.sessions, s))
  {
    AdoptIsAccounted(w, spare, w.reg.calls[id], port, payloadType);
    AdoptIsAttributed(w, spare, id, port, payloadType);
  }

  /** Once its session is out of the registry, no call is reached over a port. */
  lemma PortIsUnmapped<S>(w: World<S>, spare: set<int>, s: S)
    requires Owned(w, spare) && s in w.sessions && Unreferenced(w.reg, s)
    ensures PortOf(w.sessions, s) !! w.reg.portMap.Keys
  {
    var p := w.sessions[s].localPort;
    if p > 0 {
      assert p in Held(w.sessions);
    }
  }

  /** Giving back a spare port that no call is reached over. */
  lemma FreeKeeps<S>(w: World<S>, spare: set<int>, port: int)
    requires Owned(w, spare) && port in spare && port !in w.reg.portMap
    ensures Owned(Free(w, port), spare - {port})
    ensures AllServed(w) ==> AllServed(Free(w, port))
  {
    ReleaseFrees(w.server, port);
  }

  lemma TerminateKeeps<S>(w: World<S>, spare: set<int>, s: S)
    requires Owned(w, spare) && s in w.sessions && Unreferenced(w.reg, s)
    ensures var t := Terminate(w, s);
      && Owned(t, spare) && t.sessions[s].localPort == 0 && Active(t.server) == Active(w.server) - PortOf(w.sessions, s)
      && t.reg == w.reg && t.sessions - {s} == w.sessions - {s}
      && t.sessions[s].payloadType == w.sessions[s].payloadType
      && (AllServed(w) ==> AllServed(t))
  {
    var p := w.sessions[s].localPort;
    if p > 0 {
      var t := Terminate(w, s);
      ReleaseFrees(w.server, p);
      PortIsUnmapped(w, spare, s);
      HeldAfterUpdate(w.sessions, s, t.sessions[s]);
      assert p in Held(w.sessions);
      assert Exclusive(t.sessions);
      assert Bound(t);
    }
  }

  lemma DestroyKeeps<S>(w: World<S>, spare: set<int>, s: S)
    requires Owned(w, spare) && s in w.sessions && Unreferenced(w.reg, s)
    ensures var t := Destroy(w, s);
      && Owned(t, spare) && Active(t.server) == Active(w.server) - PortOf(w.sessions, s)
      && t.reg == w.reg && t.sessions == w.sessions - {s}
      && (AllServed(w) ==> AllServed(t))
  {
    TerminateKeeps(w, spare, s);
    HeldAfterRemoval(Terminate(w, s).sessions, s);
    assert Bound(Destroy(w, s));
  }

  // ---------------------------------------------------------------- setting up a call

  /** What the signalling takes from the configuration. A negative limit is compared
      as the unsigned 64-bit number it wraps to. */
  datatype Config = Config(
    maxCalls: int,
    bindIp: string,
    sipPort: nat,
    codecPreference: seq<string>,
    rtpPortStart: int,
    rtpPortEnd: int)

  function Limit(maxCalls: int): int {
    if maxCalls >= 0 then maxCalls else maxCalls + 0x1_0000_0000_0000_0000
  }

  /** How an INVITE ends: its status, the session description of a 200, and the world after it. */
  datatype SetUp<S> = SetUp(code: int, answer: string, world: World<S>)

  /** With a port at hand: the answer decides whether the session takes it. */
  function Settle<S>(w: World<S>, id: string, offer: Sdp.Session, cfg: Config, port: int): SetUp<S>
    requires id in w.reg.calls && w.reg.calls[id] in w.sessions
  {
    var answer := Sdp.Answer(offer, cfg.bindIp, port, cfg.codecPreference);
    if answer == "" then SetUp(488, "", Drop(Free(w, port), id))
    else SetUp(200, answer, Adopt(w, w.reg.calls[id], port, Sdp.Negotiated(offer, cfg.codecPreference).payloadType))
  }

  /** The part of the INVITE handling behind the 100, for a call that is in the registry. */
  function Establish<S>(w: World<S>, id: string, offer: Sdp.Session, cfg: Config, os: Sockets): SetUp<S>
    requires w.server.next < |w.server.workers|
    requires id in w.reg.calls && w.reg.calls[id] in w.sessions
  {
    var g := Allocate(w.server, os);
    var granted := w.(server := g.server);
    if g.port < 0 then SetUp(500, "", Drop(granted, id))
    else Settle(Enlist(granted, g.port, id), id, offer, cfg, g.port)
  }

  /** The port that setting up a call makes unreachable: the one an accepted repeated INVITE overwrites. */
  function Overwritten<S>(w: World<S>, id: string, offer: Sdp.Session, cfg: Config, os: Sockets): set<int>
    requires w.server.next < |w.server.workers|
    requires id in w.reg.calls && w.reg.calls[id] in w.sessions
  {
    if Establish(w, id, offer, cfg, os).code == 200 then PortOf(w.sessions, w.reg.calls[id]) else {}
  }

  /** Nothing is stranded when every registration succeeds. */
  lemma NothingStranded(server: Server, os: Sockets)
    requires Ok(server) && forall p :: os(p) != EpollFailed
    ensures Stranded(server, os) == {}
  {
    AllocateExactly(server, os);
  }

  lemma RefusedKeeps<S>(w: World<S>, spare: set<int>, id: string, port: int)
    requires Owned(w, spare) && port in spare && PortsOf(w.reg, id) != [] && port in PortsOf(w.reg, id)
      && OthersServed(w, id)
    ensures var t := Drop(Free(w, port), id);
      Owned(t, spare - {port}) && AllServed(t)
  {
    RemovedIsConsistent(w.reg, id);
    DropKeeps(w, spare, id);
    FreeKeeps(Drop(w, id), spare, port);
    assert Drop(Free(w, port), id) == Free(Drop(w, id), port);
  }

  lemma AcceptedKeeps<S>(w: World<S>, spare: set<int>, id: string, port: int, payloadType: int)
    requires Owned(w, spare) && id in w.reg.calls && OthersServed(w, id)
    requires port > 0 && port in spare && port in w.reg.portMap && w.reg.portMap[port] == id
    ensures var s := w.reg.calls[id]; var t := Adopt(w, s, port, payloadType);
      Owned(t, spare - {port} + PortOf(w.sessions, s)) && AllServed(t)
  {
    AdoptKeeps(w, spare, id, port, payloadType);
    AdoptServes(w, id, port, payloadType);
  }

  lemma SettleKeeps<S>(w: World<S>, spare: set<int>, id: string, offer: Sdp.Session, cfg: Config, port: int)
    requires Owned(w, spare) && id in w.reg.calls && OthersServed(w, id)
    requires port > 0 && port in spare && port in w.reg.portMap && w.reg.portMap[port] == id
    ensures var r := Settle(w, id, offer, cfg, port);
      && Owned(r.world, spare - {port} + if r.code == 200 then PortOf(w.sessions, w.reg.calls[id]) else {})
      && AllServed(r.world)
  {
    if Sdp.Answer(offer, cfg.bindIp, port, cfg.codecPreference) == "" {
      RefusedKeeps(w, spare, id, port);
      assert spare - {port} + {} == spare - {port};
    } else {
      AcceptedKeeps(w, spare, id, port, Sdp.Negotiated(offer, cfg.codecPreference).payloadType);
    }
  }

  /** The granted port as a spare one, enlisted for its call. */
  lemma EnlistGranted<S>(w: World<S>, spare: set<int>, id: string, os: Sockets)
    requires Owned(w, spare) && id in w.reg.calls && OthersServed(w, id) && Allocate(w.server, os).port >= 0
    ensures var g := Allocate(w.server, os);
      var t := Enlist(w.(server := g.server), g.port, id);
      && g.port > 0 && Owned(t, spare + Stranded(w.server, os) + {g.port}) && OthersServed(t, id)
  {
    var g := Allocate(w.server, os);
    var news := Active(g.server) - Active(w.server);
    GrantKeeps(w, spare, os);
    if g.port in w.reg.portMap {
      MappedIsActive(w, spare, g.port);
    }
    EnlistKeeps(w.(server := g.server), spare + news, g.port, id);
    assert spare + news == spare + Stranded(w.server, os) + {g.port};
  }

  lemma NotStranded(server: Server, os: Sockets, spare: set<int>)
    requires Ok(server) && spare <= Active(server) && Allocate(server, os).port >= 0
    ensures var p := Allocate(server, os).port;
      spare + Stranded(server, os) + {p} - {p} == spare + Stranded(server, os)
  {
    AllocateGrants(server, os);
  }

  /** However an INVITE ends, ownership is kept: a refused one leaves every port as it was, and an
      accepted one turns the port it overwrites, if any, into a spare one. */
  lemma EstablishKeeps<S>(w: World<S>, spare: set<int>, id: string, offer: Sdp.Session, cfg: Config, os: Sockets)
    requires Owned(w, spare) && id in w.reg.calls && OthersServed(w, id)
    ensures var t := Establish(w, id, offer, cfg, os).world;
      && Owned(t, spare + Stranded(w.server, os) + Overwritten(w, id, offer, cfg, os))
      && AllServed(t)
  {
    var g := Allocate(w.server, os);
    var kept := spare + Stranded(w.server, os);
    if g.port < 0 {
      GrantKeeps(w, spare, os);
      assert kept + {} == spare + (Active(g.server) - Active(w.server));
      DropKeeps(w.(server := g.server), kept, id);
    } else {
      var t := Enlist(w.(server := g.server), g.port, id);
      EnlistGranted(w, spare, id, os);
      NotStranded(w.server, os, spare);
      SettleKeeps(t, kept + {g.port}, id, offer, cfg, g.port);
    }
  }

  // ---------------------------------------------------------------- how an INVITE ends

  /** The best match of the offer with the preferences exists, and its payload type is not -1: a match
      under -1 is refused even where another one would do. */
  predicate Negotiable(offer: Sdp.Session, cfg: Config) {
    Sdp.Negotiated(offer, cfg.codecPreference).payloadType != -1
  }

  /** The workers' ranges are those of the configuration. */
  ghost predicate Configured(server: Server, cfg: Config) {
    Partitioned(server, cfg.rtpPortStart, cfg.rtpPortEnd)
  }

  /** Some even port of the configured range is free, and its socket works. */
  ghost predicate PortFree(server: Server, cfg: Config, os: Sockets) {
    Available(server, cfg.rtpPortStart, cfg.rtpPortEnd, os)
  }

  lemma SettledExactly<S>(w: World<S>, id: string, offer: Sdp.Session, cfg: Config, port: int)
    requires id in w.reg.calls && w.reg.calls[id] in w.sessions
    ensures var r := Settle(w, id, offer, cfg, port);
      && r.code == (if Negotiable(offer, cfg) then 200 else 488)
      && (id in r.world.reg.calls <==> r.code == 200)
  {
    Sdp.AnswerIsEmpty(offer, cfg.bindIp, port, cfg.codecPreference);
  }

  /** The outcome of setting up a call, known beforehand: 500 without a free port, 488 when the
      best match does not exist or is payload type -1, and 200 otherwise; the call is registered
      afterwards exactly with a 200. */
  lemma EstablishedExactly<S>(w: World<S>, id: string, offer: Sdp.Session, cfg: Config, os: Sockets)
    requires Ok(w.server) && Configured(w.server, cfg)
    requires id in w.reg.calls && w.reg.calls[id] in w.sessions
    ensures var r := Establish(w, id, offer, cfg, os);
      && r.code == (if !PortFree(w.server, cfg, os) then 500 else if Negotiable(offer, cfg) then 200 else 488)
      && (id in r.world.reg.calls <==> r.code == 200)
  {
    var g := Allocate(w.server, os);
    GrantsExactly(w.server, cfg.rtpPortStart, cfg.rtpPortEnd, os);
    AllocateGrants(w.server, os);
    if g.port >= 0 {
      SettledExactly(Enlist(w.(server := g.server), g.port, id), id, offer, cfg, g.port);
    }
  }

  /** Setting up a call leaves the workers' ranges alone, however it ends. */
  lemma EstablishKeepsConfigured<S>(w: World<S>, id: string, offer: Sdp.Session, cfg: Config, os: Sockets)
    requires w.server.next < |w.server.workers| && Configured(w.server, cfg)
    requires id in w.reg.calls && w.reg.calls[id] in w.sessions
    ensures Configured(Establish(w, id, offer, cfg, os).world.server, cfg)
  {
    var g := Allocate(w.server, os);
    AskKeepsRanges(w.server, |w.server.workers|, os);
    ReleaseKeepsRanges(g.server, g.port);
  }

  /** A negative limit is as good as none: it stands for a number of calls near 2 to the 64. */
  lemma NegativeLimit(calls: nat, maxCalls: int)
    requires -0x8000_0000 <= maxCalls < 0
    ensures calls >= Limit(maxCalls) <==> calls - maxCalls >= 0x1_0000_0000_0000_0000
    ensures calls < 0xFFFF_FFFF_8000_0000 ==> calls < Limit(maxCalls)
  {}
}
