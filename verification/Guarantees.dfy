/** What the signalling guarantees over whole runs: port accounting, ownership at release, routing of
    media, and at-most-once execution of requests. */
module Guarantees {
  import opened Text
  import opened SipMessage
  import opened Transactions
  import opened RtpPorts
  import opened Registry
  import opened Calls
  import opened Gateway
  import opened Safety
  import opened SipResponse
  import opened SipRoundTrip
  import Sdp
  import SdpRoundTrip

  predicate GoodRange(cfg: Config) {
    cfg.rtpPortStart >= 1 && cfg.rtpPortEnd >= 1
  }

  lemma StartIsOk<S>(workers: nat, cfg: Config)
    requires GoodRange(cfg) && workers > 0
    ensures Inv<S>(Start(cfg, workers), {}, cfg)
  {
    FreshIsOk(cfg.rtpPortStart, cfg.rtpPortEnd, workers);
    FreshIsPartitioned(cfg.rtpPortStart, cfg.rtpPortEnd, workers);
    var empty: map<S, Session> := map[];
    assert Held(empty) == {};
  }

  /** The ports lost over a run. */
  ghost function AllLost<S>(st: State<S>, es: seq<Event<S>>, cfg: Config): set<int>
    requires Orderly(st) && Possible(st, es, cfg)
    decreases es
  {
    if es == [] then {}
    else
      StepIsOrderly(st, es[0], cfg);
      Lost(st, es[0], cfg) + AllLost(Step(st, es[0], cfg).state, es[1..], cfg)
  }

  /** Every run keeps the invariant: the spare ports are exactly the lost ones. */
  lemma {:induction false} RunKeeps<S>(st: State<S>, es: seq<Event<S>>, cfg: Config, spare: set<int>)
    requires Inv(st, spare, cfg) && Possible(st, es, cfg)
    ensures Inv(Run(st, es, cfg), spare + AllLost(st, es, cfg), cfg)
    decreases es
  {
    if es == [] {
      NothingAdded(spare);
    } else {
      var next := Step(st, es[0], cfg).state;
      StepKeeps(st, es[0], cfg, spare);
      RunKeeps(next, es[1..], cfg, spare + Lost(st, es[0], cfg));
      UnionIsAssociative(spare, Lost(st, es[0], cfg), AllLost(next, es[1..], cfg));
    }
  }

  lemma NothingFirst<T>(s: set<T>)
    ensures {} + s == s
  {}

  lemma CleanRunKeeps<S>(st: State<S>, es: seq<Event<S>>, cfg: Config)
    requires Inv(st, {}, cfg) && Possible(st, es, cfg)
    ensures Inv(Run(st, es, cfg), AllLost(st, es, cfg), cfg)
  {
    RunKeeps(st, es, cfg, {});
    NothingFirst(AllLost(st, es, cfg));
  }

  /** And so does every run from start-up: nothing but what it lost is spare. */
  lemma RunsAreSafe<S>(workers: nat, es: seq<Event<S>>, cfg: Config)
    requires GoodRange(cfg) && workers > 0 && Possible(Start(cfg, workers), es, cfg)
    ensures Inv(Run(Start(cfg, workers), es, cfg), AllLost(Start(cfg, workers), es, cfg), cfg)
  {
    StartIsOk<S>(workers, cfg);
    CleanRunKeeps(Start(cfg, workers), es, cfg);
  }

  // ---------------------------------------------------------------- ports

  /** Exact accounting: after every run the active ports are the sessions' own ports and the lost
      ones, and no port is both. */
  lemma PortsAreAccountedFor<S>(workers: nat, es: seq<Event<S>>, cfg: Config)
    requires GoodRange(cfg) && workers > 0
    requires Possible(Start(cfg, workers), es, cfg)
    ensures var st := Start(cfg, workers); var w := Run(st, es, cfg).world;
      && Active(w.server) == Held(w.sessions) + AllLost(st, es, cfg)
      && Held(w.sessions) !! AllLost(st, es, cfg)
      && Exclusive(w.sessions)
  {
    RunsAreSafe(workers, es, cfg);
  }

  /** A second INVITE for a call that is still registered is carried out. */
  ghost predicate Reinvites<S>(st: State<S>, e: Event<S>)
  {
    e.Arrival? && (var r := ReadOff(e.msg); Executes(st, r, e.msg) && r.m == INVITE && r.callId in st.world.reg.calls)
  }

  /** Along the run no registered call is invited again, and every epoll registration succeeds. */
  ghost predicate Tame<S>(st: State<S>, es: seq<Event<S>>, cfg: Config)
    requires Orderly(st) && Possible(st, es, cfg)
    decreases es
  {
    es == []
    || (&& !Reinvites(st, es[0])
        && (es[0].Arrival? ==> forall p :: es[0].os(p) != EpollFailed)
        && (StepIsOrderly(st, es[0], cfg); Tame(Step(st, es[0], cfg).state, es[1..], cfg)))
  }

  lemma NewCallLosesNothing<S>(w: World<S>, id: string, body: string, os: Sockets, created: S, cfg: Config)
    requires Sound(w) && Ok(w.server) && id !in w.reg.calls && forall p :: os(p) != EpollFailed
    requires Readable(w, INVITE, id, body, cfg)
    ensures LostByInvite(w, id, body, os, created, cfg) == {}
  {
    NothingStranded(w.server, os);
  }

  lemma TameStepLosesNothing<S>(st: State<S>, e: Event<S>, cfg: Config)
    requires Orderly(st) && Ok(st.world.server) && Enabled(st, e, cfg)
    requires !Reinvites(st, e) && (e.Arrival? ==> forall p :: e.os(p) != EpollFailed)
    ensures Lost(st, e, cfg) == {}
  {
    if e.Arrival? {
      var r := ReadOff(e.msg);
      if Executes(st, r, e.msg) && r.m == INVITE {
        NewCallLosesNothing(st.world, r.callId, e.msg.body, e.os, e.created, cfg);
      }
    }
  }

  lemma {:induction false} TameRunLosesNothing<S>(st: State<S>, es: seq<Event<S>>, cfg: Config, spare: set<int>)
    requires Inv(st, spare, cfg) && Possible(st, es, cfg) && Tame(st, es, cfg)
    ensures AllLost(st, es, cfg) == {}
    decreases es
  {
    if es != [] {
      StepKeeps(st, es[0], cfg, spare);
      TameStepLosesNothing(st, es[0], cfg);
      TameRunLosesNothing(Step(st, es[0], cfg).state, es[1..], cfg, spare + Lost(st, es[0], cfg));
    }
  }

  /** Then nothing leaks: exactly the existing sessions' ports are in use, and none once they are gone. */
  lemma NothingLeaks<S>(workers: nat, es: seq<Event<S>>, cfg: Config)
    requires GoodRange(cfg) && workers > 0
    requires Possible(Start(cfg, workers), es, cfg)
    requires Tame(Start(cfg, workers), es, cfg)
    ensures var w := Run(Start(cfg, workers), es, cfg).world;
      && Active(w.server) == Held(w.sessions)
      && (w.sessions == map[] ==> Active(w.server) == {})
  {
    var st: State<S> := Start(cfg, workers);
    StartIsOk<S>(workers, cfg);
    TameRunLosesNothing(st, es, cfg, {});
    PortsAreAccountedFor(workers, es, cfg);
    var w := Run(st, es, cfg).world;
    NothingAdded(Held(w.sessions));
  }

  /** The request sets up a call, registered before or not. */
  predicate SetsUp<S>(st: State<S>, r: Reading, msg: Message, cfg: Config) {
    Executes(st, r, msg) && r.m == INVITE && !TurnedAway(st.world, r.callId, cfg)
  }

  /** The request is for a registered call and will be accepted: the best match exists and is not payload
      type -1, and there is a free port. */
  ghost predicate AcceptedAgain<S>(st: State<S>, r: Reading, msg: Message, os: Sockets, cfg: Config)
    requires Handled(st, r, msg, cfg)
  {
    && SetsUp(st, r, msg, cfg) && r.callId in st.world.reg.calls
    && Negotiable(Sdp.Parse(msg.body).value, cfg) && PortFree(st.world.server, cfg, os)
  }

  /** The request costs the port `p`: its registration fails before a working port is found, or it is
      the port of a registered call that is accepted again. */
  ghost predicate Costs<S>(st: State<S>, r: Reading, msg: Message, os: Sockets, cfg: Config, p: int)
    requires Sound(st.world) && Handled(st, r, msg, cfg)
  {
    || (SetsUp(st, r, msg, cfg) && Strands(st.world.server, p, os))
    || (AcceptedAgain(st, r, msg, os, cfg) && p == st.world.sessions[st.world.reg.calls[r.callId]].localPort)
  }

  lemma OverwrittenExactly<S>(w: World<S>, id: string, offer: Sdp.Session, os: Sockets, created: S, cfg: Config,
                              spare: set<int>, p: int)
    requires Sound(w) && WorldOk(w, spare, cfg) && Configured(w.server, cfg) && created !in w.sessions
    ensures p in Overwritten(Entered(w, id, created), id, offer, cfg, os) <==>
      && id in w.reg.calls && Negotiable(offer, cfg) && PortFree(w.server, cfg, os)
      && p == w.sessions[w.reg.calls[id]].localPort
  {
    EstablishedExactly(Entered(w, id, created), id, offer, cfg, os);
    if id in w.reg.calls {
      assert Served(w, id);
    }
  }

  lemma LostExactly<S>(w: World<S>, id: string, body: string, os: Sockets, created: S, cfg: Config, spare: set<int>,
                       p: int)
    requires Sound(w) && WorldOk(w, spare, cfg) && Configured(w.server, cfg) && created !in w.sessions
    requires Readable(w, INVITE, id, body, cfg) && !TurnedAway(w, id, cfg)
    ensures p in LostByInvite(w, id, body, os, created, cfg) <==>
      || Strands(w.server, p, os)
      || (&& id in w.reg.calls && Negotiable(Sdp.Parse(body).value, cfg) && PortFree(w.server, cfg, os)
          && p == w.sessions[w.reg.calls[id]].localPort)
  {
    StrandedExactly(w.server, os, p);
    OverwrittenExactly(w, id, Sdp.Parse(body).value, os, created, cfg, spare, p);
  }

  /** Exactly these ports are lost. */
  lemma InviteLosesExactly<S>(st: State<S>, r: Reading, msg: Message, os: Sockets, created: S, cfg: Config,
                              spare: set<int>, p: int)
    requires Sound(st.world) && WorldOk(st.world, spare, cfg) && Configured(st.world.server, cfg)
    requires Handled(st, r, msg, cfg) && created !in st.world.sessions
    ensures p in LostBy(st, r, msg, os, created, cfg) <==> Costs(st, r, msg, os, cfg, p)
  {
    if SetsUp(st, r, msg, cfg) {
      LostExactly(st.world, r.callId, msg.body, os, created, cfg, spare, p);
    }
  }

  /** The step takes a port out of circulation: an INVITE sets up a call, and either the registration
      of some port fails before a working one is found, or the call is already registered, the best
      match exists and is not payload type -1, and there is a free port to replace its own. */
  ghost predicate Leaks<S>(st: State<S>, e: Event<S>, cfg: Config)
    requires Sound(st.world) && Enabled(st, e, cfg)
  {
    e.Arrival? && LeaksOn(st, ReadOff(e.msg), e.msg, e.os, cfg)
  }

  ghost predicate LeaksOn<S>(st: State<S>, r: Reading, msg: Message, os: Sockets, cfg: Config)
    requires Sound(st.world) && Handled(st, r, msg, cfg)
  {
    || (SetsUp(st, r, msg, cfg) && exists p :: Strands(st.world.server, p, os))
    || AcceptedAgain(st, r, msg, os, cfg)
  }

  lemma SomePortIsTheCost<S>(st: State<S>, r: Reading, msg: Message, os: Sockets, cfg: Config)
    requires Sound(st.world) && Handled(st, r, msg, cfg)
    ensures LeaksOn(st, r, msg, os, cfg) <==> exists p :: Costs(st, r, msg, os, cfg, p)
  {
    if AcceptedAgain(st, r, msg, os, cfg) {
      assert Costs(st, r, msg, os, cfg, st.world.sessions[st.world.reg.calls[r.callId]].localPort);
    } else if SetsUp(st, r, msg, cfg) && exists p :: Strands(st.world.server, p, os) {
      var p :| Strands(st.world.server, p, os);
      assert Costs(st, r, msg, os, cfg, p);
    }
  }

  lemma InviteLeaksExactly<S>(st: State<S>, r: Reading, msg: Message, os: Sockets, created: S, cfg: Config,
                              spare: set<int>)
    requires Sound(st.world) && WorldOk(st.world, spare, cfg) && Configured(st.world.server, cfg)
    requires Handled(st, r, msg, cfg) && created !in st.world.sessions
    ensures LostBy(st, r, msg, os, created, cfg) == {} <==> !LeaksOn(st, r, msg, os, cfg)
  {
    var lost := LostBy(st, r, msg, os, created, cfg);
    SomePortIsTheCost(st, r, msg, os, cfg);
    if LeaksOn(st, r, msg, os, cfg) {
      var p :| Costs(st, r, msg, os, cfg, p);
      InviteLosesExactly(st, r, msg, os, created, cfg, spare, p);
    } else if lost != {} {
      var p :| p in lost;
      InviteLosesExactly(st, r, msg, os, created, cfg, spare, p);
    }
  }

  ghost predicate Leakless<S>(st: State<S>, es: seq<Event<S>>, cfg: Config)
    requires Orderly(st) && Possible(st, es, cfg)
    decreases es
  {
    es == []
    || (!Leaks(st, es[0], cfg) && (StepIsOrderly(st, es[0], cfg); Leakless(Step(st, es[0], cfg).state, es[1..], cfg)))
  }

  lemma {:induction false} LosesExactly<S>(st: State<S>, es: seq<Event<S>>, cfg: Config, spare: set<int>)
    requires Inv(st, spare, cfg) && Possible(st, es, cfg)
    ensures AllLost(st, es, cfg) == {} <==> Leakless(st, es, cfg)
    decreases es
  {
    if es != [] {
      StepKeeps(st, es[0], cfg, spare);
      if es[0].Arrival? {
        InviteLeaksExactly(st, ReadOff(es[0].msg), es[0].msg, es[0].os, es[0].created, cfg, spare);
      }
      LosesExactly(Step(st, es[0], cfg).state, es[1..], cfg, spare + Lost(st, es[0], cfg));
    }
  }

  /** Exactly the runs without such a step leave no port behind. */
  lemma LeaksExactly<S>(workers: nat, es: seq<Event<S>>, cfg: Config)
    requires GoodRange(cfg) && workers > 0
    requires Possible(Start(cfg, workers), es, cfg)
    ensures var st := Start(cfg, workers); var w := Run(st, es, cfg).world;
      Active(w.server) == Held(w.sessions) <==> Leakless(st, es, cfg)
  {
    var st: State<S> := Start(cfg, workers);
    StartIsOk<S>(workers, cfg);
    LosesExactly(st, es, cfg, {});
    PortsAreAccountedFor(workers, es, cfg);
    var w := Run(st, es, cfg).world;
    var lost := AllLost(st, es, cfg);
    NothingAdded(Held(w.sessions));
    assert lost <= Active(w.server);
  }

  lemma LeaklessHead<S>(st: State<S>, e: Event<S>, rest: seq<Event<S>>, cfg: Config)
    requires Orderly(st) && Enabled(st, e, cfg) && Orderly(Step(st, e, cfg).state)
    requires Possible(Step(st, e, cfg).state, rest, cfg) && Possible(st, [e] + rest, cfg)
    ensures Leakless(st, [e] + rest, cfg) <==> !Leaks(st, e, cfg) && Leakless(Step(st, e, cfg).state, rest, cfg)
  {
    assert ([e] + rest)[1..] == rest;
  }

  lemma {:induction false} LeaklessSnoc<S>(st: State<S>, es: seq<Event<S>>, e: Event<S>, cfg: Config)
    requires Orderly(st) && Possible(st, es, cfg) && Enabled(Run(st, es, cfg), e, cfg)
    requires Possible(st, es + [e], cfg)
    ensures Leakless(st, es + [e], cfg) <==> Leakless(st, es, cfg) && !Leaks(Run(st, es, cfg), e, cfg)
    decreases es
  {
    if es == [] {
      RunHead(st, e, [], cfg);
      LeaklessHead(st, e, [], cfg);
      assert es + [e] == [e] + [];
    } else {
      var rest := es[1..];
      MoveSplit(es, e);
      RunHead(st, es[0], rest, cfg);
      LeaklessHead(st, es[0], rest, cfg);
      RunHead(st, es[0], rest + [e], cfg);
      LeaklessSnoc(Step(st, es[0], cfg).state, rest, e, cfg);
      LeaklessHead(st, es[0], rest + [e], cfg);
    }
  }

  /** A lost port stays in use for ever. */
  lemma LostForEver<S>(st: State<S>, es: seq<Event<S>>, cfg: Config, spare: set<int>, p: int)
    requires Inv(st, spare, cfg) && p in spare && Possible(st, es, cfg)
    ensures p in Active(Run(st, es, cfg).world.server) && p !in Held(Run(st, es, cfg).world.sessions)
  {
    RunKeeps(st, es, cfg, spare);
  }

  /** Whenever a session gives back its port, at whatever time after its call ended: the port is still
      its own, no other session has it, and no other call is reached over it. */
  lemma ReleaseIsByTheOwner<S>(st: State<S>, spare: set<int>, cfg: Config, s: S)
    requires Inv(st, spare, cfg) && s in st.world.sessions && st.world.sessions[s].localPort > 0
    ensures var p := st.world.sessions[s].localPort; var w := st.world;
      && p in Active(w.server) && p !in spare
      && (forall t :: t in w.sessions && w.sessions[t].localPort == p ==> t == s)
      && (p in w.reg.portMap ==> w.reg.portMap[p] in w.reg.calls && w.reg.calls[w.reg.portMap[p]] == s)
  {
    var p := st.world.sessions[s].localPort;
    assert p in Held(st.world.sessions);
    if p in st.world.reg.portMap {
      var t := st.world.reg.calls[st.world.reg.portMap[p]];
      assert st.world.sessions[t].localPort == p;
    }
  }

  /** The session that a step makes give back its port, if any. */
  ghost predicate GivesBack<S>(st: State<S>, e: Event<S>, s: S) {
    || e == LastReference(s)
    || (e.Arrival? && (var r := ReadOff(e.msg);
          && Executes(st, r, e.msg) && r.m == BYE && r.callId in st.world.reg.calls
          && st.world.reg.calls[r.callId] == s))
  }

  lemma InviteFreesNothing<S>(w: World<S>, id: string, body: string, os: Sockets, created: S, cfg: Config,
                              spare: set<int>, p: int)
    requires WorldOk(w, spare, cfg) && Sound(w) && Readable(w, INVITE, id, body, cfg) && p in Active(w.server)
    ensures p in Active(ServeInvite(w, id, body, os, created, cfg).world.server)
  {
    var g := Allocate(w.server, os);
    AllocateGrants(w.server, os);
    if g.port >= 0 {
      ReleaseFrees(g.server, g.port);
    }
  }

  lemma OthersFreeNothing<S>(w: World<S>, m: Method, id: string, body: string, os: Sockets, created: S, cfg: Config)
    requires Sound(w) && m != ACK && m != INVITE && !(m == BYE && id in w.reg.calls)
    ensures Serve(w, m, id, body, os, created, cfg).world.server == w.server
  {}

  lemma ServeFreesOnlyByBye<S>(w: World<S>, m: Method, id: string, body: string, os: Sockets, created: S, cfg: Config,
                               spare: set<int>, p: int)
    requires WorldOk(w, spare, cfg) && Sound(w) && p in Active(w.server)
    requires m != ACK && Readable(w, m, id, body, cfg)
    requires p !in Active(Serve(w, m, id, body, os, created, cfg).world.server)
    ensures m == BYE && id in w.reg.calls && w.sessions[w.reg.calls[id]].localPort == p
  {
    if m == INVITE {
      InviteFreesNothing(w, id, body, os, created, cfg, spare, p);
    } else if m == BYE && id in w.reg.calls {
      ByeKeeps(w, id, cfg, spare);
    } else {
      OthersFreeNothing(w, m, id, body, os, created, cfg);
    }
  }

  lemma ArrivalReleases<S>(st: State<S>, r: Reading, msg: Message, clock: nat, os: Sockets, created: S, cfg: Config,
                           spare: set<int>, p: int)
    requires Sound(st.world) && WorldOk(st.world, spare, cfg) && Handled(st, r, msg, cfg)
    requires p in Active(st.world.server)
    requires p !in Active(Handle(st, r, msg, clock, os, created, cfg).state.world.server)
    ensures Executes(st, r, msg) && r.m == BYE && r.callId in st.world.reg.calls
    ensures st.world.sessions[st.world.reg.calls[r.callId]].localPort == p
  {
    assert Executes(st, r, msg);
    ServeFreesOnlyByBye(st.world, r.m, r.callId, msg.body, os, created, cfg, spare, p);
  }

  lemma EndReleases<S>(w: World<S>, s: S, spare: set<int>, p: int)
    requires Owned(w, spare) && s in w.sessions && Unreferenced(w.reg, s)
    requires p in Active(w.server) && p !in Active(Destroy(w, s).server)
    ensures w.sessions[s].localPort == p
  {
    DestroyKeeps(w, spare, s);
  }

  /** A port goes out of use only through the session that holds it: by the BYE of its call, or with
      its last reference. No step takes a port from anybody else. */
  lemma OnlyTheHolderReleases<S>(st: State<S>, e: Event<S>, cfg: Config, spare: set<int>, p: int) returns (s: S)
    requires Inv(st, spare, cfg) && Enabled(st, e, cfg)
    requires p in Active(st.world.server) && p !in Active(Step(st, e, cfg).state.world.server)
    ensures GivesBack(st, e, s) && s in st.world.sessions && st.world.sessions[s].localPort == p
  {
    match e {
      case Arrival(msg, clock, os, created) =>
        var r := ReadOff(msg);
        ArrivalReleases(st, r, msg, clock, os, created, cfg, spare, p);
        s := st.world.reg.calls[r.callId];
      case LastReference(t) =>
        EndReleases(st.world, t, spare, p);
        s := t;
    }
  }

  // ---------------------------------------------------------------- the registry

  /** A port is in use in exactly one worker. */
  ghost predicate InOneWorker(s: Server, p: int) {
    exists i :: 0 <= i < |s.workers| && p in s.workers[i].active && NotElsewhere(s, p, i)
  }

  ghost predicate NotElsewhere(s: Server, p: int, i: int) {
    forall j :: 0 <= j < |s.workers| && j != i ==> p !in s.workers[j].active
  }

  /** After every run the registry's maps are inverse to one another, mapped ports are in use in
      exactly one worker and lead to a registered call, and the limit on calls holds. */
  lemma RegistryAgrees<S>(workers: nat, es: seq<Event<S>>, cfg: Config, p: int)
    requires GoodRange(cfg) && workers > 0
    requires Possible(Start(cfg, workers), es, cfg)
    ensures var w := Run(Start(cfg, workers), es, cfg).world; var r := w.reg;
      && Consistent(r) && WithinLimit(w, cfg)
      && (forall id :: p in r.portMap && r.portMap[p] == id <==> p in PortsOf(r, id))
      && (p in r.portMap ==> r.portMap[p] in r.calls && InOneWorker(w.server, p))
  {
    var st: State<S> := Start(cfg, workers);
    RunsAreSafe(workers, es, cfg);
    WorldAgrees(Run(st, es, cfg).world, AllLost(st, es, cfg), p);
  }

  lemma WorldAgrees<S>(w: World<S>, spare: set<int>, p: int)
    requires Owned(w, spare)
    ensures var r := w.reg;
      && (forall id :: p in r.portMap && r.portMap[p] == id <==> p in PortsOf(r, id))
      && (p in r.portMap ==> r.portMap[p] in r.calls && InOneWorker(w.server, p))
  {
    forall id ensures p in w.reg.portMap && w.reg.portMap[p] == id <==> p in PortsOf(w.reg, id) {
      MapsAreInverse(w.reg, p, id);
    }
    if p in w.reg.portMap {
      MappedIsActive(w, spare, p);
      ActiveInOneWorker(w.server, p);
    }
  }

  lemma ActiveInOneWorker(s: Server, p: int)
    requires Ok(s) && p in Active(s)
    ensures InOneWorker(s, p)
  {
    var i :| 0 <= i < |s.workers| && p in s.workers[i].active;
    forall j | 0 <= j < |s.workers| && j != i ensures p !in s.workers[j].active {
      assert InRange(p, s.workers[i]);
      if p in s.workers[j].active {
        assert InRange(p, s.workers[j]);
      }
    }
    assert NotElsewhere(s, p, i);
  }

  /** Every registered call has a port and is reached over it; and a port that leads to a session is
      that session's own, unless a repeated INVITE has replaced it. */
  lemma MediaReachesItsCall<S>(st: State<S>, spare: set<int>, cfg: Config, id: string, p: int)
    requires Inv(st, spare, cfg)
    ensures var w := st.world;
      && (id in w.reg.calls ==> ByPort(w.reg, w.sessions[w.reg.calls[id]].localPort) == Some(w.reg.calls[id]))
      && (ByPort(w.reg, p).Some? ==>
            var s := ByPort(w.reg, p).value; s in w.sessions && (w.sessions[s].localPort == p || p in spare))
  {
    if id in st.world.reg.calls {
      assert Served(st.world, id);
      MappedPortsLead(st.world.reg, st.world.sessions[st.world.reg.calls[id]].localPort);
    }
    MappedPortsLead(st.world.reg, p);
  }

  /** The session `s` holds the port `p`, now or at some later time of the run. */
  ghost predicate EverHolds<S>(st: State<S>, es: seq<Event<S>>, cfg: Config, s: S, p: int)
    requires Orderly(st) && Possible(st, es, cfg)
    decreases es
  {
    || (s in st.world.sessions && st.world.sessions[s].localPort == p)
    || (es != [] && (StepIsOrderly(st, es[0], cfg); EverHolds(Step(st, es[0], cfg).state, es[1..], cfg, s, p)))
  }

  /** In `t` the port leads nowhere, or where it led in `w`, or to a session whose own it is. */
  ghost predicate LeadsHome<S>(w: World<S>, t: World<S>, p: int) {
    || ByPort(t.reg, p).None?
    || ByPort(t.reg, p) == ByPort(w.reg, p)
    || (var s := ByPort(t.reg, p).value; s in t.sessions && t.sessions[s].localPort == p)
  }

  lemma RemovedMapsNothing<S>(r: Maps<S>, id: string, p: int)
    ensures ByPort(Removed(r, id), p).None? || ByPort(Removed(r, id), p) == ByPort(r, p)
  {}

  lemma EstablishMapsOwnPort<S>(w: World<S>, id: string, offer: Sdp.Session, cfg: Config, os: Sockets, p: int)
    requires Sound(w) && Consistent(w.reg) && id in w.reg.calls
    ensures var t := Establish(w, id, offer, cfg, os).world;
      LeadsHome(w, t, p)
  {
    var g := Allocate(w.server, os);
    if g.port >= 0 {
      var t := Enlist(w.(server := g.server), g.port, id);
      assert ByPort(t.reg, p) == if p == g.port then Some(w.reg.calls[id]) else ByPort(w.reg, p);
      RemovedMapsNothing(t.reg, id, p);
    }
  }

  lemma OpenMapsNothing<S>(w: World<S>, id: string, created: S, p: int)
    requires Consistent(w.reg)
    ensures ByPort(Entered(w, id, created).reg, p) == ByPort(w.reg, p)
  {}

  lemma ServeMapsOwnPort<S>(w: World<S>, m: Method, id: string, body: string, os: Sockets, created: S, cfg: Config,
                            p: int)
    requires Sound(w) && Consistent(w.reg) && m != ACK && Readable(w, m, id, body, cfg)
    ensures var t := Serve(w, m, id, body, os, created, cfg).world;
      LeadsHome(w, t, p)
  {
    if m == INVITE && !TurnedAway(w, id, cfg) {
      var entered := Entered(w, id, created);
      OpenMapsNothing(w, id, created, p);
      AddedIsConsistent(w.reg, id, created);
      EstablishMapsOwnPort(entered, id, Sdp.Parse(body).value, cfg, os, p);
    } else {
      RemovedMapsNothing(w.reg, id, p);
    }
  }

  lemma HandleMapsOwnPort<S>(st: State<S>, r: Reading, msg: Message, clock: nat, os: Sockets, created: S, cfg: Config,
                             p: int)
    requires Sound(st.world) && Consistent(st.world.reg) && Handled(st, r, msg, cfg)
    ensures LeadsHome(st.world, Handle(st, r, msg, clock, os, created, cfg).state.world, p)
  {
    if Executes(st, r, msg) {
      ServeMapsOwnPort(st.world, r.m, r.callId, msg.body, os, created, cfg, p);
    }
  }

  /** A step leads a port to a session only by making it that session's own. */
  lemma StepMapsOwnPort<S>(st: State<S>, e: Event<S>, cfg: Config, spare: set<int>, p: int)
    requires Inv(st, spare, cfg) && Enabled(st, e, cfg)
    ensures LeadsHome(st.world, Step(st, e, cfg).state.world, p)
  {
    match e {
      case Arrival(msg, clock, os, created) =>
        HandleMapsOwnPort(st, ReadOff(msg), msg, clock, os, created, cfg, p);
      case Cut(id) =>
        RemovedMapsNothing(st.world.reg, id, p);
      case LastReference(s) =>
        assert Destroy(st.world, s).reg == st.world.reg;
      case Cleanup =>
      case Tick(ticks) =>
    }
  }

  lemma {:induction false} MappedPortsWereHeld<S>(st: State<S>, es: seq<Event<S>>, cfg: Config, spare: set<int>, p: int)
    requires Inv(st, spare, cfg) && Possible(st, es, cfg) && ByPort(Run(st, es, cfg).world.reg, p).Some?
    ensures var s := ByPort(Run(st, es, cfg).world.reg, p);
      s == ByPort(st.world.reg, p) || EverHolds(st, es, cfg, s.value, p)
    decreases es
  {
    if es != [] {
      StepKeeps(st, es[0], cfg, spare);
      StepMapsOwnPort(st, es[0], cfg, spare, p);
      MappedPortsWereHeld(Step(st, es[0], cfg).state, es[1..], cfg, spare + Lost(st, es[0], cfg), p);
    }
  }

  /** After every run a port leads only to a session that held it at some time of that run: it is the
      session's own now, or was until a repeated INVITE replaced it. */
  lemma PortsLeadToTheirHolders<S>(workers: nat, es: seq<Event<S>>, cfg: Config, p: int)
    requires GoodRange(cfg) && workers > 0
    requires Possible(Start(cfg, workers), es, cfg)
    requires ByPort(Run<S>(Start(cfg, workers), es, cfg).world.reg, p).Some?
    ensures EverHolds(Start(cfg, workers), es, cfg, ByPort(Run(Start(cfg, workers), es, cfg).world.reg, p).value, p)
  {
    StartIsOk<S>(workers, cfg);
    MappedPortsWereHeld(Start(cfg, workers), es, cfg, {}, p);
  }

  // ---------------------------------------------------------------- requests

  /** The table still holds a transaction under a key with its last activity no earlier than `since`
      and a given response to repeat, or 33 seconds have passed. */
  ghost predicate Remembered<S>(st: State<S>, k: string, since: nat, reply: Message) {
    || st.now - since >= 33_000_000_000
    || (k in st.txs && st.txs[k].lastActive >= since && st.txs[k].lastResponse == Some(reply))
  }

  lemma HandleRemembers<S>(st: State<S>, r: Reading, msg: Message, clock: nat, os: Sockets, created: S, cfg: Config,
                           k: string, since: nat, reply: Message)
    requires Orderly(st) && Handled(st, r, msg, cfg)
    requires Remembered(st, k, since, reply)
    ensures Remembered(Handle(st, r, msg, clock, os, created, cfg).state, k, since, reply)
  {}

  lemma StepRemembers<S>(st: State<S>, e: Event<S>, cfg: Config, k: string, since: nat, reply: Message)
    requires Orderly(st) && TableOk(st.txs) && Enabled(st, e, cfg) && Remembered(st, k, since, reply)
    ensures Remembered(Step(st, e, cfg).state, k, since, reply)
  {
    match e {
      case Arrival(msg, clock, os, created) =>
        HandleRemembers(st, ReadOff(msg), msg, clock, os, created, cfg, k, since, reply);
      case Cleanup =>
        if k in st.txs {
          RestStaleness(st.txs[k], st.now);
        }
      case Tick(ticks) =>
      case Cut(id) =>
      case LastReference(s) =>
    }
  }

  lemma {:induction false} RunRemembers<S>(st: State<S>, es: seq<Event<S>>, cfg: Config, k: string, since: nat,
                                           reply: Message)
    requires Orderly(st) && TableOk(st.txs) && Possible(st, es, cfg) && Remembered(st, k, since, reply)
    ensures Remembered(Run(st, es, cfg), k, since, reply)
    ensures TableOk(Run(st, es, cfg).txs)
    decreases es
  {
    if es != [] {
      StepIsOrderly(st, es[0], cfg);
      StepKeepsTable(st, es[0], cfg);
      StepRemembers(st, es[0], cfg, k, since, reply);
      RunRemembers(Step(st, es[0], cfg).state, es[1..], cfg, k, since, reply);
    }
  }

  /** A request other than an ACK under a known key changes nothing at all: it is met with silence, or
      with the remembered response exactly when the transaction is completed. */
  lemma RepetitionIsAbsorbed<S>(st: State<S>, r: Reading, msg: Message, clock: nat, os: Sockets, created: S,
                                cfg: Config)
    requires Orderly(st) && TableOk(st.txs) && Handled(st, r, msg, cfg)
    requires r.callId != "" && msg.isRequest && r.m != ACK && r.key in st.txs
    ensures var after := Handle(st, r, msg, clock, os, created, cfg); var tx := st.txs[r.key];
      && after.state == st
      && after.sent == (if r.branch == tx.branch && tx.state == COMPLETED then [tx.lastResponse.value] else [])
  {
    assert Filed(r.key, st.txs[r.key]);
  }

  /** At most once: after a request has been carried out, whatever happens for less than 33 seconds, a
      request under the same key changes nothing, and is answered by the first one's final response
      or not at all. */
  lemma AtMostOnce<S>(st: State<S>, first: Event<S>, es: seq<Event<S>>, again: Event<S>, cfg: Config, spare: set<int>)
    requires Inv(st, spare, cfg)
    requires first.Arrival? && Enabled(st, first, cfg) && Executes(st, ReadOff(first.msg), first.msg)
    requires Orderly(Step(st, first, cfg).state) && Possible(Step(st, first, cfg).state, es, cfg)
    requires var later := Run(Step(st, first, cfg).state, es, cfg);
      && again.Arrival? && Enabled(later, again, cfg)
      && again.msg.CallId() != "" && again.msg.isRequest && ReadOff(again.msg).m != ACK
      && ReadOff(again.msg).key == ReadOff(first.msg).key
      && later.now - st.now < 33_000_000_000
    ensures var done := Step(st, first, cfg);
      var later := Run(done.state, es, cfg); var after := Step(later, again, cfg);
      && after.state == later
      && done.sent != []
      && (after.sent == [] || after.sent == [done.sent[|done.sent| - 1]])
  {
    var done := Step(st, first, cfg);
    var r := ReadOff(first.msg);
    ExecutedIsFiled(st, r, first.msg, first.clock, first.os, first.created, cfg);
    StepKeepsTable(st, first, cfg);
    RunRemembers(done.state, es, cfg, r.key, st.now, done.sent[|done.sent| - 1]);
    var later := Run(done.state, es, cfg);
    RepetitionIsAbsorbed(later, ReadOff(again.msg), again.msg, again.clock, again.os, again.created, cfg);
  }

  /** The same from a transaction's last activity, whenever that was: for 33 seconds it is not forgotten. */
  lemma ActivityKeepsAlive<S>(st: State<S>, es: seq<Event<S>>, cfg: Config, k: string)
    requires Orderly(st) && TableOk(st.txs) && Possible(st, es, cfg) && k in st.txs
    requires Run(st, es, cfg).now - st.txs[k].lastActive < 33_000_000_000
    ensures k in Run(st, es, cfg).txs && Run(st, es, cfg).txs[k].lastResponse == st.txs[k].lastResponse
  {
    assert Filed(k, st.txs[k]);
    RunRemembers(st, es, cfg, k, st.txs[k].lastActive, st.txs[k].lastResponse.value);
  }

  /** A sweep is due five seconds after the last one; it removes exactly the transactions idle for at least
      33 seconds, and changes no other. The first one, and one that is not due, removes nothing. */
  lemma SweepIsExact<S>(st: State<S>, k: string)
    requires Orderly(st) && TableOk(st.txs)
    ensures var due := st.lastCleanup.Some? && st.now - st.lastCleanup.value >= 5_000_000_000; var after := Sweep(st);
      && (k in after.txs <==> k in st.txs && !(due && st.now - st.txs[k].lastActive >= 33_000_000_000))
      && (k in after.txs ==> after.txs[k] == st.txs[k])
      && after.lastCleanup == (if due || st.lastCleanup.None? then Some(st.now) else st.lastCleanup)
      && after.now == st.now && after.world == st.world
  {
    if k in st.txs {
      assert Filed(k, st.txs[k]);
      RestStaleness(st.txs[k], st.now);
    }
  }

  // ---------------------------------------------------------------- one call at a time

  /** A registered call `d` has the same session, ports and session port in both worlds. */
  ghost predicate SameCall<S>(w: World<S>, t: World<S>, d: string)
    requires Bound(w) && d in w.reg.calls
  {
    var s := w.reg.calls[d];
    && d in t.reg.calls && t.reg.calls[d] == s
    && s in t.sessions && t.sessions[s] == w.sessions[s]
    && PortsOf(t.reg, d) == PortsOf(w.reg, d)
  }

  lemma DropIsLocal<S>(w: World<S>, id: string, d: string)
    requires Bound(w) && d in w.reg.calls && d != id
    ensures SameCall(w, Drop(w, id), d)
  {}

  lemma TerminateIsLocal<S>(w: World<S>, s: S, d: string)
    requires Bound(w) && d in w.reg.calls && s in w.sessions && w.reg.calls[d] != s
    ensures SameCall(w, Terminate(w, s), d) && SameCall(w, Destroy(w, s), d)
  {}

  lemma EstablishIsLocal<S>(w: World<S>, id: string, offer: Sdp.Session, cfg: Config, os: Sockets, d: string)
    requires Sound(w) && Bound(w) && id in w.reg.calls && d in w.reg.calls && d != id
    ensures SameCall(w, Establish(w, id, offer, cfg, os).world, d)
  {
    SessionsAreApart(w);
  }

  lemma ServeIsLocal<S>(w: World<S>, m: Method, id: string, body: string, os: Sockets, created: S, cfg: Config,
                        d: string)
    requires Sound(w) && Bound(w) && d in w.reg.calls && d != id && created !in w.sessions
    requires m != ACK && Readable(w, m, id, body, cfg)
    ensures SameCall(w, Serve(w, m, id, body, os, created, cfg).world, d)
  {
    if m == INVITE {
      if !TurnedAway(w, id, cfg) {
        var entered := Entered(w, id, created);
        assert Bound(entered) && SameCall(w, entered, d);
        EstablishIsLocal(entered, id, Sdp.Parse(body).value, cfg, os, d);
      }
    } else if m == BYE && id in w.reg.calls {
      SessionsAreApart(w);
      TerminateIsLocal(w, w.reg.calls[id], d);
    }
  }

  lemma HandleIsLocal<S>(st: State<S>, r: Reading, msg: Message, clock: nat, os: Sockets, created: S, cfg: Config,
                         d: string)
    requires Sound(st.world) && Bound(st.world) && d in st.world.reg.calls && d != r.callId
      && created !in st.world.sessions
    requires Handled(st, r, msg, cfg)
    ensures SameCall(st.world, Handle(st, r, msg, clock, os, created, cfg).state.world, d)
  {
    if Executes(st, r, msg) {
      ServeIsLocal(st.world, r.m, r.callId, msg.body, os, created, cfg, d);
    }
  }

  /** The call an event is about, if any. */
  function Subject<S>(e: Event<S>): Option<string> {
    match e
    case Arrival(msg, _, _, _) => Some(ReadOff(msg).callId)
    case Cut(id) => Some(id)
    case Cleanup => None
    case Tick(_) => None
    case LastReference(_) => None
  }

  /** A step leaves every call but its own exactly as it was: session, port, and the ports leading to it. */
  lemma OtherCallsUntouched<S>(st: State<S>, e: Event<S>, cfg: Config, spare: set<int>, d: string)
    requires Inv(st, spare, cfg) && Enabled(st, e, cfg) && d in st.world.reg.calls && Subject(e) != Some(d)
    ensures SameCall(st.world, Step(st, e, cfg).state.world, d)
  {
    match e {
      case Arrival(msg, clock, os, created) =>
        HandleIsLocal(st, ReadOff(msg), msg, clock, os, created, cfg, d);
      case Cut(id) => DropIsLocal(st.world, id, d);
      case LastReference(s) => TerminateIsLocal(st.world, s, d);
      case Cleanup =>
      case Tick(ticks) =>
    }
  }

  /** How an INVITE ends, known before it is served: 486 for a new call beyond the limit, 500 without a
      free port, 488 when the best match does not exist or is payload type -1, 200 otherwise; and with a
      200, and only then, its call is registered afterwards. */
  lemma InviteEndsExactly<S>(w: World<S>, id: string, body: string, os: Sockets, created: S, cfg: Config)
    requires Sound(w) && Ok(w.server) && Configured(w.server, cfg) && Readable(w, INVITE, id, body, cfg)
    ensures var done := ServeInvite(w, id, body, os, created, cfg);
      && done.verdict.code ==
           (if TurnedAway(w, id, cfg) then 486
            else if !PortFree(w.server, cfg, os) then 500
            else if !Negotiable(Sdp.Parse(body).value, cfg) then 488
            else 200)
      && (id in done.world.reg.calls <==> done.verdict.code == 200)
  {
    if !TurnedAway(w, id, cfg) {
      EstablishedExactly(Entered(w, id, created), id, Sdp.Parse(body).value, cfg, os);
    }
  }

  /** A registered call survives a request of its own exactly if that is no BYE and no CANCEL, and, when
      it is another INVITE, there is a free port for it once more and its best match
      exists and is not payload type -1. */
  lemma CallSurvivesExactly<S>(w: World<S>, m: Method, id: string, body: string, os: Sockets, created: S, cfg: Config)
    requires Sound(w) && Ok(w.server) && Configured(w.server, cfg) && m != ACK && Readable(w, m, id, body, cfg)
    requires id in w.reg.calls
    ensures id in Serve(w, m, id, body, os, created, cfg).world.reg.calls <==>
      && m != BYE && m != CANCEL
      && (m == INVITE ==> PortFree(w.server, cfg, os) && Negotiable(Sdp.Parse(body).value, cfg))
  {
    if m == INVITE {
      InviteEndsExactly(w, id, body, os, created, cfg);
    }
  }

  // ---------------------------------------------------------------- an accepted call

  lemma AcceptedEchoes(msg: Message, clock: nat, contact: string, answer: string)
    ensures var m := Accepting(msg, clock, contact, answer);
      Echoes(msg, m.statusCode, clock, m)
  {
    var res := Response(msg, 200, "OK", clock);
    var typed := res.(headers := Insert(res.headers, CONTENT_TYPE, SDP_TYPE));
    NamesAreDistinct();
    ResponseEchoes(msg, 200, "OK", clock);
    AssembleGives(Fields(msg, 200, clock), VIA);
    InsertKeepsEcho(msg, 200, clock, res, CONTENT_TYPE, SDP_TYPE);
    InsertKeepsSorted(res.headers, CONTENT_TYPE, SDP_TYPE);
    InsertKeepsEcho(msg, 200, clock, typed, CONTACT, contact);
  }

  /** Everything sent for a request echoes that request. */
  lemma RepliesEcho(msg: Message, v: Verdict, clock: nat, cfg: Config, m: Message)
    requires m in Replies(msg, v, clock, cfg)
    ensures Echoes(msg, m.statusCode, clock, m)
  {
    if m == FinalReply(msg, v, clock, cfg) {
      if v.answer != "" {
        AcceptedEchoes(msg, clock, Contact(cfg), v.answer);
      } else {
        ResponseEchoes(msg, v.code, Phrase(v.code), clock);
      }
    } else {
      ResponseEchoes(msg, 100, TRYING_PHRASE, clock);
    }
  }

  lemma PlainReplyDelivers(msg: Message, code: int, phrase: string, clock: nat, m: Message)
    requires Parsed(msg) && msg.isRequest && TrimmedValues(msg.headers) && IsInt(code) && '\n' !in phrase
    requires m == Response(msg, code, phrase, clock)
    ensures Delivers(msg, clock, m)
  {
    ViaStackPreserved(msg, code, phrase, clock);
  }

  lemma DescriptionDelivers(msg: Message, clock: nat, contact: string, answer: string, m: Message)
    requires Parsed(msg) && msg.isRequest && TrimmedValues(msg.headers) && WireValue(contact) && |answer| <= INT_MAX
    requires m == Accepting(msg, clock, contact, answer)
    ensures Delivers(msg, clock, m)
  {
    AnswerDelivered(msg, clock, contact, answer);
  }

  lemma PhraseIsOneLine(code: int, phrase: string)
    requires phrase == Phrase(code) || phrase == TRYING_PHRASE
    ensures '\n' !in phrase
  {}

  lemma OneOfReplies(msg: Message, v: Verdict, clock: nat, cfg: Config, m: Message)
    requires m in Replies(msg, v, clock, cfg)
    ensures || m == Response(msg, 100, TRYING_PHRASE, clock)
            || m == Response(msg, v.code, Phrase(v.code), clock)
            || m == Accepting(msg, clock, Contact(cfg), v.answer)
  {}

  /** Everything sent for a parsed request arrives: printed and read back it still echoes the request, with
      its code, its phrase and its whole body. */
  lemma RepliesDeliver(msg: Message, v: Verdict, clock: nat, cfg: Config, m: Message)
    requires Parsed(msg) && msg.isRequest && TrimmedValues(msg.headers)
    requires WireValue(Contact(cfg)) && IsInt(v.code) && |v.answer| <= INT_MAX
    requires m in Replies(msg, v, clock, cfg)
    ensures Delivers(msg, clock, m)
  {
    var phrase, trying, contact := Phrase(v.code), TRYING_PHRASE, Contact(cfg);
    OneOfReplies(msg, v, clock, cfg, m);
    PhraseIsOneLine(v.code, phrase);
    PhraseIsOneLine(v.code, trying);
    OneOfTheseDelivers(msg, v, clock, phrase, trying, contact, m);
  }

  lemma OneOfTheseDelivers(msg: Message, v: Verdict, clock: nat, phrase: string, trying: string, contact: string,
                           m: Message)
    requires Parsed(msg) && msg.isRequest && TrimmedValues(msg.headers)
    requires '\n' !in phrase && '\n' !in trying && WireValue(contact) && IsInt(v.code) && |v.answer| <= INT_MAX
    requires || m == Response(msg, 100, trying, clock)
             || m == Response(msg, v.code, phrase, clock)
             || m == Accepting(msg, clock, contact, v.answer)
    ensures Delivers(msg, clock, m)
  {
    if m == Response(msg, 100, trying, clock) {
      PlainReplyDelivers(msg, 100, trying, clock, m);
    } else if m == Response(msg, v.code, phrase, clock) {
      PlainReplyDelivers(msg, v.code, phrase, clock, m);
    } else {
      DescriptionDelivers(msg, clock, contact, v.answer, m);
    }
  }

  lemma EstablishedIsServed<S>(w: World<S>, spare: set<int>, id: string, offer: Sdp.Session, cfg: Config, os: Sockets)
    requires Owned(w, spare) && id in w.reg.calls && OthersServed(w, id)
    requires Establish(w, id, offer, cfg, os).code == 200
    ensures var t := Establish(w, id, offer, cfg, os);
      && id in t.world.reg.calls && t.world.reg.calls[id] in t.world.sessions
      && t.world.sessions[t.world.reg.calls[id]].payloadType == Sdp.Negotiated(offer, cfg.codecPreference).payloadType
      && t.answer != ""
      && t.answer == Sdp.Answer(offer, cfg.bindIp, t.world.sessions[t.world.reg.calls[id]].localPort,
                                cfg.codecPreference)
  {}

  /** An INVITE that is let in, with a free port and a negotiable offer, is accepted, and the last message
      sent for it carries the description of a call that is reachable: read back, it gives the gateway's
      address, the negotiated codec, and a port over which RTP arriving at the gateway is led to exactly
      the session of this call, which takes packets of that codec's payload type. */
  lemma AcceptedCallIsReachable<S>(w: World<S>, spare: set<int>, id: string, msg: Message, clock: nat, os: Sockets,
                                   created: S, cfg: Config)
    requires Sound(w) && WorldOk(w, spare, cfg) && Configured(w.server, cfg) && created !in w.sessions
    requires !TurnedAway(w, id, cfg) && Sdp.Parse(msg.body).Some?
    requires PortFree(w.server, cfg, os) && Negotiable(Sdp.Parse(msg.body).value, cfg)
    requires SdpRoundTrip.Address(cfg.bindIp) && cfg.rtpPortEnd <= INT_MAX
    ensures var codec := Sdp.Negotiated(Sdp.Parse(msg.body).value, cfg.codecPreference);
      var done := Gateway.ServeInvite(w, id, msg.body, os, created, cfg);
      var sent := Replies(msg, done.verdict, clock, cfg); var last := sent[|sent| - 1];
      && id in done.world.reg.calls && done.world.reg.calls[id] in done.world.sessions
      && var port := done.world.sessions[done.world.reg.calls[id]].localPort;
         && last.statusCode == 200
         && Sdp.Parse(last.body) == Some(SdpRoundTrip.Understood(cfg.bindIp, port, codec))
         && done.world.sessions[done.world.reg.calls[id]].payloadType == codec.payloadType
         && port in Active(done.world.server)
         && ByPort(done.world.reg, port) == Some(done.world.reg.calls[id])
  {
    var offer := Sdp.Parse(msg.body).value;
    var entered := Entered(w, id, created);
    EnteredIsOk(w, id, created, cfg, spare);
    EstablishedExactly(entered, id, offer, cfg, os);
    EstablishedIsServed(entered, spare, id, offer, cfg, os);
    EstablishKeeps(entered, spare, id, offer, cfg, os);
    EstablishKeepsConfigured(entered, id, offer, cfg, os);
    var t := Establish(entered, id, offer, cfg, os).world;
    PortIsSmall(t, spare + Stranded(entered.server, os) + Overwritten(entered, id, offer, cfg, os), id, cfg);
    var port := t.sessions[t.reg.calls[id]].localPort;
    MappedPortsLead(t.reg, port);
    SdpRoundTrip.OfferAnswered(msg.body, cfg.bindIp, port, cfg.codecPreference);
  }

  /** A call's port is active, and an int when the configured range ends in one. */
  lemma PortIsSmall<S>(w: World<S>, spare: set<int>, id: string, cfg: Config)
    requires Owned(w, spare) && AllServed(w) && Configured(w.server, cfg) && id in w.reg.calls
      && cfg.rtpPortEnd <= INT_MAX
    ensures var port := w.sessions[w.reg.calls[id]].localPort;
      && port in Active(w.server) && IsInt(port)
      && port in w.reg.portMap && w.reg.portMap[port] == id
  {
    var port := w.sessions[w.reg.calls[id]].localPort;
    assert Served(w, id);
    assert port in Held(w.sessions);
    ActiveInside(w.server, cfg.rtpPortStart, cfg.rtpPortEnd, port);
  }
}
