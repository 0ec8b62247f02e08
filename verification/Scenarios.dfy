/** Two short runs of the signalling: a repeated INVITE that is accepted and costs a port, and one that
    is refused and ends the call it repeats. */
module Scenarios {
  import opened Text
  import opened SipMessage
  import opened SipResponse
  import opened Transactions
  import opened RtpPorts
  import opened Calls
  import opened Gateway
  import opened Safety
  import opened Guarantees
  import Sdp
  import SdpRoundTrip

  const BRANCH := "branch="

  /** An INVITE for a call, under a branch. */
  function Invite(id: string, branch: string, body: string): Message {
    Message(true, INVITE_METHOD, "sip:bot", SIP_VERSION, 0, "",
            [Header(CALL_ID, id), Header(VIA, BRANCH + branch)], body)
  }

  lemma OnlyValue(b: string, w: string, a: string)
    requires a != b
    ensures ValuesOf([Header(b, w)], b) == [w] && ValuesOf([Header(b, w)], a) == []
  {
    assert [Header(b, w)][1..] == [];
    assert [w] + [] == [w];
  }

  lemma FirstValue(a: string, v: string, b: string, w: string)
    requires a != b
    ensures var hs := [Header(a, v), Header(b, w)];
      ValuesOf(hs, a) == [v] && ValuesOf(hs, b) == [w]
  {
    var hs := [Header(a, v), Header(b, w)];
    assert hs[1..] == [Header(b, w)];
    OnlyValue(b, w, a);
  }

  lemma BranchOf(via: string, branch: string)
    requires via == BRANCH + branch && ';' !in branch
    ensures Find(via, "branch=") == Some(0)
    ensures via[7..] == branch && branch[..IndexOf(branch, ';')] == branch
  {
    assert StartsWith(via, BRANCH) && |BRANCH| == 7;
    assert forall k :: 0 <= k < |branch| ==> branch[k] in branch;
  }

  lemma HeaderReads(msg: Message, name: string, key: string, value: string)
    requires Lower(name) == key && ValuesOf(msg.headers, key) == [value]
    ensures msg.HeaderOr(name, "") == value
  {}

  lemma CallIdReads(msg: Message, id: string)
    requires ValuesOf(msg.headers, CALL_ID) == [id]
    ensures msg.CallId() == id
  {
    var name := "Call-ID";
    LowerIs(name, CALL_ID);
    HeaderReads(msg, name, CALL_ID, id);
  }

  lemma BranchReads(msg: Message, branch: string)
    requires ValuesOf(msg.headers, VIA) == [BRANCH + branch] && ';' !in branch
    ensures msg.Branch() == branch
  {
    var name := "Via";
    LowerIs(name, VIA);
    HeaderReads(msg, name, VIA, BRANCH + branch);
    BranchOf(BRANCH + branch, branch);
  }

  lemma KeysDiffer()
    ensures CALL_ID != VIA
  {
    assert |CALL_ID| == 7 && |VIA| == 3;
  }

  lemma InviteReads(id: string, branch: string, body: string)
    requires ';' !in branch
    ensures ReadOff(Invite(id, branch, body))
         == Reading(id, branch, Key(id, branch, INVITE_METHOD), Key(id, branch, INVITE_METHOD), INVITE)
  {
    var msg := Invite(id, branch, body);
    KeysDiffer();
    FirstValue(CALL_ID, id, VIA, BRANCH + branch);
    CallIdReads(msg, id);
    BranchReads(msg, branch);
  }

  // ---------------------------------------------------------------- two INVITEs for one call

  /** Room for a call, and two even ports next to one another. */
  ghost predicate Roomy(cfg: Config) {
    && GoodRange(cfg) && Limit(cfg.maxCalls) > 0
    && exists p :: p % 2 == 0 && cfg.rtpPortStart <= p && p + 2 <= cfg.rtpPortEnd
  }

  ghost predicate Working(os: Sockets) {
    forall p :: os(p) == Opened
  }

  /** A body with a negotiable offer. */
  predicate Offers(body: string, cfg: Config) {
    Sdp.Parse(body).Some? && Negotiable(Sdp.Parse(body).value, cfg)
  }

  lemma FreeAt(s: Server, cfg: Config, os: Sockets, p: int)
    requires cfg.rtpPortStart <= p <= cfg.rtpPortEnd && p % 2 == 0 && p !in Active(s) && os(p) == Opened
    ensures PortFree(s, cfg, os)
  {}

  /** Two even ports, and one of them in use at most. */
  lemma OneOfTwo(s: Server, cfg: Config, os: Sockets, port: int, p: int)
    requires Working(os) && Active(s) <= {port}
    requires p % 2 == 0 && cfg.rtpPortStart <= p && p + 2 <= cfg.rtpPortEnd
    ensures PortFree(s, cfg, os)
  {
    assert (p + 2) % 2 == 0;
    FreeAt(s, cfg, os, if port == p then p + 2 else p);
  }

  lemma OtherPortIsFree(s: Server, cfg: Config, os: Sockets)
    requires Ok(s) && Configured(s, cfg) && Active(s) == {} && Roomy(cfg) && Working(os)
    ensures PortFree(s, cfg, os) && PortFree(Allocate(s, os).server, cfg, os)
  {
    var g := Allocate(s, os);
    AllocateExactly(s, os);
    var p :| p % 2 == 0 && cfg.rtpPortStart <= p && p + 2 <= cfg.rtpPortEnd;
    OneOfTwo(s, cfg, os, g.port, p);
    OneOfTwo(g.server, cfg, os, g.port, p);
  }

  lemma StartFacts<S>(cfg: Config, n: nat)
    requires GoodRange(cfg) && n > 0
    ensures var w := Start<S>(cfg, n).world;
      && Sound(w) && Ok(w.server) && Configured(w.server, cfg) && Active(w.server) == {} && w.reg.calls == map[]
  {
    FreshIsOk(cfg.rtpPortStart, cfg.rtpPortEnd, n);
    FreshIsPartitioned(cfg.rtpPortStart, cfg.rtpPortEnd, n);
  }

  /** An accepted INVITE leaves the allocator as the allocation left it. */
  lemma EstablishTakesOne<S>(w: World<S>, id: string, offer: Sdp.Session, cfg: Config, os: Sockets)
    requires Sound(w) && id in w.reg.calls && Establish(w, id, offer, cfg, os).code == 200
    ensures Establish(w, id, offer, cfg, os).world.server == Allocate(w.server, os).server
    ensures Establish(w, id, offer, cfg, os).world.sessions.Keys == w.sessions.Keys
  {}

  /** A first INVITE is accepted, and a port is left. */
  lemma FirstIsAccepted<S>(cfg: Config, n: nat, id: string, body: string, os: Sockets, created: S)
    requires Roomy(cfg) && n > 0 && Working(os) && Offers(body, cfg)
    ensures var w := Start<S>(cfg, n).world;
      && Sound(w) && !TurnedAway(w, id, cfg)
      && var t := ServeInvite(w, id, body, os, created, cfg).world;
         id in t.reg.calls && PortFree(t.server, cfg, os) && t.sessions.Keys == {created}
  {
    var w := Start<S>(cfg, n).world;
    StartFacts<S>(cfg, n);
    OtherPortIsFree(w.server, cfg, os);
    InviteEndsExactly(w, id, body, os, created, cfg);
    EstablishTakesOne(Open(w, id, created), id, Sdp.Parse(body).value, cfg, os);
  }

  /** The call is up: its INVITE's transaction is the only one, and a port is free. */
  ghost predicate CallIsUp<S>(st: State<S>, id: string, key: string, created: S, cfg: Config, os: Sockets) {
    && st.txs.Keys == {key} && id in st.world.reg.calls && PortFree(st.world.server, cfg, os)
    && st.world.sessions.Keys == {created}
  }

  lemma HandleFirst<S>(cfg: Config, n: nat, r: Reading, msg: Message, clock: nat, os: Sockets, created: S)
    requires Roomy(cfg) && n > 0 && Working(os) && Offers(msg.body, cfg)
    requires r.m == INVITE && r.callId != "" && msg.isRequest
    ensures var st := Start<S>(cfg, n);
      && Handled(st, r, msg, cfg)
      && CallIsUp(Handle(st, r, msg, clock, os, created, cfg).state, r.callId, r.key, created, cfg, os)
  {
    FirstIsAccepted(cfg, n, r.callId, msg.body, os, created);
  }

  lemma HandleSecond<S>(st: State<S>, r: Reading, msg: Message, clock: nat, os: Sockets, created: S, cfg: Config)
    requires Sound(st.world) && Handled(st, r, msg, cfg) && SetsUp(st, r, msg, cfg)
    ensures Handle(st, r, msg, clock, os, created, cfg).state.world
         == ServeInvite(st.world, r.callId, msg.body, os, created, cfg).world
  {}

  lemma SecondSetsUp<S>(st: State<S>, r: Reading, msg: Message, key: string, created: S, cfg: Config, os: Sockets)
    requires CallIsUp(st, r.callId, key, created, cfg, os)
    requires r.m == INVITE && r.callId != "" && msg.isRequest && r.key != key && Sdp.Parse(msg.body).Some?
    ensures Handled(st, r, msg, cfg) && SetsUp(st, r, msg, cfg)
    ensures Negotiable(Sdp.Parse(msg.body).value, cfg) ==> AcceptedAgain(st, r, msg, os, cfg)
  {}

  lemma KeysOfTwo(id: string)
    ensures Key(id, "1", INVITE_METHOD) != Key(id, "2", INVITE_METHOD)
  {
    var m := INVITE_METHOD;
    assert ':' !in m && ':' !in "1" && ':' !in "2";
    if Key(id, "1", m) == Key(id, "2", m) {
      KeyIsInjective(id, "1", m, id, "2", m);
      assert false;
    }
  }

  /** The INVITE number `k` of a call. */
  function Arrives(id: string, branch: string, body: string, os: Sockets, created: int): Event<int> {
    Arrival(Invite(id, branch, body), 0, os, created)
  }

  lemma AfterFirst(cfg: Config, n: nat, id: string, body: string, os: Sockets)
    requires Roomy(cfg) && n > 0 && Working(os) && Offers(body, cfg) && id != ""
    ensures var st := Start<int>(cfg, n); var e := Arrives(id, "1", body, os, 0);
      && Enabled(st, e, cfg)
      && CallIsUp(Step(st, e, cfg).state, id, Key(id, "1", INVITE_METHOD), 0, cfg, os)
  {
    var e := Arrives(id, "1", body, os, 0);
    InviteReads(id, "1", body);
    HandleFirst(cfg, n, ReadOff(e.msg), e.msg, 0, os, 0);
  }

  lemma ThenSecond(st: State<int>, id: string, body: string, os: Sockets, cfg: Config)
    requires CallIsUp(st, id, Key(id, "1", INVITE_METHOD), 0, cfg, os) && id != "" && Sdp.Parse(body).Some?
    ensures var f := Arrives(id, "2", body, os, 1); var r := ReadOff(f.msg);
      && Enabled(st, f, cfg) && r.callId == id && SetsUp(st, r, f.msg, cfg)
      && (Offers(body, cfg) ==> AcceptedAgain(st, r, f.msg, os, cfg))
  {
    var f := Arrives(id, "2", body, os, 1);
    InviteReads(id, "2", body);
    KeysOfTwo(id);
    SecondSetsUp(st, ReadOff(f.msg), f.msg, Key(id, "1", INVITE_METHOD), 0, cfg, os);
  }

  /** A run of two events. */
  lemma TwoSteps<S>(st: State<S>, e: Event<S>, f: Event<S>, cfg: Config)
    requires Orderly(st) && Enabled(st, e, cfg)
    requires Orderly(Step(st, e, cfg).state) && Enabled(Step(st, e, cfg).state, f, cfg)
    ensures Possible(st, [e, f], cfg) && Run(st, [e, f], cfg) == Step(Step(st, e, cfg).state, f, cfg).state
    ensures Leaks(Step(st, e, cfg).state, f, cfg) ==> !Leakless(st, [e, f], cfg)
  {
    assert [] + [e] == [e] && [e] + [f] == [e, f];
    RunSnoc(st, [], e, cfg);
    RunSnoc(st, [e], f, cfg);
    LeaklessSnoc(st, [e], f, cfg);
  }

  /** A run that leaks shows it. */
  lemma LeakShows<S>(n: nat, es: seq<Event<S>>, cfg: Config)
    requires GoodRange(cfg) && n > 0 && Possible(Start(cfg, n), es, cfg) && !Leakless(Start(cfg, n), es, cfg)
    ensures var w := Run(Start(cfg, n), es, cfg).world;
      AllLost(Start(cfg, n), es, cfg) != {} && Active(w.server) != Held(w.sessions)
  {
    StartIsOk<S>(n, cfg);
    LeaksExactly(n, es, cfg);
    LosesExactly(Start(cfg, n), es, cfg, {});
  }

  /** Two INVITEs for one call, both with a negotiable offer: the second is accepted as
      well, and the port of the first is lost. */
  lemma RepeatedInviteLosesAPort(cfg: Config, n: nat, id: string, body: string, again: string, os: Sockets)
    requires Roomy(cfg) && n > 0 && Working(os) && Offers(body, cfg) && Offers(again, cfg) && id != ""
    ensures var st := Start<int>(cfg, n);
      var es := [Arrives(id, "1", body, os, 0), Arrives(id, "2", again, os, 1)];
      && Possible(st, es, cfg)
      && var w := Run(st, es, cfg).world;
         AllLost(st, es, cfg) != {} && Active(w.server) != Held(w.sessions)
  {
    var st := Start<int>(cfg, n);
    var e, f := Arrives(id, "1", body, os, 0), Arrives(id, "2", again, os, 1);
    AfterFirst(cfg, n, id, body, os);
    StepIsOrderly(st, e, cfg);
    ThenSecond(Step(st, e, cfg).state, id, again, os, cfg);
    TwoSteps(st, e, f, cfg);
    LeakShows(n, [e, f], cfg);
  }

  /** The second without such an offer: it is refused, and the call that was up is ended. */
  lemma RefusedInviteEndsTheCall(cfg: Config, n: nat, id: string, body: string, again: string, os: Sockets)
    requires Roomy(cfg) && n > 0 && Working(os) && Offers(body, cfg) && id != ""
    requires Sdp.Parse(again).Some? && !Offers(again, cfg)
    ensures var st := Start<int>(cfg, n); var e, f := Arrives(id, "1", body, os, 0), Arrives(id, "2", again, os, 1);
      && Enabled(st, e, cfg) && id in Step(st, e, cfg).state.world.reg.calls
      && Possible(st, [e, f], cfg) && id !in Run(st, [e, f], cfg).world.reg.calls
  {
    var st := Start<int>(cfg, n);
    var e, f := Arrives(id, "1", body, os, 0), Arrives(id, "2", again, os, 1);
    AfterFirst(cfg, n, id, body, os);
    StartIsOk<int>(n, cfg);
    StepKeeps(st, e, cfg, {});
    var next := Step(st, e, cfg).state;
    ThenSecond(next, id, again, os, cfg);
    TwoSteps(st, e, f, cfg);
    HandleSecond(next, ReadOff(f.msg), f.msg, 0, os, 1, cfg);
    InviteEndsExactly(next.world, id, again, os, 1, cfg);
  }

  // ---------------------------------------------------------------- with every value given

  const CFG := Config(10, "10.0.0.1", 5060, [SdpRoundTrip.PCMU], 10000, 10003)

  const WORKING: Sockets := (p: int) => Opened

  /** PCMU under its static payload type. */
  const OFFER := Sdp.PrintEntries([Sdp.Entry('m', Sdp.MediaValue(9, 0))])

  lemma OfferReads()
    ensures Offers(OFFER, CFG)
  {
    var es := [Sdp.Entry('m', Sdp.MediaValue(9, 0))];
    SdpRoundTrip.MediaIsSafe(9, 0);
    SdpRoundTrip.ParseEntries(Sdp.NO_SESSION, es);
    SdpRoundTrip.MediaField(Sdp.NO_SESSION, 9, 0);
    SdpRoundTrip.ApplyStep(Sdp.NO_SESSION, es, 0);
    assert es[0..] == es && es[1..] == [];
    var offer := Sdp.Parse(OFFER).value;
    assert Sdp.Audio(offer.media) == Some(offer.media[0]);
    assert Sdp.NameOf(offer, 0) == SdpRoundTrip.PCMU;
    assert Sdp.Pick(offer, [0], [SdpRoundTrip.PCMU]) == Some((0, 0));
  }

  /** A body without any description offers nothing. */
  lemma NothingOffered()
    ensures Sdp.Parse("").Some? && !Offers("", CFG)
  {
    assert Sdp.Audio(Sdp.NO_SESSION.media) == None;
  }

  lemma ExampleIsRoomy()
    ensures Roomy(CFG) && Working(WORKING)
  {
    var p := 10000;
    assert p % 2 == 0 && CFG.rtpPortStart <= p && p + 2 <= CFG.rtpPortEnd;
  }

  /** Ports 10000 to 10003 and the offer of PCMU, twice: both INVITEs are accepted, and a port is lost. */
  lemma LeakExample()
    ensures var st := Start<int>(CFG, 1);
      var es := [Arrives("c", "1", OFFER, WORKING, 0), Arrives("c", "2", OFFER, WORKING, 1)];
      Possible(st, es, CFG) && AllLost(st, es, CFG) != {}
  {
    OfferReads();
    ExampleIsRoomy();
    RepeatedInviteLosesAPort(CFG, 1, "c", OFFER, OFFER, WORKING);
  }

  /** The same with an empty body the second time: the first INVITE's call is up, and then gone. */
  lemma EndedExample()
    ensures var st := Start<int>(CFG, 1);
      var e, f := Arrives("c", "1", OFFER, WORKING, 0), Arrives("c", "2", "", WORKING, 1);
      && Enabled(st, e, CFG) && "c" in Step(st, e, CFG).state.world.reg.calls
      && Possible(st, [e, f], CFG) && "c" !in Run(st, [e, f], CFG).world.reg.calls
  {
    OfferReads();
    NothingOffered();
    ExampleIsRoomy();
    RefusedInviteEndsTheCall(CFG, 1, "c", OFFER, "", WORKING);
  }
}
