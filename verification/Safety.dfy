/** What every run of the signalling keeps: the registry agrees with itself, every active port has
    exactly one owner or is accounted for, and a request is carried out at most once. */
module Safety {
  import opened Text
  import opened SipMessage
  import opened Transactions
  import opened RtpPorts
  import opened Calls
  import opened Gateway
  import Sdp

  // ---------------------------------------------------------------- runs

  lemma AllocateKeepsTurn(s: Server, os: Sockets)
    requires s.next < |s.workers|
    ensures Allocate(s, os).server.next < |Allocate(s, os).server.workers|
  {
    AskKeepsShape(s, |s.workers|, os);
  }

  lemma EstablishIsSound<S>(w: World<S>, id: string, offer: Sdp.Session, cfg: Config, os: Sockets)
    requires Sound(w) && id in w.reg.calls
    ensures Sound(Establish(w, id, offer, cfg, os).world)
  {
    AllocateKeepsTurn(w.server, os);
  }

  lemma ServeIsSound<S>(w: World<S>, m: Method, id: string, body: string, os: Sockets, created: S, cfg: Config)
    requires Sound(w) && m != ACK && Readable(w, m, id, body, cfg)
    ensures Sound(Serve(w, m, id, body, os, created, cfg).world)
  {
    if m == INVITE && !TurnedAway(w, id, cfg) {
      assert Sound(Entered(w, id, created));
      EstablishIsSound(Entered(w, id, created), id, Sdp.Parse(body).value, cfg, os);
    }
  }

  lemma {:induction false} SentAllIsNow(tx: Tx, replies: seq<Message>, now: nat)
    requires tx.lastActive == now
    ensures SentAll(tx, replies, now).lastActive == now
  {
    if replies != [] {
      SentAllIsNow(tx, replies[..|replies| - 1], now);
    }
  }

  lemma ExecuteIsOrderly<S>(st: State<S>, r: Reading, msg: Message, clock: nat, os: Sockets, created: S, cfg: Config)
    requires Orderly(st) && r.m != ACK && Readable(st.world, r.m, r.callId, msg.body, cfg)
    ensures Orderly(Execute(st, r, msg, clock, os, created, cfg).state)
  {
    ServeIsSound(st.world, r.m, r.callId, msg.body, os, created, cfg);
    var service := Serve(st.world, r.m, r.callId, msg.body, os, created, cfg);
    SentAllIsNow(NewTx(r.branch, msg.methodStr, st.now), Replies(msg, service.verdict, clock, cfg), st.now);
  }

  lemma HandleIsOrderly<S>(st: State<S>, r: Reading, msg: Message, clock: nat, os: Sockets, created: S, cfg: Config)
    requires Orderly(st) && Handled(st, r, msg, cfg)
    ensures Orderly(Handle(st, r, msg, clock, os, created, cfg).state)
  {
    if Executes(st, r, msg) {
      ExecuteIsOrderly(st, r, msg, clock, os, created, cfg);
    }
  }

  lemma StepIsOrderly<S>(st: State<S>, e: Event<S>, cfg: Config)
    requires Orderly(st) && Enabled(st, e, cfg)
    ensures Orderly(Step(st, e, cfg).state)
  {
    match e {
      case Arrival(msg, clock, os, created) =>
        HandleIsOrderly(st, ReadOff(msg), msg, clock, os, created, cfg);
      case LastReference(s) =>
        var w := Terminate(st.world, s);
        assert w.reg == st.world.reg && w.sessions.Keys == st.world.sessions.Keys;
      case Cut(id) =>
      case Cleanup =>
      case Tick(ticks) =>
    }
  }

  /** The events can happen one after the other. */
  ghost predicate Possible<S>(st: State<S>, es: seq<Event<S>>, cfg: Config)
    requires Orderly(st)
    decreases es
  {
    es == []
    || (Enabled(st, es[0], cfg) && (StepIsOrderly(st, es[0], cfg); Possible(Step(st, es[0], cfg).state, es[1..], cfg)))
  }

  ghost function Run<S>(st: State<S>, es: seq<Event<S>>, cfg: Config): (t: State<S>)
    requires Orderly(st) && Possible(st, es, cfg)
    ensures Orderly(t)
    decreases es
  {
    if es == [] then st
    else
      StepIsOrderly(st, es[0], cfg);
      Run(Step(st, es[0], cfg).state, es[1..], cfg)
  }

  /** A first event. */
  lemma RunHead<S>(st: State<S>, e: Event<S>, es: seq<Event<S>>, cfg: Config)
    requires Orderly(st) && Enabled(st, e, cfg)
    ensures Orderly(Step(st, e, cfg).state)
    ensures Possible(st, [e] + es, cfg) <==> Possible(Step(st, e, cfg).state, es, cfg)
    ensures Possible(st, [e] + es, cfg) ==> Run(st, [e] + es, cfg) == Run(Step(st, e, cfg).state, es, cfg)
  {
    StepIsOrderly(st, e, cfg);
    assert ([e] + es)[1..] == es;
  }

  lemma MoveSplit<T>(es: seq<T>, e: T)
    requires es != []
    ensures es == [es[0]] + es[1..] && es + [e] == [es[0]] + (es[1..] + [e])
  {}

  /** One event more. */
  lemma {:induction false} RunSnoc<S>(st: State<S>, es: seq<Event<S>>, e: Event<S>, cfg: Config)
    requires Orderly(st) && Possible(st, es, cfg) && Enabled(Run(st, es, cfg), e, cfg)
    ensures Possible(st, es + [e], cfg)
    ensures Run(st, es + [e], cfg) == Step(Run(st, es, cfg), e, cfg).state
    decreases es
  {
    if es == [] {
      RunHead(st, e, [], cfg);
      assert es + [e] == [e] + [];
    } else {
      var rest := es[1..];
      MoveSplit(es, e);
      RunHead(st, es[0], rest, cfg);
      RunSnoc(Step(st, es[0], cfg).state, rest, e, cfg);
      RunHead(st, es[0], rest + [e], cfg);
    }
  }

  // ---------------------------------------------------------------- the invariant

  /** A stored transaction is at rest and filed under a key of its own branch and method. */
  ghost predicate Filed(k: string, tx: Tx) {
    AtRest(tx) && exists c :: k == Key(c, tx.branch, tx.methodStr)
  }

  ghost predicate TableOk(txs: map<string, Tx>) {
    forall k :: k in txs ==> Filed(k, txs[k])
  }

  ghost predicate WithinLimit<S>(w: World<S>, cfg: Config) {
    cfg.maxCalls >= 0 ==> |w.reg.calls| <= cfg.maxCalls
  }

  ghost predicate WorldOk<S>(w: World<S>, spare: set<int>, cfg: Config) {
    Owned(w, spare) && AllServed(w) && WithinLimit(w, cfg)
  }

  ghost predicate Inv<S>(st: State<S>, spare: set<int>, cfg: Config) {
    Orderly(st) && TableOk(st.txs) && WorldOk(st.world, spare, cfg) && Configured(st.world.server, cfg)
  }

  /** The ports that serving an INVITE puts beyond reach: stranded ones, and one it overwrites. */
  function LostByInvite<S>(w: World<S>, id: string, body: string, os: Sockets, created: S, cfg: Config): set<int>
    requires Sound(w) && Readable(w, INVITE, id, body, cfg)
  {
    if TurnedAway(w, id, cfg) then {}
    else Stranded(w.server, os) + Overwritten(Entered(w, id, created), id, Sdp.Parse(body).value, cfg, os)
  }

  function LostBy<S>(st: State<S>, r: Reading, msg: Message, os: Sockets, created: S, cfg: Config): set<int>
    requires Sound(st.world) && Handled(st, r, msg, cfg)
  {
    if Executes(st, r, msg) && r.m == INVITE then
      LostByInvite(st.world, r.callId, msg.body, os, created, cfg)
    else {}
  }

  /** The ports a step puts beyond reach. */
  ghost function Lost<S>(st: State<S>, e: Event<S>, cfg: Config): set<int>
    requires Sound(st.world) && Enabled(st, e, cfg)
  {
    if e.Arrival? then LostBy(st, ReadOff(e.msg), e.msg, e.os, e.created, cfg) else {}
  }

  lemma DroppedCount<S>(m: map<string, S>, id: string)
    ensures |m - {id}| <= |m|
  {
    if id in m {
      assert m.Keys == (m - {id}).Keys + {id};
    } else {
      assert m - {id} == m;
    }
  }

  lemma EstablishKeepsCalls<S>(w: World<S>, id: string, offer: Sdp.Session, cfg: Config, os: Sockets)
    requires Sound(w) && id in w.reg.calls
    ensures |Establish(w, id, offer, cfg, os).world.reg.calls| <= |w.reg.calls|
  {
    DroppedCount(w.reg.calls, id);
  }

  lemma EnteredIsOk<S>(w: World<S>, id: string, created: S, cfg: Config, spare: set<int>)
    requires WorldOk(w, spare, cfg) && created !in w.sessions && !TurnedAway(w, id, cfg)
    ensures var t := Entered(w, id, created);
      Owned(t, spare) && OthersServed(t, id) && WithinLimit(t, cfg) && id in t.reg.calls
  {
    if id !in w.reg.calls {
      OpenKeeps(w, spare, id, created);
      OpenServesOthers(w, id, created);
      assert |Entered(w, id, created).reg.calls| == |w.reg.calls| + 1;
    }
  }

  lemma InviteKeeps<S>(w: World<S>, id: string, body: string, os: Sockets, created: S, cfg: Config, spare: set<int>)
    requires WorldOk(w, spare, cfg) && Sound(w) && created !in w.sessions && Readable(w, INVITE, id, body, cfg)
    ensures WorldOk(ServeInvite(w, id, body, os, created, cfg).world,
                    spare + LostByInvite(w, id, body, os, created, cfg), cfg)
  {
    if TurnedAway(w, id, cfg) {
      NothingAdded(spare);
    } else {
      var entered, offer := Entered(w, id, created), Sdp.Parse(body).value;
      EnteredIsOk(w, id, created, cfg, spare);
      EstablishKeeps(entered, spare, id, offer, cfg, os);
      EstablishKeepsCalls(entered, id, offer, cfg, os);
      UnionIsAssociative(spare, Stranded(w.server, os), Overwritten(entered, id, offer, cfg, os));
    }
  }

  lemma NothingAdded(spare: set<int>)
    ensures spare + {} == spare
  {}

  lemma UnionIsAssociative(a: set<int>, b: set<int>, c: set<int>)
    ensures a + b + c == a + (b + c)
  {}

  /** BYE releases the port while the call is still registered; the order does not matter. */
  lemma ByeKeeps<S>(w: World<S>, id: string, cfg: Config, spare: set<int>)
    requires WorldOk(w, spare, cfg) && id in w.reg.calls
    ensures var t := Drop(Terminate(w, w.reg.calls[id]), id);
      && WorldOk(t, spare, cfg)
      && Active(t.server) == Active(w.server) - PortOf(w.sessions, w.reg.calls[id])
  {
    var s := w.reg.calls[id];
    var dropped := Drop(w, id);
    DropKeeps(w, spare, id);
    SessionsAreApart(w);
    assert Unreferenced(dropped.reg, s);
    TerminateKeeps(dropped, spare, s);
    assert Drop(Terminate(w, s), id) == Terminate(dropped, s);
    DroppedCount(w.reg.calls, id);
  }

  lemma CutKeeps<S>(w: World<S>, id: string, cfg: Config, spare: set<int>)
    requires WorldOk(w, spare, cfg)
    ensures WorldOk(Drop(w, id), spare, cfg)
  {
    DropKeeps(w, spare, id);
    DroppedCount(w.reg.calls, id);
  }

  // ---------------------------------------------------------------- the transaction table

  /** Whatever a request asks for, it gets provisional responses and then a final one. */
  lemma VerdictIsFinal<S>(w: World<S>, m: Method, id: string, body: string, os: Sockets, created: S, cfg: Config)
    requires Sound(w) && m != ACK && Readable(w, m, id, body, cfg)
    ensures var v := Serve(w, m, id, body, os, created, cfg).verdict;
      200 <= v.code <= 699 && (v.answer != "" ==> v.code == 200)
  {}

  lemma RepliesAreConclusive(msg: Message, v: Verdict, clock: nat, cfg: Config)
    requires 200 <= v.code <= 699
    ensures Conclusive(Replies(msg, v, clock, cfg))
  {
    assert FinalReply(msg, v, clock, cfg).statusCode in {200, v.code};
  }

  /** A transaction that has just been filed, with its final response. */
  ghost predicate JustFiled(k: string, branch: string, methodStr: string, tx: Tx, sent: seq<Message>, now: nat) {
    && Filed(k, tx) && tx.lastActive == now && tx.branch == branch && tx.methodStr == methodStr
    && sent != [] && tx.lastResponse == Some(sent[|sent| - 1])
  }

  lemma RepliesAreFiled(callId: string, branch: string, methodStr: string, replies: seq<Message>, now: nat)
    requires Conclusive(replies)
    ensures JustFiled(Key(callId, branch, methodStr), branch, methodStr,
                      SentAll(NewTx(branch, methodStr, now), replies, now), replies, now)
  {
    ConclusiveRests(branch, methodStr, replies, now);
  }

  lemma ExecutedIsFiled<S>(st: State<S>, r: Reading, msg: Message, clock: nat, os: Sockets, created: S, cfg: Config)
    requires Sound(st.world) && r.m != ACK && Readable(st.world, r.m, r.callId, msg.body, cfg)
    requires r.key == Key(r.callId, r.branch, msg.methodStr)
    ensures var after := Execute(st, r, msg, clock, os, created, cfg);
      JustFiled(r.key, r.branch, msg.methodStr, after.state.txs[r.key], after.sent, st.now)
  {
    VerdictIsFinal(st.world, r.m, r.callId, msg.body, os, created, cfg);
    var v := Serve(st.world, r.m, r.callId, msg.body, os, created, cfg).verdict;
    RepliesAreConclusive(msg, v, clock, cfg);
    RepliesAreFiled(r.callId, r.branch, msg.methodStr, Replies(msg, v, clock, cfg), st.now);
  }

  lemma KeyEnds(callId: string, branch: string, methodStr: string)
    ensures var k := Key(callId, branch, methodStr);
      && k != ""
      && (methodStr == "" ==> k[|k| - 1] == ':')
      && (methodStr != "" ==> k[|k| - 1] == methodStr[|methodStr| - 1])
  {}

  /** A parsed response never reaches an INVITE transaction, nor any whose method is a word. */
  lemma ResponsesReach(callId: string, branch: string, tx: Tx)
    requires Filed(Key(callId, branch, ""), tx)
    ensures tx.methodStr == "" || tx.methodStr[|tx.methodStr| - 1] == ':'
    ensures !tx.IsInvite()
  {
    var c :| Key(callId, branch, "") == Key(c, tx.branch, tx.methodStr);
    KeyEnds(callId, branch, "");
    KeyEnds(c, tx.branch, tx.methodStr);
    assert INVITE_METHOD[|INVITE_METHOD| - 1] == 'E';
  }

  /** The transaction an ACK or a response touches stays filed, with the response it remembers. */
  lemma TouchedIsFiled(k: string, tx: Tx, m: Method, code: int, now: nat)
    requires Filed(k, tx)
    ensures Filed(k, Requested(tx, m, now)) && Requested(tx, m, now).lastResponse == tx.lastResponse
    ensures !tx.IsInvite() ==>
      Filed(k, Responded(tx, code, now)) && Responded(tx, code, now).lastResponse == tx.lastResponse
  {
    EventsKeepRest(tx, m, code, now);
  }

  lemma HandleKeepsTable<S>(st: State<S>, r: Reading, msg: Message, clock: nat, os: Sockets, created: S, cfg: Config)
    requires Orderly(st) && TableOk(st.txs) && Handled(st, r, msg, cfg)
    requires r.key == Key(r.callId, r.branch, msg.methodStr) && (!msg.isRequest ==> msg.methodStr == "")
    ensures TableOk(Handle(st, r, msg, clock, os, created, cfg).state.txs)
  {
    if Executes(st, r, msg) {
      ExecutedIsFiled(st, r, msg, clock, os, created, cfg);
    } else if msg.isRequest && r.inviteKey in st.txs {
      TouchedIsFiled(r.inviteKey, st.txs[r.inviteKey], r.m, 0, st.now);
    } else if !msg.isRequest && r.key in st.txs {
      ResponsesReach(r.callId, r.branch, st.txs[r.key]);
      TouchedIsFiled(r.key, st.txs[r.key], r.m, msg.statusCode, st.now);
    }
  }

  lemma StepKeepsTable<S>(st: State<S>, e: Event<S>, cfg: Config)
    requires Orderly(st) && Enabled(st, e, cfg) && TableOk(st.txs)
    ensures TableOk(Step(st, e, cfg).state.txs)
  {
    if e.Arrival? {
      HandleKeepsTable(st, ReadOff(e.msg), e.msg, e.clock, e.os, e.created, cfg);
    }
  }

  // ---------------------------------------------------------------- one step

  lemma ServeKeeps<S>(w: World<S>, m: Method, id: string, body: string, os: Sockets, created: S, cfg: Config,
                      spare: set<int>)
    requires WorldOk(w, spare, cfg) && Sound(w) && created !in w.sessions
    requires m != ACK && Readable(w, m, id, body, cfg)
    ensures WorldOk(Serve(w, m, id, body, os, created, cfg).world,
                    spare + if m == INVITE then LostByInvite(w, id, body, os, created, cfg) else {}, cfg)
  {
    NothingAdded(spare);
    match m {
      case INVITE => InviteKeeps(w, id, body, os, created, cfg, spare);
      case BYE =>
        if id in w.reg.calls {
          ByeKeeps(w, id, cfg, spare);
        }
      case CANCEL => CutKeeps(w, id, cfg, spare);
      case REFER =>
      case OPTIONS =>
      case UNKNOWN =>
    }
  }

  lemma HandleKeepsWorld<S>(st: State<S>, r: Reading, msg: Message, clock: nat, os: Sockets,
                            created: S, cfg: Config, spare: set<int>)
    requires Sound(st.world) && WorldOk(st.world, spare, cfg) && created !in st.world.sessions
    requires Handled(st, r, msg, cfg)
    ensures WorldOk(Handle(st, r, msg, clock, os, created, cfg).state.world,
                    spare + LostBy(st, r, msg, os, created, cfg), cfg)
  {
    NothingAdded(spare);
    if Executes(st, r, msg) {
      ServeKeeps(st.world, r.m, r.callId, msg.body, os, created, cfg, spare);
    }
  }

  lemma EndKeeps<S>(w: World<S>, s: S, cfg: Config, spare: set<int>)
    requires WorldOk(w, spare, cfg) && s in w.sessions && Unreferenced(w.reg, s)
    ensures WorldOk(Destroy(w, s), spare, cfg)
  {
    DestroyKeeps(w, spare, s);
  }

  lemma StepKeepsWorld<S>(st: State<S>, e: Event<S>, cfg: Config, spare: set<int>)
    requires Orderly(st) && WorldOk(st.world, spare, cfg) && Enabled(st, e, cfg)
    ensures WorldOk(Step(st, e, cfg).state.world, spare + Lost(st, e, cfg), cfg)
  {
    NothingAdded(spare);
    match e {
      case Arrival(msg, clock, os, created) =>
        HandleKeepsWorld(st, ReadOff(msg), msg, clock, os, created, cfg, spare);
      case Cut(id) => CutKeeps(st.world, id, cfg, spare);
      case LastReference(s) => EndKeeps(st.world, s, cfg, spare);
      case Cleanup =>
      case Tick(ticks) =>
    }
  }

  lemma TerminateKeepsConfigured<S>(w: World<S>, s: S, cfg: Config)
    requires s in w.sessions && Configured(w.server, cfg)
    ensures Configured(Terminate(w, s).server, cfg)
  {
    ReleaseKeepsRanges(w.server, w.sessions[s].localPort);
  }

  lemma ServeKeepsConfigured<S>(w: World<S>, m: Method, id: string, body: string, os: Sockets, created: S, cfg: Config)
    requires Sound(w) && Configured(w.server, cfg) && m != ACK && Readable(w, m, id, body, cfg)
    ensures Configured(Serve(w, m, id, body, os, created, cfg).world.server, cfg)
  {
    if m == INVITE && !TurnedAway(w, id, cfg) {
      EstablishKeepsConfigured(Entered(w, id, created), id, Sdp.Parse(body).value, cfg, os);
    } else if m == BYE && id in w.reg.calls {
      TerminateKeepsConfigured(w, w.reg.calls[id], cfg);
    }
  }

  /** No step changes a worker's port range. */
  lemma StepKeepsConfigured<S>(st: State<S>, e: Event<S>, cfg: Config)
    requires Orderly(st) && Configured(st.world.server, cfg) && Enabled(st, e, cfg)
    ensures Configured(Step(st, e, cfg).state.world.server, cfg)
  {
    match e {
      case Arrival(msg, clock, os, created) =>
        var r := ReadOff(msg);
        if Executes(st, r, msg) {
          ServeKeepsConfigured(st.world, r.m, r.callId, msg.body, os, created, cfg);
        }
      case LastReference(s) => TerminateKeepsConfigured(st.world, s, cfg);
      case Cut(id) =>
      case Cleanup =>
      case Tick(ticks) =>
    }
  }

  /** Every step keeps the invariant, and adds exactly the ports it loses to the spare ones. */
  lemma StepKeeps<S>(st: State<S>, e: Event<S>, cfg: Config, spare: set<int>)
    requires Inv(st, spare, cfg) && Enabled(st, e, cfg)
    ensures Inv(Step(st, e, cfg).state, spare + Lost(st, e, cfg), cfg)
  {
    StepIsOrderly(st, e, cfg);
    StepKeepsTable(st, e, cfg);
    StepKeepsWorld(st, e, cfg, spare);
    StepKeepsConfigured(st, e, cfg);
  }
}
