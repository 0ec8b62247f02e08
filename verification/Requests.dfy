/** What a request is answered with, in its own words, and what it does to calls and ports; and which of its
    repetitions are answered again. */
module Requests {
  import opened Text
  import opened SipMessage
  import opened SipResponse
  import opened Transactions
  import opened RtpPorts
  import opened Registry
  import opened Calls
  import opened Gateway
  import opened Safety
  import opened Guarantees
  import Sdp

  /** The message is a response to the request: its version, its headers copied, and nothing of a request. */
  ghost predicate Answers(req: Message, m: Message, code: int, phrase: string, clock: nat) {
    && !m.isRequest && m.version == req.version && m.statusCode == code && m.statusPhrase == phrase
    && Echoes(req, code, clock, m)
  }

  /** The request is new: it names a call, and no transaction is filed under Call-ID, branch and method. */
  ghost predicate New<S>(st: State<S>, msg: Message) {
    && msg.isRequest && msg.CallId() != ""
    && msg.CallId() + ":" + msg.Branch() + ":" + msg.methodStr !in st.txs
  }

  lemma PlainReply(msg: Message, code: int, phrase: string, clock: nat)
    ensures Answers(msg, Response(msg, code, phrase, clock), code, phrase, clock)
    ensures Response(msg, code, phrase, clock).body == ""
  {
    ResponseEchoes(msg, code, phrase, clock);
  }

  lemma MethodNames(msg: Message)
    ensures msg.methodStr == "INVITE" <==> msg.Method() == INVITE
    ensures msg.methodStr == "ACK" <==> msg.Method() == ACK
    ensures msg.methodStr == "BYE" <==> msg.Method() == BYE
    ensures msg.methodStr == "CANCEL" <==> msg.Method() == CANCEL
    ensures msg.methodStr == "OPTIONS" <==> msg.Method() == OPTIONS
    ensures msg.methodStr == "REFER" <==> msg.Method() == REFER
  {}

  lemma NewExecutes<S>(st: State<S>, msg: Message)
    requires New(st, msg) && msg.methodStr != "ACK"
    ensures Executes(st, ReadOff(msg), msg)
  {
    MethodNames(msg);
  }

  /** A new request is carried out. */
  lemma NewStep<S>(st: State<S>, msg: Message, clock: nat, os: Sockets, created: S, cfg: Config)
    requires Orderly(st) && Enabled(st, Arrival(msg, clock, os, created), cfg)
    requires New(st, msg) && msg.methodStr != "ACK"
    ensures var r := ReadOff(msg);
      && Executes(st, r, msg) && Readable(st.world, r.m, r.callId, msg.body, cfg)
      && Step(st, Arrival(msg, clock, os, created), cfg) == Execute(st, r, msg, clock, os, created, cfg)
  {
    NewExecutes(st, msg);
  }

  lemma OneReply(msg: Message, code: int, clock: nat, cfg: Config)
    ensures Replies(msg, Verdict(false, code, ""), clock, cfg) == [Response(msg, code, Phrase(code), clock)]
  {}

  lemma Phrases()
    ensures Phrase(200) == "OK" && Phrase(202) == "Accepted" && Phrase(501) == "Not Implemented"
    ensures Phrase(486) == "Busy Here" && Phrase(488) == "Not Acceptable Here"
    ensures Phrase(500) == "Internal Server Error (No Ports)"
  {}

  lemma OtherVerdict<S>(w: World<S>, m: Method, id: string, body: string, os: Sockets, created: S, cfg: Config)
    requires Sound(w) && m != ACK && m != INVITE
    ensures Serve(w, m, id, body, os, created, cfg).verdict
         == Verdict(false, if m == REFER then 202 else if m == UNKNOWN then 501 else 200, "")
  {}

  /** Every new request but INVITE and ACK is answered at once, by one message: BYE, CANCEL and OPTIONS by
      200 OK, REFER by 202 Accepted, anything else by 501 Not Implemented. */
  lemma OtherIsAnswered<S>(st: State<S>, msg: Message, clock: nat, os: Sockets, created: S, cfg: Config, m: Message)
    requires Orderly(st) && Enabled(st, Arrival(msg, clock, os, created), cfg)
    requires New(st, msg) && msg.methodStr != "ACK" && msg.methodStr != "INVITE"
    ensures |Step(st, Arrival(msg, clock, os, created), cfg).sent| == 1
    ensures m == Step(st, Arrival(msg, clock, os, created), cfg).sent[0] ==>
      && m.body == ""
      && if msg.methodStr == "BYE" || msg.methodStr == "CANCEL" || msg.methodStr == "OPTIONS" then
           Answers(msg, m, 200, "OK", clock)
         else if msg.methodStr == "REFER" then Answers(msg, m, 202, "Accepted", clock)
         else Answers(msg, m, 501, "Not Implemented", clock)
  {
    var r := ReadOff(msg);
    var code := if r.m == REFER then 202 else if r.m == UNKNOWN then 501 else 200;
    MethodNames(msg);
    NewStep(st, msg, clock, os, created, cfg);
    OtherVerdict(st.world, r.m, r.callId, msg.body, os, created, cfg);
    OneReply(msg, code, clock, cfg);
    Phrases();
    PlainReply(msg, code, Phrase(code), clock);
  }

  // ---------------------------------------------------------------- what they do

  /** A BYE ends its call: the call leaves the registry, its session gives back its port, and nobody else's
      call, session or port is touched. */
  ghost predicate Ended<S>(w: World<S>, id: string, t: World<S>)
    requires id in w.reg.calls && w.reg.calls[id] in w.sessions
  {
    var s := w.reg.calls[id];
    && t.reg.calls == w.reg.calls - {id}
    && (forall p :: p in t.reg.portMap <==> p in w.reg.portMap && w.reg.portMap[p] != id)
    && t.sessions.Keys == w.sessions.Keys && t.sessions - {s} == w.sessions - {s}
    && t.sessions[s].localPort == 0
    && Active(t.server) == Active(w.server) - {w.sessions[s].localPort}
  }

  /** What a terminated session leaves behind. */
  lemma TerminateEmpties<S>(w: World<S>, s: S)
    requires s in w.sessions && w.sessions[s].localPort > 0
    ensures var t := Terminate(w, s);
      t.reg == w.reg && t.sessions.Keys == w.sessions.Keys && t.sessions - {s} == w.sessions - {s}
      && t.sessions[s].localPort == 0
  {}

  lemma ByeServes<S>(w: World<S>, id: string, body: string, os: Sockets, created: S, cfg: Config)
    requires Sound(w) && id in w.reg.calls
    ensures Serve(w, BYE, id, body, os, created, cfg).world == Drop(Terminate(w, w.reg.calls[id]), id)
  {}

  lemma ByeEnds<S>(w: World<S>, id: string, body: string, os: Sockets, created: S, cfg: Config, spare: set<int>)
    requires Sound(w) && WorldOk(w, spare, cfg) && id in w.reg.calls
    ensures Ended(w, id, Serve(w, BYE, id, body, os, created, cfg).world)
  {
    var s := w.reg.calls[id];
    assert Served(w, id);
    TerminateEmpties(w, s);
    ByeServes(w, id, body, os, created, cfg);
    ByeKeeps(w, id, cfg, spare);
    RemovedIsConsistent(w.reg, id);
  }

  /** A CANCEL takes the call out of the registry; its session, and the port it holds, stay for now. */
  ghost predicate Cancelled<S>(w: World<S>, id: string, t: World<S>) {
    && t.reg.calls == w.reg.calls - {id}
    && (forall p :: p in t.reg.portMap <==> p in w.reg.portMap && w.reg.portMap[p] != id)
    && t.sessions == w.sessions && t.server == w.server
  }

  lemma CancelDrops<S>(w: World<S>, id: string, body: string, os: Sockets, created: S, cfg: Config)
    requires Sound(w) && Consistent(w.reg) && id in w.reg.calls
    ensures Cancelled(w, id, Serve(w, CANCEL, id, body, os, created, cfg).world)
  {
    RemovedIsConsistent(w.reg, id);
  }

  lemma OthersDoNothing<S>(w: World<S>, m: Method, id: string, body: string, os: Sockets, created: S, cfg: Config)
    requires Sound(w) && m != ACK && m != INVITE && ((m == BYE || m == CANCEL) ==> id !in w.reg.calls)
    ensures Serve(w, m, id, body, os, created, cfg).world == w
  {}

  /** What a new request but INVITE and ACK does: a BYE ends its call, a CANCEL drops it, and nothing else
      changes anything, a BYE or CANCEL for an unknown call included. */
  lemma OtherDoes<S>(st: State<S>, msg: Message, clock: nat, os: Sockets, created: S, cfg: Config, spare: set<int>)
    requires Inv(st, spare, cfg) && Enabled(st, Arrival(msg, clock, os, created), cfg)
    requires New(st, msg) && msg.methodStr != "ACK" && msg.methodStr != "INVITE"
    ensures var w, t := st.world, Step(st, Arrival(msg, clock, os, created), cfg).state.world; var id := msg.CallId();
      if msg.methodStr == "BYE" && id in w.reg.calls then Ended(w, id, t)
      else if msg.methodStr == "CANCEL" && id in w.reg.calls then Cancelled(w, id, t)
      else t == w
  {
    var r := ReadOff(msg);
    MethodNames(msg);
    NewStep(st, msg, clock, os, created, cfg);
    if r.m == BYE && r.callId in st.world.reg.calls {
      ByeEnds(st.world, r.callId, msg.body, os, created, cfg, spare);
    } else if r.m == CANCEL && r.callId in st.world.reg.calls {
      CancelDrops(st.world, r.callId, msg.body, os, created, cfg);
    } else {
      OthersDoNothing(st.world, r.m, r.callId, msg.body, os, created, cfg);
    }
  }

  /** A message without a Call-ID is ignored. */
  lemma NoCallIdIsIgnored<S>(st: State<S>, msg: Message, clock: nat, os: Sockets, created: S, cfg: Config)
    requires Orderly(st) && Enabled(st, Arrival(msg, clock, os, created), cfg) && msg.CallId() == ""
    ensures Step(st, Arrival(msg, clock, os, created), cfg) == Reaction(st, [])
  {}

  /** A response is never answered; all it does is keep the transaction of its key alive. */
  lemma ResponsesAreNotAnswered<S>(st: State<S>, msg: Message, clock: nat, os: Sockets, created: S, cfg: Config,
                                   k: string)
    requires Orderly(st) && Enabled(st, Arrival(msg, clock, os, created), cfg) && !msg.isRequest
    ensures var done := Step(st, Arrival(msg, clock, os, created), cfg);
      && done.sent == [] && done.state.world == st.world && done.state.txs.Keys == st.txs.Keys
      && (k in st.txs ==>
            if msg.CallId() != "" && k == msg.CallId() + ":" + msg.Branch() + ":" + msg.methodStr then
              && done.state.txs[k].lastActive == st.now && done.state.txs[k].lastResponse == st.txs[k].lastResponse
            else done.state.txs[k] == st.txs[k])
  {}

  // ---------------------------------------------------------------- INVITE

  /** A new INVITE is turned away: its call is not registered, and there are as many calls as configured. */
  ghost predicate NoRoom<S>(w: World<S>, id: string, cfg: Config) {
    id !in w.reg.calls
    && if cfg.maxCalls >= 0 then |w.reg.calls| >= cfg.maxCalls
       else |w.reg.calls| >= 0x1_0000_0000_0000_0000 + cfg.maxCalls
  }

  lemma RoomIs<S>(w: World<S>, id: string, cfg: Config)
    ensures TurnedAway(w, id, cfg) <==> NoRoom(w, id, cfg)
  {}

  /** The final answer to an INVITE that is let in. */
  ghost predicate Decided(msg: Message, m: Message, clock: nat, free: bool, negotiable: bool) {
    if !free then Answers(msg, m, 500, "Internal Server Error (No Ports)", clock) && m.body == ""
    else if !negotiable then Answers(msg, m, 488, "Not Acceptable Here", clock) && m.body == ""
    else Answers(msg, m, 200, "OK", clock)
  }

  lemma InviteReplies(msg: Message, code: int, answer: string, clock: nat, cfg: Config)
    ensures Replies(msg, Verdict(true, code, answer), clock, cfg)
         == [Response(msg, 100, "Trying", clock),
             if answer != "" then Accepting(msg, clock, Contact(cfg), answer)
             else Response(msg, code, Phrase(code), clock)]
  {}

  lemma AcceptingAnswers(msg: Message, clock: nat, contact: string, answer: string)
    ensures Answers(msg, Accepting(msg, clock, contact, answer), 200, "OK", clock)
  {
    AcceptedEchoes(msg, clock, contact, answer);
  }

  lemma InviteDecided(msg: Message, code: int, answer: string, clock: nat, cfg: Config, free: bool, negotiable: bool)
    requires code == (if !free then 500 else if negotiable then 200 else 488) && (answer != "" <==> code == 200)
    ensures var sent := Replies(msg, Verdict(true, code, answer), clock, cfg);
      |sent| == 2 && Answers(msg, sent[0], 100, "Trying", clock) && Decided(msg, sent[1], clock, free, negotiable)
  {
    InviteReplies(msg, code, answer, clock, cfg);
    PlainReply(msg, 100, "Trying", clock);
    Phrases();
    if answer != "" {
      AcceptingAnswers(msg, clock, Contact(cfg), answer);
    } else {
      PlainReply(msg, code, Phrase(code), clock);
    }
  }

  /** The verdict on an INVITE, known beforehand. */
  lemma InviteVerdict<S>(w: World<S>, id: string, body: string, os: Sockets, created: S, cfg: Config)
    requires Sound(w) && Ok(w.server) && Configured(w.server, cfg) && Readable(w, INVITE, id, body, cfg)
    requires !TurnedAway(w, id, cfg)
    ensures var v := ServeInvite(w, id, body, os, created, cfg).verdict;
      && v.trying
      && v.code == (if !PortFree(w.server, cfg, os) then 500
                    else if Negotiable(Sdp.Parse(body).value, cfg) then 200 else 488)
      && (v.answer != "" <==> v.code == 200)
  {
    EstablishedExactly(Entered(w, id, created), id, Sdp.Parse(body).value, cfg, os);
  }

  /** Every new INVITE is answered: by 486 Busy Here alone when there is no room for its call; otherwise by 100
      Trying first, and then by 500 without a free port, by 488 without a negotiable offer, and by 200 OK. */
  lemma InviteIsAnswered<S>(st: State<S>, msg: Message, clock: nat, os: Sockets, created: S, cfg: Config,
                            spare: set<int>)
    requires Inv(st, spare, cfg) && Enabled(st, Arrival(msg, clock, os, created), cfg)
    requires New(st, msg) && msg.methodStr == "INVITE"
    ensures var sent := Step(st, Arrival(msg, clock, os, created), cfg).sent; var w := st.world;
      if NoRoom(w, msg.CallId(), cfg) then |sent| == 1 && Answers(msg, sent[0], 486, "Busy Here", clock)
      else
        && |sent| == 2 && Sdp.Parse(msg.body).Some?
        && Answers(msg, sent[0], 100, "Trying", clock)
        && Decided(msg, sent[1], clock, PortFree(w.server, cfg, os), Negotiable(Sdp.Parse(msg.body).value, cfg))
  {
    var r := ReadOff(msg);
    MethodNames(msg);
    NewStep(st, msg, clock, os, created, cfg);
    RoomIs(st.world, r.callId, cfg);
    if TurnedAway(st.world, r.callId, cfg) {
      OneReply(msg, 486, clock, cfg);
      Phrases();
      PlainReply(msg, 486, "Busy Here", clock);
    } else {
      InviteVerdict(st.world, r.callId, msg.body, os, created, cfg);
      var v := ServeInvite(st.world, r.callId, msg.body, os, created, cfg).verdict;
      InviteDecided(msg, v.code, v.answer, clock, cfg, PortFree(st.world.server, cfg, os),
                    Negotiable(Sdp.Parse(msg.body).value, cfg));
    }
  }

  lemma DescriptionHeaders(req: Message, clock: nat, contact: string, answer: string)
    ensures var m := Accepting(req, clock, contact, answer);
      ValuesOf(m.headers, CONTENT_TYPE) == [SDP_TYPE] && ValuesOf(m.headers, CONTACT) == [contact]
  {
    var hs := ResponseHeaders(req, 200, clock);
    var typed := Insert(hs, CONTENT_TYPE, SDP_TYPE);
    DescriptionNames();
    AssembleGives(Fields(req, 200, clock), CONTENT_TYPE);
    AssembleGives(Fields(req, 200, clock), CONTACT);
    NotGiven(req, clock, CONTENT_TYPE);
    NotGiven(req, clock, CONTACT);
    InsertKeepsSorted(hs, CONTENT_TYPE, SDP_TYPE);
    InsertIsStable(hs, CONTENT_TYPE, SDP_TYPE, CONTENT_TYPE);
    InsertIsStable(hs, CONTENT_TYPE, SDP_TYPE, CONTACT);
    InsertIsStable(typed, CONTACT, contact, CONTENT_TYPE);
    InsertIsStable(typed, CONTACT, contact, CONTACT);
  }

  lemma DescriptionNames()
    ensures CONTENT_TYPE == "content-type" && CONTACT == "contact" && SDP_TYPE == "application/sdp"
    ensures CONTENT_TYPE != CONTACT
    ensures CONTENT_TYPE !in {VIA, FROM, TO, CALL_ID, CSEQ, USER_AGENT}
    ensures CONTACT !in {VIA, FROM, TO, CALL_ID, CSEQ, USER_AGENT}
  {
    assert |CONTENT_TYPE| == 12 && |CONTACT| == 7 && |CALL_ID| == 7 && |USER_AGENT| == 10;
    assert |VIA| == 3 && |FROM| == 4 && |TO| == 2 && |CSEQ| == 4;
    assert CALL_ID[1] == 'a' && CONTACT[1] == 'o';
  }

  lemma NotGiven(req: Message, clock: nat, key: string)
    requires key !in {VIA, FROM, TO, CALL_ID, CSEQ, USER_AGENT}
    ensures Given(Fields(req, 200, clock), key) == []
  {
    var fields := Fields(req, 200, clock);
    forall f <- fields ensures f.name != key {
      var i :| 0 <= i < |fields| && fields[i] == f;
    }
    GivenNothing(fields, key);
  }

  /** What accepting an INVITE leaves behind, and what the 200 carries: the call is registered with the session
      it had, or with the new one; that session has a port; and the body is the answer that names it. */
  ghost predicate Accepted<S>(w: World<S>, id: string, msg: Message, created: S, cfg: Config, m: Message, t: World<S>)
    requires Sdp.Parse(msg.body).Some?
  {
    && id in t.reg.calls && t.reg.calls[id] == (if id in w.reg.calls then w.reg.calls[id] else created)
    && t.reg.calls[id] in t.sessions
    && ValuesOf(m.headers, "content-type") == ["application/sdp"]
    && ValuesOf(m.headers, "contact") == ["<sip:" + cfg.bindIp + ":" + Dec(cfg.sipPort) + ">"]
    && var s := t.sessions[t.reg.calls[id]];
       && m.body == Sdp.Answer(Sdp.Parse(msg.body).value, cfg.bindIp, s.localPort, cfg.codecPreference)
       && s.payloadType == Sdp.Negotiated(Sdp.Parse(msg.body).value, cfg.codecPreference).payloadType
       && ByPort(t.reg, s.localPort) == Some(t.reg.calls[id])
       && s.localPort in Active(t.server) && s.localPort !in Active(w.server)
  }

  lemma EstablishedIs<S>(w: World<S>, spare: set<int>, id: string, offer: Sdp.Session, cfg: Config, os: Sockets)
    requires Owned(w, spare) && id in w.reg.calls && OthersServed(w, id)
    requires Establish(w, id, offer, cfg, os).code == 200
    ensures var r := Establish(w, id, offer, cfg, os); var t := r.world;
      && id in t.reg.calls && t.reg.calls[id] == w.reg.calls[id] && t.reg.calls[id] in t.sessions
      && var s := t.sessions[t.reg.calls[id]];
         && r.answer == Sdp.Answer(offer, cfg.bindIp, s.localPort, cfg.codecPreference) && r.answer != ""
         && s.payloadType == Sdp.Negotiated(offer, cfg.codecPreference).payloadType
         && ByPort(t.reg, s.localPort) == Some(t.reg.calls[id])
         && s.localPort in Active(t.server) && s.localPort !in Active(w.server)
  {
    AllocateGrants(w.server, os);
  }

  lemma InviteIsAccepted<S>(st: State<S>, msg: Message, clock: nat, os: Sockets, created: S, cfg: Config,
                            spare: set<int>)
    requires Inv(st, spare, cfg) && Enabled(st, Arrival(msg, clock, os, created), cfg)
    requires New(st, msg) && msg.methodStr == "INVITE" && !NoRoom(st.world, msg.CallId(), cfg)
    requires PortFree(st.world.server, cfg, os)
    requires Sdp.Parse(msg.body).Some? && Negotiable(Sdp.Parse(msg.body).value, cfg)
    ensures var done := Step(st, Arrival(msg, clock, os, created), cfg);
      |done.sent| == 2 && Accepted(st.world, msg.CallId(), msg, created, cfg, done.sent[1], done.state.world)
  {
    var r := ReadOff(msg);
    var offer := Sdp.Parse(msg.body).value;
    var entered := Entered(st.world, r.callId, created);
    MethodNames(msg);
    NewStep(st, msg, clock, os, created, cfg);
    RoomIs(st.world, r.callId, cfg);
    InviteVerdict(st.world, r.callId, msg.body, os, created, cfg);
    EnteredIsOk(st.world, r.callId, created, cfg, spare);
    EstablishedIs(entered, spare, r.callId, offer, cfg, os);
    var v := ServeInvite(st.world, r.callId, msg.body, os, created, cfg).verdict;
    InviteReplies(msg, v.code, v.answer, clock, cfg);
    DescriptionNames();
    DescriptionHeaders(msg, clock, Contact(cfg), v.answer);
  }

  // ---------------------------------------------------------------- repetitions

  /** An ACK for the transaction under `k` arrives: it has the Call-ID and the branch of that INVITE, and is not
      itself answered from the table, as a request filed under its own key and branch would be. */
  ghost predicate Acknowledges<S>(st: State<S>, e: Event<S>, k: string) {
    e.Arrival? && AckFor(st, e.msg, k)
  }

  ghost predicate AckFor<S>(st: State<S>, msg: Message, k: string) {
    && msg.isRequest && msg.methodStr == "ACK" && msg.CallId() != ""
    && k == msg.CallId() + ":" + msg.Branch() + ":INVITE"
    && var own := msg.CallId() + ":" + msg.Branch() + ":ACK";
       !(own in st.txs && st.txs[own].branch == msg.Branch() && st.txs[own].state == COMPLETED)
  }

  /** Along the run an ACK for the transaction under `k` arrives. */
  ghost predicate Acknowledged<S>(st: State<S>, es: seq<Event<S>>, cfg: Config, k: string)
    requires Orderly(st) && Possible(st, es, cfg)
    decreases es
  {
    es != [] && (Acknowledges(st, es[0], k)
                 || (StepIsOrderly(st, es[0], cfg); Acknowledged(Step(st, es[0], cfg).state, es[1..], cfg, k)))
  }

  /** Along the run the table never loses what it has under `k`. */
  ghost predicate Stays<S>(st: State<S>, es: seq<Event<S>>, cfg: Config, k: string)
    requires Orderly(st) && Possible(st, es, cfg)
    decreases es
  {
    k in st.txs
    && (es == [] || (StepIsOrderly(st, es[0], cfg); Stays(Step(st, es[0], cfg).state, es[1..], cfg, k)))
  }

  /** A transaction that has sent its final response, and, for an INVITE, may have been acknowledged. */
  ghost predicate Concluded(tx: Tx, branch: string, methodStr: string, final: Message, acked: bool) {
    && tx.branch == branch && tx.methodStr == methodStr && tx.lastResponse == Some(final)
    && tx.state == if methodStr != "INVITE" then COMPLETED
                   else if final.statusCode < 300 then TERMINATED
                   else if acked then CONFIRMED else COMPLETED
  }

  lemma RepliesOfAck<S>(st: State<S>, msg: Message, k: string)
    requires TableOk(st.txs) && msg.isRequest && msg.methodStr == "ACK" && msg.CallId() != ""
    ensures var r := ReadOff(msg);
      && r.m == ACK && r.inviteKey == msg.CallId() + ":" + msg.Branch() + ":INVITE"
      && (AckFor(st, msg, k) <==> k == r.inviteKey && !Replays(st, r))
  {
    var r := ReadOff(msg);
    MethodNames(msg);
    assert r.key == msg.CallId() + ":" + msg.Branch() + ":ACK";
    RestReplays(st, r);
  }

  lemma RestReplays<S>(st: State<S>, r: Reading)
    requires TableOk(st.txs)
    ensures Replays(st, r) <==> r.key in st.txs && st.txs[r.key].branch == r.branch && st.txs[r.key].state == COMPLETED
  {
    if r.key in st.txs {
      assert Filed(r.key, st.txs[r.key]);
    }
  }

  /** What an ACK does to the transaction under `k`. */
  lemma AckStep<S>(st: State<S>, msg: Message, clock: nat, os: Sockets, created: S, cfg: Config, k: string)
    requires Orderly(st) && TableOk(st.txs) && k in st.txs && Handled(st, ReadOff(msg), msg, cfg)
    requires msg.isRequest && msg.methodStr == "ACK" && msg.CallId() != ""
    ensures var done := Handle(st, ReadOff(msg), msg, clock, os, created, cfg);
      && k in done.state.txs
      && done.state.txs[k] == if AckFor(st, msg, k) then Requested(st.txs[k], ACK, st.now) else st.txs[k]
  {
    RepliesOfAck(st, msg, k);
  }

  /** No other request touches a transaction that is in the table. */
  lemma OtherStep<S>(st: State<S>, r: Reading, msg: Message, clock: nat, os: Sockets, created: S, cfg: Config,
                     k: string)
    requires Orderly(st) && k in st.txs && Handled(st, r, msg, cfg)
    requires msg.isRequest && r.m != ACK
    ensures var done := Handle(st, r, msg, clock, os, created, cfg);
      k in done.state.txs && done.state.txs[k] == st.txs[k]
  {}

  /** A response changes no more than the times of a concluded transaction. */
  lemma ResponseStep<S>(st: State<S>, msg: Message, clock: nat, os: Sockets, created: S, cfg: Config, k: string,
                        branch: string, methodStr: string, final: Message, acked: bool)
    requires Orderly(st) && TableOk(st.txs) && k in st.txs && Handled(st, ReadOff(msg), msg, cfg)
    requires !msg.isRequest && msg.methodStr == "" && Concluded(st.txs[k], branch, methodStr, final, acked)
    ensures var done := Handle(st, ReadOff(msg), msg, clock, os, created, cfg);
      k in done.state.txs && Concluded(done.state.txs[k], branch, methodStr, final, acked)
  {
    var r := ReadOff(msg);
    if k == r.key {
      ResponsesReach(r.callId, r.branch, st.txs[k]);
    }
  }

  lemma AckConcludes(tx: Tx, now: nat, branch: string, methodStr: string, final: Message, acked: bool)
    requires Concluded(tx, branch, methodStr, final, acked)
    ensures Concluded(Requested(tx, ACK, now), branch, methodStr, final, true)
  {}

  lemma StillConcluded(tx: Tx, branch: string, methodStr: string, final: Message)
    requires Concluded(tx, branch, methodStr, final, false)
    ensures methodStr != "INVITE" ==> Concluded(tx, branch, methodStr, final, true)
  {}

  lemma ArrivalConcludes<S>(st: State<S>, msg: Message, clock: nat, os: Sockets, created: S, cfg: Config, k: string,
                            branch: string, methodStr: string, final: Message, acked: bool)
    requires Orderly(st) && TableOk(st.txs) && k in st.txs && Handled(st, ReadOff(msg), msg, cfg)
    requires (!msg.isRequest ==> msg.methodStr == "") && Concluded(st.txs[k], branch, methodStr, final, acked)
    ensures var done := Handle(st, ReadOff(msg), msg, clock, os, created, cfg);
      k in done.state.txs && Concluded(done.state.txs[k], branch, methodStr, final, acked || AckFor(st, msg, k))
  {
    if !msg.isRequest {
      ResponseStep(st, msg, clock, os, created, cfg, k, branch, methodStr, final, acked);
    } else if msg.methodStr != "ACK" {
      MethodNames(msg);
      OtherStep(st, ReadOff(msg), msg, clock, os, created, cfg, k);
    } else if msg.CallId() != "" {
      AckStep(st, msg, clock, os, created, cfg, k);
      AckConcludes(st.txs[k], st.now, branch, methodStr, final, acked);
    }
  }

  lemma StepConcludes<S>(st: State<S>, e: Event<S>, cfg: Config, k: string,
                         branch: string, methodStr: string, final: Message, acked: bool)
    requires Orderly(st) && TableOk(st.txs) && Enabled(st, e, cfg)
    requires k in st.txs && Concluded(st.txs[k], branch, methodStr, final, acked)
    requires k in Step(st, e, cfg).state.txs
    ensures Concluded(Step(st, e, cfg).state.txs[k], branch, methodStr, final, acked || Acknowledges(st, e, k))
  {
    match e {
      case Arrival(msg, clock, os, created) =>
        ArrivalConcludes(st, msg, clock, os, created, cfg, k, branch, methodStr, final, acked);
      case Cleanup =>
      case Tick(ticks) =>
      case Cut(id) =>
      case LastReference(s) =>
    }
  }

  lemma {:induction false} RunConcludes<S>(st: State<S>, es: seq<Event<S>>, cfg: Config, k: string,
                                           branch: string, methodStr: string, final: Message, acked: bool)
    requires Orderly(st) && TableOk(st.txs) && Possible(st, es, cfg) && Stays(st, es, cfg, k)
    requires Concluded(st.txs[k], branch, methodStr, final, acked)
    ensures var t := Run(st, es, cfg);
      && TableOk(t.txs) && k in t.txs
      && Concluded(t.txs[k], branch, methodStr, final, acked || Acknowledged(st, es, cfg, k))
    decreases es
  {
    if es != [] {
      StepIsOrderly(st, es[0], cfg);
      StepKeepsTable(st, es[0], cfg);
      StepConcludes(st, es[0], cfg, k, branch, methodStr, final, acked);
      RunConcludes(Step(st, es[0], cfg).state, es[1..], cfg, k, branch, methodStr, final,
                   acked || Acknowledges(st, es[0], k));
    }
  }

  /** Which repetitions are answered: after a request has been carried out, and as long as its transaction stays
      in the table, a request under the same key and branch changes nothing; it gets the final response again,
      unless that accepted an INVITE, or refused one and an ACK for it has arrived since: then it gets none. */
  lemma RepetitionIsAnswered<S>(st: State<S>, first: Event<S>, es: seq<Event<S>>, again: Event<S>, cfg: Config,
                                k: string,
                                final: Message)
    requires Orderly(st) && TableOk(st.txs) && first.Arrival? && Enabled(st, first, cfg)
    requires New(st, first.msg) && first.msg.methodStr != "ACK"
    requires k == first.msg.CallId() + ":" + first.msg.Branch() + ":" + first.msg.methodStr
    requires var done := Step(st, first, cfg);
      && done.sent != [] && final == done.sent[|done.sent| - 1] && Orderly(done.state)
      && Possible(done.state, es, cfg) && Stays(done.state, es, cfg, k)
    requires var later := Run(Step(st, first, cfg).state, es, cfg);
      && again.Arrival? && Enabled(later, again, cfg) && again.msg.isRequest && again.msg.methodStr != "ACK"
      && again.msg.CallId() != "" && again.msg.Branch() == first.msg.Branch()
      && k == again.msg.CallId() + ":" + again.msg.Branch() + ":" + again.msg.methodStr
    ensures var later := Run(Step(st, first, cfg).state, es, cfg); var after := Step(later, again, cfg);
      && after.state == later
      && after.sent == if first.msg.methodStr == "INVITE"
                          && (final.statusCode < 300 || Acknowledged(Step(st, first, cfg).state, es, cfg, k))
                       then [] else [final]
  {
    var done := Step(st, first, cfg);
    FirstConcludes(st, first, cfg, k, final);
    RunConcludes(done.state, es, cfg, k, first.msg.Branch(), first.msg.methodStr, final, false);
    var later := Run(done.state, es, cfg);
    AgainIsAnswered(later, again.msg, again.clock, again.os, again.created, cfg, k, first.msg.methodStr, final,
                    Acknowledged(done.state, es, cfg, k));
  }

  /** The request is filed with its final response. */
  lemma FirstConcludes<S>(st: State<S>, first: Event<S>, cfg: Config, k: string, final: Message)
    requires Orderly(st) && TableOk(st.txs) && first.Arrival? && Enabled(st, first, cfg)
    requires New(st, first.msg) && first.msg.methodStr != "ACK"
    requires k == first.msg.CallId() + ":" + first.msg.Branch() + ":" + first.msg.methodStr
    requires var done := Step(st, first, cfg); done.sent != [] && final == done.sent[|done.sent| - 1]
    ensures var t := Step(st, first, cfg).state;
      && Orderly(t) && TableOk(t.txs) && k in t.txs
      && Concluded(t.txs[k], first.msg.Branch(), first.msg.methodStr, final, false)
      && final.statusCode >= 200
  {
    var msg := first.msg;
    var r := ReadOff(msg);
    MethodNames(msg);
    NewStep(st, msg, first.clock, first.os, first.created, cfg);
    StepIsOrderly(st, first, cfg);
    StepKeepsTable(st, first, cfg);
    ExecuteConcludes(st, r, msg, first.clock, first.os, first.created, cfg);
  }

  lemma ExecuteConcludes<S>(st: State<S>, r: Reading, msg: Message, clock: nat, os: Sockets, created: S, cfg: Config)
    requires Sound(st.world) && r.m != ACK && Readable(st.world, r.m, r.callId, msg.body, cfg)
    requires r.key == Key(r.callId, r.branch, msg.methodStr)
    ensures var done := Execute(st, r, msg, clock, os, created, cfg);
      && done.sent != [] && done.sent[|done.sent| - 1].statusCode >= 200 && r.key in done.state.txs
      && Concluded(done.state.txs[r.key], r.branch, msg.methodStr, done.sent[|done.sent| - 1], false)
  {
    VerdictIsFinal(st.world, r.m, r.callId, msg.body, os, created, cfg);
    var v := Serve(st.world, r.m, r.callId, msg.body, os, created, cfg).verdict;
    var replies := Replies(msg, v, clock, cfg);
    RepliesAreConclusive(msg, v, clock, cfg);
    RepliesConclude(r.branch, msg.methodStr, replies, st.now);
    ExecuteFiles(st, r, msg, clock, os, created, cfg, replies);
  }

  lemma ExecuteFiles<S>(st: State<S>, r: Reading, msg: Message, clock: nat, os: Sockets, created: S, cfg: Config,
                        replies: seq<Message>)
    requires Sound(st.world) && r.m != ACK && Readable(st.world, r.m, r.callId, msg.body, cfg)
    requires replies == Replies(msg, Serve(st.world, r.m, r.callId, msg.body, os, created, cfg).verdict, clock, cfg)
    ensures var done := Execute(st, r, msg, clock, os, created, cfg);
      && done.sent == replies && r.key in done.state.txs
      && done.state.txs[r.key] == SentAll(NewTx(r.branch, msg.methodStr, st.now), replies, st.now)
  {}

  lemma RepliesConclude(branch: string, methodStr: string, replies: seq<Message>, now: nat)
    requires Conclusive(replies)
    ensures Concluded(SentAll(NewTx(branch, methodStr, now), replies, now), branch, methodStr,
                      replies[|replies| - 1], false)
  {
    ProvisionalOnly(branch, methodStr, replies[..|replies| - 1], now);
  }

  lemma AgainIsAnswered<S>(st: State<S>, msg: Message, clock: nat, os: Sockets, created: S, cfg: Config, k: string,
                           methodStr: string, final: Message, acked: bool)
    requires Orderly(st) && TableOk(st.txs) && Enabled(st, Arrival(msg, clock, os, created), cfg)
    requires msg.isRequest && msg.methodStr != "ACK" && msg.CallId() != ""
    requires k == msg.CallId() + ":" + msg.Branch() + ":" + msg.methodStr && k in st.txs
    requires Concluded(st.txs[k], msg.Branch(), methodStr, final, acked)
    ensures var after := Step(st, Arrival(msg, clock, os, created), cfg);
      && after.state == st
      && after.sent == if methodStr == "INVITE" && (final.statusCode < 300 || acked) then [] else [final]
  {
    MethodNames(msg);
    RepetitionIsAbsorbed(st, ReadOff(msg), msg, clock, os, created, cfg);
  }

  /** For 33 seconds a transaction stays. */
  lemma {:induction false} StaysWhileRecent<S>(st: State<S>, es: seq<Event<S>>, cfg: Config, k: string, since: nat,
                                               reply: Message)
    requires Orderly(st) && TableOk(st.txs) && Possible(st, es, cfg) && Remembered(st, k, since, reply)
    requires Run(st, es, cfg).now - since < 33_000_000_000
    ensures Stays(st, es, cfg, k)
    decreases es
  {
    RunIsLater(st, es, cfg);
    if es != [] {
      StepIsOrderly(st, es[0], cfg);
      StepKeepsTable(st, es[0], cfg);
      StepRemembers(st, es[0], cfg, k, since, reply);
      StaysWhileRecent(Step(st, es[0], cfg).state, es[1..], cfg, k, since, reply);
    }
  }

  lemma HandleKeepsTime<S>(st: State<S>, r: Reading, msg: Message, clock: nat, os: Sockets, created: S, cfg: Config)
    requires Sound(st.world) && Handled(st, r, msg, cfg)
    ensures Handle(st, r, msg, clock, os, created, cfg).state.now == st.now
  {}

  lemma StepIsLater<S>(st: State<S>, e: Event<S>, cfg: Config)
    requires Orderly(st) && Enabled(st, e, cfg)
    ensures Step(st, e, cfg).state.now >= st.now
  {
    if e.Arrival? {
      HandleKeepsTime(st, ReadOff(e.msg), e.msg, e.clock, e.os, e.created, cfg);
    }
  }

  lemma {:induction false} RunIsLater<S>(st: State<S>, es: seq<Event<S>>, cfg: Config)
    requires Orderly(st) && Possible(st, es, cfg)
    ensures Run(st, es, cfg).now >= st.now
    decreases es
  {
    if es != [] {
      StepIsLater(st, es[0], cfg);
      StepIsOrderly(st, es[0], cfg);
      RunIsLater(Step(st, es[0], cfg).state, es[1..], cfg);
    }
  }
}
