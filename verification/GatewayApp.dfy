/** The gateway object: its handlers change the transaction table, the registry, the allocator and the
    sessions step by step, and are proved to do what the transition system says. */
module GatewayApp {
  import opened Text
  import opened SipMessage
  import opened SipResponse
  import opened Transactions
  import opened RtpPorts
  import opened Registry
  import opened Calls
  import opened Gateway
  import opened Safety
  import opened Guarantees
  import opened Sessions
  import Jitter
  import Sdp

  /** `createResponse`, then `sendResponse` on the transaction and on the wire. */
  method Reply(tx: SipTransaction, msg: Message, code: int, phrase: string, clock: nat, now: nat) returns (res: Message)
    modifies tx
    ensures res == Response(msg, code, phrase, clock) && tx.View() == Sent(old(tx.View()), res, now)
  {
    res := CreateResponse(msg, code, phrase, clock);
    tx.SendResponse(res, now);
  }

  /** The 200 with the session description. */
  method ReplyAccepting(tx: SipTransaction, msg: Message, clock: nat, cfg: Config, answer: string, now: nat)
    returns (res: Message)
    modifies tx
    ensures res == Accepting(msg, clock, Contact(cfg), answer) && tx.View() == Sent(old(tx.View()), res, now)
  {
    var ok, contentType, contact := "OK", "Content-Type", "Contact";
    DescriptionNames();
    res := CreateResponse(msg, 200, ok, clock);
    res := Describe(res, contentType, contact, Contact(cfg), answer);
    tx.SendResponse(res, now);
  }

  lemma DescriptionNames()
    ensures Lower("Content-Type") == CONTENT_TYPE && Lower("Contact") == CONTACT
  {
    TypeName();
    ContactName();
  }

  lemma ContactName()
    ensures Lower("Contact") == CONTACT
  {
    LowerIs("Contact", CONTACT);
  }

  lemma TypeName()
    ensures Lower("Content-Type") == CONTENT_TYPE
  {
    LowerIs("Content-Type", CONTENT_TYPE);
  }

  method Describe(res: Message, contentType: string, contact: string, address: string, answer: string)
    returns (r: Message)
    requires Lower(contentType) == CONTENT_TYPE && Lower(contact) == CONTACT
    ensures r == res.(headers := Insert(Insert(res.headers, CONTENT_TYPE, SDP_TYPE), CONTACT, address), body := answer)
  {
    r := res.AddHeader(contentType, SDP_TYPE);
    r := r.AddHeader(contact, address);
    r := r.(body := answer);
  }

  /** A single final reply. */
  method ReplyOnly(tx: SipTransaction, msg: Message, code: int, clock: nat, cfg: Config, now: nat)
    returns (sent: seq<Message>)
    modifies tx
    ensures sent == Replies(msg, Verdict(false, code, ""), clock, cfg)
    ensures tx.View() == SentAll(old(tx.View()), sent, now)
  {
    var res := Reply(tx, msg, code, Phrase(code), clock, now);
    sent := [res];
    assert sent[..0] == [];
    assert [] + sent == sent;
  }

  /** The final reply to an INVITE, after a 100 was sent. */
  method ReplyFinally(tx: SipTransaction, msg: Message, trying: Message, code: int, answer: string,
                      clock: nat, cfg: Config, now: nat)
    returns (sent: seq<Message>)
    requires trying == Response(msg, 100, TRYING_PHRASE, clock) && (answer != "" <==> code == 200)
    modifies tx
    ensures sent == Replies(msg, Verdict(true, code, answer), clock, cfg)
    ensures tx.View() == Sent(old(tx.View()), sent[1], now) && sent[0] == trying && |sent| == 2
  {
    var res;
    if answer != "" {
      res := ReplyAccepting(tx, msg, clock, cfg, answer, now);
    } else {
      res := Reply(tx, msg, code, Phrase(code), clock, now);
    }
    sent := [trying] + [res];
  }

  lemma SentTwo(tx: Tx, sent: seq<Message>, now: nat)
    requires |sent| == 2
    ensures SentAll(tx, sent, now) == Sent(Sent(tx, sent[0], now), sent[1], now)
  {
    var one := sent[..1];
    assert one[..0] == [];
    assert SentAll(tx, one, now) == Sent(tx, one[0], now);
  }

  /** Where a history leads from start-up, if it is possible. */
  ghost function Leads<S>(cfg: Config, workers: nat, history: seq<Event<S>>): (st: Option<State<S>>)
    ensures st.Some? ==> workers > 0 && Orderly(st.value)
    decreases |history|
  {
    if workers == 0 then None
    else if history == [] then Some(Start(cfg, workers))
    else
      var last := |history| - 1;
      match Leads(cfg, workers, history[..last])
      case None => None
      case Some(s) =>
        if Enabled(s, history[last], cfg) then
          StepIsOrderly(s, history[last], cfg);
          Some(Step(s, history[last], cfg).state)
        else None
  }

  /** What a possible history of one event more says of that event. */
  lemma LedThere<S>(cfg: Config, workers: nat, history: seq<Event<S>>, e: Event<S>)
    requires Leads(cfg, workers, history + [e]).Some?
    ensures Leads(cfg, workers, history).Some? && Enabled(Leads(cfg, workers, history).value, e, cfg)
    ensures Leads(cfg, workers, history + [e]).value == Step(Leads(cfg, workers, history).value, e, cfg).state
  {
    assert (history + [e])[..|history|] == history;
  }

  lemma OneMoreLed<S>(cfg: Config, workers: nat, history: seq<Event<S>>, e: Event<S>, s: State<S>)
    requires workers > 0 && Possible(Start(cfg, workers), history, cfg) && s == Run(Start(cfg, workers), history, cfg)
    requires Enabled(s, e, cfg)
    ensures Possible(Start(cfg, workers), history + [e], cfg)
    ensures Run(Start(cfg, workers), history + [e], cfg) == Step(s, e, cfg).state
  {
    RunSnoc(Start(cfg, workers), history, e, cfg);
  }

  lemma LastApart<T>(h: seq<T>)
    requires h != []
    ensures h == h[..|h| - 1] + [h[|h| - 1]]
  {}

  /** That is a run of the transition system. */
  lemma {:induction false} LeadsByARun<S>(cfg: Config, workers: nat, history: seq<Event<S>>)
    requires Leads(cfg, workers, history).Some?
    ensures Possible(Start(cfg, workers), history, cfg)
    ensures Leads(cfg, workers, history).value == Run(Start(cfg, workers), history, cfg)
    decreases |history|
  {
    if history != [] {
      var h, e := history[..|history| - 1], history[|history| - 1];
      LastApart(history);
      LedThere(cfg, workers, h, e);
      LeadsByARun(cfg, workers, h);
      OneMoreLed(cfg, workers, h, e, Leads(cfg, workers, h).value);
    }
  }

  /** And so every invariant of the signalling holds where it leads. */
  lemma LedStatesAreSafe<S>(cfg: Config, workers: nat, history: seq<Event<S>>, st: State<S>)
    requires Leads(cfg, workers, history) == Some(st) && GoodRange(cfg)
    ensures Possible(Start(cfg, workers), history, cfg) && st == Run(Start(cfg, workers), history, cfg)
    ensures Inv(st, AllLost(Start(cfg, workers), history, cfg), cfg)
  {
    LeadsByARun(cfg, workers, history);
    RunsAreSafe(workers, history, cfg);
  }

  lemma LeadsOn<S>(cfg: Config, workers: nat, history: seq<Event<S>>, st: State<S>, e: Event<S>)
    requires Leads(cfg, workers, history) == Some(st) && Enabled(st, e, cfg)
    ensures Leads(cfg, workers, history + [e]) == Some(Step(st, e, cfg).state)
  {
    assert (history + [e])[..|history|] == history;
  }

  lemma TickStep<S>(st: State<S>, now: nat, cfg: Config)
    requires Orderly(st) && now >= st.now
    ensures Enabled(st, Tick(now - st.now), cfg)
    ensures Step(st, Tick(now - st.now), cfg).state == st.(now := now)
  {}

  lemma LeadsToTick<S>(cfg: Config, workers: nat, history: seq<Event<S>>, st: State<S>, now: nat)
    requires Leads(cfg, workers, history) == Some(st) && now >= st.now
    ensures Leads(cfg, workers, history + [Tick(now - st.now)]) == Some(st.(now := now))
  {
    TickStep(st, now, cfg);
    LeadsOn(cfg, workers, history, st, Tick(now - st.now));
  }

  /** A history in which time passes, and then something happens. */
  ghost function Later<S>(history: seq<Event<S>>, st: State<S>, now: nat, e: Event<S>): seq<Event<S>>
    requires now >= st.now
  {
    history + [Tick(now - st.now)] + [e]
  }

  lemma LeadsLater<S>(cfg: Config, workers: nat, history: seq<Event<S>>, st: State<S>, now: nat, e: Event<S>)
    requires Leads(cfg, workers, history) == Some(st) && now >= st.now
    requires Enabled(st.(now := now), e, cfg)
    ensures Orderly(st.(now := now))
    ensures Leads(cfg, workers, Later(history, st, now, e)) == Some(Step(st.(now := now), e, cfg).state)
  {
    LeadsToTick(cfg, workers, history, st, now);
    LeadsOn(cfg, workers, history + [Tick(now - st.now)], st.(now := now), e);
  }

  lemma SweepingIsLeft<S>(st: State<S>, r: Reading, msg: Message, clock: nat, os: Sockets, created: S, cfg: Config)
    requires Sound(st.world) && Handled(st, r, msg, cfg)
    ensures Handle(st, r, msg, clock, os, created, cfg).state.lastCleanup == st.lastCleanup
  {}

  lemma CanBeTaken<S>(st: State<S>, now: nat, r: Reading, msg: Message, cfg: Config)
    requires Orderly(st) && now >= st.now && Handled(st, r, msg, cfg)
    ensures Orderly(st.(now := now)) && Sound(st.world) && Handled(st.(now := now), r, msg, cfg)
  {}

  /** A message arrives after some time. */
  lemma LeadsToArrival<S>(cfg: Config, workers: nat, history: seq<Event<S>>, st: State<S>, now: nat,
                          msg: Message, clock: nat, os: Sockets, created: S)
    requires Leads(cfg, workers, history) == Some(st) && now >= st.now
    requires created !in st.world.sessions && Handled(st, ReadOff(msg), msg, cfg)
      && (!msg.isRequest ==> msg.methodStr == "")
    ensures Orderly(st.(now := now)) && Handled(st.(now := now), ReadOff(msg), msg, cfg)
    ensures Leads(cfg, workers, Later(history, st, now, Arrival(msg, clock, os, created)))
         == Some(Handle(st.(now := now), ReadOff(msg), msg, clock, os, created, cfg).state)
  {
    LeadsLater(cfg, workers, history, st, now, Arrival(msg, clock, os, created));
  }

  lemma LeadsToSweep<S>(cfg: Config, workers: nat, history: seq<Event<S>>, st: State<S>, now: nat)
    requires Leads(cfg, workers, history) == Some(st) && now >= st.now
    ensures Orderly(st.(now := now))
    ensures Leads(cfg, workers, Later(history, st, now, Cleanup)) == Some(Sweep(st.(now := now)))
  {
    LeadsLater(cfg, workers, history, st, now, Cleanup);
  }

  lemma LeadsToEnd<S>(cfg: Config, workers: nat, history: seq<Event<S>>, st: State<S>, s: S)
    requires Leads(cfg, workers, history) == Some(st)
    requires s in st.world.sessions && Unreferenced(st.world.reg, s)
    ensures Leads(cfg, workers, history + [LastReference(s)]) == Some(st.(world := Destroy(st.world, s)))
  {
    LeadsOn(cfg, workers, history, st, LastReference(s));
  }

  /** The objects of a table are distinct, and show what the abstract table says. */
  ghost predicate Shown(table: map<string, SipTransaction>, txs: map<string, Tx>)
    reads table.Values
  {
    && table.Keys == txs.Keys
    && (forall k :: k in table ==> table[k].View() == txs[k])
    && (forall j, k :: j in table && k in table && j != k ==> table[j] != table[k])
  }

  lemma OneMoreShown(table: map<string, SipTransaction>, txs: map<string, Tx>, key: string, tx: SipTransaction)
    requires Shown(table, txs) && key !in table && tx !in table.Values
    ensures Shown(table[key := tx], txs[key := tx.View()])
  {
    assert forall k :: k in table ==> table[k] in table.Values;
  }

  class GatewayApp {
    const cfg: Config
    const instances: Instances
    ghost const workers: nat
    var transactions: map<string, SipTransaction>
    var lastCleanup: Option<nat>
    ghost var st: State<SessionRef>
    /** Everything that has happened to the gateway: its place in the transition system. */
    ghost var history: seq<Event<SessionRef>>

    /** The table shows what the abstract table says. */
    ghost predicate TableShows(txs: map<string, Tx>)
      reads this`transactions, transactions.Values
    {
      Shown(transactions, txs)
    }

    ghost predicate Valid()
      reads this, instances, instances.registry, instances.rtp, instances.rtp.workers, instances.live,
            transactions.Values
    {
      && instances.Valid() && instances.world == st.world
      && TableShows(st.txs)
      && lastCleanup == st.lastCleanup
      && Leads(cfg, workers, history) == Some(st)
    }

    /** `init`: one port worker for every core. */
    constructor (cfg: Config, cores: nat)
      ensures Valid() && this.cfg == cfg && fresh(instances) && fresh(instances.Repr())
      ensures transactions == map[] && lastCleanup == None && instances.live == {}
      ensures workers == (if cores > 0 then cores else 4) && history == [] && st == Start(cfg, workers)
    {
      this.cfg := cfg;
      instances := new Instances(cfg.rtpPortStart, cfg.rtpPortEnd, 0, cores);
      transactions, lastCleanup := map[], None;
      workers, history := if cores > 0 then cores else 4, [];
      new;
      st := State(0, map[], None, instances.world);
    }

    /** Whatever has happened to the object, its state satisfies every invariant of the signalling. */
    lemma IsSafe()
      requires Valid() && GoodRange(cfg)
      ensures Possible(Start(cfg, workers), history, cfg) && st == Run(Start(cfg, workers), history, cfg)
      ensures Inv(st, AllLost(Start(cfg, workers), history, cfg), cfg)
    {
      LedStatesAreSafe(cfg, workers, history, st);
    }

    /** The effect of a request that does not set up a call. */
    method Act(m: Method, id: string)
      requires instances.Valid() && Sound(instances.world)
      modifies instances, instances.registry, instances.rtp, instances.rtp.workers, instances.live
      ensures instances.Valid() && instances.live == old(instances.live)
        && instances.rtp.workers == old(instances.rtp.workers)
      ensures var w := old(instances.world);
        instances.world == if m == BYE && id in w.reg.calls then Drop(Terminate(w, w.reg.calls[id]), id)
                           else if m == CANCEL && id in w.reg.calls then Drop(w, id)
                           else w
    {
      if m == BYE && id in instances.registry.calls {
        var session := instances.registry.calls[id];
        instances.EndSession(session);
        instances.RemoveCall(id);
      } else if m == CANCEL && id in instances.registry.calls {
        instances.RemoveCall(id);
      }
    }

    /** A request that does not set up a call: it is answered, then acted upon. */
    method ServeOther(tx: SipTransaction, msg: Message, m: Method, id: string, clock: nat, now: nat, os: Sockets,
                      ghost created: SessionRef)
      returns (sent: seq<Message>)
      requires instances.Valid() && m != ACK && m != INVITE && Sound(instances.world)
      modifies tx, instances, instances.registry, instances.rtp, instances.rtp.workers, instances.live
      ensures instances.Valid() && instances.live == old(instances.live)
        && instances.rtp.workers == old(instances.rtp.workers)
      ensures var service := Serve(old(instances.world), m, id, msg.body, os, created, cfg);
        && instances.world == service.world
        && sent == Replies(msg, service.verdict, clock, cfg)
        && tx.View() == SentAll(old(tx.View()), sent, now)
    {
      var code := if m == REFER then 202 else if m == UNKNOWN then 501 else 200;
      sent := ReplyOnly(tx, msg, code, clock, cfg, now);
      Act(m, id);
    }

    /** The call of an INVITE: the registered one, or a new one. */
    method Enter(id: string) returns (session: CallSession, ghost created: SessionRef)
      requires instances.Valid()
      modifies instances, instances.registry
      ensures instances.Valid() && instances.rtp.workers == old(instances.rtp.workers)
      ensures fresh(instances.live - old(instances.live)) && old(instances.live) <= instances.live
      ensures created !in old(instances.world.sessions) && instances.world == Entered(old(instances.world), id, created)
      ensures session in instances.live && id in instances.world.reg.calls && instances.world.reg.calls[id] == session
    {
      created := null;
      if id in instances.registry.calls {
        session := instances.registry.calls[id];
      } else {
        session := instances.NewCall(id);
        created := session;
      }
    }

    /** The offer is parsed, and the call set up with it. */
    method Connect(body: string, session: CallSession, id: string, os: Sockets) returns (code: int, answer: string)
      requires instances.Valid() && Sdp.Parse(body).Some?
      requires session in instances.live && id in instances.world.reg.calls && instances.world.reg.calls[id] == session
      modifies instances`world, instances.registry, session
      modifies instances.rtp`nextWorker, instances.rtp`view, instances.rtp.workers
      ensures instances.Valid() && instances.live == old(instances.live)
        && instances.rtp.workers == old(instances.rtp.workers)
      ensures SetUp(code, answer, instances.world)
           == Establish(old(instances.world), id, Sdp.Parse(body).value, cfg, os)
      ensures answer != "" <==> code == 200
    {
      var offer := Sdp.ParseDescription(body);
      code, answer := instances.SetUpCall(session, id, offer.value, cfg, os);
    }

    /** The final reply leaves the calls alone. */
    method ReplyBeside(tx: SipTransaction, msg: Message, trying: Message, code: int, answer: string, clock: nat,
                       now: nat)
      returns (sent: seq<Message>)
      requires instances.Valid() && trying == Response(msg, 100, TRYING_PHRASE, clock)
        && (answer != "" <==> code == 200)
      modifies tx
      ensures instances.Valid() && sent == Replies(msg, Verdict(true, code, answer), clock, cfg)
      ensures tx.View() == Sent(old(tx.View()), sent[1], now) && sent[0] == trying && |sent| == 2
    {
      sent := ReplyFinally(tx, msg, trying, code, answer, clock, cfg, now);
    }

    /** The rest of an INVITE whose call is registered, after the 100. */
    method Conclude(tx: SipTransaction, msg: Message, trying: Message, session: CallSession, id: string, clock: nat,
                    now: nat, os: Sockets)
      returns (sent: seq<Message>)
      requires instances.Valid() && Sdp.Parse(msg.body).Some?
      requires session in instances.live && id in instances.world.reg.calls && instances.world.reg.calls[id] == session
      requires trying == Response(msg, 100, TRYING_PHRASE, clock)
      modifies tx, instances`world, instances.registry, session
      modifies instances.rtp`nextWorker, instances.rtp`view, instances.rtp.workers
      ensures instances.Valid() && instances.live == old(instances.live)
        && instances.rtp.workers == old(instances.rtp.workers)
      ensures var r := Establish(old(instances.world), id, Sdp.Parse(msg.body).value, cfg, os);
        && instances.world == r.world
        && sent == Replies(msg, Verdict(true, r.code, r.answer), clock, cfg)
      ensures |sent| == 2 && sent[0] == trying && tx.View() == Sent(old(tx.View()), sent[1], now)
    {
      var code, answer := Connect(msg.body, session, id, os);
      sent := ReplyBeside(tx, msg, trying, code, answer, clock, now);
    }

    /** An INVITE whose call is registered. */
    method Invite(tx: SipTransaction, msg: Message, session: CallSession, id: string, clock: nat, now: nat, os: Sockets)
      returns (sent: seq<Message>)
      requires instances.Valid() && Sdp.Parse(msg.body).Some?
      requires session in instances.live && id in instances.world.reg.calls && instances.world.reg.calls[id] == session
      modifies tx, instances`world, instances.registry, session
      modifies instances.rtp`nextWorker, instances.rtp`view, instances.rtp.workers
      ensures instances.Valid() && instances.live == old(instances.live)
        && instances.rtp.workers == old(instances.rtp.workers)
      ensures var r := Establish(old(instances.world), id, Sdp.Parse(msg.body).value, cfg, os);
        && instances.world == r.world
        && sent == Replies(msg, Verdict(true, r.code, r.answer), clock, cfg)
        && tx.View() == SentAll(old(tx.View()), sent, now)
    {
      var trying := Reply(tx, msg, 100, TRYING_PHRASE, clock, now);
      sent := Conclude(tx, msg, trying, session, id, clock, now, os);
      SentTwo(old(tx.View()), sent, now);
    }

    method ServeInvite(tx: SipTransaction, msg: Message, id: string, clock: nat, now: nat, os: Sockets)
      returns (sent: seq<Message>, ghost created: SessionRef)
      requires instances.Valid() && Sound(instances.world) && Readable(instances.world, INVITE, id, msg.body, cfg)
      modifies tx, instances, instances.registry, instances.rtp, instances.rtp.workers, instances.live
      ensures instances.Valid() && instances.rtp.workers == old(instances.rtp.workers)
      ensures fresh(instances.live - old(instances.live))
      ensures created !in old(instances.world.sessions)
      ensures var service := Gateway.ServeInvite(old(instances.world), id, msg.body, os, created, cfg);
        && instances.world == service.world
        && sent == Replies(msg, service.verdict, clock, cfg)
        && tx.View() == SentAll(old(tx.View()), sent, now)
    {
      if id !in instances.registry.calls && |instances.registry.calls| >= Limit(cfg.maxCalls) {
        created := null;
        sent := ReplyOnly(tx, msg, 486, clock, cfg, now);
      } else {
        var session;
        session, created := Enter(id);
        sent := Invite(tx, msg, session, id, clock, now, os);
      }
    }

    /** Any request but an ACK. No other transaction is touched. */
    method ServeRequest(tx: SipTransaction, msg: Message, r: Reading, clock: nat, now: nat, os: Sockets)
      returns (sent: seq<Message>, ghost created: SessionRef)
      requires instances.Valid() && Sound(instances.world) && r.m != ACK
        && Readable(instances.world, r.m, r.callId, msg.body, cfg)
      modifies tx, instances, instances.registry, instances.rtp, instances.rtp.workers, instances.live
      ensures instances.Valid() && instances.rtp.workers == old(instances.rtp.workers)
      ensures fresh(instances.live - old(instances.live))
      ensures created !in old(instances.world.sessions)
      ensures var service := Serve(old(instances.world), r.m, r.callId, msg.body, os, created, cfg);
        && instances.world == service.world
        && sent == Replies(msg, service.verdict, clock, cfg)
        && tx.View() == SentAll(old(tx.View()), sent, now)
    {
      if r.m == INVITE {
        sent, created := ServeInvite(tx, msg, r.callId, clock, now, os);
      } else {
        created := null;
        sent := ServeOther(tx, msg, r.m, r.callId, clock, now, os, created);
      }
    }

    /** A new transaction is filed beside those of `table`, and served. */
    method ServeFiled(tx: SipTransaction, msg: Message, r: Reading, clock: nat, now: nat, os: Sockets,
                      ghost table: map<string, SipTransaction>, ghost txs: map<string, Tx>)
      returns (sent: seq<Message>, ghost created: SessionRef)
      requires instances.Valid() && Sound(instances.world) && transactions == table[r.key := tx]
      requires Shown(table, txs) && r.key !in table && tx !in table.Values
      requires r.m != ACK && Readable(instances.world, r.m, r.callId, msg.body, cfg)
      modifies tx, instances, instances.registry, instances.rtp, instances.rtp.workers, instances.live
      ensures instances.Valid() && created !in old(instances.world.sessions)
      ensures var service := Serve(old(instances.world), r.m, r.callId, msg.body, os, created, cfg);
        && instances.world == service.world
        && sent == Replies(msg, service.verdict, clock, cfg)
        && TableShows(txs[r.key := SentAll(old(tx.View()), sent, now)])
    {
      sent, created := ServeRequest(tx, msg, r, clock, now, os);
      OneMoreShown(table, txs, r.key, tx);
    }

    /** A request that the table does not answer, nor silence: it is filed and served. */
    method Carry(msg: Message, r: Reading, clock: nat, now: nat, os: Sockets, ghost s: State<SessionRef>)
      returns (sent: seq<Message>, ghost created: SessionRef)
      requires instances.Valid() && Sound(instances.world) && TableShows(s.txs) && now == s.now
        && instances.world == s.world
      requires r.m != ACK && r.key !in transactions && r.branch == msg.Branch()
        && Readable(s.world, r.m, r.callId, msg.body, cfg)
      modifies this`transactions, instances, instances.registry, instances.rtp, instances.rtp.workers, instances.live
      ensures instances.Valid() && created !in s.world.sessions
      ensures var done := Execute(s, r, msg, clock, os, created, cfg);
        instances.world == done.state.world && sent == done.sent && TableShows(done.state.txs)
    {
      var transaction := new SipTransaction(msg, now);
      ghost var table := transactions;
      transactions := transactions[r.key := transaction];
      sent, created := ServeFiled(transaction, msg, r, clock, now, os, table, s.txs);
    }

    /** An ACK: the INVITE transaction of its branch hears of it. */
    method TakeAck(key: string, msg: Message, now: nat, ghost s: State<SessionRef>)
      requires TableShows(s.txs) && now == s.now
      modifies transactions.Values
      ensures TableShows(Acknowledge(s, key, msg.Method()).txs)
    {
      if key in transactions {
        transactions[key].ReceiveRequest(msg, now);
      }
    }

    /** A response: the transaction of its key hears of it. */
    method TakeResponse(key: string, msg: Message, now: nat, ghost s: State<SessionRef>)
      requires TableShows(s.txs) && now == s.now
      modifies transactions.Values
      ensures TableShows(Receive(s, key, msg.statusCode).txs)
    {
      if key in transactions {
        transactions[key].ReceiveResponse(msg, now);
      }
    }

    /** Whether the table answers a request again, and with what. */
    method LookUp(msg: Message, r: Reading, ghost s: State<SessionRef>) returns (again: Option<Message>)
      requires TableShows(s.txs) && r.branch == msg.Branch()
      ensures again.Some? <==> Replays(s, r)
      ensures again.Some? ==> again == s.txs[r.key].lastResponse
    {
      again := None;
      if r.key in transactions {
        var resend := transactions[r.key].ShouldResendResponse(msg);
        if resend {
          again := transactions[r.key].lastResponse;
        }
      }
    }

    /** The abstract state and the history catch up with the objects. */
    ghost method Commit(s: State<SessionRef>, h: seq<Event<SessionRef>>)
      requires instances.Valid() && instances.world == s.world && TableShows(s.txs) && lastCleanup == s.lastCleanup
      requires Leads(cfg, workers, h) == Some(s)
      modifies this`st, this`history
      ensures Valid() && st == s && history == h
    {
      st, history := s, h;
    }

    /** A request that is not answered again: an ACK, a new request, or one whose answer is still out. */
    method TakeUnanswered(msg: Message, r: Reading, clock: nat, now: nat, os: Sockets, ghost s: State<SessionRef>)
      returns (sent: seq<Message>, ghost created: SessionRef)
      requires instances.Valid() && Sound(instances.world) && TableShows(s.txs) && now == s.now
        && instances.world == s.world
      requires r.m == msg.Method() && r.branch == msg.Branch() && r.callId != "" && msg.isRequest
        && Handled(s, r, msg, cfg)
      requires !Replays(s, r)
      modifies this`transactions, transactions.Values
      modifies instances, instances.registry, instances.rtp, instances.rtp.workers, instances.live
      ensures instances.Valid() && created !in s.world.sessions
      ensures var done := HandleRequest(s, r, msg, clock, os, created, cfg);
        instances.world == done.state.world && sent == done.sent && TableShows(done.state.txs)
    {
      sent, created := [], null;
      if r.m == ACK {
        TakeAck(r.inviteKey, msg, now, s);
      } else if r.key !in transactions {
        sent, created := Carry(msg, r, clock, now, os, s);
      }
    }

    method TakeRequest(msg: Message, r: Reading, clock: nat, now: nat, os: Sockets, ghost s: State<SessionRef>)
      returns (sent: seq<Message>, ghost created: SessionRef)
      requires instances.Valid() && Sound(instances.world) && TableShows(s.txs) && now == s.now
        && instances.world == s.world
      requires r.m == msg.Method() && r.branch == msg.Branch() && r.callId != "" && msg.isRequest
        && Handled(s, r, msg, cfg)
      modifies this`transactions, transactions.Values
      modifies instances, instances.registry, instances.rtp, instances.rtp.workers, instances.live
      ensures instances.Valid() && created !in s.world.sessions
      ensures var done := HandleRequest(s, r, msg, clock, os, created, cfg);
        instances.world == done.state.world && sent == done.sent && TableShows(done.state.txs)
    {
      var again := LookUp(msg, r, s);
      if again.Some? {
        sent, created := [again.value], null;
      } else {
        sent, created := TakeUnanswered(msg, r, clock, now, os, s);
      }
    }

    method TakeMessage(msg: Message, r: Reading, clock: nat, now: nat, os: Sockets, ghost s: State<SessionRef>)
      returns (sent: seq<Message>, ghost created: SessionRef)
      requires instances.Valid() && Sound(instances.world) && TableShows(s.txs) && now == s.now
        && instances.world == s.world
      requires r.m == msg.Method() && r.branch == msg.Branch() && Handled(s, r, msg, cfg)
      modifies this`transactions, transactions.Values
      modifies instances, instances.registry, instances.rtp, instances.rtp.workers, instances.live
      ensures instances.Valid() && created !in s.world.sessions
      ensures var done := Handle(s, r, msg, clock, os, created, cfg);
        instances.world == done.state.world && sent == done.sent && TableShows(done.state.txs)
    {
      sent, created := [], null;
      if r.callId != "" {
        if msg.isRequest {
          sent, created := TakeRequest(msg, r, clock, now, os, s);
        } else {
          TakeResponse(r.key, msg, now, s);
        }
      }
    }

    /** The message is taken; the abstract state it leads to is `after`. */
    method TakeArrival(msg: Message, r: Reading, clock: nat, now: nat, os: Sockets, ghost s: State<SessionRef>)
      returns (sent: seq<Message>, ghost created: SessionRef, ghost after: State<SessionRef>)
      requires instances.Valid() && instances.world == s.world && TableShows(s.txs) && lastCleanup == s.lastCleanup
      requires r == ReadOff(msg) && now == s.now && Orderly(s) && Handled(s, r, msg, cfg)
      modifies this`transactions, transactions.Values
      modifies instances, instances.registry, instances.rtp, instances.rtp.workers, instances.live
      ensures instances.Valid() && instances.world == after.world && TableShows(after.txs)
        && lastCleanup == after.lastCleanup
      ensures created !in s.world.sessions
      ensures Reaction(after, sent) == Handle(s, r, msg, clock, os, created, cfg)
    {
      sent, created := TakeMessage(msg, r, clock, now, os, s);
      after := Handle(s, r, msg, clock, os, created, cfg).state;
      SweepingIsLeft(s, r, msg, clock, os, created, cfg);
    }

    /** The same after a message. */
    ghost method CommitArrival(h: seq<Event<SessionRef>>, before: State<SessionRef>, now: nat, msg: Message, clock: nat,
                               os: Sockets, created: SessionRef, after: State<SessionRef>)
      requires instances.Valid() && instances.world == after.world && TableShows(after.txs)
        && lastCleanup == after.lastCleanup
      requires Leads(cfg, workers, h) == Some(before) && now >= before.now && created !in before.world.sessions
      requires Handled(before, ReadOff(msg), msg, cfg) && (!msg.isRequest ==> msg.methodStr == "")
      requires Orderly(before.(now := now)) && Handled(before.(now := now), ReadOff(msg), msg, cfg)
      requires after == Handle(before.(now := now), ReadOff(msg), msg, clock, os, created, cfg).state
      modifies this`st, this`history
      ensures Valid() && st == after && history == Later(h, before, now, Arrival(msg, clock, os, created))
    {
      LeadsToArrival(cfg, workers, h, before, now, msg, clock, os, created);
      Commit(after, Later(h, before, now, Arrival(msg, clock, os, created)));
    }

    /** `GatewayApp::handleSipMessage`, on a message from the parser, at a time no earlier than before. */
    method HandleSipMessage(msg: Message, clock: nat, now: nat, os: Sockets)
      returns (sent: seq<Message>, ghost created: SessionRef)
      requires Valid() && now >= st.now
      requires Handled(st, ReadOff(msg), msg, cfg) && (!msg.isRequest ==> msg.methodStr == "")
      modifies this, transactions.Values
      modifies instances, instances.registry, instances.rtp, instances.rtp.workers, instances.live
      ensures Valid()
      ensures created !in old(st.world.sessions)
      ensures Reaction(st, sent) == Handle(old(st).(now := now), ReadOff(msg), msg, clock, os, created, cfg)
      ensures history == Later(old(history), old(st), now, Arrival(msg, clock, os, created))
    {
      ghost var before, h := st, history;
      CanBeTaken(before, now, ReadOff(msg), msg, cfg);
      ghost var after;
      sent, created, after := TakeArrival(msg, ReadOff(msg), clock, now, os, before.(now := now));
      CommitArrival(h, before, now, msg, clock, os, created, after);
    }

    /** The loop over the table: stale transactions are erased. */
    method EraseStale(now: nat, ghost txs: map<string, Tx>)
      requires TableShows(txs) && InThePast(txs, now)
      modifies this`transactions
      ensures TableShows(Kept(txs, now))
    {
      var keys := transactions.Keys;
      while keys != {}
        invariant keys <= transactions.Keys <= txs.Keys
        invariant forall k :: k in transactions ==> transactions[k] == old(transactions)[k]
        invariant forall k :: k in txs && k !in keys ==> (k in transactions <==> !Stale(txs[k], now))
        decreases keys
      {
        var k :| k in keys;
        var tx := transactions[k];
        assert tx.View() == txs[k];
        if Stale(tx.View(), now) {
          transactions := transactions - {k};
        }
        keys := keys - {k};
      }
    }

    /** The timed clean-up of the table. */
    method SweepTable(now: nat, ghost s: State<SessionRef>)
      requires TableShows(s.txs) && InThePast(s.txs, s.now) && lastCleanup == s.lastCleanup && now == s.now
      requires instances.Valid()
      modifies this`transactions, this`lastCleanup
      ensures TableShows(Sweep(s).txs) && lastCleanup == Sweep(s).lastCleanup && Sweep(s).world == s.world
      ensures instances.Valid() && instances.world == old(instances.world)
    {
      if lastCleanup.None? {
        lastCleanup := Some(now);
      } else if (now - lastCleanup.value) / SECOND >= 5 {
        lastCleanup := Some(now);
        EraseStale(now, s.txs);
      }
    }

    /** `GatewayApp::cleanupTransactions`. */
    method CleanupTransactions(now: nat)
      requires Valid() && now >= st.now
      modifies this`transactions, this`lastCleanup, this`st, this`history
      ensures Valid() && st == Sweep(old(st).(now := now))
      ensures history == Later(old(history), old(st), now, Cleanup)
    {
      ghost var s, h := st.(now := now), Later(history, st, now, Cleanup);
      LeadsToSweep(cfg, workers, history, st, now);
      SweepTable(now, s);
      Commit(Sweep(s), h);
    }

    /** The operator cuts a call. */
    method CutCall(id: string)
      requires Valid()
      modifies this`st, this`history, instances`world, instances.registry
      ensures Valid() && st == old(st).(world := Drop(old(st.world), id))
      ensures history == old(history) + [Cut(id)]
    {
      ghost var after, h := st.(world := Drop(st.world, id)), history + [Cut(id)];
      LeadsOn(cfg, workers, history, st, Cut(id));
      instances.RemoveCall(id);
      Commit(after, h);
    }

    method Lose(session: CallSession, ghost txs: map<string, Tx>)
      requires instances.Valid() && session in instances.live && Unreferenced(instances.world.reg, session)
        && TableShows(txs)
      modifies instances, session, instances.rtp`view, instances.rtp.workers
      ensures instances.Valid() && instances.world == Destroy(old(instances.world), session) && TableShows(txs)
    {
      instances.Destroy(session);
    }

    /** A session's last reference goes. */
    method LoseSession(session: CallSession)
      requires Valid() && session in instances.live && Unreferenced(st.world.reg, session)
      modifies this`st, this`history, instances, session, instances.rtp`view, instances.rtp.workers
      ensures Valid() && st == old(st).(world := Destroy(old(st.world), session))
      ensures history == old(history) + [LastReference(session)]
    {
      ghost var after, h := st.(world := Destroy(st.world, session)), history + [LastReference(session)];
      LeadsToEnd(cfg, workers, history, st, session);
      Lose(session, st.txs);
      Commit(after, h);
    }

    /** One packet for a session that takes packets of the `accepted` payload type. */
    ghost predicate Buffers(s: CallSession, accepted: int, before: seq<Jitter.Packet<Payload>>,
                            pkt: Jitter.Packet<Payload>,
                            payloadType: int, frame: Option<Jitter.Packet<Payload>>)
      reads s, s.jitterBuffer
    {
      if accepted == payloadType then
        Jitter.Flow(if frame.Some? then [frame.value] else [], s.jitterBuffer.buffer)
          == Jitter.Arrive(Jitter.Flow([], before), pkt)
      else
        frame == None && s.jitterBuffer.buffer == before
    }

    method Deliver(port: int, pkt: Jitter.Packet<Payload>, payloadType: int)
      returns (session: Option<SessionRef>, frame: Option<Jitter.Packet<Payload>>)
      requires instances.Valid()
      modifies set s | s in instances.live :: s.jitterBuffer
      ensures instances.Valid() && session == ByPort(instances.world.reg, port)
      ensures session.Some? ==> session.value in instances.live && session.value in instances.world.sessions
      ensures forall s :: s in instances.live && session != Some(s) ==>
        s.jitterBuffer.buffer == old(s.jitterBuffer.buffer)
      ensures if session.None? then frame == None
              else Buffers(session.value, instances.world.sessions[session.value].payloadType,
                           old(session.value.jitterBuffer.buffer), pkt, payloadType, frame)
    {
      frame := None;
      session := instances.registry.GetCallByPort(port);
      if session.Some? {
        var s: CallSession := session.value;
        frame := s.OnRtpPacket(pkt, payloadType);
      }
    }

    /** `GatewayApp::handleRtpPacket`: the packet goes to the session its port leads to, and to no other; that
        session takes it if it is of the payload type negotiated last. */
    method HandleRtpPacket(port: int, pkt: Jitter.Packet<Payload>, payloadType: int)
      returns (session: Option<SessionRef>, frame: Option<Jitter.Packet<Payload>>)
      requires Valid()
      modifies set s | s in instances.live :: s.jitterBuffer
      ensures Valid() && st == old(st) && history == old(history) && session == ByPort(st.world.reg, port)
      ensures session.Some? ==> session.value in instances.live && session.value in st.world.sessions
      ensures forall s :: s in instances.live && session != Some(s) ==>
        s.jitterBuffer.buffer == old(s.jitterBuffer.buffer)
      ensures if session.None? then frame == None
              else Buffers(session.value, st.world.sessions[session.value].payloadType,
                           old(session.value.jitterBuffer.buffer), pkt, payloadType, frame)
    {
      session, frame := Deliver(port, pkt, payloadType);
    }
  }
}
