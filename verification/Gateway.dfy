/** The gateway's signalling as a transition system: requests and responses arrive, old transactions
    are swept out, time passes, an operator cuts a call, and a session without references goes. */
module Gateway {
  import opened Text
  import opened SipMessage
  import opened SipResponse
  import opened Transactions
  import opened RtpPorts
  import opened Registry
  import opened Calls
  import Sdp

  datatype State<S> = State(now: nat, txs: map<string, Tx>, lastCleanup: Option<nat>, world: World<S>)

  /** `clock` seeds the To tag, `os` is the operating system's part in an allocation, and `created` is
      the session object made if the request opens a call. */
  datatype Event<S> =
    | Arrival(msg: Message, clock: nat, os: Sockets, created: S)
    | Cleanup
    | Tick(ticks: nat)
    | Cut(id: string)
    | LastReference(session: S)

  /** The state after a step, and the messages sent during it. */
  datatype Reaction<S> = Reaction(state: State<S>, sent: seq<Message>)

  // ---------------------------------------------------------------- serving a request

  /** What the handler reads off a message before anything else. */
  datatype Reading = Reading(callId: string, branch: string, key: string, inviteKey: string, m: Method)

  function ReadOff(msg: Message): Reading {
    var id, branch := msg.CallId(), msg.Branch();
    Reading(id, branch, Key(id, branch, msg.methodStr), Key(id, branch, INVITE_METHOD), msg.Method())
  }

  /** How a request is answered: with or without a 100 first, and the final status with its description. */
  datatype Verdict = Verdict(trying: bool, code: int, answer: string)

  datatype Service<S> = Service(world: World<S>, verdict: Verdict)

  predicate Full<S>(w: World<S>, cfg: Config) {
    |w.reg.calls| >= Limit(cfg.maxCalls)
  }

  /** The world once an INVITE that is not turned away has its call. */
  function Entered<S>(w: World<S>, id: string, created: S): World<S> {
    if id in w.reg.calls then w else Open(w, id, created)
  }

  predicate Sound<S>(w: World<S>) {
    && w.server.next < |w.server.workers|
    && forall id :: id in w.reg.calls ==> w.reg.calls[id] in w.sessions
  }

  /** An INVITE is turned away when its call is new and the limit is reached. */
  predicate TurnedAway<S>(w: World<S>, id: string, cfg: Config) {
    id !in w.reg.calls && Full(w, cfg)
  }

  /** When an INVITE's offer is parsed, its numbers can be read; `std::stoi` throws otherwise. */
  predicate Readable<S>(w: World<S>, m: Method, id: string, body: string, cfg: Config) {
    m == INVITE && !TurnedAway(w, id, cfg) ==> Sdp.Parse(body).Some?
  }

  function ServeInvite<S>(w: World<S>, id: string, body: string, os: Sockets, created: S, cfg: Config): Service<S>
    requires Sound(w) && Readable(w, INVITE, id, body, cfg)
  {
    if TurnedAway(w, id, cfg) then Service(w, Verdict(false, 486, ""))
    else
      var r := Establish(Entered(w, id, created), id, Sdp.Parse(body).value, cfg, os);
      Service(r.world, Verdict(true, r.code, r.answer))
  }

  function Serve<S>(w: World<S>, m: Method, id: string, body: string, os: Sockets, created: S, cfg: Config): Service<S>
    requires Sound(w) && m != ACK && Readable(w, m, id, body, cfg)
  {
    match m
    case INVITE => ServeInvite(w, id, body, os, created, cfg)
    case BYE =>
      Service(if id in w.reg.calls then Drop(Terminate(w, w.reg.calls[id]), id) else w, Verdict(false, 200, ""))
    case CANCEL => Service(if id in w.reg.calls then Drop(w, id) else w, Verdict(false, 200, ""))
    case REFER => Service(w, Verdict(false, 202, ""))
    case OPTIONS => Service(w, Verdict(false, 200, ""))
    case UNKNOWN => Service(w, Verdict(false, 501, ""))
  }

  // ---------------------------------------------------------------- the responses

  const TRYING_PHRASE := "Trying"

  function Phrase(code: int): string {
    if code == 200 then "OK"
    else if code == 202 then "Accepted"
    else if code == 486 then "Busy Here"
    else if code == 488 then "Not Acceptable Here"
    else if code == 500 then "Internal Server Error (No Ports)"
    else "Not Implemented"
  }

  function Contact(cfg: Config): string {
    "<sip:" + cfg.bindIp + ":" + Dec(cfg.sipPort) + ">"
  }

  function FinalReply(msg: Message, v: Verdict, clock: nat, cfg: Config): Message {
    if v.answer != "" then Accepting(msg, clock, Contact(cfg), v.answer)
    else Response(msg, v.code, Phrase(v.code), clock)
  }

  function Replies(msg: Message, v: Verdict, clock: nat, cfg: Config): seq<Message> {
    (if v.trying then [Response(msg, 100, TRYING_PHRASE, clock)] else []) + [FinalReply(msg, v, clock, cfg)]
  }

  // ---------------------------------------------------------------- the handler

  /** A request other than an ACK, filed under its key and served. */
  function Execute<S>(st: State<S>, r: Reading, msg: Message, clock: nat, os: Sockets, created: S,
                      cfg: Config): Reaction<S>
    requires Sound(st.world) && r.m != ACK && Readable(st.world, r.m, r.callId, msg.body, cfg)
  {
    var service := Serve(st.world, r.m, r.callId, msg.body, os, created, cfg);
    var replies := Replies(msg, service.verdict, clock, cfg);
    var tx := SentAll(NewTx(r.branch, msg.methodStr, st.now), replies, st.now);
    Reaction(st.(txs := st.txs[r.key := tx], world := service.world), replies)
  }

  /** An ACK reaches the INVITE transaction of its branch, if that is still known. */
  function Acknowledge<S>(st: State<S>, key: string, m: Method): State<S> {
    if key in st.txs then st.(txs := st.txs[key := Requested(st.txs[key], m, st.now)]) else st
  }

  function Receive<S>(st: State<S>, key: string, code: int): State<S> {
    if key in st.txs then st.(txs := st.txs[key := Responded(st.txs[key], code, st.now)]) else st
  }

  /** The transaction of a repeated request answers it again. */
  predicate Replays<S>(st: State<S>, r: Reading) {
    r.key in st.txs && Resends(st.txs[r.key], r.branch) && st.txs[r.key].lastResponse.Some?
  }

  /** The request is carried out: it is no ACK, and its key is not in the table. */
  predicate Executes<S>(st: State<S>, r: Reading, msg: Message) {
    r.callId != "" && msg.isRequest && r.m != ACK && r.key !in st.txs
  }

  /** No exception: what the message makes the handler parse can be parsed. */
  predicate Handled<S>(st: State<S>, r: Reading, msg: Message, cfg: Config) {
    Executes(st, r, msg) ==> Readable(st.world, r.m, r.callId, msg.body, cfg)
  }

  function HandleRequest<S>(st: State<S>, r: Reading, msg: Message, clock: nat, os: Sockets, created: S,
                            cfg: Config): Reaction<S>
    requires Sound(st.world) && r.callId != "" && msg.isRequest && Handled(st, r, msg, cfg)
  {
    if Replays(st, r) then Reaction(st, [st.txs[r.key].lastResponse.value])
    else if r.m == ACK then Reaction(Acknowledge(st, r.inviteKey, r.m), [])
    else if r.key in st.txs then Reaction(st, [])
    else Execute(st, r, msg, clock, os, created, cfg)
  }

  /** `handleSipMessage`, after reading the message. */
  function Handle<S>(st: State<S>, r: Reading, msg: Message, clock: nat, os: Sockets, created: S,
                     cfg: Config): Reaction<S>
    requires Sound(st.world) && Handled(st, r, msg, cfg)
  {
    if r.callId == "" then Reaction(st, [])
    else if msg.isRequest then HandleRequest(st, r, msg, clock, os, created, cfg)
    else Reaction(Receive(st, r.key, msg.statusCode), [])
  }

  // ---------------------------------------------------------------- the other events

  /** The table has seen no later time than now. */
  ghost predicate InThePast(txs: map<string, Tx>, now: nat) {
    forall k :: k in txs ==> txs[k].lastActive <= now
  }

  function Kept(txs: map<string, Tx>, now: nat): map<string, Tx>
    requires InThePast(txs, now)
  {
    map k | k in txs && !Stale(txs[k], now) :: txs[k]
  }

  /** `cleanupTransactions`: at most every five seconds; the first call only starts the clock. */
  function Sweep<S>(st: State<S>): State<S>
    requires InThePast(st.txs, st.now)
  {
    match st.lastCleanup
    case None => st.(lastCleanup := Some(st.now))
    case Some(last) =>
      if (st.now - last) / SECOND < 5 then st
      else st.(lastCleanup := Some(st.now), txs := Kept(st.txs, st.now))
  }

  ghost predicate Orderly<S>(st: State<S>) {
    && InThePast(st.txs, st.now)
    && (st.lastCleanup.Some? ==> st.lastCleanup.value <= st.now)
    && Sound(st.world)
  }

  /** What can happen: created objects are new, a session goes only when no call refers to it, a
      response has no method, as the parser leaves it, and no message ends in an exception. */
  ghost predicate Enabled<S>(st: State<S>, e: Event<S>, cfg: Config) {
    match e
    case Arrival(msg, _, _, created) =>
      && created !in st.world.sessions
      && (!msg.isRequest ==> msg.methodStr == "")
      && Handled(st, ReadOff(msg), msg, cfg)
    case LastReference(s) => s in st.world.sessions && Unreferenced(st.world.reg, s)
    case _ => true
  }

  function Step<S>(st: State<S>, e: Event<S>, cfg: Config): Reaction<S>
    requires Orderly(st) && Enabled(st, e, cfg)
  {
    match e
    case Arrival(msg, clock, os, created) => Handle(st, ReadOff(msg), msg, clock, os, created, cfg)
    case Cleanup => Reaction(Sweep(st), [])
    case Tick(ticks) => Reaction(st.(now := st.now + ticks), [])
    case Cut(id) => Reaction(st.(world := Drop(st.world, id)), [])
    case LastReference(s) => Reaction(st.(world := Destroy(st.world, s)), [])
  }

  /** The gateway after start-up. */
  function Start<S>(cfg: Config, workers: nat): (st: State<S>)
    requires workers > 0
    ensures Orderly(st)
  {
    State(0, map[], None, World(Maps(map[], map[], map[]), map[], Fresh(cfg.rtpPortStart, cfg.rtpPortEnd, workers)))
  }
}
