/** SIP server transactions: the state machine that decides whether a repeated request is answered
    from memory, and the key the gateway files a transaction under. */
module Transactions {
  import opened Text
  import opened SipMessage

  datatype TxState = TRYING | PROCEEDING | COMPLETED | CONFIRMED | TERMINATED

  /** A transaction's fields. Times are clock ticks. */
  datatype Tx = Tx(branch: string, methodStr: string, state: TxState, lastResponse: Option<Message>, lastActive: nat)
  {
    predicate IsInvite() {
      methodStr == INVITE_METHOD
    }
  }

  const INVITE_METHOD := "INVITE"

  /** Ticks in a second: the steady clock counts nanoseconds. */
  const SECOND := 1_000_000_000

  function NewTx(branch: string, methodStr: string, now: nat): Tx {
    Tx(branch, methodStr, TRYING, None, now)
  }

  /** The state after sending a response with a status code. */
  function Answering(invite: bool, state: TxState, code: int): TxState {
    if state != TRYING && state != PROCEEDING then state
    else if 100 <= code < 200 then PROCEEDING
    else if invite && 200 <= code < 300 then TERMINATED
    else if 200 <= code <= 699 then COMPLETED
    else state
  }

  function Sent(tx: Tx, res: Message, now: nat): Tx {
    tx.(state := Answering(tx.IsInvite(), tx.state, res.statusCode), lastResponse := Some(res), lastActive := now)
  }

  /** Several responses, one after the other. */
  function SentAll(tx: Tx, replies: seq<Message>, now: nat): Tx {
    if replies == [] then tx
    else Sent(SentAll(tx, replies[..|replies| - 1], now), replies[|replies| - 1], now)
  }

  function Requested(tx: Tx, m: Method, now: nat): Tx {
    tx.(lastActive := now,
        state := if tx.IsInvite() && m == ACK && (tx.state == COMPLETED || tx.state == CONFIRMED)
                 then CONFIRMED else tx.state)
  }

  function Responded(tx: Tx, code: int, now: nat): Tx {
    tx.(lastActive := now,
        state := if !tx.IsInvite() then (if 200 <= code <= 699 then COMPLETED else tx.state)
                 else if 200 <= code <= 299 then TERMINATED
                 else if 300 <= code <= 699 then COMPLETED
                 else tx.state)
  }

  predicate Resends(tx: Tx, branch: string) {
    branch == tx.branch && (tx.state == PROCEEDING || tx.state == COMPLETED)
  }

  /** `cleanupTransactions`' verdict on one transaction. The subtraction never goes below zero. */
  predicate Stale(tx: Tx, now: nat)
    requires tx.lastActive <= now
  {
    var age := (now - tx.lastActive) / SECOND;
    ((tx.state == TERMINATED || tx.state == COMPLETED || tx.state == CONFIRMED) && age > 32) || age > 64
  }

  class SipTransaction {
    const branch: string
    const methodStr: string
    var state: TxState
    var lastResponse: Option<Message>
    var lastActive: nat

    function View(): Tx
      reads this
    {
      Tx(branch, methodStr, state, lastResponse, lastActive)
    }

    constructor (req: Message, now: nat)
      ensures View() == NewTx(req.Branch(), req.methodStr, now)
    {
      branch, methodStr, state := req.Branch(), req.methodStr, TRYING;
      lastResponse, lastActive := None, now;
    }

    /** `SipTransaction::shouldResendResponse`. */
    method ShouldResendResponse(req: Message) returns (r: bool)
      ensures r == Resends(View(), req.Branch())
      ensures r <==> req.Branch() == branch && (state == PROCEEDING || state == COMPLETED)
    {
      if req.Branch() != branch {
        return false;
      }
      if methodStr == INVITE_METHOD {
        return state == PROCEEDING || state == COMPLETED;
      } else {
        return state == PROCEEDING || state == COMPLETED;
      }
    }

    /** `SipTransaction::sendResponse`. */
    method SendResponse(res: Message, now: nat)
      modifies this
      ensures View() == Sent(old(View()), res, now)
      ensures lastResponse == Some(res) && lastActive == now
      ensures var code, waiting := res.statusCode, old(state) == TRYING || old(state) == PROCEEDING;
        state == if waiting && 100 <= code < 200 then PROCEEDING
                 else if waiting && 200 <= code < 300 && methodStr == "INVITE" then TERMINATED
                 else if waiting && 200 <= code < 700 then COMPLETED
                 else old(state)
    {
      lastActive := now;
      lastResponse := Some(res);
      var code := res.statusCode;
      if methodStr == INVITE_METHOD {
        if state == TRYING || state == PROCEEDING {
          if code >= 100 && code < 200 {
            state := PROCEEDING;
          } else if code >= 200 && code < 300 {
            state := TERMINATED;
          } else if code >= 300 && code <= 699 {
            state := COMPLETED;
          }
        }
      } else {
        if state == TRYING || state == PROCEEDING {
          if code >= 200 && code <= 699 {
            state := COMPLETED;
          } else if code >= 100 && code < 200 {
            state := PROCEEDING;
          }
        }
      }
    }

    /** `SipTransaction::receiveRequest`. */
    method ReceiveRequest(msg: Message, now: nat)
      modifies this
      ensures View() == Requested(old(View()), msg.Method(), now)
      ensures lastActive == now && lastResponse == old(lastResponse)
      ensures state == if methodStr == "INVITE" && msg.methodStr == "ACK"
                          && (old(state) == COMPLETED || old(state) == CONFIRMED)
                       then CONFIRMED else old(state)
    {
      lastActive := now;
      if methodStr == INVITE_METHOD {
        if msg.Method() == ACK && (state == COMPLETED || state == CONFIRMED) {
          state := CONFIRMED;
        }
      }
    }

    /** `SipTransaction::receiveResponse`. */
    method ReceiveResponse(msg: Message, now: nat)
      modifies this
      ensures View() == Responded(old(View()), msg.statusCode, now)
      ensures lastActive == now && lastResponse == old(lastResponse)
      ensures var code := msg.statusCode;
        state == if 200 <= code < 300 && methodStr == "INVITE" then TERMINATED
                 else if 200 <= code < 700 then COMPLETED
                 else old(state)
    {
      lastActive := now;
      if methodStr != INVITE_METHOD {
        if msg.statusCode >= 200 && msg.statusCode <= 699 {
          state := COMPLETED;
        }
      } else {
        if msg.statusCode >= 200 && msg.statusCode <= 299 {
          state := TERMINATED;
        } else if msg.statusCode >= 300 && msg.statusCode <= 699 {
          state := COMPLETED;
        }
      }
    }
  }

  // ---------------------------------------------------------------- a transaction at rest

  /** Between handler runs a stored transaction has sent a final response and is done: a 2xx ends an
      INVITE, anything else waits in COMPLETED for repetitions, or in CONFIRMED after the ACK. */
  ghost predicate AtRest(tx: Tx) {
    && tx.lastResponse.Some?
    && 200 <= tx.lastResponse.value.statusCode <= 699
    && if !tx.IsInvite() then tx.state == COMPLETED
       else if tx.lastResponse.value.statusCode < 300 then tx.state == TERMINATED
       else tx.state == COMPLETED || tx.state == CONFIRMED
  }

  /** What a handler sends: at most provisional responses, then a final one. */
  ghost predicate Conclusive(replies: seq<Message>) {
    && replies != []
    && (forall i :: 0 <= i < |replies| - 1 ==> 100 <= replies[i].statusCode < 200)
    && 200 <= replies[|replies| - 1].statusCode <= 699
  }

  /** Provisional responses alone leave it proceeding. */
  lemma {:induction false} ProvisionalOnly(branch: string, methodStr: string, replies: seq<Message>, now: nat)
    requires forall i :: 0 <= i < |replies| ==> 100 <= replies[i].statusCode < 200
    ensures var tx := SentAll(NewTx(branch, methodStr, now), replies, now);
      && tx.state == (if replies == [] then TRYING else PROCEEDING)
      && (replies != [] ==> tx.lastResponse == Some(replies[|replies| - 1]))
      && tx.branch == branch && tx.methodStr == methodStr && tx.lastActive == now
  {
    if replies != [] {
      ProvisionalOnly(branch, methodStr, replies[..|replies| - 1], now);
    }
  }

  /** A transaction that has sent what a handler sends is at rest, and remembers the final response. */
  lemma ConclusiveRests(branch: string, methodStr: string, replies: seq<Message>, now: nat)
    requires Conclusive(replies)
    ensures var tx := SentAll(NewTx(branch, methodStr, now), replies, now);
      && AtRest(tx) && tx.lastResponse == Some(replies[|replies| - 1]) && tx.lastActive == now
      && tx.branch == branch && tx.methodStr == methodStr
  {
    ProvisionalOnly(branch, methodStr, replies[..|replies| - 1], now);
  }

  /** At rest, exactly the transactions in COMPLETED answer a repetition: not an accepted INVITE, and
      not one whose rejection was acknowledged. */
  lemma RestResends(tx: Tx, branch: string)
    requires AtRest(tx)
    ensures Resends(tx, branch) <==>
      && branch == tx.branch
      && tx.state != CONFIRMED
      && !(tx.IsInvite() && tx.lastResponse.value.statusCode < 300)
  {}

  lemma EventsKeepRest(tx: Tx, m: Method, code: int, now: nat)
    requires AtRest(tx)
    ensures AtRest(Requested(tx, m, now)) && Requested(tx, m, now).lastResponse == tx.lastResponse
    ensures !tx.IsInvite() ==>
      AtRest(Responded(tx, code, now)) && Responded(tx, code, now).lastResponse == tx.lastResponse
  {}

  /** A transaction is evicted exactly once 33 seconds have passed without activity, or 65 when it has sent no
      final response. Times are in nanoseconds. */
  lemma RestStaleness(tx: Tx, now: nat)
    requires tx.lastActive <= now
    ensures AtRest(tx) ==> (Stale(tx, now) <==> now - tx.lastActive >= 33_000_000_000)
    ensures tx.state == TRYING || tx.state == PROCEEDING ==> (Stale(tx, now) <==> now - tx.lastActive >= 65_000_000_000)
  {}

  // ---------------------------------------------------------------- keys

  /** The transaction key of the gateway. */
  function Key(callId: string, branch: string, methodStr: string): string {
    callId + ":" + branch + ":" + methodStr
  }

  /** Cutting at a separator. */
  lemma Cut(a: string, sep: string, b: string)
    requires |sep| == 1
    ensures var s := a + sep + b; s[|a|] == sep[0] && s[..|a|] == a && s[|a| + 1..] == b
  {
    var s := a + sep + b;
    assert s == (a + sep) + b && |a + sep| == |a| + 1;
  }

  lemma LastColon(a: string, b: string)
    requires ':' !in b
    ensures var s := a + ":" + b;
      LastIndexOf(s, ':') == |a| && s[..|a|] == a && s[|a| + 1..] == b
  {
    Cut(a, ":", b);
    LastIndexIs(a + ":" + b, ':', |a|);
  }

  /** Branch and method without colons can be read back off the key. */
  lemma KeyReadsBack(callId: string, branch: string, methodStr: string)
    requires ':' !in branch && ':' !in methodStr
    ensures var key := Key(callId, branch, methodStr);
      var j := LastIndexOf(key, ':');
      && j == |callId| + 1 + |branch| && key[j + 1..] == methodStr
      && LastIndexOf(key[..j], ':') == |callId| && key[..j][..|callId|] == callId && key[..j][|callId| + 1..] == branch
  {
    LastColon(callId + ":" + branch, methodStr);
    LastColon(callId, branch);
  }

  /** Two requests without colons in branch and method share a key only if they agree in all three. */
  lemma KeyIsInjective(c1: string, b1: string, m1: string, c2: string, b2: string, m2: string)
    requires ':' !in b1 && ':' !in m1 && ':' !in b2 && ':' !in m2
    requires Key(c1, b1, m1) == Key(c2, b2, m2)
    ensures c1 == c2 && b1 == b2 && m1 == m2
  {
    KeyReadsBack(c1, b1, m1);
    KeyReadsBack(c2, b2, m2);
  }

  lemma CutAtLast(s: string, c: char, j: nat)
    requires j < |s| && s[j] == c && forall k :: j < k < |s| ==> s[k] != c
    ensures c !in s[j + 1..] && s == s[..j] + [c] + s[j + 1..]
  {}

  lemma HasLast(s: string, k: nat)
    requires k < |s| && s[k] == ':'
    ensures k <= LastIndexOf(s, ':')
  {}

  /** A colon-free triple with a given key, other than a triple that has a colon. */
  lemma ColonFree(key: string) returns (c: string, b: string, m: string)
    requires exists c', b', m' :: key == Key(c', b', m')
    ensures ':' !in b && ':' !in m && key == Key(c, b, m)
  {
    var c', b', m' :| key == Key(c', b', m');
    assert key[|c'|] == ':' && key[|c'| + 1 + |b'|] == ':';
    HasLast(key, |c'| + 1 + |b'|);
    var j := LastIndexOf(key, ':');
    CutAtLast(key, ':', j);
    var front := key[..j];
    HasLast(front, |c'|);
    var i := LastIndexOf(front, ':');
    CutAtLast(front, ':', i);
    c, b, m := front[..i], front[i + 1..], key[j + 1..];
  }

  /** Exactly the keys made from a branch or a method with a colon also name some other, colon-free request. */
  lemma KeyIsAmbiguous(c: string, b: string, m: string)
    ensures ':' in b || ':' in m <==>
      exists c', b', m' :: ':' !in b' && ':' !in m' && Key(c', b', m') == Key(c, b, m) && (c', b', m') != (c, b, m)
  {
    if ':' in b || ':' in m {
      var c', b', m' := ColonFree(Key(c, b, m));
    } else if c', b', m' :| ':' !in b' && ':' !in m' && Key(c', b', m') == Key(c, b, m) && (c', b', m') != (c, b, m) {
      KeyIsInjective(c, b, m, c', b', m');
      assert false;
    }
  }
}
