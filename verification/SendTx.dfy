/** The peer-to-peer exchange that announces a transaction to a node and sends
    it when the node asks for it. */
module SendTx {
  import opened Prelude
  import opened Transactions

  datatype Inventory = InvTransaction(txid: Txid) | InvWitnessTransaction(txid: Txid) | InvOther

  /** What the node sends. */
  datatype Inbound =
    | Version(relay: bool, segwit: bool)
    | Verack
    | GetData(inventory: seq<Inventory>)
    | Ping(nonce: nat)
    | Pong(nonce: nat)
    | Other

  /** What is sent to the node. */
  datatype Outbound =
    | SendVersion
    | SendVerack
    | SendInv(txid: Txid)
    | SendTx(tx: Transaction)
    | SendPing(nonce: nat)
    | SendPong(nonce: nat)

  datatype State = AwaitingVersion | AwaitingVerack | AwaitingGetData | Done

  datatype Error = OutOfOrder | NoRelay | NoSegwit | NotRequested | ConnectionClosed

  predicate Requests(inventory: seq<Inventory>, txid: Txid) {
    InvTransaction(txid) in inventory || InvWitnessTransaction(txid) in inventory
  }

  // ----- What each message does

  datatype Reply = Reply(state: State, out: seq<Outbound>)

  /** The new state and what is sent, or the error that ends the exchange. */
  function Respond(txid: TxidFn, tx: Transaction, state: State, m: Inbound): Result<Reply, Error> {
    match m
    case Version(relay, segwit) =>
      if state != AwaitingVersion then Err(OutOfOrder)
      else if !relay then Err(NoRelay)
      else if !segwit then Err(NoSegwit)
      else Ok(Reply(AwaitingVerack, [SendVerack]))
    case Verack =>
      if state != AwaitingVerack then Err(OutOfOrder) else Ok(Reply(AwaitingGetData, [SendInv(txid(tx))]))
    case GetData(inventory) =>
      if state != AwaitingGetData then Err(OutOfOrder)
      else if !Requests(inventory, txid(tx)) then Err(NotRequested)
      else Ok(Reply(Done, [SendTx(tx)]))
    case Ping(nonce) => Ok(Reply(state, [SendPong(nonce)]))
    case Pong(_) => Ok(Reply(state, []))
    case Other => Ok(Reply(state, []))
  }

  // ----- Traces

  function WithoutPongs(out: seq<Outbound>): seq<Outbound> {
    if out == [] then [] else
    var n := |out| - 1;
    WithoutPongs(out[..n]) + if out[n].SendPong? then [] else [out[n]]
  }

  function PongNonces(out: seq<Outbound>): seq<nat> {
    if out == [] then [] else
    var n := |out| - 1;
    PongNonces(out[..n]) + if out[n].SendPong? then [out[n].nonce] else []
  }

  function PingNonces(inbox: seq<Inbound>): seq<nat> {
    if inbox == [] then [] else
    var n := |inbox| - 1;
    PingNonces(inbox[..n]) + if inbox[n].Ping? then [inbox[n].nonce] else []
  }

  /** Everything that is ever sent besides pongs, in order. */
  function Script(txid: TxidFn, tx: Transaction, nonce: nat): seq<Outbound> {
    [SendVersion, SendVerack, SendInv(txid(tx)), SendTx(tx), SendPing(nonce)]
  }

  /** How much of the script is sent once a state is entered. */
  function Progress(state: State): nat {
    match state case AwaitingVersion => 1 case AwaitingVerack => 2 case AwaitingGetData => 3 case Done => 4
  }

  lemma TraceAppend(out: seq<Outbound>, o: Outbound)
    ensures WithoutPongs(out + [o]) == WithoutPongs(out) + if o.SendPong? then [] else [o]
    ensures PongNonces(out + [o]) == PongNonces(out) + if o.SendPong? then [o.nonce] else []
  {
    assert (out + [o])[..|out|] == out;
  }

  /** The trace so far is the script up to the state's place in it, every handled
      ping has its pong in order, and the transaction was sent exactly if the
      exchange is done. */
  ghost predicate OnScript(txid: TxidFn, tx: Transaction, nonce: nat, state: State, pinged: bool, sent: seq<Outbound>,
                           handled: seq<Inbound>) {
    && (pinged ==> state == Done)
    && WithoutPongs(sent) == Script(txid, tx, nonce)[..Progress(state) + if pinged then 1 else 0]
    && PongNonces(sent) == PingNonces(handled)
  }

  lemma RespondOnScript(txid: TxidFn, tx: Transaction, nonce: nat, state: State, pinged: bool, sent: seq<Outbound>,
                        handled: seq<Inbound>, m: Inbound)
    requires OnScript(txid, tx, nonce, state, pinged, sent, handled) && Respond(txid, tx, state, m).Ok?
    ensures var r := Respond(txid, tx, state, m).value;
      OnScript(txid, tx, nonce, r.state, pinged, sent + r.out, handled + [m])
  {
    var r := Respond(txid, tx, state, m).value;
    assert (handled + [m])[..|handled|] == handled;
    if r.out == [] {
      assert sent + r.out == sent;
    } else {
      TraceAppend(sent, r.out[0]);
    }
  }

  // ----- Which nodes get the transaction

  /** Messages that do not move the exchange. */
  predicate Idle(m: Inbound) {
    m.Ping? || m.Pong? || m.Other?
  }

  function Essential(inbox: seq<Inbound>): seq<Inbound> {
    if inbox == [] then [] else
    var n := |inbox| - 1;
    Essential(inbox[..n]) + if Idle(inbox[n]) then [] else [inbox[n]]
  }

  predicate AsksFor(m: Inbound, id: Txid) {
    m.GetData? && (InvTransaction(id) in m.inventory || InvWitnessTransaction(id) in m.inventory)
  }

  /** What the node has said when a state is entered, idle messages apart: its
      version, with relaying and segwit, then the acknowledgement, then a request
      for this transaction. */
  predicate Heard(id: Txid, state: State, e: seq<Inbound>) {
    && |e| == (match state case AwaitingVersion => 0 case AwaitingVerack => 1 case AwaitingGetData => 2 case Done => 3)
    && (|e| > 0 ==> e[0] == Version(true, true))
    && (|e| > 1 ==> e[1] == Verack)
    && (|e| > 2 ==> AsksFor(e[2], id))
  }

  /** At some point the node has said all that. */
  ghost predicate Cooperates(id: Txid, inbox: seq<Inbound>) {
    exists k | 0 <= k <= |inbox| :: Heard(id, Done, Essential(inbox[..k]))
  }

  /** The pong comes, with only idle messages before it. */
  ghost predicate Confirms(nonce: nat, inbox: seq<Inbound>) {
    exists k | 0 <= k < |inbox| :: inbox[k] == Pong(nonce) && forall j | 0 <= j < k :: Idle(inbox[j])
  }

  lemma EssentialAppend(inbox: seq<Inbound>, m: Inbound)
    ensures Essential(inbox + [m]) == Essential(inbox) + if Idle(m) then [] else [m]
  {
    assert (inbox + [m])[..|inbox|] == inbox;
  }

  lemma {:induction false} EssentialGrows(inbox: seq<Inbound>, i: nat, j: nat)
    requires i <= j <= |inbox|
    ensures Essential(inbox[..i]) <= Essential(inbox[..j])
  {
    if i < j {
      EssentialGrows(inbox, i, j - 1);
      assert inbox[..j] == inbox[..j - 1] + [inbox[j - 1]];
      EssentialAppend(inbox[..j - 1], inbox[j - 1]);
    }
  }

  /** A message is handled exactly when it is idle or the next thing to hear. */
  lemma RespondHears(txid: TxidFn, tx: Transaction, state: State, handled: seq<Inbound>, m: Inbound)
    requires Heard(txid(tx), state, Essential(handled))
    ensures Respond(txid, tx, state, m).Ok? ==>
      Heard(txid(tx), Respond(txid, tx, state, m).value.state, Essential(handled + [m]))
    ensures Respond(txid, tx, state, m).Err? ==> !Idle(m) && forall s :: !Heard(txid(tx), s, Essential(handled + [m]))
  {
    EssentialAppend(handled, m);
    if Idle(m) {
      assert Essential(handled) + [] == Essential(handled);
    } else {
      HearsNext(txid, tx, state, Essential(handled), m);
    }
  }

  lemma HearsNext(txid: TxidFn, tx: Transaction, state: State, e: seq<Inbound>, m: Inbound)
    requires Heard(txid(tx), state, e) && !Idle(m)
    ensures Respond(txid, tx, state, m).Ok? ==> Heard(txid(tx), Respond(txid, tx, state, m).value.state, e + [m])
    ensures Respond(txid, tx, state, m).Err? ==> forall s :: !Heard(txid(tx), s, e + [m])
  {
  }

  /** Once something else is heard, nothing that follows helps. */
  lemma NeverCooperates(id: Txid, state: State, inbox: seq<Inbound>, n: nat)
    requires n < |inbox| && Heard(id, state, Essential(inbox[..n])) && state != Done
    requires !Idle(inbox[n]) && forall s :: !Heard(id, s, Essential(inbox[..n] + [inbox[n]]))
    ensures !Cooperates(id, inbox)
  {
    var before, after := Essential(inbox[..n]), Essential(inbox[..n] + [inbox[n]]);
    EssentialAppend(inbox[..n], inbox[n]);
    assert inbox[..n + 1] == inbox[..n] + [inbox[n]];
    forall k | 0 <= k <= |inbox| ensures !Heard(id, Done, Essential(inbox[..k])) {
      if k <= n {
        EssentialGrows(inbox, k, n);
      } else {
        EssentialGrows(inbox, n + 1, k);
        NextHeard(id, state, before, after, Essential(inbox[..k]));
      }
    }
  }

  lemma NextHeard(id: Txid, state: State, before: seq<Inbound>, after: seq<Inbound>, e: seq<Inbound>)
    requires Heard(id, state, before) && state != Done && |after| == |before| + 1 && after <= e
    ensures Heard(id, Done, e) ==> exists s :: Heard(id, s, after)
  {
    var next := match state
      case AwaitingVersion => AwaitingVerack
      case AwaitingVerack => AwaitingGetData
      case _ => Done;
    if Heard(id, Done, e) { assert Heard(id, next, after); }
  }

  lemma NotYet(id: Txid, state: State, inbox: seq<Inbound>)
    requires Heard(id, state, Essential(inbox)) && state != Done
    ensures !Cooperates(id, inbox)
  {
    assert inbox[..|inbox|] == inbox;
    forall k | 0 <= k <= |inbox| ensures !Heard(id, Done, Essential(inbox[..k])) { EssentialGrows(inbox, k, |inbox|); }
  }

  lemma RunStep(txid: TxidFn, tx: Transaction, nonce: nat, state: State, sent: seq<Outbound>, inbox: seq<Inbound>,
                n: nat)
    requires n < |inbox| && OnScript(txid, tx, nonce, state, false, sent, inbox[..n])
    requires Heard(txid(tx), state, Essential(inbox[..n])) && state != Done
    ensures match Respond(txid, tx, state, inbox[n])
      case Ok(reply) =>
        && OnScript(txid, tx, nonce, reply.state, false, sent + reply.out, inbox[..n + 1])
        && Heard(txid(tx), reply.state, Essential(inbox[..n + 1]))
      case Err(_) => !Cooperates(txid(tx), inbox)
  {
    assert inbox[..n + 1] == inbox[..n] + [inbox[n]];
    RespondHears(txid, tx, state, inbox[..n], inbox[n]);
    if Respond(txid, tx, state, inbox[n]).Ok? {
      RespondOnScript(txid, tx, nonce, state, false, sent, inbox[..n], inbox[n]);
    } else {
      NeverCooperates(txid(tx), state, inbox, n);
    }
  }

  class Exchange {
    const txid: TxidFn
    const tx: Transaction
    var state: State
    var sent: seq<Outbound>
    /** The messages handled so far. */
    ghost var handled: seq<Inbound>

    constructor (txid: TxidFn, tx: Transaction)
      ensures this.txid == txid && this.tx == tx && state == AwaitingVersion && sent == [] && handled == []
    {
      this.txid, this.tx := txid, tx;
      state, sent, handled := AwaitingVersion, [], [];
    }

    /** Acts on one message; an error sends nothing and changes nothing. */
    method Handle(m: Inbound) returns (r: Result<(), Error>)
      modifies this
      ensures match Respond(txid, tx, old(state), m)
        case Ok(reply) => r == Ok(()) && state == reply.state && sent == old(sent) + reply.out
            && handled == old(handled) + [m]
        case Err(e) => r == Err(e) && state == old(state) && sent == old(sent) && handled == old(handled)
    {
      match m {
        case Version(relay, segwit) =>
          if state != AwaitingVersion { return Err(OutOfOrder); }
          if !relay { return Err(NoRelay); }
          if !segwit { return Err(NoSegwit); }
          sent := sent + [SendVerack];
          state := AwaitingVerack;
        case Verack =>
          if state != AwaitingVerack { return Err(OutOfOrder); }
          sent := sent + [SendInv(txid(tx))];
          state := AwaitingGetData;
        case GetData(inventory) =>
          if state != AwaitingGetData { return Err(OutOfOrder); }
          if !Requests(inventory, txid(tx)) { return Err(NotRequested); }
          sent := sent + [SendTx(tx)];
          state := Done;
        case Ping(nonce) => sent := sent + [SendPong(nonce)];
        case _ =>
      }
      handled := handled + [m];
      r := Ok(());
    }

    /** Handshake, announcement and transfer: reads messages until the exchange
        is done, an error, or the end of the connection. `n` messages are read. */
    method Run(inbox: seq<Inbound>, ghost nonce: nat) returns (r: Result<(), Error>, n: nat)
      requires state == AwaitingVersion && sent == [] && handled == []
      modifies this
      ensures n <= |inbox| && handled <= inbox[..n] && OnScript(txid, tx, nonce, state, false, sent, handled)
      ensures r.Ok? <==> state == Done
      ensures r.Ok? ==> handled == inbox[..n]
      ensures r.Ok? <==> Cooperates(txid(tx), inbox)
    {
      sent := sent + [SendVersion];
      TraceAppend([], SendVersion);
      assert [] + [SendVersion] == [SendVersion];
      n := 0;
      while state != Done
        invariant n <= |inbox| && handled == inbox[..n] && OnScript(txid, tx, nonce, state, false, sent, handled)
        invariant Heard(txid(tx), state, Essential(handled))
        decreases |inbox| - n
      {
        if n == |inbox| {
          assert inbox[..n] == inbox;
          NotYet(txid(tx), state, inbox);
          return Err(ConnectionClosed), n;
        }
        RunStep(txid, tx, nonce, state, sent, inbox, n);
        var m := inbox[n];
        n := n + 1;
        assert inbox[..n] == inbox[..n - 1] + [m];
        r := Handle(m);
        if r.Err? { return; }
      }
      r := Ok(());
    }

    /** Pings the node and waits for the pong, which it sends only once it has
        processed the transaction. */
    method AwaitProcessed(inbox: seq<Inbound>, nonce: nat) returns (r: Result<(), Error>, n: nat)
      requires state == Done && OnScript(txid, tx, nonce, state, false, sent, handled)
      modifies this
      ensures n <= |inbox| && state == Done && OnScript(txid, tx, nonce, state, true, sent, handled)
      ensures r.Ok? ==> n > 0 && inbox[n - 1] == Pong(nonce)
      ensures r.Ok? <==> Confirms(nonce, inbox)
    {
      TraceAppend(sent, SendPing(nonce));
      sent := sent + [SendPing(nonce)];
      n := 0;
      while true
        invariant n <= |inbox| && state == Done && OnScript(txid, tx, nonce, state, true, sent, handled)
        invariant forall j | 0 <= j < n :: Idle(inbox[j]) && inbox[j] != Pong(nonce)
        decreases |inbox| - n
      {
        if n == |inbox| { return Err(ConnectionClosed), n; }
        ghost var before := (state, sent, handled);
        var m := inbox[n];
        n := n + 1;
        if m == Pong(nonce) { return Ok(()), n; }
        r := Handle(m);
        if r.Err? { return; }
        RespondOnScript(txid, tx, nonce, before.0, true, before.1, before.2, m);
      }
    }
  }

  function TxCount(out: seq<Outbound>): nat {
    if out == [] then 0 else TxCount(out[..|out| - 1]) + if out[|out| - 1].SendTx? then 1 else 0
  }

  lemma {:induction false} TxCountWithoutPongs(out: seq<Outbound>)
    ensures TxCount(WithoutPongs(out)) == TxCount(out)
  {
    if out != [] {
      var n := |out| - 1;
      TxCountWithoutPongs(out[..n]);
      var front := WithoutPongs(out[..n]);
      if out[n].SendPong? {
        assert front + [] == front;
      } else {
        assert (front + [out[n]])[..|front|] == front;
      }
    }
  }

  /** The transaction is sent at most once, and exactly when the exchange is
      done, whatever the node sends. */
  lemma SentOnceExactlyWhenDone(txid: TxidFn, tx: Transaction, nonce: nat, state: State, pinged: bool,
                                sent: seq<Outbound>, handled: seq<Inbound>)
    requires OnScript(txid, tx, nonce, state, pinged, sent, handled)
    ensures TxCount(sent) == if state == Done then 1 else 0
  {
    TxCountWithoutPongs(sent);
    var script := Script(txid, tx, nonce);
    assert TxCount(script[..1]) == 0 by { assert script[..1][..0] == []; }
    assert TxCount(script[..2]) == 0 by { assert script[..2][..1] == script[..1]; }
    assert TxCount(script[..3]) == 0 by { assert script[..3][..2] == script[..2]; }
    assert TxCount(script[..4]) == 1 by { assert script[..4][..3] == script[..3]; }
    assert TxCount(script[..5]) == 1 by { assert script[..5][..4] == script[..4]; }
  }
}
